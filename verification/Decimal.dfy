/** Decimal numbers: printing, parsing and conversion to integers. */
module Decimal {
  import opened Options
  import opened Bytes

  const U128: nat := 0x1_0000_0000_0000_0000_0000_0000_0000_0000

  /** `value` divided by ten to the power of `scale`. */
  datatype Decimal = Decimal(value: nat, scale: nat)

  datatype Problem = EmptyDecimal | InvalidNumber | ExcessiveZeros

  /** Parsing ends in a number, an error, or an arithmetic overflow that stops the program. */
  datatype Parsed = Number(decimal: Decimal) | Bad(problem: Problem) | Overflow

  predicate IsDecimal(d: Decimal) {
    d.value < U128 && d.scale < 256
  }

  // ----- digits -----

  function Digit(n: nat): char
    requires n < 10
  {
    '0' + n as char
  }

  function Digits(n: nat): (s: string)
    ensures s != []
  {
    if n < 10 then [Digit(n)] else Digits(n / 10) + [Digit(n % 10)]
  }

  predicate IsDigit(c: char) {
    '0' <= c <= '9'
  }

  function ValueOf(c: char): nat
    requires IsDigit(c)
  {
    (c - '0') as nat
  }

  predicate AllDigits(s: string) {
    forall c <- s :: IsDigit(c)
  }

  function Value(s: string): nat
    requires AllDigits(s)
  {
    if s == [] then 0 else 10 * Value(s[..|s| - 1]) + ValueOf(s[|s| - 1])
  }

  /** The digits of a number, after a plus sign in front if there is one. */
  function Unsigned(s: string): string {
    if s != [] && s[0] == '+' then s[1..] else s
  }

  /** An unsigned number of 128 bits, perhaps with a plus sign in front. */
  function ParseNumber(s: string): Option<nat> {
    var digits := Unsigned(s);
    if digits == [] || !AllDigits(digits) || Value(digits) >= U128 then None else Some(Value(digits))
  }

  // ----- parsing -----

  datatype Halves = Halves(before: string, after: string)

  function SplitOnce(s: string): Option<Halves> {
    if s == [] then None
    else if s[0] == '.' then Some(Halves([], s[1..]))
    else
      var rest := SplitOnce(s[1..]);
      if rest.None? then None else Some(Halves([s[0]] + rest.value.before, rest.value.after))
  }

  function TrailingZeros(s: string): (count: nat)
    ensures count <= |s|
  {
    if s == [] || s[|s| - 1] != '0' then 0 else 1 + TrailingZeros(s[..|s| - 1])
  }

  datatype Fraction = Fraction(digits: nat, scale: nat) | BadFraction(problem: Problem) | TooManyDigits

  /** The number divided by ten, `k` times. */
  function DropDigits(number: nat, k: nat): nat {
    if k == 0 then number else DropDigits(number / 10, k - 1)
  }

  lemma {:induction false} DropDigitsDivides(number: nat, k: nat)
    ensures Power(10, k) > 0 && DropDigits(number, k) == number / Power(10, k)
  {
    PowerPositive(10, k);
    if k > 0 {
      DropDigitsDivides(number / 10, k - 1);
      DigitInFront(number % 10, number / 10, 10, Power(10, k - 1));
    } else {
      assert Power(10, 0) == 1;
    }
  }

  lemma {:induction false} DropDigitsOfMultiple(head: nat, k: nat)
    ensures DropDigits(head * Power(10, k), k) == head
  {
    if k > 0 {
      TenTimes(head, Power(10, k - 1), 0);
      DropDigitsOfMultiple(head, k - 1);
    } else {
      assert Power(10, 0) == 1;
    }
  }

  /** A fraction is divided by the power of ten of its trailing zeros. */
  function ParseFraction(s: string): Fraction {
    if s == [] then Fraction(0, 0)
    else
      var zeros, number := TrailingZeros(s), ParseNumber(s);
      if number.None? then BadFraction(InvalidNumber)
      else if Power(10, zeros) >= U128 then BadFraction(ExcessiveZeros)
      else if |s| - zeros > 255 then TooManyDigits
      else Fraction(DropDigits(number.value, zeros), |s| - zeros)
  }

  function Join(integer: nat, digits: nat, scale: nat): Parsed {
    if Power(10, scale) >= U128 || integer * Power(10, scale) + digits >= U128 then Overflow
    else Number(Decimal(integer * Power(10, scale) + digits, scale))
  }

  function Parse(s: string): Parsed {
    var halves := SplitOnce(s);
    if halves.None? then
      var number := ParseNumber(s);
      if number.None? then Bad(InvalidNumber) else Number(Decimal(number.value, 0))
    else
      var Halves(before, after) := halves.value;
      if before == [] && after == [] then Bad(EmptyDecimal)
      else
        var integer := if before == [] then Some(0) else ParseNumber(before);
        if integer.None? then Bad(InvalidNumber)
        else match ParseFraction(after)
          case BadFraction(problem) => Bad(problem)
          case TooManyDigits => Overflow
          case Fraction(digits, scale) => Join(integer.value, digits, scale)
  }

  // ----- printing -----

  /** A fraction and its width, without trailing zeros. */
  function Trim(fraction: nat, width: nat): (nat, nat)
    decreases width
  {
    if fraction % 10 != 0 || width == 0 then (fraction, width)
    else Trim(fraction / 10, width - 1)
  }

  function Zeros(n: nat): (s: string)
    ensures |s| == n
  {
    if n == 0 then [] else ['0'] + Zeros(n - 1)
  }

  /** Zeros in front, up to the width. */
  function Pad(s: string, width: nat): string {
    if |s| < width then Zeros(width - |s|) + s else s
  }

  function ShownParts(integer: nat, fraction: nat, scale: nat): string {
    if fraction == 0 then Digits(integer)
    else
      var (digits, width) := Trim(fraction, scale);
      Digits(integer) + (['.'] + Pad(Digits(digits), width))
  }

  /** `magnitude` is ten to the power of the scale. */
  function Shown(value: nat, scale: nat, magnitude: nat): string
    requires magnitude > 0
  {
    ShownParts(value / magnitude, value % magnitude, scale)
  }

  function Print(d: Decimal): Option<string> {
    PowerPositive(10, d.scale);
    if Power(10, d.scale) >= U128 then None else Some(Shown(d.value, d.scale, Power(10, d.scale)))
  }

  /** A fraction that has only zeros down to its width is zero. */
  lemma TrimmableFraction(fraction: nat, width: nat)
    requires 0 < fraction < Power(10, width) && fraction % 10 == 0
    ensures width > 0 && 0 < fraction / 10 < Power(10, width - 1)
  {
  }

  method Format(d: Decimal) returns (text: Option<string>)
    ensures text == Print(d)
  {
    PowerPositive(10, d.scale);
    var magnitude := Power(10, d.scale);
    if magnitude >= U128 {
      return None;
    }
    var shown := Show(d.value, d.scale, magnitude);
    return Some(shown);
  }

  method Show(value: nat, scale: nat, magnitude: nat) returns (text: string)
    requires magnitude == Power(10, scale) && magnitude > 0
    ensures text == Shown(value, scale, magnitude)
  {
    var integer, fraction := value / magnitude, value % magnitude;
    text := Digits(integer);
    if fraction > 0 {
      var digits, width := TrimFraction(fraction, scale);
      text := text + (['.'] + Pad(Digits(digits), width));
    }
  }

  /** The loop of `Format`. */
  method TrimFraction(fraction: nat, scale: nat) returns (digits: nat, width: nat)
    requires 0 < fraction < Power(10, scale)
    ensures (digits, width) == Trim(fraction, scale)
  {
    digits, width := fraction, scale;
    while digits % 10 == 0
      invariant 0 < digits < Power(10, width)
      invariant Trim(digits, width) == Trim(fraction, scale)
      decreases width
    {
      TrimmableFraction(digits, width);
      digits := digits / 10;
      width := width - 1;
    }
  }

  // ----- digits read back -----

  lemma {:induction false} DigitsRead(n: nat)
    ensures AllDigits(Digits(n)) && Value(Digits(n)) == n
  {
    if n >= 10 {
      DigitsRead(n / 10);
      assert Digits(n)[..|Digits(n)| - 1] == Digits(n / 10);
    }
  }

  lemma {:induction false} ZerosRead(n: nat, s: string)
    requires AllDigits(s)
    ensures AllDigits(Zeros(n) + s) && Value(Zeros(n) + s) == Value(s)
    decreases n, |s|
  {
    if n == 0 {
      assert Zeros(0) + s == s;
    } else if s == [] {
      ZerosRead(n - 1, []);
      LastZero(n);
      var zeros := Zeros(n) + [];
      assert zeros[..|zeros| - 1] == Zeros(n - 1) + [];
    } else {
      var t := s[..|s| - 1];
      ZerosRead(n, t);
      assert (Zeros(n) + s)[..|Zeros(n) + s| - 1] == Zeros(n) + t;
    }
  }

  lemma {:induction false} LastZero(n: nat)
    requires n > 0
    ensures Zeros(n) == Zeros(n - 1) + ['0']
  {
    if n > 1 {
      LastZero(n - 1);
    }
  }

  lemma {:induction false} DigitsLength(n: nat, width: nat)
    requires n < Power(10, width) && width > 0
    ensures |Digits(n)| <= width
  {
    if n >= 10 {
      if width > 1 {
        DigitsLength(n / 10, width - 1);
      }
    }
  }

  lemma PaddedRead(n: nat, width: nat)
    requires n < Power(10, width) && width > 0
    ensures |Pad(Digits(n), width)| == width
    ensures AllDigits(Pad(Digits(n), width)) && Value(Pad(Digits(n), width)) == n
  {
    DigitsLength(n, width);
    DigitsRead(n);
    PadReads(Digits(n), width);
  }

  lemma PadReads(s: string, width: nat)
    requires AllDigits(s) && |s| <= width
    ensures |Pad(s, width)| == width && AllDigits(Pad(s, width)) && Value(Pad(s, width)) == Value(s)
  {
    if |s| < width {
      ZerosRead(width - |s|, s);
    }
  }

  lemma PaddedEnds(n: nat, width: nat)
    ensures var s := Pad(Digits(n), width); s[|s| - 1] == Digit(n % 10)
  {
  }

  lemma {:induction false} SplitAtDot(before: string, after: string)
    requires '.' !in before
    ensures SplitOnce(before + (['.'] + after)) == Some(Halves(before, after))
  {
    var s := before + (['.'] + after);
    if before == [] {
      assert s == ['.'] + after;
    } else {
      SplitAtDot(before[1..], after);
      assert s[1..] == before[1..] + (['.'] + after);
      assert before == [before[0]] + before[1..];
    }
  }

  lemma {:induction false} NoDot(s: string)
    requires '.' !in s
    ensures SplitOnce(s) == None
  {
    if s != [] {
      NoDot(s[1..]);
    }
  }

  lemma DigitsParse(n: nat)
    requires n < U128
    ensures ParseNumber(Digits(n)) == Some(n) && '.' !in Digits(n)
  {
    DigitsRead(n);
    assert IsDigit(Digits(n)[0]);
  }

  // ----- normal form -----

  /** The decimal without trailing zeros. */
  function Normalized(value: nat, scale: nat): (d: Decimal)
    ensures d.value <= value && d.scale <= scale
  {
    if scale > 0 && value % 10 == 0 then Normalized(value / 10, scale - 1) else Decimal(value, scale)
  }

  /** The number stays the same. */
  lemma {:induction false} NormalizedKeepsNumber(value: nat, scale: nat)
    ensures Normalized(value, scale).value * Power(10, scale - Normalized(value, scale).scale) == value
  {
    if scale > 0 && value % 10 == 0 {
      NormalizedKeepsNumber(value / 10, scale - 1);
      var d := Normalized(value, scale);
      var p := Power(10, scale - 1 - d.scale);
      assert Power(10, scale - d.scale) == 10 * p;
      assert d.value * (10 * p) == 10 * (d.value * p);
    } else {
      assert Power(10, 0) == 1;
    }
  }

  lemma TenTimes(integer: nat, p: nat, fraction: nat)
    ensures (integer * (10 * p) + fraction) % 10 == fraction % 10
    ensures (integer * (10 * p) + fraction) / 10 == integer * p + fraction / 10
  {
    assert integer * (10 * p) == 10 * (integer * p);
  }

  lemma {:induction false} NormalizedWhole(integer: nat, width: nat)
    ensures Normalized(integer * Power(10, width), width) == Decimal(integer, 0)
  {
    if width > 0 {
      TenTimes(integer, Power(10, width - 1), 0);
      NormalizedWhole(integer, width - 1);
    } else {
      assert Power(10, 0) == 1;
    }
  }

  /** Trimming the fraction normalizes the whole. */
  lemma {:induction false} TrimNormalizes(integer: nat, fraction: nat, width: nat)
    requires 0 < fraction < Power(10, width)
    ensures var (digits, w) := Trim(fraction, width);
      && 0 < w <= width && 0 < digits < Power(10, w) && digits % 10 != 0 && digits <= fraction
      && Normalized(integer * Power(10, width) + fraction, width) == Decimal(integer * Power(10, w) + digits, w)
    decreases width
  {
    assert width > 0;
    TenTimes(integer, Power(10, width - 1), fraction);
    if fraction % 10 == 0 {
      TrimmableFraction(fraction, width);
      TrimNormalizes(integer, fraction / 10, width - 1);
    }
  }

  // ----- printing and parsing -----

  lemma {:induction false} PowerGrows(low: nat, high: nat)
    requires low <= high
    ensures Power(10, low) <= Power(10, high)
  {
    if low < high {
      PowerGrows(low, high - 1);
    }
  }

  lemma FractionReads(digits: nat, width: nat)
    requires 0 < width < 256 && digits < Power(10, width) && digits % 10 != 0 && digits < U128
    ensures ParseFraction(Pad(Digits(digits), width)) == Fraction(digits, width)
  {
    var s := Pad(Digits(digits), width);
    PaddedRead(digits, width);
    PaddedEnds(digits, width);
    assert TrailingZeros(s) == 0;
    assert IsDigit(s[0]);
    assert Power(10, 0) == 1;
    assert ParseNumber(s) == Some(digits);
  }

  lemma FractionParses(integer: nat, digits: nat, width: nat)
    requires 0 < width < 256 && digits < Power(10, width) && digits % 10 != 0 && digits < U128 && integer < U128
    ensures Parse(Digits(integer) + (['.'] + Pad(Digits(digits), width))) == Join(integer, digits, width)
  {
    DigitsParse(integer);
    SplitAtDot(Digits(integer), Pad(Digits(digits), width));
    FractionReads(digits, width);
  }

  lemma WholeParses(integer: nat)
    requires integer < U128
    ensures Parse(Digits(integer)) == Number(Decimal(integer, 0))
  {
    DigitsParse(integer);
    NoDot(Digits(integer));
  }

  lemma ShownParses(integer: nat, fraction: nat, scale: nat, value: nat)
    requires scale < 256 && fraction < Power(10, scale) < U128
    requires value == integer * Power(10, scale) + fraction && value < U128 && integer < U128
    ensures Parse(ShownParts(integer, fraction, scale)) == Number(Normalized(value, scale))
  {
    if fraction == 0 {
      WholeParses(integer);
      NormalizedWhole(integer, scale);
    } else {
      TrimNormalizes(integer, fraction, scale);
      var (digits, width) := Trim(fraction, scale);
      PowerGrows(width, scale);
      FractionParses(integer, digits, width);
    }
  }

  /** Every decimal whose power of ten fits is printed, and its text parses, without overflow, to its normal form. */
  lemma PrintedParsesToNormal(d: Decimal)
    requires IsDecimal(d) && Power(10, d.scale) < U128
    ensures Print(d).Some? && Parse(Print(d).value) == Number(Normalized(d.value, d.scale))
  {
    PowerPositive(10, d.scale);
    AnyShownParses(d.value, d.scale, Power(10, d.scale));
  }

  lemma AnyShownParses(value: nat, scale: nat, magnitude: nat)
    requires magnitude == Power(10, scale) && scale < 256 && 0 < magnitude < U128 && value < U128
    ensures Parse(Shown(value, scale, magnitude)) == Number(Normalized(value, scale))
  {
    var integer, fraction := QuotientParts(value, scale, magnitude);
    ShownParses(integer, fraction, scale, value);
  }

  lemma QuotientParts(value: nat, scale: nat, magnitude: nat) returns (integer: nat, fraction: nat)
    requires magnitude > 0
    ensures value == integer * magnitude + fraction
    ensures integer <= value && fraction < magnitude
    ensures Shown(value, scale, magnitude) == ShownParts(integer, fraction, scale)
  {
    integer, fraction := value / magnitude, value % magnitude;
    FromParts(value, magnitude);
    AtLeast(magnitude, integer);
  }

  /** The shortest way to write a number: no zero in front of the digits before the point, none behind those after. */
  predicate IsShortest(before: string, after: string) {
    && before != [] && AllDigits(before) && AllDigits(after)
    && (before[0] == '0' ==> |before| == 1) && (after != [] ==> after[|after| - 1] != '0')
  }

  lemma {:induction false} DigitsAreShortest(n: nat)
    ensures IsShortest(Digits(n), []) && (Digits(n)[0] == '0' ==> n == 0)
  {
    if n >= 10 {
      DigitsAreShortest(n / 10);
    }
  }

  /** What is printed is written in this way, with a point only if there are digits behind it. */
  lemma PrintedIsShortest(d: Decimal) returns (before: string, after: string)
    requires IsDecimal(d) && Power(10, d.scale) < U128
    ensures IsShortest(before, after)
    ensures Print(d) == Some(if after == [] then before else before + ['.'] + after)
  {
    PowerPositive(10, d.scale);
    before, after := ShownIsShortest(d.value, d.scale, Power(10, d.scale));
  }

  lemma ShownIsShortest(value: nat, scale: nat, magnitude: nat) returns (before: string, after: string)
    requires magnitude == Power(10, scale) && magnitude > 0
    ensures IsShortest(before, after)
    ensures Shown(value, scale, magnitude) == if after == [] then before else before + ['.'] + after
  {
    var integer, fraction := QuotientParts(value, scale, magnitude);
    before, after := Digits(integer), [];
    DigitsAreShortest(integer);
    if fraction > 0 {
      TrimNormalizes(integer, fraction, scale);
      var (digits, width) := Trim(fraction, scale);
      after := Pad(Digits(digits), width);
      PaddedRead(digits, width);
      PaddedEnds(digits, width);
      assert before + (['.'] + after) == before + ['.'] + after;
    }
  }

  predicate IsNormal(d: Decimal) {
    d.scale == 0 || d.value % 10 != 0
  }

  /** The round trip is the identity exactly on decimals in normal form. */
  lemma RoundTripExactlyIfNormal(d: Decimal)
    requires IsDecimal(d) && Power(10, d.scale) < U128
    ensures Parse(Print(d).value) == Number(d) <==> IsNormal(d)
  {
    PrintedParsesToNormal(d);
  }

  // ----- integers -----

  datatype IntegerProblem = ExcessivePrecision | DivisibilityOutOfRange | AmountOutOfRange

  function ToInteger(d: Decimal, divisibility: nat): Result<nat, IntegerProblem> {
    if d.scale > divisibility then Err(ExcessivePrecision)
    else if Power(10, divisibility - d.scale) >= U128 then Err(DivisibilityOutOfRange)
    else if d.value * Power(10, divisibility - d.scale) >= U128 then Err(AmountOutOfRange)
    else Ok(d.value * Power(10, divisibility - d.scale))
  }

  /** The integer counts the decimal's number in the smallest units, of which `10^divisibility` are one; only digits
      beyond them are refused as too precise. */
  lemma IntegerIsTheNumber(d: Decimal, divisibility: nat)
    ensures var n := ToInteger(d, divisibility);
      && (n.Ok? ==> n.value * Power(10, d.scale) == d.value * Power(10, divisibility) && n.value < U128)
      && (n == Err(ExcessivePrecision) <==> d.scale > divisibility)
  {
    if d.scale <= divisibility {
      PowerSum(10, divisibility - d.scale, d.scale);
      SameProduct(d.value, Power(10, divisibility - d.scale), Power(10, d.scale));
    }
  }

  /** Where a decimal converts, its normal form converts to the same integer, but for a zero whose
      power of ten no longer fits; where both convert, they agree. */
  lemma NormalFormConvertsAlike(d: Decimal, divisibility: nat)
    ensures var n := Normalized(d.value, d.scale);
      && (ToInteger(d, divisibility).Ok? ==>
        if d.value == 0 && Power(10, divisibility - n.scale) >= U128 then
          ToInteger(n, divisibility) == Err(DivisibilityOutOfRange)
        else
          ToInteger(n, divisibility) == ToInteger(d, divisibility))
      && (ToInteger(d, divisibility).Ok? && ToInteger(n, divisibility).Ok? ==>
        ToInteger(n, divisibility) == ToInteger(d, divisibility))
  {
    var n := Normalized(d.value, d.scale);
    NormalizedKeepsNumber(d.value, d.scale);
    if d.scale <= divisibility {
      var a, b := d.scale - n.scale, divisibility - d.scale;
      PowerSum(10, a, b);
      assert divisibility - n.scale == a + b;
      SameProduct(n.value, Power(10, a), Power(10, b));
      if d.value > 0 {
        AtLeast(n.value, Power(10, a + b));
      }
    }
  }

  lemma SameProduct(a: nat, b: nat, c: nat)
    ensures a * (b * c) == a * b * c
    ensures a * b == 0 && b > 0 ==> a == 0
  {
  }

  lemma AtLeast(a: nat, b: nat)
    ensures a > 0 ==> a * b >= b
  {
    if a > 0 {
      assert a * b == b + (a - 1) * b;
    }
  }

  // ----- what parsing accepts -----

  lemma LastDigit(s: string)
    requires AllDigits(s) && s != [] && s[|s| - 1] != '0'
    ensures Value(s) % 10 != 0
  {
    assert IsDigit(s[|s| - 1]);
  }

  lemma {:induction false} ZerosDividedOff(s: string)
    requires AllDigits(s)
    ensures var zeros := TrailingZeros(s);
      && Value(s) == Value(s[..|s| - zeros]) * Power(10, zeros)
      && (zeros < |s| ==> Value(s[..|s| - zeros]) % 10 != 0)
    decreases |s|
  {
    var zeros := TrailingZeros(s);
    if zeros == 0 {
      assert s[..|s| - zeros] == s && Power(10, 0) == 1;
      if s != [] {
        LastDigit(s);
      }
    } else {
      var t := s[..|s| - 1];
      ZerosDividedOff(t);
      assert s[..|s| - zeros] == t[..|t| - (zeros - 1)];
      SameProduct(Value(s[..|s| - zeros]), Power(10, zeros - 1), 10);
    }
  }

  lemma {:induction false} ZerosAfterPlus(digits: string)
    requires AllDigits(digits)
    ensures TrailingZeros(['+'] + digits) == TrailingZeros(digits)
  {
    if digits != [] {
      var t := digits[..|digits| - 1];
      assert (['+'] + digits)[..|digits|] == ['+'] + t;
      ZerosAfterPlus(t);
    }
  }

  lemma ZerosOfUnsigned(s: string)
    requires AllDigits(Unsigned(s))
    ensures TrailingZeros(s) == TrailingZeros(Unsigned(s)) <= |Unsigned(s)|
  {
    if s != [] && s[0] == '+' {
      ZerosAfterPlus(s[1..]);
      assert s == ['+'] + s[1..];
    }
  }

  /** A parsed fraction is its digits without the trailing zeros; a sign counts as a digit for the scale. */
  lemma FractionIsHead(s: string) returns (head: nat)
    requires s != [] && ParseFraction(s).Fraction?
    ensures AllDigits(Unsigned(s)) && Unsigned(s) != []
    ensures ParseFraction(s) == Fraction(head, |s| - TrailingZeros(s))
    ensures Value(Unsigned(s)) == head * Power(10, TrailingZeros(s))
    ensures head % 10 != 0 <==> TrailingZeros(s) < |Unsigned(s)|
  {
    var digits, zeros := Unsigned(s), TrailingZeros(s);
    ZerosOfUnsigned(s);
    ZerosDividedOff(digits);
    head := Value(digits[..|digits| - zeros]);
    DropDigitsOfMultiple(head, zeros);
  }

  lemma JoinedIsNormal(integer: nat, digits: nat, scale: nat)
    requires Join(integer, digits, scale).Number?
    ensures IsNormal(Join(integer, digits, scale).decimal) <==> scale == 0 || digits % 10 != 0
  {
    if scale > 0 {
      TenTimes(integer, Power(10, scale - 1), digits);
    }
  }

  /** A plus sign right after the point, and only zeros after it. */
  predicate OnlyZerosAfterPlus(after: string) {
    after != [] && after[0] == '+' && TrailingZeros(after) == |after| - 1
  }

  /** What a text with a point parses to, by its halves. */
  lemma HalvesParse(s: string, before: string, after: string, d: Decimal)
    requires Parse(s) == Number(d) && SplitOnce(s) == Some(Halves(before, after))
    ensures AllDigits(Unsigned(before)) && ParseFraction(after).Fraction?
    ensures Join(Value(Unsigned(before)), ParseFraction(after).digits, ParseFraction(after).scale) == Number(d)
  {
  }

  /** Parsing gives a normal form exactly unless a plus sign and nothing but zeros follow the point. */
  lemma ParsedIsNormal(s: string, d: Decimal)
    requires Parse(s) == Number(d)
    ensures IsNormal(d) <==> SplitOnce(s).None? || !OnlyZerosAfterPlus(SplitOnce(s).value.after)
  {
    if SplitOnce(s).Some? {
      var Halves(before, after) := SplitOnce(s).value;
      HalvesParse(s, before, after, d);
      var f := ParseFraction(after);
      JoinedIsNormal(Value(Unsigned(before)), f.digits, f.scale);
      if after != [] {
        var head := FractionIsHead(after);
        ZerosOfUnsigned(after);
      }
    }
  }

  lemma JoinedKeepsNumber(integer: nat, digits: nat, scale: nat, zeros: nat, fraction: nat)
    requires digits * Power(10, zeros) == fraction
    ensures (integer * Power(10, scale) + digits) * Power(10, zeros) == integer * Power(10, scale + zeros) + fraction
  {
    PowerSum(10, scale, zeros);
    SameProduct(integer, Power(10, scale), Power(10, zeros));
    Distributes(integer * Power(10, scale), digits, Power(10, zeros));
  }

  lemma Distributes(a: nat, b: nat, c: nat)
    ensures (a + b) * c == a * c + b * c
  {
  }

  lemma JoinedIsTheNumber(integer: nat, f: Fraction, length: nat, fraction: nat, d: Decimal)
    requires f.Fraction? && f.scale <= length && f.digits * Power(10, length - f.scale) == fraction
    requires Join(integer, f.digits, f.scale) == Number(d)
    ensures d.scale == f.scale && d.value * Power(10, length - d.scale) == integer * Power(10, length) + fraction
  {
    JoinedKeepsNumber(integer, f.digits, f.scale, length - f.scale, fraction);
  }

  lemma ScaledHead(length: nat, f: Fraction, head: nat, zeros: nat, n: nat)
    requires zeros <= length && f == Fraction(head, length - zeros) && n == head * Power(10, zeros)
    ensures f.scale <= length && f.digits * Power(10, length - f.scale) == n
  {
    assert length - f.scale == zeros;
  }

  /** A text without a point consists of digits, a sign aside, and parses to the number that they denote. */
  lemma WholeIsTheNumber(s: string, d: Decimal)
    requires Parse(s) == Number(d) && SplitOnce(s).None?
    ensures AllDigits(Unsigned(s)) && d == Decimal(Value(Unsigned(s)), 0)
  {
  }

  lemma FractionParts(after: string) returns (n: nat)
    requires ParseFraction(after).Fraction?
    ensures AllDigits(Unsigned(after)) && n == Value(Unsigned(after))
    ensures var f := ParseFraction(after);
      f.scale <= |after| && f.digits * Power(10, |after| - f.scale) == n
  {
    n := Value(Unsigned(after));
    if after == [] {
      ScaledHead(0, ParseFraction(after), 0, 0, 0);
    } else {
      var head := FractionIsHead(after);
      ScaledHead(|after|, ParseFraction(after), head, TrailingZeros(after), n);
    }
  }

  /** So do the halves of a text with a point; a sign after the point stands for a zero there. */
  lemma ParsedIsTheNumber(s: string, before: string, after: string, d: Decimal)
    requires Parse(s) == Number(d) && SplitOnce(s) == Some(Halves(before, after))
    ensures AllDigits(Unsigned(before)) && AllDigits(Unsigned(after)) && d.scale <= |after|
    ensures d.value * Power(10, |after| - d.scale)
      == Value(Unsigned(before)) * Power(10, |after|) + Value(Unsigned(after))
  {
    HalvesParse(s, before, after, d);
    var n := FractionParts(after);
    JoinedIsTheNumber(Value(Unsigned(before)), ParseFraction(after), |after|, n, d);
  }

  /** The sign counts as a digit of the fraction: this text gives ten tenths. */
  lemma PlusSignCounts()
    ensures Parse("1.+0") == Number(Decimal(10, 1)) && !IsNormal(Decimal(10, 1))
  {
    var s := "1.+0";
    assert SplitOnce(s[1..]) == Some(Halves([], s[2..]));
    assert s[2..] == "+0" && "+0"[..1] == "+" && "+0"[1..] == "0" && "0"[..0] == [];
    assert TrailingZeros("+0") == 1;
    assert Power(10, 1) == 10;
    assert Value("0") == 0 && ParseNumber("+0") == Some(0);
    assert "1"[..0] == [] && Value("1") == 1 && ParseNumber("1") == Some(1);
    assert ParseFraction("+0") == Fraction(0, 1);
    assert [s[0]] + [] == "1";
  }
}
