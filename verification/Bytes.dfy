/** Bits and little-endian bytes. */
module Bytes {
  import opened Bitcoin

  function Power(base: nat, k: nat): nat {
    if k == 0 then 1 else base * Power(base, k - 1)
  }

  lemma {:induction false} PowerPositive(base: nat, k: nat)
    requires base > 0
    ensures Power(base, k) > 0
  {
    if k > 0 {
      PowerPositive(base, k - 1);
    }
  }

  lemma {:induction false} PowerSum(base: nat, a: nat, b: nat)
    ensures Power(base, a + b) == Power(base, a) * Power(base, b)
  {
    if a > 0 {
      PowerSum(base, a - 1, b);
      assert Power(base, a + b) == base * Power(base, a - 1 + b);
      TimesAssociates(base, Power(base, a - 1), Power(base, b));
    }
  }

  lemma TimesAssociates(a: nat, b: nat, c: nat)
    ensures a * (b * c) == (a * b) * c
  {
  }

  lemma TimesBounds(x: int, d: nat)
    ensures x > 0 ==> x * d >= d
    ensures x < 0 ==> x * d <= -(d as int)
  {
    if x > 0 {
      var y: nat := x - 1;
      assert x * d == d + y * d;
    } else if x < 0 {
      var y: nat := -x - 1;
      assert x * d == -(d + y * d);
    }
  }

  /** Quotient and remainder are determined by their sizes. */
  lemma DivModUnique(n: nat, d: nat, q: nat, r: nat)
    requires n == q * d + r && r < d
    ensures n / d == q && n % d == r
  {
    var difference := n / d - q;
    assert difference * d == r - n % d;
    TimesBounds(difference, d);
  }

  /** A low digit in front of a number. */
  lemma DigitInFront(digit: nat, m: nat, base: nat, p: nat)
    requires digit < base && p > 0
    ensures base * p > 0
    ensures (digit + base * m) % (base * p) == digit + base * (m % p)
    ensures (digit + base * m) / (base * p) == m / p
    ensures (digit + base * m) / base == m && (digit + base * m) % base == digit
  {
    var q, r := m / p, m % p;
    assert base * m == q * (base * p) + base * r by {
      assert m == q * p + r;
    }
    assert digit + base * r < base * p by {
      assert base * (r + 1) <= base * p;
    }
    assert base * p > 0;
    DivModUnique(digit + base * m, base * p, q, digit + base * r);
    DivModUnique(digit + base * m, base, m, digit);
  }

  // ----- bits -----

  function BitOr(a: nat, b: nat): nat {
    if a == 0 && b == 0 then 0
    else (if a % 2 == 1 || b % 2 == 1 then 1 else 0) + 2 * BitOr(a / 2, b / 2)
  }

  lemma {:induction false} BitOrZero(a: nat)
    ensures BitOr(a, 0) == a && BitOr(0, a) == a
  {
    if a > 0 {
      BitOrZero(a / 2);
    }
  }

  /** Or with a number shifted left by `k` keeps the low `k` bits and acts on the others. */
  lemma {:induction false} BitOrShifted(a: nat, b: nat, k: nat)
    ensures Power(2, k) > 0
    ensures BitOr(a, b * Power(2, k)) % Power(2, k) == a % Power(2, k)
    ensures BitOr(a, b * Power(2, k)) / Power(2, k) == BitOr(a / Power(2, k), b)
  {
    PowerPositive(2, k);
    if k > 0 {
      var p := Power(2, k - 1);
      var c := b * p;
      BitOrShifted(a / 2, b, k - 1);
      var m := BitOr(a / 2, c);
      Doubled(b, p);
      OrOfEven(a, c);
      DigitInFront(a % 2, a / 2, 2, p);
      DigitInFront(a % 2, m, 2, p);
    }
  }

  lemma Doubled(b: nat, p: nat)
    ensures b * (2 * p) == 2 * (b * p)
  {
  }

  lemma OrOfEven(a: nat, c: nat)
    ensures BitOr(a, 2 * c) == a % 2 + 2 * BitOr(a / 2, c)
  {
    assert (2 * c) / 2 == c;
  }

  lemma BitOrParts(a: nat, b: nat, k: nat)
    requires a < Power(2, k)
    ensures BitOr(a, b * Power(2, k)) % Power(2, k) == a && BitOr(a, b * Power(2, k)) / Power(2, k) == b
  {
    BitOrShifted(a, b, k);
    BitOrZero(b);
    SmallQuotient(a, Power(2, k));
  }

  lemma SmallQuotient(a: nat, p: nat)
    requires a < p
    ensures a / p == 0 && a % p == a
  {
    DivModUnique(a, p, 0, a);
  }

  /** Without overlapping bits, or is addition. */
  lemma BitOrIsSum(a: nat, b: nat, k: nat)
    requires a < Power(2, k)
    ensures BitOr(a, b * Power(2, k)) == a + b * Power(2, k)
  {
    var p := Power(2, k);
    var n := BitOr(a, b * p);
    BitOrParts(a, b, k);
    FromParts(n, p);
    assert n / p == b;
  }

  lemma FromParts(n: nat, p: nat)
    requires p > 0
    ensures n == n % p + (n / p) * p
  {
  }

  // ----- bytes -----

  function LittleEndian(n: nat, k: nat): (bytes: seq<Byte>)
    ensures |bytes| == k
  {
    if k == 0 then [] else [(n % 256) as Byte] + LittleEndian(n / 256, k - 1)
  }

  function FromLittleEndian(bytes: seq<Byte>): nat {
    if bytes == [] then 0 else bytes[0] as nat + 256 * FromLittleEndian(bytes[1..])
  }

  lemma {:induction false} LittleEndianRoundTrip(n: nat, k: nat)
    ensures Power(256, k) > 0
    ensures FromLittleEndian(LittleEndian(n, k)) == n % Power(256, k)
  {
    PowerPositive(256, k);
    if k > 0 {
      LittleEndianRoundTrip(n / 256, k - 1);
      DigitInFront(n % 256, n / 256, 256, Power(256, k - 1));
    }
  }

  /** A part of the bytes is the bytes of the shifted number. */
  lemma {:induction false} LittleEndianPart(n: nat, k: nat, from: nat, to: nat)
    requires from <= to <= k
    ensures Power(256, from) > 0
    ensures LittleEndian(n, k)[from..to] == LittleEndian(n / Power(256, from), to - from)
    decreases k
  {
    PowerPositive(256, from);
    if from > 0 {
      LittleEndianPart(n / 256, k - 1, from - 1, to - 1);
      DigitInFront(n % 256, n / 256, 256, Power(256, from - 1));
      assert LittleEndian(n, k)[from..to] == LittleEndian(n / 256, k - 1)[from - 1..to - 1];
    } else if to > 0 {
      LittleEndianPart(n / 256, k - 1, 0, to - 1);
      assert LittleEndian(n, k)[0..to] == [(n % 256) as Byte] + LittleEndian(n / 256, k - 1)[0..to - 1];
    }
  }

  /** Byte `i` is digit `i` of the number to the base 256. */
  lemma {:induction false} LittleEndianAt(n: nat, k: nat, i: nat)
    requires i < k
    ensures Power(256, i) > 0 && LittleEndian(n, k)[i] as nat == n / Power(256, i) % 256
    decreases i
  {
    PowerPositive(256, i);
    if i > 0 {
      LittleEndianAt(n / 256, k - 1, i - 1);
      DivideTwice(n, 256, Power(256, i - 1));
    }
  }

  lemma DividedParts(n: nat, a: nat, b: nat, q: nat, r: nat)
    requires r < a && b > 0 && n == r + a * q
    ensures a * b > 0 && n / (a * b) == q / b
  {
    DigitInFront(r, q, a, b);
  }

  lemma DivideTwice(n: nat, a: nat, b: nat)
    requires a > 0 && b > 0
    ensures a * b > 0 && n / a / b == n / (a * b)
  {
    var q, r := n / a, n % a;
    FromParts(n, a);
    DividedParts(n, a, b, q, r);
  }
}
