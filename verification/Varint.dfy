/** Integers in groups of seven bits, lowest first; a set high bit says that more follow. */
module Varint {
  import opened Options
  import opened Bitcoin
  import opened Bytes

  const U128: nat := 0x1_0000_0000_0000_0000_0000_0000_0000_0000

  const MAX_BYTES: nat := 19

  function Encode(n: nat): (bytes: seq<Byte>)
    ensures bytes != []
  {
    if n < 128 then [n as Byte] else [(n % 128 + 128) as Byte] + Encode(n / 128)
  }

  /** Decodes from position `i` on, with `n` decoded so far.  Bits beyond the 128th are lost. */
  function DecodeFrom(buffer: seq<Byte>, i: nat, n: nat): (decoded: Option<(nat, nat)>)
    ensures decoded.Some? ==> i < decoded.value.1 <= |buffer|
    decreases |buffer| - i
  {
    if i >= |buffer| || i >= MAX_BYTES then None
    else
      var value := buffer[i] as nat % 128;
      var next := BitOr(n, value * Power(2, 7 * i) % U128);
      if buffer[i] < 128 then Some((next, i + 1)) else DecodeFrom(buffer, i + 1, next)
  }

  /** The number at the start of the buffer and how many bytes it takes; nothing when it does not end in time. */
  function Decode(buffer: seq<Byte>): (decoded: Option<(nat, nat)>)
    ensures decoded.Some? ==> 0 < decoded.value.1 <= |buffer|
  {
    DecodeFrom(buffer, 0, 0)
  }

  lemma {:induction false} EncodeLength(n: nat, k: nat)
    requires k > 0 && n < Power(128, k)
    ensures |Encode(n)| <= k
  {
    if n >= 128 {
      var p := Power(128, k - 1);
      assert n / 128 < p;
      if k > 1 {
        EncodeLength(n / 128, k - 1);
      }
    }
  }

  lemma {:induction false} SevenBitsEach(i: nat)
    ensures Power(2, 7 * i) == Power(128, i)
  {
    if i > 0 {
      SevenBitsEach(i - 1);
      assert Power(2, 7) == 128;
      PowerSum(2, 7, 7 * (i - 1));
    }
  }

  /** One group of bits joins those below it. */
  lemma GroupJoins(low: nat, m: nat, i: nat)
    requires low < Power(2, 7 * i) && low + m * Power(2, 7 * i) < U128
    ensures BitOr(low, (m % 128) * Power(2, 7 * i) % U128) == low + (m % 128) * Power(2, 7 * i)
    ensures low + (m % 128) * Power(2, 7 * i) < Power(2, 7 * (i + 1))
    ensures low + (m % 128) * Power(2, 7 * i) + (m / 128) * Power(2, 7 * (i + 1)) == low + m * Power(2, 7 * i)
  {
    var p, v := Power(2, 7 * i), m % 128;
    NextGroup(i);
    SplitGroup(m, p);
    SmallQuotient(v * p, U128);
    BitOrIsSum(low, v, 7 * i);
    TimesUpTo(v, 127, p);
  }

  lemma NextGroup(i: nat)
    ensures Power(2, 7 * (i + 1)) == 128 * Power(2, 7 * i)
  {
    assert Power(2, 7) == 128;
    PowerSum(2, 7, 7 * i);
    assert 7 * (i + 1) == 7 + 7 * i;
  }

  lemma SplitGroup(m: nat, p: nat)
    ensures m * p == (m % 128) * p + (m / 128) * (128 * p)
    ensures (m % 128) * p <= m * p
  {
    assert m == m % 128 + 128 * (m / 128);
    assert (m / 128) * (128 * p) >= 0;
  }

  lemma TimesUpTo(v: nat, max: nat, p: nat)
    requires v <= max
    ensures v * p <= max * p
  {
    assert max * p == v * p + (max - v) * p;
  }

  lemma FirstByte(m: nat)
    ensures Encode(m)[0] as nat % 128 == m % 128
    ensures Encode(m)[0] < 128 <==> m < 128
  {
  }

  lemma DecodeOpens(buffer: seq<Byte>, i: nat, low: nat, v: nat, next: nat)
    requires i < |buffer| && i < MAX_BYTES && buffer[i] as nat % 128 == v
    requires next == BitOr(low, v * Power(2, 7 * i) % U128)
    ensures DecodeFrom(buffer, i, low)
         == if buffer[i] < 128 then Some((next, i + 1)) else DecodeFrom(buffer, i + 1, next)
  {
  }

  lemma {:induction false} DecodesFrom(buffer: seq<Byte>, i: nat, low: nat, m: nat)
    requires i + |Encode(m)| <= |buffer| && i + |Encode(m)| <= MAX_BYTES
    requires buffer[i..i + |Encode(m)|] == Encode(m)
    requires low < Power(2, 7 * i) && low + m * Power(2, 7 * i) < U128
    ensures DecodeFrom(buffer, i, low) == Some((low + m * Power(2, 7 * i), i + |Encode(m)|))
    decreases m
  {
    var next := low + (m % 128) * Power(2, 7 * i);
    GroupJoins(low, m, i);
    assert buffer[i] == Encode(m)[0];
    FirstByte(m);
    DecodeOpens(buffer, i, low, m % 128, next);
    if m >= 128 {
      assert buffer[i + 1..i + 1 + |Encode(m / 128)|] == Encode(m)[1..];
      DecodesFrom(buffer, i + 1, next, m / 128);
    } else {
      SmallQuotient(m, 128);
    }
  }

  lemma AtMostNineteen(n: nat)
    requires n < U128
    ensures |Encode(n)| <= MAX_BYTES
  {
    assert Power(128, 3) == 0x20_0000 && Power(128, 4) == 0x1000_0000;
    PowerSum(128, 4, 4);
    PowerSum(128, 8, 8);
    PowerSum(128, 16, 3);
    EncodeLength(n, MAX_BYTES);
  }

  /** Whatever follows it, an encoded number decodes to itself. */
  lemma RoundTrip(n: nat, rest: seq<Byte>)
    requires n < U128
    ensures Decode(Encode(n) + rest) == Some((n, |Encode(n)|))
  {
    AtMostNineteen(n);
    assert Power(2, 7 * 0) == 1;
    assert (Encode(n) + rest)[0..0 + |Encode(n)|] == Encode(n);
    DecodesFrom(Encode(n) + rest, 0, 0, n);
  }

  method EncodeToVec(value: nat, vec: seq<Byte>) returns (longer: seq<Byte>)
    ensures longer == vec + Encode(value)
  {
    var n := value;
    longer := vec;
    while n / 128 > 0
      invariant 0 <= n
      invariant longer + Encode(n) == vec + Encode(value)
    {
      longer := longer + [(n % 128 + 128) as Byte];
      n := n / 128;
    }
    longer := longer + [n as Byte];
  }

  method DecodeBuffer(buffer: seq<Byte>) returns (decoded: Option<(nat, nat)>)
    ensures decoded == Decode(buffer)
  {
    var n := 0;
    for i := 0 to |buffer|
      invariant 0 <= n
      invariant DecodeFrom(buffer, i, n) == Decode(buffer)
    {
      if i > 18 {
        return None;
      }
      var value := buffer[i] as nat % 128;
      n := BitOr(n, value * Power(2, 7 * i) % U128);
      if buffer[i] < 128 {
        return Some((n, i + 1));
      }
    }
    return None;
  }

  /** Byte `i` has the seven bits of digit `i` to the base 128, and its high bit says whether another one follows. */
  lemma {:induction false} EncodeAt(n: nat, i: nat)
    requires i < |Encode(n)|
    ensures Power(128, i) > 0
    ensures Encode(n)[i] as nat == n / Power(128, i) % 128 + if i + 1 < |Encode(n)| then 128 else 0
    decreases i
  {
    PowerPositive(128, i);
    if i > 0 {
      EncodeAt(n / 128, i - 1);
      DivideTwice(n, 128, Power(128, i - 1));
    }
  }

  /** There are no more bytes than the number has digits. */
  lemma {:induction false} EncodeIsShortest(n: nat)
    ensures n < Power(128, |Encode(n)|) && (|Encode(n)| > 1 ==> Power(128, |Encode(n)| - 1) <= n)
  {
    assert Power(128, 0) == 1 && Power(128, 1) == 128;
    if n >= 128 {
      EncodeIsShortest(n / 128);
      var p := Power(128, |Encode(n / 128)|);
      assert n < 128 * p;
    }
  }
}
