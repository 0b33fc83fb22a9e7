/** A sat range packed into eleven bytes: 51 bits for its start, 37 bits for its length. */
module RangeCodec {
  import opened Bitcoin
  import opened Bytes
  import opened SatRanges
  import opened SubsidySchedule
  import opened LedgerModel
  import opened RareSats
  import SatIndex

  const START_LIMIT: nat := 0x8_0000_0000_0000 // 2^51

  const LENGTH_LIMIT: nat := 0x20_0000_0000 // 2^37

  predicate Fits(r: SatRange) {
    r.start <= r.end && r.start < START_LIMIT && r.end - r.start < LENGTH_LIMIT
  }

  function Store(r: SatRange): (bytes: seq<Byte>)
    requires r.start <= r.end
    ensures |bytes| == 11
  {
    LittleEndian(BitOr(r.start, (r.end - r.start) * Power(2, 51)), 11)
  }

  /** The first 51 of the 56 bits in bytes 0 to 6, and all but the first three of the bits in bytes 6 to 10. */
  function Load(bytes: seq<Byte>): SatRange
    requires |bytes| == 11
  {
    var base := FromLittleEndian(bytes[..7]) % START_LIMIT;
    var delta := FromLittleEndian(bytes[6..]) / 8;
    SatRange(base, base + delta)
  }

  lemma LoadOfBytes(n: nat)
    ensures Load(LittleEndian(n, 11)) == SatRange(n % START_LIMIT, n % START_LIMIT + n / START_LIMIT % LENGTH_LIMIT)
  {
    var bytes := LittleEndian(n, 11);
    assert Power(256, 0) == 1 && Power(256, 7) == 0x100_0000_0000_0000 && Power(256, 6) == 0x1_0000_0000_0000;
    assert Power(256, 5) == 0x100_0000_0000;
    LittleEndianPart(n, 11, 0, 7);
    LittleEndianPart(n, 11, 6, 11);
    assert bytes[..7] == bytes[0..7] && bytes[6..] == bytes[6..11];
    LittleEndianRoundTrip(n, 7);
    LittleEndianRoundTrip(n / 0x1_0000_0000_0000, 5);
    Split(n);
  }

  lemma Split(n: nat)
    ensures n % 0x100_0000_0000_0000 % START_LIMIT == n % START_LIMIT
    ensures n / 0x1_0000_0000_0000 % 0x100_0000_0000 / 8 == n / START_LIMIT % LENGTH_LIMIT
  {
    DigitInFront(n % START_LIMIT, n / START_LIMIT, START_LIMIT, 32);
    var m := n / 0x1_0000_0000_0000;
    DigitInFront(m % 8, m / 8, 8, LENGTH_LIMIT);
    DigitInFront(n % 0x1_0000_0000_0000, m, 0x1_0000_0000_0000, 8);
  }

  lemma FiftyOneBits()
    ensures Power(2, 51) == START_LIMIT
  {
    assert Power(2, 3) == 8 && Power(2, 4) == 16;
    PowerSum(2, 4, 4);
    PowerSum(2, 8, 8);
    PowerSum(2, 16, 16);
    PowerSum(2, 32, 16);
    PowerSum(2, 48, 3);
  }

  /** A range survives packing exactly when its start has at most 51 bits and its length at most 37. */
  lemma PackingRoundTrips(r: SatRange)
    requires r.start <= r.end
    ensures Load(Store(r)) == r <==> Fits(r)
  {
    var delta := r.end - r.start;
    FiftyOneBits();
    BitOrShifted(r.start, delta, 51);
    LoadOfBytes(BitOr(r.start, delta * Power(2, 51)));
    BitOrZero(delta);
    if r.start < START_LIMIT {
      SmallQuotient(r.start, START_LIMIT);
      if delta < LENGTH_LIMIT {
        SmallQuotient(delta, LENGTH_LIMIT);
      }
    }
  }

  // ----- lists of ranges -----

  predicate AllFit(ranges: seq<SatRange>) {
    forall i :: 0 <= i < |ranges| ==> Fits(ranges[i])
  }

  function Pack(ranges: seq<SatRange>): (bytes: seq<Byte>)
    requires forall i :: 0 <= i < |ranges| ==> ranges[i].start <= ranges[i].end
    ensures |bytes| == 11 * |ranges|
  {
    if ranges == [] then [] else Store(ranges[0]) + Pack(ranges[1..])
  }

  function Unpack(bytes: seq<Byte>): seq<SatRange> {
    if |bytes| < 11 then [] else [Load(bytes[..11])] + Unpack(bytes[11..])
  }

  lemma {:induction false} UnpackPack(ranges: seq<SatRange>)
    requires AllFit(ranges)
    ensures Unpack(Pack(ranges)) == ranges
  {
    if ranges != [] {
      PackingRoundTrips(ranges[0]);
      UnpackPack(ranges[1..]);
      assert Pack(ranges)[..11] == Store(ranges[0]) && Pack(ranges)[11..] == Pack(ranges[1..]);
    }
  }

  lemma {:induction false} UnpackConcat(a: seq<Byte>, b: seq<Byte>)
    requires |a| % 11 == 0
    ensures Unpack(a + b) == Unpack(a) + Unpack(b)
    decreases |a|
  {
    if a == [] {
      assert a + b == b;
    } else {
      UnpackConcat(a[11..], b);
      assert (a + b)[..11] == a[..11] && (a + b)[11..] == a[11..] + b;
    }
  }

  // ----- what the index stores -----

  lemma MinedRangeFits(starts: Schedule, r: SatRange)
    requires SatIndex.IsMainnet(starts) && WithinBlock(starts, r)
    ensures Fits(r)
  {
    var height: nat :| Mines(starts, height, r);
    assert starts(height) == StartingSat(height) && starts(height + 1) == StartingSat(height + 1);
    SupplyIsTheLimit(height + 1);
    SubsidyAtMostFiftyCoins(height);
    assert StartingSat(height + 1) == StartingSat(height) + Subsidy(height);
  }

  predicate SurvivesPacking(ranges: seq<SatRange>) {
    AllFit(ranges) && Unpack(Pack(ranges)) == ranges
  }

  /** Every list of ranges that the index ever holds survives packing. */
  lemma IndexedRangesRoundTrip(starts: Schedule, height: nat, ledger: Ledger, outpoint: OutPoint)
    requires SatIndex.IsMainnet(starts) && Reachable(starts, height, ledger) && outpoint in ledger.utxos
    ensures SurvivesPacking(ledger.utxos[outpoint].ranges)
  {
    SatIndex.MainnetSchedule(starts);
    ReachableIsSound(starts, height, ledger);
    var ranges := ledger.utxos[outpoint].ranges;
    assert InBlocks(starts, ranges);
    forall i | 0 <= i < |ranges|
      ensures Fits(ranges[i])
    {
      MinedRangeFits(starts, ranges[i]);
    }
    UnpackPack(ranges);
  }

  /** The eleven bytes are those of one number: the start below, the length 51 bits higher. */
  lemma StoredNumber(r: SatRange)
    requires Fits(r)
    ensures FromLittleEndian(Store(r)) == r.start + (r.end - r.start) * START_LIMIT
    ensures forall i :: 0 <= i < 11 ==>
      Power(256, i) > 0 && Store(r)[i] as nat == (r.start + (r.end - r.start) * START_LIMIT) / Power(256, i) % 256
  {
    var n := r.start + (r.end - r.start) * START_LIMIT;
    FiftyOneBits();
    BitOrIsSum(r.start, r.end - r.start, 51);
    assert Store(r) == LittleEndian(n, 11);
    LittleEndianRoundTrip(n, 11);
    assert Power(256, 11) == START_LIMIT * LENGTH_LIMIT;
    SmallQuotient(n, Power(256, 11));
    forall i | 0 <= i < 11
      ensures Power(256, i) > 0 && Store(r)[i] as nat == n / Power(256, i) % 256
    {
      LittleEndianAt(n, 11, i);
    }
  }
}
