/** Every mined sat is in exactly one place. */
module Conservation {
  import opened Bitcoin
  import opened SatRanges
  import opened LedgerModel

  /** `sat` sits `sp.offset` sats into the entry of `sp.outpoint`. */
  predicate Locates(utxos: Utxos, sat: nat, sp: SatPoint) {
    && sp.outpoint in utxos
    && sp.offset < Total(utxos[sp.outpoint].ranges)
    && SatAt(utxos[sp.outpoint].ranges, sp.offset) == sat
  }

  ghost predicate Somewhere(utxos: Utxos, sat: nat) {
    exists sp :: Locates(utxos, sat, sp)
  }

  /** The first `mined` sats, and no others, each have exactly one location. */
  ghost predicate Partition(utxos: Utxos, mined: nat) {
    && (forall sat: nat :: Somewhere(utxos, sat) <==> sat < mined)
    && (forall sat: nat, a, b :: Locates(utxos, sat, a) && Locates(utxos, sat, b) ==> a == b)
  }

  // ----- counting -----

  /** How often a sat occurs over all entries. */
  ghost function Count(utxos: Utxos, sat: nat): nat
    decreases |utxos|
  {
    if utxos == map[] then
      0
    else
      Occurs(utxos[Pick(utxos)].ranges, sat) + Count(utxos - {Pick(utxos)}, sat)
  }

  ghost function Pick(utxos: Utxos): (outpoint: OutPoint)
    requires utxos != map[]
    ensures outpoint in utxos
  {
    var outpoint :| outpoint in utxos;
    outpoint
  }

  lemma {:induction false} CountRemove(utxos: Utxos, outpoint: OutPoint, sat: nat)
    requires outpoint in utxos
    ensures Count(utxos, sat) == Occurs(utxos[outpoint].ranges, sat) + Count(utxos - {outpoint}, sat)
    decreases |utxos|
  {
    var picked := Pick(utxos);
    if picked != outpoint {
      CountRemove(utxos - {picked}, outpoint, sat);
      CountRemove(utxos - {outpoint}, picked, sat);
      assert utxos - {picked} - {outpoint} == utxos - {outpoint} - {picked};
    }
  }

  lemma CountInsert(utxos: Utxos, outpoint: OutPoint, entry: Entry, sat: nat)
    requires outpoint !in utxos
    ensures Count(utxos[outpoint := entry], sat) == Count(utxos, sat) + Occurs(entry.ranges, sat)
  {
    CountRemove(utxos[outpoint := entry], outpoint, sat);
    assert utxos[outpoint := entry] - {outpoint} == utxos;
  }

  lemma CountReplace(utxos: Utxos, outpoint: OutPoint, entry: Entry, sat: nat)
    ensures Count(utxos[outpoint := entry], sat) == Count(utxos - {outpoint}, sat) + Occurs(entry.ranges, sat)
  {
    CountInsert(utxos - {outpoint}, outpoint, entry, sat);
    assert (utxos - {outpoint})[outpoint := entry] == utxos[outpoint := entry];
  }

  lemma LocatedIsCounted(utxos: Utxos, sat: nat, sp: SatPoint)
    requires Locates(utxos, sat, sp)
    ensures Count(utxos, sat) >= 1
  {
    CountRemove(utxos, sp.outpoint, sat);
    SatAtOccurs(utxos[sp.outpoint].ranges, sp.offset);
  }

  lemma {:induction false} CountedIsLocated(utxos: Utxos, sat: nat) returns (sp: SatPoint)
    requires Count(utxos, sat) >= 1
    ensures Locates(utxos, sat, sp)
    decreases |utxos|
  {
    var picked := Pick(utxos);
    if Occurs(utxos[picked].ranges, sat) >= 1 {
      var i := OccursSatAt(utxos[picked].ranges, sat);
      sp := SatPoint(picked, i);
    } else {
      sp := CountedIsLocated(utxos - {picked}, sat);
    }
  }

  /** A sat counted twice has two places. */
  lemma {:induction false} CountedTwice(utxos: Utxos, sat: nat) returns (a: SatPoint, b: SatPoint)
    requires Count(utxos, sat) >= 2
    ensures a != b && Locates(utxos, sat, a) && Locates(utxos, sat, b)
    decreases |utxos|
  {
    var picked := Pick(utxos);
    if Occurs(utxos[picked].ranges, sat) >= 2 {
      var i, j := OccursTwiceSatAt(utxos[picked].ranges, sat);
      a, b := SatPoint(picked, i), SatPoint(picked, j);
    } else if Occurs(utxos[picked].ranges, sat) == 1 {
      var i := OccursSatAt(utxos[picked].ranges, sat);
      a := SatPoint(picked, i);
      b := CountedIsLocated(utxos - {picked}, sat);
    } else {
      a, b := CountedTwice(utxos - {picked}, sat);
    }
  }

  lemma LocatedOnce(utxos: Utxos, sat: nat, a: SatPoint, b: SatPoint)
    requires Locates(utxos, sat, a) && Locates(utxos, sat, b)
    requires Count(utxos, sat) <= 1
    ensures a == b
  {
    var ranges := utxos[a.outpoint].ranges;
    CountRemove(utxos, a.outpoint, sat);
    SatAtOccurs(ranges, a.offset);
    if a.outpoint != b.outpoint {
      LocatedIsCounted(utxos - {a.outpoint}, sat, b);
    } else if a.offset < b.offset {
      SatAtOccursTwice(ranges, a.offset, b.offset);
    } else if b.offset < a.offset {
      SatAtOccursTwice(ranges, b.offset, a.offset);
    }
  }

  // ----- each step moves sats, and mints or destroys none -----

  ghost function Held(p: Progress, sat: nat): nat {
    Count(p.ledger.utxos, sat) + Occurs(p.fees, sat)
  }

  lemma {:induction false} SpendCounts(utxos: Utxos, inputs: seq<OutPoint>, sat: nat)
    requires Spendable(utxos, inputs)
    ensures Count(utxos, sat) == Count(Unspent(utxos, inputs), sat) + Occurs(SpentRanges(utxos, inputs), sat)
  {
    if inputs != [] {
      CountRemove(utxos, inputs[0], sat);
      SpendCounts(utxos - {inputs[0]}, inputs[1..], sat);
      OccursConcat(utxos[inputs[0]].ranges, SpentRanges(utxos - {inputs[0]}, inputs[1..]), sat);
    }
  }

  lemma {:induction false} CreditCounts(utxos: Utxos, tx: Tx, outputs: seq<seq<SatRange>>, vout: nat, sat: nat)
    requires vout <= |outputs| == |tx.outputs|
    requires forall v | vout <= v < |outputs| :: OutPoint(tx.txid, v) !in utxos
    ensures Count(Credit(utxos, tx, outputs, vout), sat) == Count(utxos, sat) + OccursIn(outputs, vout, sat)
    decreases |outputs| - vout
  {
    if vout < |outputs| {
      var entry := Entry(outputs[vout], tx.outputs[vout].script);
      CountInsert(utxos, OutPoint(tx.txid, vout), entry, sat);
      CreditCounts(utxos[OutPoint(tx.txid, vout) := entry], tx, outputs, vout + 1, sat);
    }
  }

  lemma ReceiveCounts(utxos: Utxos, tx: Tx, ranges: seq<SatRange>, sat: nat)
    requires Sum(Values(tx.outputs)) <= Total(ranges) && CreatesFresh(utxos, tx)
    ensures |Assign(Values(tx.outputs), ranges).outputs| == |tx.outputs|
    ensures var a := Assign(Values(tx.outputs), ranges);
      && Count(Credit(utxos, tx, a.outputs, 0), sat) + Occurs(a.leftover, sat)
        == Count(utxos, sat) + Occurs(ranges, sat)
      && OccursIn(a.outputs, 0, sat) <= Occurs(ranges, sat)
  {
    AssignConserves(Values(tx.outputs), ranges);
    AssignOccurs(Values(tx.outputs), ranges, sat);
    CreditCounts(utxos, tx, Assign(Values(tx.outputs), ranges).outputs, 0, sat);
  }

  lemma IndexTxCounts(starts: Schedule, p: Progress, tx: Tx, sat: nat)
    requires TxValid(p.ledger.utxos, tx)
    ensures Held(IndexTx(starts, p, tx), sat) == Held(p, sat)
  {
    var ranges := SpentRanges(p.ledger.utxos, tx.inputs);
    SpendCounts(p.ledger.utxos, tx.inputs, sat);
    ReceiveCounts(Unspent(p.ledger.utxos, tx.inputs), tx, ranges, sat);
    OccursConcat(p.fees, Assign(Values(tx.outputs), ranges).leftover, sat);
  }

  lemma {:induction false} IndexTxsCounts(starts: Schedule, p: Progress, txs: seq<Tx>, sat: nat)
    requires TxsValid(starts, p, txs)
    ensures Held(IndexTxs(starts, p, txs), sat) == Held(p, sat)
    decreases |txs|
  {
    if txs != [] {
      IndexTxCounts(starts, p, txs[0], sat);
      IndexTxsCounts(starts, IndexTx(starts, p, txs[0]), txs[1..], sat);
    }
  }

  lemma AppendLostCounts(starts: Schedule, ledger: Ledger, lost: seq<SatRange>, sat: nat)
    ensures Count(AppendLost(starts, ledger, lost).utxos, sat) == Count(ledger.utxos, sat) + Occurs(lost, sat)
  {
    var utxos := ledger.utxos;
    if lost != [] {
      var before := if NULL in utxos then utxos[NULL].ranges else [];
      OccursConcat(before, lost, sat);
      CountReplace(utxos, NULL, Entry(before + lost, []), sat);
      if NULL in utxos {
        CountRemove(utxos, NULL, sat);
      } else {
        assert utxos - {NULL} == utxos;
      }
    }
  }

  lemma IndexCoinbaseCounts(starts: Schedule, p: Progress, coinbase: Tx, sat: nat)
    requires CoinbaseValid(p, coinbase)
    ensures Count(IndexCoinbase(starts, p, coinbase).utxos, sat) == Held(p, sat)
  {
    ReceiveCounts(p.ledger.utxos, coinbase, p.fees, sat);
    var a := Assign(Values(coinbase.outputs), p.fees);
    AppendLostCounts(starts, Receive(starts, p.ledger, coinbase, a.outputs), a.leftover, sat);
  }

  lemma MintedOccurs(start: nat, end: nat, sat: nat)
    ensures Occurs(Minted(start, end), sat) == if start <= sat < end then 1 else 0
  {
    if start < end {
      assert Minted(start, end)[1..] == [];
    }
  }

  lemma OpenedCounts(starts: Schedule, ledger: Ledger, height: nat, sat: nat)
    ensures Held(Opened(starts, ledger, height), sat)
         == Count(ledger.utxos, sat) + if starts(height) <= sat < starts(height + 1) then 1 else 0
  {
    MintedOccurs(starts(height), starts(height + 1), sat);
  }

  /** A block adds exactly the sats it mines, each once. */
  lemma IndexBlockCounts(starts: Schedule, ledger: Ledger, height: nat, block: seq<Tx>, sat: nat)
    requires BlockValid(starts, ledger, height, block)
    ensures Count(IndexBlock(starts, ledger, height, block).utxos, sat)
         == Count(ledger.utxos, sat) + if starts(height) <= sat < starts(height + 1) then 1 else 0
  {
    OpenedCounts(starts, ledger, height, sat);
    IndexTxsCounts(starts, Opened(starts, ledger, height), block[1..], sat);
    IndexCoinbaseCounts(starts, IndexTxs(starts, Opened(starts, ledger, height), block[1..]), block[0], sat);
  }

  // ----- the partition -----

  /** The conservation law in counting form, while `fees` are still unassigned. */
  ghost predicate CountsOnce(p: Progress, mined: nat) {
    forall sat: nat :: Held(p, sat) == if sat < mined then 1 else 0
  }

  ghost predicate CountsMined(utxos: Utxos, mined: nat) {
    forall sat: nat :: Count(utxos, sat) == if sat < mined then 1 else 0
  }

  /** Counting every mined sat once, and no other sat, is the same as a partition. */
  lemma CountingIsPartition(utxos: Utxos, mined: nat)
    ensures CountsMined(utxos, mined) <==> Partition(utxos, mined)
  {
    if CountsMined(utxos, mined) {
      CountedIsPartition(utxos, mined);
    }
    if Partition(utxos, mined) {
      forall sat: nat
        ensures Count(utxos, sat) == if sat < mined then 1 else 0
      {
        PartitionIsCounted(utxos, mined, sat);
      }
    }
  }

  lemma PartitionIsCounted(utxos: Utxos, mined: nat, sat: nat)
    requires Partition(utxos, mined)
    ensures Count(utxos, sat) == if sat < mined then 1 else 0
  {
    if Count(utxos, sat) >= 2 {
      var a, b := CountedTwice(utxos, sat);
      assert false;
    }
    if Count(utxos, sat) >= 1 {
      var sp := CountedIsLocated(utxos, sat);
      assert Somewhere(utxos, sat);
    } else if sat < mined {
      assert Somewhere(utxos, sat);
      var sp :| Locates(utxos, sat, sp);
      LocatedIsCounted(utxos, sat, sp);
    }
  }

  lemma CountedIsPartition(utxos: Utxos, mined: nat)
    requires CountsMined(utxos, mined)
    ensures Partition(utxos, mined)
  {
    forall sat: nat
      ensures Somewhere(utxos, sat) <==> sat < mined
    {
      if Somewhere(utxos, sat) {
        var sp :| Locates(utxos, sat, sp);
        LocatedIsCounted(utxos, sat, sp);
      } else if sat < mined {
        var sp := CountedIsLocated(utxos, sat);
      }
    }
    forall sat: nat, a, b | Locates(utxos, sat, a) && Locates(utxos, sat, b)
      ensures a == b
    {
      LocatedOnce(utxos, sat, a, b);
    }
  }

  /** BIP 30 is needed: recreating an unspent outpoint replaces its entry, and the sats the
      old entry held are in no entry any more. Nothing is lost only if it held none. */
  lemma RecreatedOutpointForgets(utxos: Utxos, outpoint: OutPoint, entry: Entry)
    requires outpoint in utxos
    ensures (forall sat: nat :: Count(utxos[outpoint := entry], sat) == Count(utxos, sat) + Occurs(entry.ranges, sat))
       <==> Total(utxos[outpoint].ranges) == 0
  {
    var held := utxos[outpoint].ranges;
    forall sat: nat
      ensures Count(utxos[outpoint := entry], sat) + Occurs(held, sat) == Count(utxos, sat) + Occurs(entry.ranges, sat)
      ensures Total(held) == 0 ==> Occurs(held, sat) == 0
    {
      CountRemove(utxos, outpoint, sat);
      CountReplace(utxos, outpoint, entry, sat);
      if Occurs(held, sat) >= 1 {
        var i := OccursSatAt(held, sat);
      }
    }
    if Total(held) > 0 {
      var sat := SatAt(held, 0);
      SatAtOccurs(held, 0);
      assert Count(utxos[outpoint := entry], sat) != Count(utxos, sat) + Occurs(entry.ranges, sat);
    }
  }
}
