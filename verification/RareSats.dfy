/** The table of first-of-block sats always agrees with a full scan.

The updater writes the table only when it meets a range that starts with such a sat.
That is enough because no range ever spans two blocks, so the first sat of a block
can only be the start of the range that holds it.
*/
module RareSats {
  import opened Bitcoin
  import opened SatRanges
  import opened LedgerModel
  import opened Conservation

  // ----- ranges are nonempty and stay inside one block -----

  ghost predicate WithinBlock(starts: Schedule, r: SatRange) {
    exists height: nat :: Mines(starts, height, r)
  }

  ghost predicate Mines(starts: Schedule, height: nat, r: SatRange) {
    starts(height) <= r.start < r.end <= starts(height + 1)
  }

  ghost predicate InBlocks(starts: Schedule, ranges: seq<SatRange>) {
    forall i | 0 <= i < |ranges| :: WithinBlock(starts, ranges[i])
  }

  ghost predicate AllInBlocks(starts: Schedule, utxos: Utxos) {
    forall outpoint | outpoint in utxos :: InBlocks(starts, utxos[outpoint].ranges)
  }

  /** In a range that stays inside one block, only the start can be first of a block. */
  lemma FirstOfBlockIsStart(starts: Schedule, r: SatRange, sat: nat)
    requires Nondecreasing(starts) && WithinBlock(starts, r)
    requires r.start <= sat < r.end && FirstOfBlock(starts, sat)
    ensures sat == r.start
  {
    var height: nat :| Mines(starts, height, r);
    var first: nat :| Opens(starts, first, sat);
    NotBetween(starts, first, height);
    NotBetween(starts, height, first);
  }

  lemma NotBetween(starts: Schedule, low: nat, high: nat)
    requires Nondecreasing(starts)
    ensures low < high ==> starts(low + 1) <= starts(high)
  {
  }

  lemma {:induction false} TakeInBlocks(starts: Schedule, ranges: seq<SatRange>, n: nat)
    requires n <= Total(ranges) && InBlocks(starts, ranges)
    ensures InBlocks(starts, Take(ranges, n).taken) && InBlocks(starts, Take(ranges, n).rest)
  {
    if n > 0 {
      assert WithinBlock(starts, ranges[0]);
      if n < Size(ranges[0]) {
        SplitWithinBlock(starts, ranges[0], n);
      } else {
        TakeInBlocks(starts, ranges[1..], n - Size(ranges[0]));
      }
    }
  }

  lemma SplitWithinBlock(starts: Schedule, r: SatRange, n: nat)
    requires WithinBlock(starts, r) && 0 < n < Size(r)
    ensures WithinBlock(starts, SatRange(r.start, r.start + n)) && WithinBlock(starts, SatRange(r.start + n, r.end))
  {
    var height: nat :| Mines(starts, height, r);
    assert Mines(starts, height, SatRange(r.start, r.start + n));
    assert Mines(starts, height, SatRange(r.start + n, r.end));
  }

  lemma {:induction false} AssignInBlocks(starts: Schedule, values: seq<nat>, ranges: seq<SatRange>)
    requires Sum(values) <= Total(ranges) && InBlocks(starts, ranges)
    ensures InBlocks(starts, Assign(values, ranges).leftover)
    ensures forall j | 0 <= j < |Assign(values, ranges).outputs| :: InBlocks(starts, Assign(values, ranges).outputs[j])
  {
    if values != [] {
      TakeCuts(ranges, values[0]);
      TakeInBlocks(starts, ranges, values[0]);
      AssignInBlocks(starts, values[1..], Take(ranges, values[0]).rest);
    }
  }

  lemma {:induction false} SpendInBlocks(starts: Schedule, utxos: Utxos, inputs: seq<OutPoint>)
    requires Spendable(utxos, inputs) && AllInBlocks(starts, utxos)
    ensures InBlocks(starts, SpentRanges(utxos, inputs))
  {
    if inputs != [] {
      SpendInBlocks(starts, utxos - {inputs[0]}, inputs[1..]);
    }
  }

  lemma {:induction false} UnspentKeeps(utxos: Utxos, inputs: seq<OutPoint>, outpoint: OutPoint)
    requires Spendable(utxos, inputs)
    ensures outpoint in Unspent(utxos, inputs) ==>
      outpoint in utxos && Unspent(utxos, inputs)[outpoint] == utxos[outpoint]
    ensures outpoint in utxos && IsSpecial(outpoint) ==> outpoint in Unspent(utxos, inputs)
  {
    if inputs != [] {
      UnspentKeeps(utxos - {inputs[0]}, inputs[1..], outpoint);
    }
  }

  /** What is at `outpoint` after crediting: a new output, or what was there before. */
  lemma {:induction false} CreditLookup(
    utxos: Utxos, tx: Tx, outputs: seq<seq<SatRange>>, vout: nat, outpoint: OutPoint)
    requires vout <= |outputs| == |tx.outputs|
    ensures var after := Credit(utxos, tx, outputs, vout);
      if outpoint.txid == tx.txid && vout <= outpoint.vout < |outputs| then
        outpoint in after && after[outpoint] == Entry(outputs[outpoint.vout], tx.outputs[outpoint.vout].script)
      else
        (outpoint in after <==> outpoint in utxos) && (outpoint in utxos ==> after[outpoint] == utxos[outpoint])
    decreases |outputs| - vout
  {
    if vout < |outputs| {
      var entry := Entry(outputs[vout], tx.outputs[vout].script);
      CreditLookup(utxos[OutPoint(tx.txid, vout) := entry], tx, outputs, vout + 1, outpoint);
    }
  }

  lemma ReceiveInBlocks(starts: Schedule, utxos: Utxos, tx: Tx, outputs: seq<seq<SatRange>>)
    requires |outputs| == |tx.outputs| && AllInBlocks(starts, utxos)
    requires forall j | 0 <= j < |outputs| :: InBlocks(starts, outputs[j])
    ensures AllInBlocks(starts, Credit(utxos, tx, outputs, 0))
  {
    forall outpoint | outpoint in Credit(utxos, tx, outputs, 0)
      ensures InBlocks(starts, Credit(utxos, tx, outputs, 0)[outpoint].ranges)
    {
      CreditLookup(utxos, tx, outputs, 0, outpoint);
    }
  }

  // ----- recording -----

  lemma {:induction false} RecordRangesElsewhere(
    starts: Schedule, table: RareTable, outpoint: OutPoint, ranges: seq<SatRange>, offset: nat, sat: nat)
    requires InBlocks(starts, ranges) && Occurs(ranges, sat) == 0
    ensures sat in RecordRanges(starts, table, outpoint, ranges, offset) <==> sat in table
    ensures sat in table ==> RecordRanges(starts, table, outpoint, ranges, offset)[sat] == table[sat]
    decreases |ranges|
  {
    if ranges != [] {
      var first := ranges[0].start;
      assert WithinBlock(starts, ranges[0]);
      TailInBlocks(starts, ranges);
      var noted := if FirstOfBlock(starts, first) then table[first := SatPoint(outpoint, offset)] else table;
      RecordRangesElsewhere(starts, noted, outpoint, ranges[1..], offset + Size(ranges[0]), sat);
    }
  }

  lemma {:induction false} RecordRangesAt(
    starts: Schedule, table: RareTable, outpoint: OutPoint, ranges: seq<SatRange>, offset: nat, i: nat, sat: nat)
    requires Nondecreasing(starts) && InBlocks(starts, ranges) && FirstOfBlock(starts, sat)
    requires i < Total(ranges) && SatAt(ranges, i) == sat && Occurs(ranges, sat) <= 1
    ensures sat in RecordRanges(starts, table, outpoint, ranges, offset)
    ensures RecordRanges(starts, table, outpoint, ranges, offset)[sat] == SatPoint(outpoint, offset + i)
    decreases |ranges|
  {
    var r := ranges[0];
    if i < Size(r) {
      RecordHeadAt(starts, table, outpoint, ranges, offset, i, sat);
    } else {
      TailInBlocks(starts, ranges);
      var noted := if FirstOfBlock(starts, r.start) then table[r.start := SatPoint(outpoint, offset)] else table;
      RecordRangesAt(starts, noted, outpoint, ranges[1..], offset + Size(r), i - Size(r), sat);
    }
  }

  lemma RecordHeadAt(
    starts: Schedule, table: RareTable, outpoint: OutPoint, ranges: seq<SatRange>, offset: nat, i: nat, sat: nat)
    requires Nondecreasing(starts) && ranges != [] && InBlocks(starts, ranges) && FirstOfBlock(starts, sat)
    requires i < Size(ranges[0]) && sat == ranges[0].start + i && Occurs(ranges, sat) <= 1
    ensures sat in RecordRanges(starts, table, outpoint, ranges, offset)
    ensures RecordRanges(starts, table, outpoint, ranges, offset)[sat] == SatPoint(outpoint, offset + i)
  {
    assert WithinBlock(starts, ranges[0]);
    FirstOfBlockIsStart(starts, ranges[0], sat);
    TailInBlocks(starts, ranges);
    var noted := table[sat := SatPoint(outpoint, offset)];
    RecordRangesElsewhere(starts, noted, outpoint, ranges[1..], offset + Size(ranges[0]), sat);
  }

  lemma TailInBlocks(starts: Schedule, ranges: seq<SatRange>)
    requires ranges != [] && InBlocks(starts, ranges)
    ensures InBlocks(starts, ranges[1..])
  {
  }

  lemma {:induction false} RecordOutputsElsewhere(
    starts: Schedule, table: RareTable, txid: nat, outputs: seq<seq<SatRange>>, vout: nat, sat: nat)
    requires vout <= |outputs| && OccursIn(outputs, vout, sat) == 0
    requires forall j | 0 <= j < |outputs| :: InBlocks(starts, outputs[j])
    ensures sat in RecordOutputs(starts, table, txid, outputs, vout) <==> sat in table
    ensures sat in table ==> RecordOutputs(starts, table, txid, outputs, vout)[sat] == table[sat]
    decreases |outputs| - vout
  {
    if vout < |outputs| {
      RecordRangesElsewhere(starts, table, OutPoint(txid, vout), outputs[vout], 0, sat);
      var noted := RecordRanges(starts, table, OutPoint(txid, vout), outputs[vout], 0);
      RecordOutputsElsewhere(starts, noted, txid, outputs, vout + 1, sat);
    }
  }

  lemma {:induction false} RecordOutputsAt(
    starts: Schedule, table: RareTable, txid: nat, outputs: seq<seq<SatRange>>, vout: nat, at: nat, i: nat)
    requires vout <= at < |outputs| && i < Total(outputs[at])
    requires Nondecreasing(starts) && FirstOfBlock(starts, SatAt(outputs[at], i))
    requires forall j | 0 <= j < |outputs| :: InBlocks(starts, outputs[j])
    requires OccursIn(outputs, vout, SatAt(outputs[at], i)) <= 1
    ensures SatAt(outputs[at], i) in RecordOutputs(starts, table, txid, outputs, vout)
    ensures RecordOutputs(starts, table, txid, outputs, vout)[SatAt(outputs[at], i)] == SatPoint(OutPoint(txid, at), i)
    decreases |outputs| - vout
  {
    var sat := SatAt(outputs[at], i);
    var noted := RecordRanges(starts, table, OutPoint(txid, vout), outputs[vout], 0);
    if vout == at {
      SatAtOccurs(outputs[at], i);
      RecordRangesAt(starts, table, OutPoint(txid, at), outputs[at], 0, i, sat);
      RecordOutputsElsewhere(starts, noted, txid, outputs, vout + 1, sat);
    } else {
      RecordOutputsAt(starts, noted, txid, outputs, vout + 1, at, i);
    }
  }

  /** Everything a recording adds is a sat of the recorded ranges that starts a block. */
  lemma {:induction false} RecordRangesDomain(
    starts: Schedule, table: RareTable, outpoint: OutPoint, ranges: seq<SatRange>, offset: nat, sat: nat)
    requires InBlocks(starts, ranges) && sat in RecordRanges(starts, table, outpoint, ranges, offset)
    ensures sat in table || (FirstOfBlock(starts, sat) && Occurs(ranges, sat) >= 1)
    decreases |ranges|
  {
    if ranges != [] {
      var first := ranges[0].start;
      assert WithinBlock(starts, ranges[0]);
      TailInBlocks(starts, ranges);
      var noted := if FirstOfBlock(starts, first) then table[first := SatPoint(outpoint, offset)] else table;
      RecordRangesDomain(starts, noted, outpoint, ranges[1..], offset + Size(ranges[0]), sat);
    }
  }

  lemma {:induction false} RecordOutputsDomain(
    starts: Schedule, table: RareTable, txid: nat, outputs: seq<seq<SatRange>>, vout: nat, sat: nat)
    requires vout <= |outputs| && sat in RecordOutputs(starts, table, txid, outputs, vout)
    requires forall j | 0 <= j < |outputs| :: InBlocks(starts, outputs[j])
    ensures sat in table || (FirstOfBlock(starts, sat) && OccursIn(outputs, vout, sat) >= 1)
    decreases |outputs| - vout
  {
    if vout < |outputs| {
      var noted := RecordRanges(starts, table, OutPoint(txid, vout), outputs[vout], 0);
      RecordOutputsDomain(starts, noted, txid, outputs, vout + 1, sat);
      if sat in noted {
        RecordRangesDomain(starts, table, OutPoint(txid, vout), outputs[vout], 0, sat);
      }
    }
  }

  // ----- the table invariant -----

  /** The table knows the location of every first-of-block sat an entry holds. */
  ghost predicate Tracked(starts: Schedule, ledger: Ledger) {
    forall sat: nat, sp :: FirstOfBlock(starts, sat) && Locates(ledger.utxos, sat, sp) ==>
      sat in ledger.satpoints && ledger.satpoints[sat] == sp
  }

  /** The table holds nothing else. */
  ghost predicate OnlyFirsts(starts: Schedule, ledger: Ledger, mined: nat) {
    forall sat | sat in ledger.satpoints :: FirstOfBlock(starts, sat) && sat < mined
  }

  /** The null outpoint's entry holds as many sats as the statistic says were lost. */
  ghost predicate LostAgrees(ledger: Ledger) {
    && UNBOUND !in ledger.utxos
    && (NULL in ledger.utxos ==> ledger.utxos[NULL].script == [])
    && ledger.lost == if NULL in ledger.utxos then Total(ledger.utxos[NULL].ranges) else 0
  }

  /** What holds while a block is being indexed: some sats are still held as fees. */
  ghost predicate Midway(starts: Schedule, p: Progress, mined: nat) {
    && CountsOnce(p, mined)
    && AllInBlocks(starts, p.ledger.utxos)
    && InBlocks(starts, p.fees)
    && Tracked(starts, p.ledger)
    && OnlyFirsts(starts, p.ledger, mined)
    && LostAgrees(p.ledger)
  }

  /** What holds at every block boundary. */
  ghost predicate Sound(starts: Schedule, ledger: Ledger, height: nat) {
    Midway(starts, Progress(ledger, []), starts(height))
  }

  lemma ReceiveTracks(
    starts: Schedule, ledger: Ledger, tx: Tx, outputs: seq<seq<SatRange>>, sat: nat, sp: SatPoint)
    requires |outputs| == |tx.outputs|
    requires Nondecreasing(starts) && Tracked(starts, ledger)
    requires forall j | 0 <= j < |outputs| :: InBlocks(starts, outputs[j])
    requires Count(ledger.utxos, sat) + OccursIn(outputs, 0, sat) <= 1
    requires FirstOfBlock(starts, sat) && Locates(Credit(ledger.utxos, tx, outputs, 0), sat, sp)
    ensures sat in RecordOutputs(starts, ledger.satpoints, tx.txid, outputs, 0)
    ensures RecordOutputs(starts, ledger.satpoints, tx.txid, outputs, 0)[sat] == sp
  {
    CreditLookup(ledger.utxos, tx, outputs, 0, sp.outpoint);
    if sp.outpoint.txid == tx.txid && sp.outpoint.vout < |outputs| {
      RecordOutputsAt(starts, ledger.satpoints, tx.txid, outputs, 0, sp.outpoint.vout, sp.offset);
    } else {
      assert Locates(ledger.utxos, sat, sp);
      LocatedIsCounted(ledger.utxos, sat, sp);
      RecordOutputsElsewhere(starts, ledger.satpoints, tx.txid, outputs, 0, sat);
    }
  }

  lemma ReceiveLostAgrees(starts: Schedule, ledger: Ledger, tx: Tx, outputs: seq<seq<SatRange>>)
    requires |outputs| == |tx.outputs| && tx.txid != 0 && LostAgrees(ledger)
    ensures LostAgrees(Receive(starts, ledger, tx, outputs))
  {
    CreditLookup(ledger.utxos, tx, outputs, 0, NULL);
    CreditLookup(ledger.utxos, tx, outputs, 0, UNBOUND);
  }

  /** Paying ranges out to the outputs of a transaction, the shared half of both kinds of transaction. */
  lemma ReceiveMidway(
    starts: Schedule, ledger: Ledger, tx: Tx, ranges: seq<SatRange>, fees: seq<SatRange>, mined: nat)
    requires Nondecreasing(starts) && CreatesFresh(ledger.utxos, tx)
    requires Midway(starts, Progress(ledger, fees + ranges), mined)
    requires Sum(Values(tx.outputs)) <= Total(ranges)
    ensures |Assign(Values(tx.outputs), ranges).outputs| == |tx.outputs|
    ensures var a := Assign(Values(tx.outputs), ranges);
      Midway(starts, Progress(Receive(starts, ledger, tx, a.outputs), fees + a.leftover), mined)
  {
    var a := Assign(Values(tx.outputs), ranges);
    AssignConserves(Values(tx.outputs), ranges);
    SuffixInBlocks(starts, fees, ranges);
    AssignInBlocks(starts, Values(tx.outputs), ranges);
    ReceiveInBlocks(starts, ledger.utxos, tx, a.outputs);
    ReceiveLostAgrees(starts, ledger, tx, a.outputs);
    forall sat: nat
      ensures Held(Progress(Receive(starts, ledger, tx, a.outputs), fees + a.leftover), sat)
           == Held(Progress(ledger, fees + ranges), sat)
      ensures Count(ledger.utxos, sat) + OccursIn(a.outputs, 0, sat) <= Held(Progress(ledger, fees + ranges), sat)
    {
      ReceiveCounts(ledger.utxos, tx, ranges, sat);
      OccursConcat(fees, ranges, sat);
      OccursConcat(fees, a.leftover, sat);
    }
    ReceiveTable(starts, ledger, tx, a.outputs, mined);
  }

  lemma ReceiveTable(starts: Schedule, ledger: Ledger, tx: Tx, outputs: seq<seq<SatRange>>, mined: nat)
    requires |outputs| == |tx.outputs| && Nondecreasing(starts)
    requires forall j | 0 <= j < |outputs| :: InBlocks(starts, outputs[j])
    requires forall sat: nat :: Count(ledger.utxos, sat) + OccursIn(outputs, 0, sat) <= if sat < mined then 1 else 0
    requires Tracked(starts, ledger) && OnlyFirsts(starts, ledger, mined)
    ensures Tracked(starts, Receive(starts, ledger, tx, outputs))
    ensures OnlyFirsts(starts, Receive(starts, ledger, tx, outputs), mined)
  {
    var after := Receive(starts, ledger, tx, outputs);
    forall sat: nat, sp | FirstOfBlock(starts, sat) && Locates(after.utxos, sat, sp)
      ensures sat in after.satpoints && after.satpoints[sat] == sp
    {
      ReceiveTracks(starts, ledger, tx, outputs, sat, sp);
    }
    forall sat | sat in after.satpoints
      ensures FirstOfBlock(starts, sat) && sat < mined
    {
      RecordOutputsDomain(starts, ledger.satpoints, tx.txid, outputs, 0, sat);
    }
  }

  lemma SuffixInBlocks(starts: Schedule, a: seq<SatRange>, b: seq<SatRange>)
    ensures InBlocks(starts, a + b) <==> InBlocks(starts, a) && InBlocks(starts, b)
  {
    assert forall i | 0 <= i < |a| :: (a + b)[i] == a[i];
    assert forall i | 0 <= i < |b| :: (a + b)[|a| + i] == b[i];
  }

  lemma SpendMidway(starts: Schedule, p: Progress, inputs: seq<OutPoint>, mined: nat)
    requires Spendable(p.ledger.utxos, inputs) && Midway(starts, p, mined)
    ensures var spent := p.ledger.(utxos := Unspent(p.ledger.utxos, inputs));
      Midway(starts, Progress(spent, p.fees + SpentRanges(p.ledger.utxos, inputs)), mined)
  {
    var spent := p.ledger.(utxos := Unspent(p.ledger.utxos, inputs));
    var ranges := SpentRanges(p.ledger.utxos, inputs);
    SpendInBlocks(starts, p.ledger.utxos, inputs);
    SuffixInBlocks(starts, p.fees, ranges);
    SpendTracked(starts, p.ledger, inputs);
    forall sat: nat
      ensures Held(Progress(spent, p.fees + ranges), sat) == Held(p, sat)
    {
      SpendCounts(p.ledger.utxos, inputs, sat);
      OccursConcat(p.fees, ranges, sat);
    }
  }

  lemma SpendTracked(starts: Schedule, ledger: Ledger, inputs: seq<OutPoint>)
    requires Spendable(ledger.utxos, inputs)
    requires Tracked(starts, ledger) && LostAgrees(ledger) && AllInBlocks(starts, ledger.utxos)
    ensures var spent := ledger.(utxos := Unspent(ledger.utxos, inputs));
      Tracked(starts, spent) && LostAgrees(spent) && AllInBlocks(starts, spent.utxos)
  {
    var utxos, after := ledger.utxos, Unspent(ledger.utxos, inputs);
    forall outpoint
      ensures outpoint in after ==> outpoint in utxos && after[outpoint] == utxos[outpoint]
      ensures outpoint in utxos && IsSpecial(outpoint) ==> outpoint in after
    {
      UnspentKeeps(utxos, inputs, outpoint);
    }
    forall sat: nat, sp | Locates(after, sat, sp)
      ensures Locates(utxos, sat, sp)
    {
    }
  }

  lemma IndexTxMidway(starts: Schedule, p: Progress, tx: Tx, mined: nat)
    requires Nondecreasing(starts) && TxValid(p.ledger.utxos, tx) && Midway(starts, p, mined)
    ensures Midway(starts, IndexTx(starts, p, tx), mined)
  {
    var spent := p.ledger.(utxos := Unspent(p.ledger.utxos, tx.inputs));
    SpendMidway(starts, p, tx.inputs, mined);
    ReceiveMidway(starts, spent, tx, SpentRanges(p.ledger.utxos, tx.inputs), p.fees, mined);
  }

  lemma {:induction false} IndexTxsMidway(starts: Schedule, p: Progress, txs: seq<Tx>, mined: nat)
    requires Nondecreasing(starts) && TxsValid(starts, p, txs) && Midway(starts, p, mined)
    ensures Midway(starts, IndexTxs(starts, p, txs), mined)
    decreases |txs|
  {
    if txs != [] {
      IndexTxMidway(starts, p, txs[0], mined);
      IndexTxsMidway(starts, IndexTx(starts, p, txs[0]), txs[1..], mined);
    }
  }

  // ----- lost sats -----

  lemma LostTracks(starts: Schedule, ledger: Ledger, lost: seq<SatRange>, sat: nat, sp: SatPoint)
    requires lost != [] && Nondecreasing(starts) && InBlocks(starts, lost)
    requires Tracked(starts, ledger) && LostAgrees(ledger)
    requires Count(ledger.utxos, sat) + Occurs(lost, sat) <= 1
    requires FirstOfBlock(starts, sat) && Locates(AppendLost(starts, ledger, lost).utxos, sat, sp)
    ensures sat in RecordRanges(starts, ledger.satpoints, NULL, lost, ledger.lost)
    ensures RecordRanges(starts, ledger.satpoints, NULL, lost, ledger.lost)[sat] == sp
  {
    if sp.outpoint == NULL && sp.offset >= ledger.lost {
      var before := if NULL in ledger.utxos then ledger.utxos[NULL].ranges else [];
      NewlyLost(starts, ledger.satpoints, before, lost, sp.offset, sat);
    } else {
      LostKeeps(starts, ledger, lost, sat, sp);
      LocatedIsCounted(ledger.utxos, sat, sp);
      RecordRangesElsewhere(starts, ledger.satpoints, NULL, lost, ledger.lost, sat);
    }
  }

  lemma NewlyLost(
    starts: Schedule, table: RareTable, before: seq<SatRange>, lost: seq<SatRange>, offset: nat, sat: nat)
    requires Nondecreasing(starts) && InBlocks(starts, lost) && FirstOfBlock(starts, sat)
    requires Total(before) <= offset < Total(before + lost) && SatAt(before + lost, offset) == sat
    requires Occurs(lost, sat) <= 1
    ensures sat in RecordRanges(starts, table, NULL, lost, Total(before))
    ensures RecordRanges(starts, table, NULL, lost, Total(before))[sat] == SatPoint(NULL, offset)
  {
    TotalConcat(before, lost);
    SatAtConcat(before, lost, offset);
    RecordRangesAt(starts, table, NULL, lost, Total(before), offset - Total(before), sat);
  }

  lemma LostKeeps(starts: Schedule, ledger: Ledger, lost: seq<SatRange>, sat: nat, sp: SatPoint)
    requires lost != [] && LostAgrees(ledger) && Locates(AppendLost(starts, ledger, lost).utxos, sat, sp)
    requires sp.outpoint == NULL ==> sp.offset < ledger.lost
    ensures Locates(ledger.utxos, sat, sp)
  {
    if sp.outpoint == NULL {
      SatAtConcat(ledger.utxos[NULL].ranges, lost, sp.offset);
    }
  }

  lemma AppendLostSound(starts: Schedule, ledger: Ledger, lost: seq<SatRange>, mined: nat)
    requires Nondecreasing(starts) && Midway(starts, Progress(ledger, lost), mined)
    ensures Midway(starts, Progress(AppendLost(starts, ledger, lost), []), mined)
  {
    var after := AppendLost(starts, ledger, lost);
    forall sat: nat
      ensures Held(Progress(after, []), sat) == Held(Progress(ledger, lost), sat)
    {
      AppendLostCounts(starts, ledger, lost, sat);
    }
    if lost != [] {
      var before := if NULL in ledger.utxos then ledger.utxos[NULL].ranges else [];
      SuffixInBlocks(starts, before, lost);
      TotalConcat(before, lost);
      forall sat: nat, sp | FirstOfBlock(starts, sat) && Locates(after.utxos, sat, sp)
        ensures sat in after.satpoints && after.satpoints[sat] == sp
      {
        assert Held(Progress(ledger, lost), sat) <= 1;
        LostTracks(starts, ledger, lost, sat, sp);
      }
      forall sat | sat in after.satpoints
        ensures FirstOfBlock(starts, sat) && sat < mined
      {
        RecordRangesDomain(starts, ledger.satpoints, NULL, lost, ledger.lost, sat);
        assert Held(Progress(ledger, lost), sat) == if sat < mined then 1 else 0;
      }
    }
  }

  // ----- blocks and chains -----

  lemma OpenedMidway(starts: Schedule, ledger: Ledger, height: nat)
    requires Nondecreasing(starts) && Sound(starts, ledger, height)
    ensures Midway(starts, Opened(starts, ledger, height), starts(height + 1))
  {
    assert starts(height) <= starts(height + 1);
    forall sat: nat
      ensures Held(Opened(starts, ledger, height), sat) == if sat < starts(height + 1) then 1 else 0
    {
      OpenedCounts(starts, ledger, height, sat);
      assert Held(Progress(ledger, []), sat) == Count(ledger.utxos, sat);
    }
    forall r | r in Opened(starts, ledger, height).fees
      ensures WithinBlock(starts, r)
    {
      assert Mines(starts, height, r);
    }
  }

  lemma IndexCoinbaseSound(starts: Schedule, p: Progress, coinbase: Tx, height: nat)
    requires Nondecreasing(starts) && CoinbaseValid(p, coinbase) && Midway(starts, p, starts(height + 1))
    ensures Sound(starts, IndexCoinbase(starts, p, coinbase), height + 1)
  {
    var a := Assign(Values(coinbase.outputs), p.fees);
    assert [] + p.fees == p.fees && [] + a.leftover == a.leftover;
    ReceiveMidway(starts, p.ledger, coinbase, p.fees, [], starts(height + 1));
    AppendLostSound(starts, Receive(starts, p.ledger, coinbase, a.outputs), a.leftover, starts(height + 1));
  }

  /** Every block keeps the invariants of the sat index. */
  lemma IndexBlockSound(starts: Schedule, ledger: Ledger, height: nat, block: seq<Tx>)
    requires Nondecreasing(starts) && BlockValid(starts, ledger, height, block) && Sound(starts, ledger, height)
    ensures Sound(starts, IndexBlock(starts, ledger, height, block), height + 1)
  {
    OpenedMidway(starts, ledger, height);
    IndexTxsMidway(starts, Opened(starts, ledger, height), block[1..], starts(height + 1));
    IndexCoinbaseSound(starts, IndexTxs(starts, Opened(starts, ledger, height), block[1..]), block[0], height);
  }

  lemma {:induction false} IndexChainSound(starts: Schedule, ledger: Ledger, height: nat, blocks: seq<seq<Tx>>)
    requires Nondecreasing(starts) && ChainValid(starts, ledger, height, blocks) && Sound(starts, ledger, height)
    ensures Sound(starts, IndexChain(starts, ledger, height, blocks), height + |blocks|)
    decreases |blocks|
  {
    if blocks != [] {
      IndexBlockSound(starts, ledger, height, blocks[0]);
      IndexChainSound(starts, IndexBlock(starts, ledger, height, blocks[0]), height + 1, blocks[1..]);
    }
  }

  lemma EmptySound(starts: Schedule)
    requires starts(0) == 0
    ensures Sound(starts, EMPTY, 0)
  {
  }

  // ----- what the invariants mean -----

  lemma SoundIsPartition(starts: Schedule, ledger: Ledger, height: nat)
    requires Sound(starts, ledger, height)
    ensures Partition(ledger.utxos, starts(height))
  {
    forall sat: nat
      ensures Count(ledger.utxos, sat) == if sat < starts(height) then 1 else 0
    {
      assert Held(Progress(ledger, []), sat) == Count(ledger.utxos, sat);
    }
    CountingIsPartition(ledger.utxos, starts(height));
  }

  /** The table answers for exactly the mined first-of-block sats, and answers with the
      one place where the sat is. */
  lemma TableIsExact(starts: Schedule, ledger: Ledger, height: nat, sat: nat)
    requires Sound(starts, ledger, height)
    ensures sat in ledger.satpoints <==> FirstOfBlock(starts, sat) && sat < starts(height)
    ensures sat in ledger.satpoints ==> forall sp :: Locates(ledger.utxos, sat, sp) <==> sp == ledger.satpoints[sat]
  {
    SoundIsPartition(starts, ledger, height);
    if sat < starts(height) {
      assert Somewhere(ledger.utxos, sat);
    }
  }

  /** The entries partition the first `mined` sats, and the rare-sat table answers as a full scan would. */
  ghost predicate Complete(starts: Schedule, ledger: Ledger, mined: nat) {
    && Partition(ledger.utxos, mined)
    && (forall sat: nat :: sat in ledger.satpoints <==> FirstOfBlock(starts, sat) && sat < mined)
    && (forall sat | sat in ledger.satpoints :: Locates(ledger.utxos, sat, ledger.satpoints[sat]))
  }

  lemma SoundIsComplete(starts: Schedule, ledger: Ledger, height: nat)
    requires Sound(starts, ledger, height)
    ensures Complete(starts, ledger, starts(height))
  {
    SoundIsPartition(starts, ledger, height);
    forall sat: nat
      ensures sat in ledger.satpoints <==> FirstOfBlock(starts, sat) && sat < starts(height)
      ensures sat in ledger.satpoints ==> Locates(ledger.utxos, sat, ledger.satpoints[sat])
    {
      TableIsExact(starts, ledger, height, sat);
    }
  }

  /** The ledger is what some run of `height` valid blocks leaves behind. */
  ghost predicate Reachable(starts: Schedule, height: nat, ledger: Ledger) {
    exists blocks :: |blocks| == height && LeavesBehind(starts, blocks, ledger)
  }

  ghost predicate LeavesBehind(starts: Schedule, blocks: seq<seq<Tx>>, ledger: Ledger) {
    ChainValid(starts, EMPTY, 0, blocks) && ledger == IndexChain(starts, EMPTY, 0, blocks)
  }

  lemma ReachableIsSound(starts: Schedule, height: nat, ledger: Ledger)
    requires Nondecreasing(starts) && starts(0) == 0 && Reachable(starts, height, ledger)
    ensures Sound(starts, ledger, height)
  {
    var blocks :| |blocks| == height && LeavesBehind(starts, blocks, ledger);
    EmptySound(starts);
    IndexChainSound(starts, EMPTY, 0, blocks);
  }

  /** After any run of valid blocks the entries partition exactly the sats mined so far,
      and the rare-sat table gives exactly the answers of a full scan. */
  lemma EverySatInExactlyOnePlace(starts: Schedule, height: nat, ledger: Ledger)
    requires Nondecreasing(starts) && starts(0) == 0 && Reachable(starts, height, ledger)
    ensures Complete(starts, ledger, starts(height))
  {
    ReachableIsSound(starts, height, ledger);
    SoundIsComplete(starts, ledger, height);
  }
}
