/** The sat index itself: a database, a write-back cache over it, and the updater's loops.

Every method is proved to compute the functions of LedgerModel.dfy on the plain map that the
database and the cache stand for together, whatever has or has not been committed.
*/
module SatIndex {
  import opened Options
  import opened Bitcoin
  import opened SatRanges
  import opened SubsidySchedule
  import opened LedgerModel
  import opened Conservation
  import opened RangeSearch
  import opened RareSats

  /** `Stops` stands for a panic. */
  datatype FoundRange = Stops | NotMined | BadRange | Pieces(pieces: seq<FindRangeOutput>)

  /** The schedule the index runs on is the real one. */
  ghost predicate IsMainnet(starts: Schedule) {
    forall height: nat {:trigger StartingSat(height)} :: starts(height) == StartingSat(height)
  }

  lemma MainnetSchedule(starts: Schedule)
    requires IsMainnet(starts)
    ensures Nondecreasing(starts) && starts(0) == 0
  {
    assert StartingSat(0) == 0;
    forall low: nat, high: nat | low <= high
      ensures starts(low) <= starts(high)
    {
      StartingSatMonotone(low, high);
    }
  }

  lemma SubsidyIsTheDifference(starts: Schedule, height: nat)
    requires IsMainnet(starts)
    ensures starts(height) == StartingSat(height)
    ensures starts(height + 1) == starts(height) + Subsidy(height)
  {
    assert StartingSat(height + 1) == StartingSat(height) + Subsidy(height);
  }

  /** The program's divisibility test finds exactly the first sats of blocks. */
  lemma UncommonOnMainnet(starts: Schedule, sat: nat)
    requires IsMainnet(starts)
    ensures FirstOfBlock(starts, sat) <==> sat < SUPPLY && !Common(sat)
  {
    if FirstOfBlock(starts, sat) {
      var height: nat :| Opens(starts, height, sat);
      SubsidyIsTheDifference(starts, height);
      SupplyIsTheLimit(height + 1);
      UncommonExactlyFirstOfBlock(sat);
    } else if sat < SUPPLY && !Common(sat) {
      UncommonExactlyFirstOfBlock(sat);
      var height :| StartingSat(height) == sat && Subsidy(height) > 0;
      SubsidyIsTheDifference(starts, height);
      assert Opens(starts, height, sat);
    }
  }

  // ----- the map that database and cache stand for -----

  ghost function Combined(db: Utxos, cache: Utxos, outpoint: OutPoint): Entry
    requires outpoint in db || outpoint in cache
  {
    if outpoint !in cache then
      db[outpoint]
    else if IsSpecial(outpoint) && outpoint in db then
      Entry(db[outpoint].ranges + cache[outpoint].ranges, [])
    else
      cache[outpoint]
  }

  ghost function Overlay(db: Utxos, cache: Utxos): Utxos {
    map outpoint | outpoint in db.Keys + cache.Keys :: Combined(db, cache, outpoint)
  }

  lemma OverlayNothing(db: Utxos)
    ensures Overlay(db, map[]) == db
  {
  }

  lemma OverlayFlush(db: Utxos, cache: Utxos, outpoint: OutPoint)
    requires outpoint in cache
    ensures Overlay(db[outpoint := Combined(db, cache, outpoint)], cache - {outpoint}) == Overlay(db, cache)
  {
  }

  lemma OverlayAppend(db: Utxos, cache: Utxos, lost: seq<SatRange>)
    ensures var entry := if NULL in cache then cache[NULL] else Entry([], []);
      var before := if NULL in Overlay(db, cache) then Overlay(db, cache)[NULL].ranges else [];
      Overlay(db, cache[NULL := Entry(entry.ranges + lost, [])])
        == Overlay(db, cache)[NULL := Entry(before + lost, [])]
  {
    var entry := if NULL in cache then cache[NULL] else Entry([], []);
    var stored := if NULL in db then db[NULL].ranges else [];
    ConcatAssociative(stored, entry.ranges, lost);
    assert stored + [] == stored && [] + entry.ranges == entry.ranges && [] + lost == lost;
    var before := if NULL in Overlay(db, cache) then Overlay(db, cache)[NULL].ranges else [];
    assert before == stored + entry.ranges;
  }

  /** Adding an entry under its script keeps the script table the inverse of the database. */
  lemma InvertPut(scripts: set<(Script, OutPoint)>, utxos: Utxos, outpoint: OutPoint, entry: Entry)
    requires ScriptsInvert(scripts, utxos) && (outpoint in utxos ==> utxos[outpoint].script == entry.script)
    ensures ScriptsInvert(scripts + {(entry.script, outpoint)}, utxos[outpoint := entry])
  {
  }

  /** The two entries of a special outpoint, the older one first. */
  function Merged(a: Entry, b: Entry): Entry
    requires a.script == [] && b.script == []
  {
    Entry(a.ranges + b.ranges, [])
  }

  /** What is left of a transaction's input ranges: the half-used range, then the unread ones. */
  function Rest(pending: Option<SatRange>, unread: seq<SatRange>): seq<SatRange> {
    if pending.Some? then [pending.value] + unread else unread
  }

  lemma RestHead(r: SatRange, tail: seq<SatRange>)
    ensures ([r] + tail)[0] == r && ([r] + tail)[1..] == tail
  {
  }

  /** The part of `r` an output still needing `n` sats receives, and the part it leaves. */
  function Piece(r: SatRange, n: nat): SatRange
    requires n > 0
  {
    if n < Size(r) then SatRange(r.start, r.start + n) else r
  }

  function Remnant(r: SatRange, n: nat): Option<SatRange> {
    if n < Size(r) then Some(SatRange(r.start + n, r.end)) else None
  }

  ghost function Noted(starts: Schedule, table: RareTable, sat: nat, sp: SatPoint): RareTable {
    if FirstOfBlock(starts, sat) then table[sat := sp] else table
  }

  /** The filling loop from any point on, turn by turn. */
  ghost function FillLoop(
    starts: Schedule, table: RareTable, outpoint: OutPoint, offset: nat, sats: seq<SatRange>,
    ahead: seq<SatRange>, n: nat): (Cut, RareTable)
    requires n <= Total(ahead)
    decreases n, |ahead|
  {
    if n == 0 then
      (Cut(sats, ahead), table)
    else
      var r, tail := ahead[0], ahead[1..];
      FillKeeps(r, tail, n);
      FillLoop(
        starts, Noted(starts, table, r.start, SatPoint(outpoint, offset)), outpoint, offset + Size(Piece(r, n)),
        sats + [Piece(r, n)], Rest(Remnant(r, n), tail), n - Size(Piece(r, n)))
  }

  lemma FillKeeps(r: SatRange, tail: seq<SatRange>, n: nat)
    requires 0 < n <= Size(r) + Total(tail)
    ensures Size(Piece(r, n)) <= n && n - Size(Piece(r, n)) <= Total(Rest(Remnant(r, n), tail))
  {
    if n < Size(r) {
      RestHead(SatRange(r.start + n, r.end), tail);
    }
  }

  /** The loop ends with the first `n` sats taken ... */
  lemma {:induction false} FillLoopTakes(
    starts: Schedule, table: RareTable, outpoint: OutPoint, offset: nat, sats: seq<SatRange>,
    ahead: seq<SatRange>, n: nat)
    requires n <= Total(ahead)
    ensures FillLoop(starts, table, outpoint, offset, sats, ahead, n).0
         == Cut(sats + Take(ahead, n).taken, Take(ahead, n).rest)
    decreases n, |ahead|
  {
    if n == 0 {
      assert sats + [] == sats;
    } else {
      var r, tail := ahead[0], ahead[1..];
      var piece, left := Piece(r, n), Rest(Remnant(r, n), tail);
      var table' := Noted(starts, table, r.start, SatPoint(outpoint, offset));
      TakeTurn(ahead, n);
      FillLoopTakes(starts, table', outpoint, offset + Size(piece), sats + [piece], left, n - Size(piece));
      ConcatAssociative(sats, [piece], Take(left, n - Size(piece)).taken);
    }
  }

  /** ... and every range start among them noted. */
  lemma {:induction false} FillLoopRecords(
    starts: Schedule, table: RareTable, outpoint: OutPoint, offset: nat, sats: seq<SatRange>,
    ahead: seq<SatRange>, n: nat)
    requires n <= Total(ahead)
    ensures FillLoop(starts, table, outpoint, offset, sats, ahead, n).1
         == RecordRanges(starts, table, outpoint, Take(ahead, n).taken, offset)
    decreases n, |ahead|
  {
    if n > 0 {
      var r, tail := ahead[0], ahead[1..];
      var piece, left := Piece(r, n), Rest(Remnant(r, n), tail);
      var table' := Noted(starts, table, r.start, SatPoint(outpoint, offset));
      TakeTurn(ahead, n);
      FillLoopRecords(starts, table', outpoint, offset + Size(piece), sats + [piece], left, n - Size(piece));
      RecordHead(starts, table, outpoint, offset, piece, Take(left, n - Size(piece)).taken);
    }
  }

  lemma RecordHead(
    starts: Schedule, table: RareTable, outpoint: OutPoint, offset: nat, r: SatRange, more: seq<SatRange>)
    ensures RecordRanges(starts, table, outpoint, [r] + more, offset)
         == RecordRanges(
              starts, Noted(starts, table, r.start, SatPoint(outpoint, offset)), outpoint, more, offset + Size(r))
  {
    RestHead(r, more);
  }

  lemma TakeTurn(ahead: seq<SatRange>, n: nat)
    requires 0 < n <= Total(ahead)
    ensures var r := ahead[0];
      && n - Size(Piece(r, n)) <= Total(Rest(Remnant(r, n), ahead[1..])) && Size(Piece(r, n)) <= n
      && Take(ahead, n).taken == [Piece(r, n)] + Take(Rest(Remnant(r, n), ahead[1..]), n - Size(Piece(r, n))).taken
      && Take(ahead, n).rest == Take(Rest(Remnant(r, n), ahead[1..]), n - Size(Piece(r, n))).rest
  {
    FillKeeps(ahead[0], ahead[1..], n);
  }

  /** The loop over a transaction's outputs from any point on. */
  ghost function OutputsLoop(
    starts: Schedule, table: RareTable, tx: Tx, outputs: seq<seq<SatRange>>, ahead: seq<SatRange>)
    : (Assignment, RareTable)
    requires |outputs| <= |tx.outputs| && Sum(Values(tx.outputs)[|outputs|..]) <= Total(ahead)
    decreases |tx.outputs| - |outputs|
  {
    var vout := |outputs|;
    if vout == |tx.outputs| then
      (Assignment(outputs, ahead), table)
    else
      var cut := Take(ahead, tx.outputs[vout].value);
      OneOutput(Values(tx.outputs), vout, ahead);
      OutputsLoop(
        starts, RecordRanges(starts, table, OutPoint(tx.txid, vout), cut.taken, 0), tx, outputs + [cut.taken], cut.rest)
  }

  lemma OneOutput(values: seq<nat>, vout: nat, ahead: seq<SatRange>)
    requires vout < |values| && Sum(values[vout..]) <= Total(ahead)
    ensures values[vout..][0] == values[vout] && values[vout..][1..] == values[vout + 1..]
    ensures values[vout] <= Total(ahead)
    ensures Sum(values[vout + 1..]) <= Total(Take(ahead, values[vout]).rest)
  {
    TakeCuts(ahead, values[vout]);
  }

  lemma {:induction false} OutputsLoopAssigns(
    starts: Schedule, table: RareTable, tx: Tx, outputs: seq<seq<SatRange>>, ahead: seq<SatRange>)
    requires |outputs| <= |tx.outputs| && Sum(Values(tx.outputs)[|outputs|..]) <= Total(ahead)
    ensures var a := Assign(Values(tx.outputs)[|outputs|..], ahead);
      OutputsLoop(starts, table, tx, outputs, ahead).0 == Assignment(outputs + a.outputs, a.leftover)
    decreases |tx.outputs| - |outputs|
  {
    var vout := |outputs|;
    if vout == |tx.outputs| {
      assert outputs + [] == outputs;
    } else {
      var cut := Take(ahead, tx.outputs[vout].value);
      OneOutput(Values(tx.outputs), vout, ahead);
      OutputsLoopAssigns(
        starts, RecordRanges(starts, table, OutPoint(tx.txid, vout), cut.taken, 0), tx, outputs + [cut.taken],
        cut.rest);
      ConcatAssociative(outputs, [cut.taken], Assign(Values(tx.outputs)[vout + 1..], cut.rest).outputs);
    }
  }

  lemma {:induction false} OutputsLoopRecords(
    starts: Schedule, table: RareTable, tx: Tx, outputs: seq<seq<SatRange>>, ahead: seq<SatRange>)
    requires |outputs| <= |tx.outputs| && Sum(Values(tx.outputs)[|outputs|..]) <= Total(ahead)
    ensures var (a, after) := OutputsLoop(starts, table, tx, outputs, ahead);
      && |a.outputs| == |tx.outputs| && outputs <= a.outputs
      && after == RecordOutputs(starts, table, tx.txid, a.outputs, |outputs|)
    decreases |tx.outputs| - |outputs|
  {
    var vout := |outputs|;
    if vout < |tx.outputs| {
      var cut := Take(ahead, tx.outputs[vout].value);
      OneOutput(Values(tx.outputs), vout, ahead);
      var noted := RecordRanges(starts, table, OutPoint(tx.txid, vout), cut.taken, 0);
      OutputsLoopRecords(starts, noted, tx, outputs + [cut.taken], cut.rest);
      var a := OutputsLoop(starts, table, tx, outputs, ahead).0;
      assert a.outputs[vout] == (outputs + [cut.taken])[vout];
    }
  }

  /** What the whole loop comes to. */
  lemma OutputsLoopResult(starts: Schedule, table: RareTable, tx: Tx, input: seq<SatRange>)
    requires Sum(Values(tx.outputs)) <= Total(input)
    ensures Values(tx.outputs)[0..] == Values(tx.outputs)
    ensures var a := Assign(Values(tx.outputs), input);
      && |a.outputs| == |tx.outputs|
      && OutputsLoop(starts, table, tx, [], input) == (a, RecordOutputs(starts, table, tx.txid, a.outputs, 0))
  {
    var a := Assign(Values(tx.outputs), input);
    assert Values(tx.outputs)[0..] == Values(tx.outputs);
    OutputsLoopAssigns(starts, table, tx, [], input);
    OutputsLoopRecords(starts, table, tx, [], input);
    assert [] + a.outputs == a.outputs;
  }

  lemma {:induction false} ChainSnoc(
    starts: Schedule, ledger: Ledger, height: nat, blocks: seq<seq<Tx>>, block: seq<Tx>, at: nat)
    requires ChainValid(starts, ledger, height, blocks) && at == height + |blocks|
    requires BlockValid(starts, IndexChain(starts, ledger, height, blocks), at, block)
    ensures ChainValid(starts, ledger, height, blocks + [block])
    ensures IndexChain(starts, ledger, height, blocks + [block])
         == LedgerModel.IndexBlock(starts, IndexChain(starts, ledger, height, blocks), at, block)
    decreases |blocks|
  {
    if blocks == [] {
      assert [block][1..] == [];
      assert blocks + [block] == [block];
    } else {
      var first, more := blocks[0], blocks[1..];
      assert (blocks + [block])[1..] == more + [block];
      assert at == height + 1 + |more|;
      ChainSnoc(starts, LedgerModel.IndexBlock(starts, ledger, height, first), height + 1, more, block, at);
    }
  }

  lemma ChainCons(starts: Schedule, ledger: Ledger, height: nat, block: seq<Tx>, blocks: seq<seq<Tx>>)
    requires ChainValid(starts, ledger, height, [block] + blocks)
    ensures BlockValid(starts, ledger, height, block)
    ensures ChainValid(starts, LedgerModel.IndexBlock(starts, ledger, height, block), height + 1, blocks)
  {
    assert ([block] + blocks)[1..] == blocks;
  }

  lemma {:induction false} ChainUnsnoc(
    starts: Schedule, ledger: Ledger, height: nat, blocks: seq<seq<Tx>>, block: seq<Tx>, at: nat)
    returns (last: Ledger)
    requires ChainValid(starts, ledger, height, blocks + [block]) && at == height + |blocks|
    ensures ChainValid(starts, ledger, height, blocks)
    ensures last == IndexChain(starts, ledger, height, blocks)
    ensures BlockValid(starts, last, at, block)
    decreases |blocks|
  {
    if blocks == [] {
      assert blocks + [block] == [block];
      last := ledger;
    } else {
      var first, more := blocks[0], blocks[1..];
      assert at == height + 1 + |more|;
      assert blocks + [block] == [first] + (more + [block]);
      ChainCons(starts, ledger, height, first, more + [block]);
      last := ChainUnsnoc(starts, LedgerModel.IndexBlock(starts, ledger, height, first), height + 1, more, block, at);
    }
  }

  ghost predicate OneBlock(starts: Schedule, before: Ledger, height: nat, block: seq<Tx>, after: Ledger) {
    BlockValid(starts, before, height, block) && after == LedgerModel.IndexBlock(starts, before, height, block)
  }

  /** The ledgers between the blocks, from the one before the first block to the one after the last. */
  ghost predicate IsTrace(starts: Schedule, from: nat, blocks: seq<seq<Tx>>, trace: seq<Ledger>) {
    && |trace| == |blocks| + 1
    && forall n {:trigger blocks[n]} :: 0 <= n < |blocks| ==>
      OneBlock(starts, trace[n], from + n, blocks[n], trace[n + 1])
  }

  lemma {:induction false} TraceOf(starts: Schedule, before: Ledger, from: nat, blocks: seq<seq<Tx>>)
    returns (trace: seq<Ledger>)
    requires ChainValid(starts, before, from, blocks)
    ensures IsTrace(starts, from, blocks, trace) && trace[0] == before
    decreases |blocks|
  {
    if blocks == [] {
      trace := [before];
    } else {
      var rest := TraceOf(starts, LedgerModel.IndexBlock(starts, before, from, blocks[0]), from + 1, blocks[1..]);
      trace := [before] + rest;
      TraceCons(starts, from, blocks, before, rest);
    }
  }

  lemma TraceCons(starts: Schedule, from: nat, blocks: seq<seq<Tx>>, before: Ledger, rest: seq<Ledger>)
    requires blocks != [] && IsTrace(starts, from + 1, blocks[1..], rest)
    requires OneBlock(starts, before, from, blocks[0], rest[0])
    ensures IsTrace(starts, from, blocks, [before] + rest)
  {
    var trace := [before] + rest;
    forall n | 0 <= n < |blocks|
      ensures OneBlock(starts, trace[n], from + n, blocks[n], trace[n + 1])
    {
      if n > 0 {
        assert blocks[1..][n - 1] == blocks[n];
      }
    }
  }

  lemma TracePrefix(starts: Schedule, from: nat, blocks: seq<seq<Tx>>, trace: seq<Ledger>, n: nat)
    requires IsTrace(starts, from, blocks, trace) && n <= |blocks|
    ensures IsTrace(starts, from, blocks[..n], trace[..n + 1])
  {
    forall k | 0 <= k < n
      ensures OneBlock(starts, trace[..n + 1][k], from + k, blocks[..n][k], trace[..n + 1][k + 1])
    {
      assert OneBlock(starts, trace[k], from + k, blocks[k], trace[k + 1]);
    }
  }

  lemma TraceTail(starts: Schedule, from: nat, blocks: seq<seq<Tx>>, trace: seq<Ledger>)
    requires IsTrace(starts, from, blocks, trace) && blocks != []
    ensures IsTrace(starts, from + 1, blocks[1..], trace[1..])
  {
    forall k | 0 <= k < |blocks| - 1
      ensures OneBlock(starts, trace[1..][k], from + 1 + k, blocks[1..][k], trace[1..][k + 1])
    {
      assert OneBlock(starts, trace[k + 1], from + (k + 1), blocks[k + 1], trace[k + 2]);
    }
  }

  lemma TraceStops(
    starts: Schedule, from: nat, blocks: seq<seq<Tx>>, trace: seq<Ledger>, n: nat, before: Ledger, after: Ledger)
    requires IsTrace(starts, from, blocks, trace) && n <= |blocks| && before == trace[0] && after == trace[n]
    ensures ChainValid(starts, before, from, blocks[..n])
    ensures after == IndexChain(starts, before, from, blocks[..n])
  {
    TracePrefix(starts, from, blocks, trace, n);
    TraceIsChain(starts, from, blocks[..n], trace[..n + 1]);
  }

  lemma {:induction false} TraceIsChain(starts: Schedule, from: nat, blocks: seq<seq<Tx>>, trace: seq<Ledger>)
    requires IsTrace(starts, from, blocks, trace)
    ensures ChainValid(starts, trace[0], from, blocks)
    ensures trace[|blocks|] == IndexChain(starts, trace[0], from, blocks)
    decreases |blocks|
  {
    if blocks != [] {
      assert OneBlock(starts, trace[0], from + 0, blocks[0], trace[1]);
      TraceTail(starts, from, blocks, trace);
      TraceIsChain(starts, from + 1, blocks[1..], trace[1..]);
    }
  }

  /** A committed snapshot, which is all a reader sees. */
  datatype Database = Database(
    utxos: Utxos, scripts: set<(Script, OutPoint)>, satpoints: RareTable, lost: nat, blockCount: nat)

  /** The script table is the inverse of the stored entries: it lists each stored outpoint
      under its own script and lists nothing else. */
  ghost predicate ScriptsInvert(scripts: set<(Script, OutPoint)>, utxos: Utxos) {
    forall script, outpoint :: (script, outpoint) in scripts <==> outpoint in utxos && utxos[outpoint].script == script
  }

  ghost function DatabaseState(d: Database): Ledger {
    Ledger(d.utxos, d.satpoints, d.lost)
  }

  ghost predicate DatabaseValid(starts: Schedule, d: Database) {
    ScriptsInvert(d.scripts, d.utxos) && Sound(starts, DatabaseState(d), d.blockCount)
  }

  /** How many of the first `n` blocks the commits have covered. */
  function Kept(n: nat, interval: nat, due: seq<bool>): (kept: nat)
    requires n <= |due|
    ensures kept <= n
  {
    if n == 0 then 0
    else
      var before := Kept(n - 1, interval, due);
      if n - before == interval || due[n - 1] then n else before
  }

  /** A commit covers a block no later than the interval, and no block that is due stays uncovered; without such
      blocks the commits are an interval apart. */
  lemma {:induction false} KeptExactly(n: nat, interval: nat, due: seq<bool>)
    requires n <= |due| && interval > 0
    ensures var kept := Kept(n, interval, due);
      && n - kept < interval && (forall i :: kept <= i < n ==> !due[i])
      && (kept > 0 ==> due[kept - 1] || kept >= interval)
      && ((forall i :: 0 <= i < n ==> !due[i]) ==> exists k: nat :: IsMultiple(kept, interval, k))
  {
    if n > 0 {
      KeptExactly(n - 1, interval, due);
      var before := Kept(n - 1, interval, due);
      if forall i :: 0 <= i < n ==> !due[i] {
        var k: nat :| IsMultiple(before, interval, k);
        assert IsMultiple(before + interval, interval, k + 1);
      }
    } else {
      assert IsMultiple(0, interval, 0);
    }
  }

  predicate IsMultiple(n: nat, d: nat, k: nat) {
    n == k * d
  }

  class Index {
    ghost const starts: Schedule

    // the write transaction
    var db: Utxos
    var scripts: set<(Script, OutPoint)>
    var satpoints: RareTable
    var lostSats: nat
    var blockCount: nat

    var committed: Database

    // the updater
    var cache: Utxos
    var height: nat

    ghost predicate Consistent()
      reads this
    {
      && (forall outpoint | outpoint in db && outpoint in cache :: IsSpecial(outpoint))
      && (forall outpoint | outpoint in db && IsSpecial(outpoint) :: db[outpoint].script == [])
      && (forall outpoint | outpoint in cache && IsSpecial(outpoint) :: cache[outpoint].script == [])
      && ScriptsInvert(scripts, db)
    }

    /** The plain map of unspent outputs. */
    ghost function View(): Utxos
      reads this
    {
      Overlay(db, cache)
    }

    ghost function State(): Ledger
      reads this
    {
      Ledger(View(), satpoints, lostSats)
    }

    ghost predicate Valid()
      reads this
    {
      && Consistent() && IsMainnet(starts)
      && blockCount == height && Sound(starts, State(), height)
    }

    ghost function CommittedState(): Ledger
      reads this
    {
      DatabaseState(committed)
    }

    ghost predicate CommittedValid()
      reads this
    {
      IsMainnet(starts) && DatabaseValid(starts, committed)
    }

    /** Nothing is waiting to be committed. */
    ghost predicate Flushed()
      reads this
    {
      cache == map[] && committed == Database(db, scripts, satpoints, lostSats, blockCount)
    }

    constructor (ghost schedule: Schedule)
      requires IsMainnet(schedule)
      ensures starts == schedule && Valid() && CommittedValid() && Flushed()
      ensures State() == EMPTY && height == 0
    {
      starts := schedule;
      db, scripts, satpoints, lostSats, blockCount := map[], {}, map[], 0, 0;
      committed := Database(map[], {}, map[], 0, 0);
      cache, height := map[], 0;
      new;
      MainnetSchedule(starts);
      OverlayNothing(db);
      EmptySound(starts);
    }

    // ----- the schedule, as the program computes it -----

    /** The sats the next block mines. */
    method MintedRanges(height: nat) returns (ranges: seq<SatRange>)
      requires IsMainnet(starts)
      ensures ranges == Minted(starts(height), starts(height + 1))
    {
      ranges := [];
      ClosedFormIsSum(height);
      SubsidyIsTheDifference(starts, height);
      if Subsidy(height) > 0 {
        var start := FastStartingSat(height);
        ranges := [SatRange(start, start + Subsidy(height))];
      }
    }

    /** No sat lies beyond the supply; the program would divide by zero there. */
    method IsCommon(sat: nat) returns (common: bool)
      requires IsMainnet(starts)
      ensures common <==> !FirstOfBlock(starts, sat)
    {
      UncommonOnMainnet(starts, sat);
      common := sat >= SUPPLY || Common(sat);
    }

    // ----- one output -----

    /** Take sats for one output, the half-used range first, noting the table as it goes. */
    method FillOutput(
      outpoint: OutPoint, value: nat, unused: Option<SatRange>, input: seq<SatRange>, noted: RareTable)
      returns (sats: seq<SatRange>, pending: Option<SatRange>, unread: seq<SatRange>, table: RareTable)
      requires value <= Total(Rest(unused, input)) && IsMainnet(starts)
      ensures sats == Take(Rest(unused, input), value).taken
      ensures Rest(pending, unread) == Take(Rest(unused, input), value).rest
      ensures table == RecordRanges(starts, noted, outpoint, sats, 0)
    {
      sats, pending, unread, table := [], unused, input, noted;
      var remaining: nat := value;
      ghost var goal := FillLoop(starts, noted, outpoint, 0, [], Rest(unused, input), value);
      FillLoopTakes(starts, noted, outpoint, 0, [], Rest(unused, input), value);
      FillLoopRecords(starts, noted, outpoint, 0, [], Rest(unused, input), value);
      while remaining > 0
        invariant remaining <= value && remaining <= Total(Rest(pending, unread))
        invariant FillLoop(starts, table, outpoint, value - remaining, sats, Rest(pending, unread), remaining) == goal
        decreases remaining, |Rest(pending, unread)|
      {
        var range, tail := NextRange(pending, unread);
        FillKeeps(range, tail, remaining);
        var common := IsCommon(range.start);
        if !common {
          table := table[range.start := SatPoint(outpoint, value - remaining)];
        }
        var piece := Piece(range, remaining);
        pending, unread := Remnant(range, remaining), tail;
        sats := sats + [piece];
        remaining := remaining - Size(piece);
      }
    }

    method NextRange(pending: Option<SatRange>, unread: seq<SatRange>) returns (range: SatRange, tail: seq<SatRange>)
      requires Rest(pending, unread) != []
      ensures range == Rest(pending, unread)[0] && tail == Rest(pending, unread)[1..]
    {
      if pending.Some? {
        range, tail := pending.value, unread;
      } else {
        range, tail := unread[0], unread[1..];
      }
      RestHead(range, tail);
    }

    // ----- one transaction -----

    /** Hand the input sats out to the outputs, first in, first out. */
    method IndexTransactionSats(tx: Tx, input: seq<SatRange>)
      returns (outputs: seq<seq<SatRange>>, leftover: seq<SatRange>)
      requires IsMainnet(starts) && Sum(Values(tx.outputs)) <= Total(input)
      modifies this`satpoints
      ensures Assignment(outputs, leftover) == Assign(Values(tx.outputs), input)
      ensures |outputs| == |tx.outputs|
      ensures satpoints == RecordOutputs(starts, old(satpoints), tx.txid, outputs, 0)
    {
      outputs := [];
      var pending: Option<SatRange>, unread := None, input;
      var table := satpoints;
      OutputsLoopResult(starts, table, tx, input);
      ghost var goal := OutputsLoop(starts, table, tx, [], input);
      while |outputs| < |tx.outputs|
        invariant |outputs| <= |tx.outputs|
        invariant Sum(Values(tx.outputs)[|outputs|..]) <= Total(Rest(pending, unread))
        invariant OutputsLoop(starts, table, tx, outputs, Rest(pending, unread)) == goal
      {
        var vout := |outputs|;
        OneOutput(Values(tx.outputs), vout, Rest(pending, unread));
        var sats;
        sats, pending, unread, table :=
          FillOutput(OutPoint(tx.txid, vout), tx.outputs[vout].value, pending, unread, table);
        outputs := outputs + [sats];
      }
      satpoints := table;
      leftover := (if pending.Some? then [pending.value] else []) + unread;
      assert leftover == Rest(pending, unread);
    }

    /** Take one output out of the cache or, with its script, out of the database. */
    method Spend(outpoint: OutPoint) returns (entry: Entry)
      requires Consistent() && outpoint in View() && !IsSpecial(outpoint)
      modifies this`db, this`cache, this`scripts
      ensures Consistent()
      ensures entry == old(View())[outpoint]
      ensures View() == old(View()) - {outpoint}
    {
      if outpoint in cache {
        entry := cache[outpoint];
        cache := cache - {outpoint};
      } else {
        entry := db[outpoint];
        var deleted := (entry.script, outpoint) in scripts;
        scripts := scripts - {(entry.script, outpoint)};
        if !deleted {
          // the panic "script pubkey entry not found"
          assert false;
        }
        db := db - {outpoint};
      }
    }

    method SpendInputs(tx: Tx) returns (ranges: seq<SatRange>)
      requires Consistent() && Spendable(View(), tx.inputs)
      modifies this`db, this`cache, this`scripts
      ensures Consistent()
      ensures ranges == SpentRanges(old(View()), tx.inputs)
      ensures View() == Unspent(old(View()), tx.inputs)
    {
      ranges := [];
      var inputs := tx.inputs;
      while inputs != []
        invariant Consistent() && Spendable(View(), inputs)
        invariant ranges + SpentRanges(View(), inputs) == SpentRanges(old(View()), tx.inputs)
        invariant Unspent(View(), inputs) == Unspent(old(View()), tx.inputs)
        decreases |inputs|
      {
        ghost var more := SpentRanges(View() - {inputs[0]}, inputs[1..]);
        var entry := Spend(inputs[0]);
        ConcatAssociative(ranges, entry.ranges, more);
        ranges := ranges + entry.ranges;
        inputs := inputs[1..];
      }
    }

    /** Put a new output into the cache. */
    method Insert(outpoint: OutPoint, entry: Entry)
      requires Consistent() && outpoint !in View() && !IsSpecial(outpoint)
      modifies this`cache
      ensures Consistent()
      ensures View() == old(View())[outpoint := entry]
    {
      cache := cache[outpoint := entry];
    }

    method InsertOutputs(tx: Tx, outputs: seq<seq<SatRange>>)
      requires Consistent() && |outputs| == |tx.outputs| && CreatesFresh(View(), tx)
      modifies this`cache
      ensures Consistent()
      ensures View() == Credit(old(View()), tx, outputs, 0)
    {
      var vout := 0;
      while vout < |outputs|
        invariant vout <= |outputs| && Consistent()
        invariant forall v | vout <= v < |outputs| :: OutPoint(tx.txid, v) !in View()
        invariant Credit(View(), tx, outputs, vout) == Credit(old(View()), tx, outputs, 0)
      {
        Insert(OutPoint(tx.txid, vout), Entry(outputs[vout], tx.outputs[vout].script));
        vout := vout + 1;
      }
    }

    // ----- one block -----

    /** Append the sats no output claimed to the null outpoint's entry. */
    method AppendLostRanges(lost: seq<SatRange>)
      requires Consistent() && IsMainnet(starts)
      modifies this`cache, this`satpoints, this`lostSats
      ensures Consistent()
      ensures State() == AppendLost(starts, old(State()), lost)
    {
      if lost != [] {
        var entry := if NULL in cache then cache[NULL] else Entry([], []);
        RecordLost(lost);
        OverlayAppend(db, cache, lost);
        cache := cache[NULL := Merged(entry, Entry(lost, []))];
      }
    }

    method RecordLost(lost: seq<SatRange>)
      requires IsMainnet(starts)
      modifies this`satpoints, this`lostSats
      ensures satpoints == RecordRanges(starts, old(satpoints), NULL, lost, old(lostSats))
      ensures lostSats == old(lostSats) + Total(lost)
    {
      var todo := lost;
      while todo != []
        invariant RecordRanges(starts, satpoints, NULL, todo, lostSats)
               == RecordRanges(starts, old(satpoints), NULL, lost, old(lostSats))
        invariant lostSats + Total(todo) == old(lostSats) + Total(lost)
        decreases |todo|
      {
        var common := IsCommon(todo[0].start);
        if !common {
          satpoints := satpoints[todo[0].start := SatPoint(NULL, lostSats)];
        }
        lostSats := lostSats + Size(todo[0]);
        todo := todo[1..];
      }
    }

    method IndexTransaction(tx: Tx, fees: seq<SatRange>) returns (more: seq<SatRange>)
      requires Consistent() && IsMainnet(starts) && TxValid(View(), tx)
      modifies this`db, this`cache, this`scripts, this`satpoints
      ensures Consistent()
      ensures Progress(State(), more) == IndexTx(starts, Progress(old(State()), fees), tx)
    {
      var ranges := SpendInputs(tx);
      var outputs, leftover := IndexTransactionSats(tx, ranges);
      InsertOutputs(tx, outputs);
      more := fees + leftover;
    }

    method IndexTransactions(block: seq<Tx>, minted: seq<SatRange>) returns (fees: seq<SatRange>)
      requires Consistent() && IsMainnet(starts) && TxsValid(starts, Progress(State(), minted), block)
      modifies this`db, this`cache, this`scripts, this`satpoints
      ensures Consistent()
      ensures Progress(State(), fees) == IndexTxs(starts, Progress(old(State()), minted), block)
    {
      fees := minted;
      var txs := block;
      ghost var goal := IndexTxs(starts, Progress(State(), minted), block);
      while txs != []
        invariant Consistent() && TxsValid(starts, Progress(State(), fees), txs)
        invariant IndexTxs(starts, Progress(State(), fees), txs) == goal
        decreases |txs|
      {
        fees := IndexTransaction(txs[0], fees);
        txs := txs[1..];
      }
    }

    method IndexCoinbase(coinbase: Tx, fees: seq<SatRange>)
      requires Consistent() && IsMainnet(starts) && CoinbaseValid(Progress(State(), fees), coinbase)
      modifies this`db, this`cache, this`scripts, this`satpoints, this`lostSats
      ensures Consistent()
      ensures State() == LedgerModel.IndexCoinbase(starts, Progress(old(State()), fees), coinbase)
    {
      var outputs, lost := IndexTransactionSats(coinbase, fees);
      InsertOutputs(coinbase, outputs);
      AppendLostRanges(lost);
    }

    /** Index a block: every other transaction first, then the coinbase, which collects the fees. */
    method IndexBlock(block: seq<Tx>)
      requires Valid() && BlockValid(starts, State(), height, block)
      modifies this`db, this`cache, this`scripts, this`satpoints, this`lostSats, this`blockCount, this`height
      ensures Valid()
      ensures height == old(height) + 1
      ensures State() == LedgerModel.IndexBlock(starts, old(State()), old(height), block)
    {
      MainnetSchedule(starts);
      IndexBlockSound(starts, State(), height, block);
      var minted := MintedRanges(height);
      var fees := IndexTransactions(block[1..], minted);
      IndexCoinbase(block[0], fees);
      NextHeight();
    }

    method NextHeight()
      modifies this`blockCount, this`height
      ensures blockCount == height == old(height) + 1
      ensures State() == old(State()) && Consistent() == old(Consistent())
    {
      blockCount := height + 1;
      height := height + 1;
    }

    // ----- commits -----

    /** Write the cache through. The entries come out of a hash map, in any order. */
    method Commit()
      requires Valid()
      modifies this`db, this`cache, this`scripts, this`committed
      ensures Valid() && CommittedValid() && Flushed()
      ensures State() == old(State()) == CommittedState() && committed.blockCount == height
    {
      FlushAll();
      committed := Database(db, scripts, satpoints, lostSats, blockCount);
    }

    method FlushAll()
      requires Consistent()
      modifies this`db, this`cache, this`scripts
      ensures Consistent() && View() == old(View()) && cache == map[] && View() == db
    {
      while cache != map[]
        invariant Consistent() && View() == old(View())
        decreases |cache|
      {
        var outpoint :| outpoint in cache;
        Flush(outpoint);
      }
      OverlayNothing(db);
    }

    /** Move one entry from the cache to the database, merging the entries of a special outpoint. */
    method Flush(outpoint: OutPoint)
      requires Consistent() && outpoint in cache
      modifies this`db, this`cache, this`scripts
      ensures Consistent() && View() == old(View())
      ensures |cache| < |old(cache)|
    {
      var entry := cache[outpoint];
      if IsSpecial(outpoint) && outpoint in db {
        entry := Merged(db[outpoint], entry);
      }
      assert entry == Combined(db, cache, outpoint);
      OverlayFlush(db, cache, outpoint);
      InvertPut(scripts, db, outpoint, entry);
      db := db[outpoint := entry];
      scripts := scripts + {(entry.script, outpoint)};
      cache := cache - {outpoint};
    }

    /** The process dies: the write transaction and the cache are gone. */
    method Restart()
      requires CommittedValid()
      modifies this`db, this`cache, this`scripts, this`satpoints, this`lostSats, this`blockCount, this`height
      ensures Valid() && CommittedValid() && Flushed()
      ensures State() == CommittedState() && height == committed.blockCount
    {
      db, scripts, satpoints := committed.utxos, committed.scripts, committed.satpoints;
      lostSats, blockCount, height, cache := committed.lost, committed.blockCount, committed.blockCount, map[];
      OverlayNothing(db);
    }

    /** A savepoint's files replace those of the database. */
    method RollBack(saved: Database)
      requires IsMainnet(starts) && DatabaseValid(starts, saved)
      modifies this
      ensures Valid() && CommittedValid() && Flushed()
      ensures committed == saved && State() == DatabaseState(saved) && height == saved.blockCount
    {
      committed := saved;
      Restart();
    }

    /** After a block: commit if the interval is full or a savepoint is due. Says how many
        blocks are left uncommitted and whether the loop must stop. */
    method CommitIfDue(uncommitted: nat, interval: nat, due: bool) returns (left: nat, halt: bool)
      requires Valid() && CommittedValid()
      modifies this`db, this`cache, this`scripts, this`committed
      ensures Valid() && CommittedValid() && State() == old(State())
      ensures left == (if uncommitted == interval || due then 0 else uncommitted) && !halt
      ensures uncommitted == interval || due ==> Flushed()
      ensures !(uncommitted == interval || due) ==> committed == old(committed)
    {
      left, halt := uncommitted, false;
      if uncommitted == interval || due {
        Commit();
        left := 0;
        halt := blockCount != height;
      }
    }

    /** The write transaction is `n` blocks and the committed database `kept` blocks from the start of the trace. */
    ghost predicate Midway(from: nat, trace: seq<Ledger>, n: nat, kept: nat)
      requires kept <= n < |trace|
      reads this
    {
      && Valid() && CommittedValid()
      && height == from + n && State() == trace[n]
      && committed.blockCount == from + kept && CommittedState() == trace[kept]
      && (kept == n ==> Flushed())
    }

    /** One turn of the loop. */
    method IndexAndCommit(
      blocks: seq<seq<Tx>>, ghost from: nat, ghost trace: seq<Ledger>, n: nat, ghost kept: nat, uncommitted: nat,
      interval: nat, due: bool)
      returns (left: nat, halt: bool)
      requires kept <= n < |blocks| && IsTrace(starts, from, blocks, trace) && Midway(from, trace, n, kept)
      modifies this
      ensures left == (if uncommitted == interval || due then 0 else uncommitted) && !halt
      ensures Midway(from, trace, n + 1, if uncommitted == interval || due then n + 1 else kept)
    {
      IndexNext(blocks, from, trace, n);
      left, halt := CommitIfDue(uncommitted, interval, due);
    }

    method IndexNext(blocks: seq<seq<Tx>>, ghost from: nat, ghost trace: seq<Ledger>, n: nat)
      requires n < |blocks| && IsTrace(starts, from, blocks, trace)
      requires Valid() && CommittedValid() && height == from + n && State() == trace[n]
      modifies this`db, this`cache, this`scripts, this`satpoints, this`lostSats, this`blockCount, this`height
      ensures Valid() && CommittedValid() && height == from + n + 1 && State() == trace[n + 1]
    {
      assert OneBlock(starts, trace[n], from + n, blocks[n], trace[n + 1]);
      IndexBlock(blocks[n]);
    }

    /** Index blocks as they arrive. When to commit, and when to stop, is up to the commit
        interval, the savepoint policy (`due`) and the shutdown flag (`stop`).  If a block that does not
        follow (`forked`) comes after them, the update fails and what is not committed is gone. */
    method UpdateIndex(blocks: seq<seq<Tx>>, interval: nat, due: seq<bool>, stop: seq<bool>, forked: bool)
      returns (n: nat, kept: nat, failed: bool)
      requires Valid() && CommittedValid() && Flushed()
      requires ChainValid(starts, State(), height, blocks) && |due| == |stop| == |blocks|
      modifies this
      ensures kept <= n <= |blocks| && Valid() && CommittedValid() && Flushed()
      ensures height == old(height) + kept
      ensures ChainValid(starts, old(State()), old(height), blocks[..kept])
      ensures State() == IndexChain(starts, old(State()), old(height), blocks[..kept])
      ensures failed ==> forked && n == |blocks| && kept == Kept(n, interval, due)
      ensures forall k :: 0 <= k < n - 1 || (failed && k == n - 1 >= 0) ==> !stop[k]
      ensures !failed ==> kept == n && ((n == |blocks| && !forked) || (n > 0 && stop[n - 1]))
    {
      ghost var trace := TraceOf(starts, State(), height, blocks);
      OverlayNothing(db);
      var halt;
      n, kept, halt := IndexBlocks(blocks, height, trace, interval, due, stop);
      failed := forked && !halt;
      if failed {
        Restart();
      } else {
        CommitRest(n - kept);
        kept := n;
      }
      TraceStops(starts, old(height), blocks, trace, kept, old(State()), State());
    }

    /** The loop: until the blocks or the process end. */
    method IndexBlocks(
      blocks: seq<seq<Tx>>, ghost from: nat, ghost trace: seq<Ledger>, interval: nat, due: seq<bool>, stop: seq<bool>)
      returns (n: nat, kept: nat, halt: bool)
      requires |due| == |stop| == |blocks| && IsTrace(starts, from, blocks, trace) && Midway(from, trace, 0, 0)
      modifies this
      ensures n <= |blocks| && kept == Kept(n, interval, due) && Midway(from, trace, n, kept)
      ensures if halt then n > 0 && stop[n - 1] else n == |blocks|
      ensures forall k :: 0 <= k < n - 1 || (!halt && k == n - 1 >= 0) ==> !stop[k]
    {
      n, kept, halt := 0, 0, false;
      var uncommitted := 0;
      while n < |blocks| && !halt
        invariant kept <= n <= |blocks| && uncommitted == n - kept && kept == Kept(n, interval, due)
        invariant Midway(from, trace, n, kept)
        invariant halt ==> n > 0 && stop[n - 1]
        invariant forall k :: 0 <= k < n && (k < n - 1 || !halt) ==> !stop[k]
        decreases |blocks| - n
      {
        uncommitted, halt := IndexAndCommit(blocks, from, trace, n, kept, uncommitted + 1, interval, due[n]);
        n := n + 1;
        kept := if uncommitted == 0 then n else kept;
        halt := halt || stop[n - 1];
      }
    }

    /** After the last block: commit what is left. */
    method CommitRest(uncommitted: nat)
      requires Valid() && CommittedValid() && (uncommitted == 0 ==> Flushed())
      modifies this`db, this`cache, this`scripts, this`committed
      ensures Valid() && CommittedValid() && Flushed() && State() == old(State())
      ensures CommittedState() == State() && committed.blockCount == height
    {
      if uncommitted > 0 {
        Commit();
      }
      OverlayNothing(db);
    }

    // ----- lookups in the committed database -----

    /** The sat ranges of an unspent output: the sat at an offset among them is at that place and at no other. */
    method List(outpoint: OutPoint) returns (ranges: Option<seq<SatRange>>)
      requires CommittedValid()
      ensures ranges == if outpoint in committed.utxos then Some(committed.utxos[outpoint].ranges) else None
      ensures ranges.None? ==> forall sat, offset :: !Locates(committed.utxos, sat, SatPoint(outpoint, offset))
      ensures ranges.Some? ==> forall offset: nat, sp | offset < Total(ranges.value) ::
        Locates(committed.utxos, SatAt(ranges.value, offset), sp) <==> sp == SatPoint(outpoint, offset)
    {
      SoundIsPartition(starts, CommittedState(), committed.blockCount);
      if outpoint !in committed.utxos {
        return None;
      }
      ranges := Some(committed.utxos[outpoint].ranges);
      forall offset: nat, sp | offset < Total(ranges.value)
        ensures Locates(committed.utxos, SatAt(ranges.value, offset), sp) <==> sp == SatPoint(outpoint, offset)
      {
        assert Locates(committed.utxos, SatAt(ranges.value, offset), SatPoint(outpoint, offset));
      }
    }

    /** The unspent outputs paying to a script. */
    method GetAddressInfo(script: Script) returns (outpoints: set<OutPoint>)
      requires CommittedValid()
      ensures outpoints == set outpoint | outpoint in committed.utxos && committed.utxos[outpoint].script == script
    {
      outpoints := set pair | pair in committed.scripts && pair.0 == script :: pair.1;
      forall outpoint | outpoint in committed.utxos && committed.utxos[outpoint].script == script
        ensures outpoint in outpoints
      {
        assert (script, outpoint) in committed.scripts;
      }
    }

    /** Where a sat is: found exactly if it has been mined. */
    method Find(sat: nat) returns (found: Option<SatPoint>)
      requires CommittedValid() && sat < SUPPLY
      ensures found.Some? <==> sat < StartingSat(committed.blockCount)
      ensures found.Some? ==> forall sp :: Locates(committed.utxos, sat, sp) <==> sp == found.value
    {
      MinedExactlyBelow(sat, committed.blockCount);
      assert starts(committed.blockCount) == StartingSat(committed.blockCount);
      if committed.blockCount <= HeightOf(sat) {
        return None;
      }
      SoundIsPartition(starts, CommittedState(), committed.blockCount);
      assert Somewhere(committed.utxos, sat);
      ghost var place :| Locates(committed.utxos, sat, place);
      var left := committed.utxos;
      while left != map[]
        invariant left.Keys <= committed.utxos.Keys && place.outpoint in left
        invariant forall outpoint | outpoint in left :: left[outpoint] == committed.utxos[outpoint]
        decreases |left|
      {
        var outpoint :| outpoint in left;
        var offset := FindIn(left[outpoint].ranges, sat);
        if offset.Some? {
          assert Locates(committed.utxos, sat, SatPoint(outpoint, offset.value));
          return Some(SatPoint(outpoint, offset.value));
        }
        left := left - {outpoint};
      }
    }

    method FindIn(ranges: seq<SatRange>, sat: nat) returns (found: Option<nat>)
      ensures found.Some? ==> found.value < Total(ranges) && SatAt(ranges, found.value) == sat
      ensures found.None? ==> forall i: nat | i < Total(ranges) :: SatAt(ranges, i) != sat
    {
      var todo, offset := ranges, 0;
      ghost var done: seq<SatRange> := [];
      while todo != []
        invariant ranges == done + todo && offset == Total(done) && Occurs(done, sat) == 0
        decreases |todo|
      {
        var r := todo[0];
        if r.start <= sat < r.end {
          SatAtConcat(done, todo, offset + sat - r.start);
          return Some(offset + sat - r.start);
        }
        TotalConcat(done, [r]);
        OccursConcat(done, [r], sat);
        offset := offset + Size(r);
        done, todo := done + [r], todo[1..];
      }
      assert done + [] == done;
      forall i: nat | i < Total(ranges)
        ensures SatAt(ranges, i) != sat
      {
        SatAtOccurs(ranges, i);
      }
      found := None;
    }

    /** Where the sats of a range are. No height belongs to the last sat of a range that ends at zero or beyond the
        supply: the subtraction goes below zero, or the division is by a subsidy of zero. `NotMined` if the range
        reaches past the last block. */
    method FindRange(from: nat, to: nat) returns (found: FoundRange)
      requires CommittedValid()
      ensures found.Stops? <==> to == 0 || SUPPLY < to
      ensures found.NotMined? <==> StartingSat(committed.blockCount) < to <= SUPPLY
      ensures found.BadRange? <==> 0 < to <= StartingSat(committed.blockCount) && to < from
      ensures found.Pieces? ==> PiecesTotal(found.pieces) == to - from
      ensures found.Pieces? && from < to ==> PiecesCover(found.pieces, Search(committed.utxos, from, to))
    {
      SupplyIsTheLimit(committed.blockCount);
      if to == 0 || SUPPLY < to {
        return Stops;
      }
      MinedExactlyBelow(to - 1, committed.blockCount);
      if committed.blockCount < HeightOf(to - 1) + 1 {
        return NotMined;
      }
      if to < from {
        return BadRange;
      }
      var pieces := FindPieces(from, to);
      found := Pieces(pieces);
    }

    /** The scan of all entries. The counter of sats still to find never goes below zero. */
    method FindPieces(from: nat, to: nat) returns (pieces: seq<FindRangeOutput>)
      requires CommittedValid() && from <= to <= StartingSat(committed.blockCount)
      ensures PiecesTotal(pieces) == to - from
      ensures from < to ==> PiecesCover(pieces, Search(committed.utxos, from, to))
    {
      assert starts(committed.blockCount) == StartingSat(committed.blockCount);
      pieces := [];
      var remaining: nat := to - from;
      var left := committed.utxos;
      ghost var s := Search(committed.utxos, from, to);
      SearchStarts(starts, CommittedState(), committed.blockCount, s);
      while left != map[]
        invariant left.Keys <= committed.utxos.Keys
        invariant forall outpoint | outpoint in left :: left[outpoint] == committed.utxos[outpoint]
        invariant PiecesTotal(pieces) + remaining == to - from
        invariant from < to ==> Searching(s, pieces, left, [], remaining)
        decreases |left|
      {
        var outpoint :| outpoint in left;
        EnterEntry(s, pieces, left, outpoint, remaining);
        RangesNonempty(starts, CommittedState(), committed.blockCount, outpoint);
        left := left - {outpoint};
        pieces, remaining := FindRangeIn(committed.utxos, from, to, left, outpoint, pieces, remaining);
      }
      if from < to {
        SearchEnds(s, pieces, remaining);
      }
    }

    method FindRangeIn(
      utxos: Utxos, from: nat, to: nat, ghost left: Utxos, outpoint: OutPoint, before: seq<FindRangeOutput>,
      wanted: nat)
      returns (pieces: seq<FindRangeOutput>, remaining: nat)
      requires from <= to && PiecesTotal(before) + wanted == to - from
      requires outpoint in utxos && forall r | r in utxos[outpoint].ranges :: r.start < r.end
      requires from < to ==> Searching(Search(utxos, from, to), before, left, utxos[outpoint].ranges, wanted)
      ensures PiecesTotal(pieces) + remaining == to - from
      ensures from < to ==> Searching(Search(utxos, from, to), pieces, left, [], remaining)
    {
      pieces, remaining := before, wanted;
      var s := Search(utxos, from, to);
      var todo, offset := utxos[outpoint].ranges, 0;
      ghost var done: seq<SatRange> := [];
      while todo != []
        invariant utxos[outpoint].ranges == done + todo && offset == Total(done)
        invariant PiecesTotal(pieces) + remaining == to - from
        invariant from < to ==> Searching(s, pieces, left, todo, remaining)
        decreases |todo|
      {
        var r := todo[0];
        assert todo == [r] + todo[1..] && r in utxos[outpoint].ranges;
        if from < to {
          VisitRange(s, pieces, left, outpoint, done, r, todo[1..], remaining);
        }
        todo := todo[1..];
        if Overlaps(s, r) {
          var piece := PieceOf(s, r, outpoint, offset);
          PiecesHoldPush(pieces, piece, from);
          pieces := pieces + [piece];
          remaining := remaining - piece.size;
          if remaining == 0 {
            if from < to {
              SkipRest(s, pieces, left, todo);
            }
            break;
          }
        }
        TotalConcat(done, [r]);
        ConcatAssociative(done, [r], todo);
        offset := offset + Size(r);
        done := done + [r];
      }
    }
  }
}
