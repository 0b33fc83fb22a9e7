/** The update loop over the whole index: headers, savepoints and sat index together.

What the node answers is given from outside and may change at every question.  Every update is a run of the
machine of IndexRuns.dfy, which goes on from any run that led to the index as it was.
*/
module UpdateLoop {
  import opened Options
  import opened Bitcoin
  import opened LedgerModel
  import RareSats
  import opened IndexRuns
  import OrdinalTheory
  import SatIndex
  import Reorg

  /** One turn of the loop: the node's chain when the next block was fetched, its chain when the block was checked,
      the number of its headers after that, and whether the program is told to stop. */
  datatype Offer = Offer(source: seq<Hash>, node: seq<Hash>, blocks: nat, stop: bool)

  /** One call of the updater: the node's chain at the start, the turns, and the number of headers at the end. */
  datatype Attempt = Attempt(tip: seq<Hash>, offers: seq<Offer>, blocks: nat)

  /** How a step ends: in step with the node, rolled back to a savepoint, or with an error. */
  datatype Ending = InStep | RolledBack | NoSavepoint | Unrecoverable

  ghost predicate FromNode(w: World, attempt: Attempt) {
    IsNode(w, attempt.tip) && AllFromNode(w, attempt.offers)
  }

  ghost predicate AllFromNode(w: World, offers: seq<Offer>) {
    forall offer <- offers :: IsNode(w, offer.source) && IsNode(w, offer.node)
  }

  /** The node stays on one chain, and the program is not told to stop before the end of it. */
  ghost predicate Steady(attempt: Attempt, c: seq<Hash>) {
    attempt.tip == c && |attempt.offers| >= |c| && SteadyOffers(attempt.offers, c)
  }

  ghost predicate SteadyOffers(offers: seq<Offer>, c: seq<Hash>) {
    forall offer <- offers :: offer.source == offer.node == c && !offer.stop
  }

  /** The index has all blocks of the chain; where it has more, it has not looked at the node's chain. */
  ghost predicate CaughtUp(s: State, c: seq<Hash>) {
    s.live.chain.headers == c || |s.live.chain.headers| > |c|
  }

  /** What an attempt against a node that stays on one chain comes to. */
  ghost predicate Attempted(s: State, c: seq<Hash>, ending: Ending, t: State) {
    && (ending.InStep? ==> CaughtUp(t, c))
    && (s.live.chain.headers <= c ==> ending.InStep?)
    && (ending.RolledBack? && Prefixes(s) ==> t.live.chain.headers <= c)
  }

  // ----- prefixes of chains -----

  lemma {:induction false} PrefixIsChain(w: World, chain: seq<Hash>, n: nat)
    requires IsChain(w, chain) && n <= |chain|
    ensures IsChain(w, chain[..n])
    decreases |chain|
  {
    if n == |chain| {
      assert chain[..n] == chain;
    } else {
      var below := chain[..|chain| - 1];
      assert below + [Last(chain)] == chain;
      LastBlock(w, below, Last(chain));
      PrefixIsChain(w, below, n);
      assert below[..n] == chain[..n];
    }
  }

  /** A run of the machine from the empty index. */
  datatype Run = Run(states: seq<State>, events: seq<Event>)

  /** The run goes on from another one and has come to this state. */
  ghost predicate ComesTo(w: World, base: Run, run: Run, s: State) {
    && w.interval > 0 && w.max > 0 && IsRun(w, run.states, run.events) && Last(run.states) == s
    && base.states <= run.states && base.events <= run.events
  }

  lemma EndIsSound(w: World, base: Run, run: Run, s: State)
    requires ComesTo(w, base, run, s)
    ensures Sound(w, s)
  {
    RunIsSound(w, run.states, run.events, |run.events|);
  }

  lemma RunGrows(w: World, base: Run, run: Run, s: State, e: Event, t: State) returns (longer: Run)
    requires ComesTo(w, base, run, s) && Next(w, s, e, t)
    ensures ComesTo(w, base, longer, t) && longer == Run(run.states + [t], run.events + [e])
  {
    longer := Run(run.states + [t], run.events + [e]);
    forall i | 0 <= i < |longer.events|
      ensures Next(w, longer.states[i], longer.events[i], longer.states[i + 1])
    {
      if i < |run.events| {
        assert Next(w, run.states[i], run.events[i], run.states[i + 1]);
      }
    }
  }

  lemma CommittedIsLinked(w: World, s: State)
    requires Sound(w, s)
    ensures Reorg.Linked(w.parent, s.committed.chain.headers)
  {
  }

  lemma ChainsKeys(savepoints: map<nat, Db>)
    ensures Chains(savepoints).Keys == savepoints.Keys
  {
  }

  lemma AddedDbs(before: map<nat, Db>, max: nat, db: Db, chains: map<nat, Reorg.Database>)
    returns (after: map<nat, Db>)
    requires Reorg.Added(Chains(before), max, |db.chain.headers|, db.chain, chains)
    ensures Reorg.Added(before, max, |db.chain.headers|, db, after) && Chains(after) == chains
  {
    var height := |db.chain.headers|;
    ChainsKeys(before);
    assert |Chains(before)| == |Chains(before).Keys| == |before.Keys| == |before|;
    if |before| >= max {
      var oldest: nat :| Reorg.IsOldest(before.Keys, oldest)
        && chains == (Chains(before) - {oldest})[height := db.chain];
      after := (before - {oldest})[height := db];
    } else {
      after := before[height := db];
    }
  }

  /** What a look at the node comes to: in step, one more block of the chain it came from; else nothing is left
      uncommitted, and a rollback ends on the node's chain if the savepoints are on the index's own.  A block that
      follows the index is in step. */
  ghost predicate Looked(s: State, source: seq<Hash>, node: seq<Hash>, ending: Ending, t: State) {
    var height := |s.live.chain.headers|;
    && (ending.InStep? ==> height < |source| && t.live.chain.headers == source[..height + 1])
    && (ending.InStep? ==> t.committed == s.committed && t.savepoints == s.savepoints)
    && (ending.InStep? ==> t.live.chain.lastSavepoint == s.live.chain.lastSavepoint)
    && (!ending.InStep? ==> t.live == t.committed)
    && (ending.RolledBack? && Prefixes(s) ==> t.live.chain.headers <= node)
    && (s.live.chain.headers <= source ==> ending.InStep?)
  }

  ghost predicate IsExtended(w: World, s: State, hash: Hash, chain: seq<Hash>, t: State) {
    && BlockValid(w.starts, s.live.ledger, |s.live.chain.headers|, w.contents(hash))
    && t == s.(live := Extended(w, s.live, hash)) && t.live.chain.headers == chain
  }

  lemma NextInStep(w: World, s: State, hash: Hash, node: seq<Hash>, chain: seq<Hash>) returns (t: State)
    requires w.interval > 0 && w.max > 0 && Sound(w, s)
    requires Possible(w, s, NextBlock(chain, node)) && hash == Last(chain)
    ensures if Verdict(w, s, w.parent(hash), node).InStep? then IsExtended(w, s, hash, chain, t) else t == s
  {
    t := s;
    if Verdict(w, s, w.parent(hash), node).InStep? {
      InStepExtends(w, s, NextBlock(chain, node));
      t := s.(live := Extended(w, s.live, hash));
    }
  }

  ghost predicate HasSavepoint(s: State, verdict: Reorg.Verdict)
    requires verdict.Recoverable?
  {
    exists r :: r in s.savepoints && r <= Reorg.SaturatingSub(verdict.height, verdict.depth)
  }

  ghost predicate UndoneAs(s: State, verdict: Reorg.Verdict, ending: Ending, t: State) {
    && Undone(s, verdict, t) && !ending.InStep?
    && t.live == t.committed && (ending.RolledBack? || t == s.(live := s.committed))
    && (ending.Unrecoverable? <==> verdict.Unrecoverable?)
    && (ending.RolledBack? ==> verdict.Recoverable? && HasSavepoint(s, verdict))
  }

  /** How a step follows from the verdict on a block. */
  ghost predicate EndsAs(
    w: World, s: State, hash: Hash, node: seq<Hash>, chain: seq<Hash>, ending: Ending, t: State)
    requires w.interval > 0 && w.max > 0
  {
    var verdict := Verdict(w, s, w.parent(hash), node);
    if verdict.InStep? then ending.InStep? && IsExtended(w, s, hash, chain, t) else UndoneAs(s, verdict, ending, t)
  }

  lemma OfferLooks(
    w: World, s: State, source: seq<Hash>, node: seq<Hash>, chain: seq<Hash>, ending: Ending, t: State)
    requires w.interval > 0 && w.max > 0 && Sound(w, s) && IsNode(w, source) && IsNode(w, node)
    requires |s.live.chain.headers| < |source| && chain == source[..|s.live.chain.headers| + 1]
    requires EndsAs(w, s, Last(chain), node, chain, ending, t)
    ensures Looked(s, source, node, ending, t)
  {
    var headers := s.live.chain.headers;
    var height := |headers|;
    var verdict := Verdict(w, s, w.parent(source[height]), node);
    if headers <= source && headers != [] {
      assert w.parent(source[height]) == source[height - 1] == Last(headers);
    }
    if ending.RolledBack? && Prefixes(s) {
      RollbackFollows(w, s, w.parent(source[height]), node, t);
    }
  }

  /** The step is one of the machine's. */
  lemma OfferIsNext(
    w: World, base: Run, run: Run, s: State, source: seq<Hash>, node: seq<Hash>, chain: seq<Hash>, ending: Ending,
    t: State)
    returns (longer: Run)
    requires ComesTo(w, base, run, s) && IsNode(w, source) && IsNode(w, node)
    requires |s.live.chain.headers| < |source| && chain == source[..|s.live.chain.headers| + 1]
    requires EndsAs(w, s, Last(chain), node, chain, ending, t)
    ensures ComesTo(w, base, longer, t) && Looked(s, source, node, ending, t)
  {
    EndIsSound(w, base, run, s);
    OfferLooks(w, s, source, node, chain, ending, t);
    OfferIsPossible(w, s, source, node, chain);
    longer := RunGrows(w, base, run, s, NextBlock(chain, node), t);
  }

  /** A property of how many turns there were, whether the program was told to stop after the last one, how that
      one ended, and the state. */
  type Property = (nat, bool, Ending, State) -> bool

  ghost predicate TurnsKeep(p: Property, offers: seq<Offer>) {
    forall i: nat, s, ending, left: nat, t {:trigger p(i, false, InStep, s), Turned(s, offers[i], ending, left, t)} ::
      i < |offers| && p(i, false, InStep, s) && Turned(s, offers[i], ending, left, t) ==>
        p(i + 1, offers[i].stop, ending, t)
  }

  /** How far so many turns against a node on one chain have come: only the first block can fail. */
  ghost predicate OnWay(s: State, c: seq<Hash>, turns: nat, ending: Ending, t: State) {
    if !ending.InStep? then
      !(s.live.chain.headers <= c) && (ending.RolledBack? && Prefixes(s) ==> t.live.chain.headers <= c)
    else if turns == 0 then
      t == s
    else
      t.live.chain.headers <= c && |t.live.chain.headers| == |s.live.chain.headers| + turns
  }

  lemma OneMoreTurn(
    s: State, c: seq<Hash>, turns: nat, u: State, offer: Offer, ending: Ending, left: nat, t: State)
    requires OnWay(s, c, turns, InStep, u) && offer.source == offer.node == c && Turned(u, offer, ending, left, t)
    ensures OnWay(s, c, turns + 1, ending, t)
  {
  }

  /** Only the last of these turns may have been told to stop. */
  ghost predicate Told(offers: seq<Offer>, turns: nat, stop: bool) {
    && turns <= |offers| && (forall k :: 0 <= k < turns - 1 ==> !offers[k].stop)
    && stop == (turns > 0 && offers[turns - 1].stop)
  }

  lemma OneMoreTold(offers: seq<Offer>, turns: nat)
    requires turns < |offers| && Told(offers, turns, false)
    ensures Told(offers, turns + 1, offers[turns].stop)
  {
    forall k | 0 <= k < turns
      ensures !offers[k].stop
    {
      if k == turns - 1 {
        assert !offers[turns - 1].stop;
      }
    }
  }

  lemma Following(s: State, offers: seq<Offer>, c: seq<Hash>) returns (p: Property)
    ensures TurnsKeep(p, offers) && p(0, false, InStep, s)
    ensures forall i: nat, stop, ending, t :: p(i, stop, ending, t) ==> Told(offers, i, stop)
    ensures forall i: nat, stop, ending, t :: p(i, stop, ending, t) && SteadyOffers(offers, c) ==>
      OnWay(s, c, i, ending, t)
  {
    p := (i: nat, stop: bool, ending: Ending, t: State) =>
      Told(offers, i, stop) && (SteadyOffers(offers, c) ==> OnWay(s, c, i, ending, t));
    assert Told(offers, 0, false) && OnWay(s, c, 0, InStep, s);
    forall i: nat, u, ending, left: nat, t
      | i < |offers| && p(i, false, InStep, u) && Turned(u, offers[i], ending, left, t)
      ensures p(i + 1, offers[i].stop, ending, t)
    {
      OneMoreTold(offers, i);
      if SteadyOffers(offers, c) {
        OneMoreTurn(s, c, i, u, offers[i], ending, left, t);
      }
    }
  }

  /** What turns against a node on one chain come to: only the first block can fail. */
  ghost predicate Arrived(s: State, c: seq<Hash>, ending: Ending, t: State) {
    if ending.InStep? then
      t.live.chain.headers == if |s.live.chain.headers| >= |c| then s.live.chain.headers else c
    else
      && !(s.live.chain.headers <= c) && (ending.RolledBack? && Prefixes(s) ==> t.live.chain.headers <= c)
  }

  /** Why there are no more turns. */
  ghost predicate Stops(offers: seq<Offer>, turns: nat, stop: bool, ending: Ending, t: State)
    requires turns <= |offers|
  {
    turns == |offers| || |t.live.chain.headers| >= |offers[turns].source| || !ending.InStep? || stop
  }

  lemma Arrives(offers: seq<Offer>, turns: nat, stop: bool, s: State, c: seq<Hash>, ending: Ending, t: State)
    requires turns <= |offers| && SteadyOffers(offers, c) && |offers| >= |c| && OnWay(s, c, turns, ending, t)
    requires Stops(offers, turns, stop, ending, t) && Told(offers, turns, stop)
    ensures Arrived(s, c, ending, t)
  {
  }

  /** What a turn comes to. */
  ghost predicate Turned(s: State, offer: Offer, ending: Ending, left: nat, t: State) {
    var height := |s.live.chain.headers|;
    && (ending.InStep? ==> height < |offer.source| && t.live.chain.headers == offer.source[..height + 1])
    && (!ending.InStep? || left == 0 ==> t.live == t.committed)
    && (ending.RolledBack? && Prefixes(s) ==> t.live.chain.headers <= offer.node)
    && (s.live.chain.headers <= offer.source ==> ending.InStep?)
  }

  /** The same for the tip: in step, the chains are one. */
  ghost predicate TipLooked(s: State, node: seq<Hash>, ending: Ending, t: State) {
    && (ending.InStep? ==> t == s && s.live.chain.headers == node)
    && (!ending.InStep? ==> t.live == t.committed)
    && (ending.RolledBack? && Prefixes(s) ==> t.live.chain.headers <= node)
    && (s.live.chain.headers == node ==> ending.InStep?)
  }

  lemma TipIsNext(w: World, base: Run, run: Run, s: State, node: seq<Hash>, ending: Ending, t: State)
    returns (longer: Run)
    requires ComesTo(w, base, run, s) && IsNode(w, node) && |s.live.chain.headers| == |node|
    requires var verdict := Verdict(w, s, Last(node), node);
      if verdict.InStep? then ending.InStep? && t == s else UndoneAs(s, verdict, ending, t)
    ensures ComesTo(w, base, longer, t) && TipLooked(s, node, ending, t)
  {
    EndIsSound(w, base, run, s);
    longer := RunGrows(w, base, run, s, CheckTip(node), t);
    if ending.InStep? {
      InStepIsLast(w, s, Last(node), node);
      SameTip(w, s.live.chain.headers, node);
    } else if ending.RolledBack? && Prefixes(s) {
      RollbackFollows(w, s, Last(node), node, t);
    }
  }

  lemma OfferIsPossible(w: World, s: State, source: seq<Hash>, node: seq<Hash>, chain: seq<Hash>)
    requires IsNode(w, source) && IsNode(w, node)
    requires |s.live.chain.headers| < |source| && chain == source[..|s.live.chain.headers| + 1]
    ensures Possible(w, s, NextBlock(chain, node)) && Last(chain) == source[|s.live.chain.headers|]
  {
    PrefixIsChain(w, source, |s.live.chain.headers| + 1);
  }

  lemma RollbackFollows(w: World, s: State, previous: Hash, node: seq<Hash>, t: State)
    requires w.interval > 0 && w.max > 0 && Sound(w, s) && Prefixes(s) && IsNode(w, node)
    requires Verdict(w, s, previous, node).Recoverable? && Undone(s, Verdict(w, s, previous, node), t)
    requires var verdict := Verdict(w, s, previous, node);
      exists r :: r in s.savepoints && r <= Reorg.SaturatingSub(verdict.height, verdict.depth)
    ensures t.live.chain.headers <= node
  {
    ForkIsBelow(w, s, previous, node);
    UndoneFollows(w, s, previous, node, node, t);
  }

  /** The state after a rollback to a savepoint, or after a failed update. */
  ghost function Back(s: State, restored: Option<nat>): State {
    if restored.Some? && restored.value in s.savepoints then
      s.(live := s.savepoints[restored.value], committed := s.savepoints[restored.value])
    else
      s.(live := s.committed)
  }

  // ----- the loop -----

  class Synced {
    ghost const w: World
    const contents: Hash -> seq<Tx>
    const commitInterval: nat
    const headers: Reorg.HeaderIndex
    const index: SatIndex.Index
    var committed: Reorg.Database
    var files: map<nat, SatIndex.Database>

    ghost predicate HeadersHold(s: State)
      reads this`committed, headers
    {
      && headers.Valid() && headers.parent == w.parent
      && headers.interval == w.interval && headers.maxSavepoints == w.max
      && headers.db == s.live.chain && committed == s.committed.chain && headers.savepoints == Chains(s.savepoints)
    }

    /** Headers, index and files are what the state says. */
    ghost predicate Holds(s: State)
      reads this`committed, this`files, headers, index
    {
      contents == w.contents && HeadersHold(s) && Tracks(w, index, files, s)
    }

    /** The run has come to this state, and the objects hold it. */
    ghost predicate At(base: Run, run: Run, s: State)
      reads this`committed, this`files, headers, index
    {
      ComesTo(w, base, run, s) && Holds(s)
    }

    constructor (
      ghost w: World, parent: Hash -> Hash, contents: Hash -> seq<Tx>, commitInterval: nat, interval: nat, max: nat)
      requires SatIndex.IsMainnet(w.starts) && interval > 0 && max > 0
      requires w.parent == parent && w.contents == contents && w.interval == interval && w.max == max
      ensures Holds(START) && fresh(headers) && fresh(index) && this.w == w && this.commitInterval == commitInterval
    {
      this.w, this.contents, this.commitInterval := w, contents, commitInterval;
      headers := new Reorg.HeaderIndex(parent, interval, max);
      index := new SatIndex.Index(w.starts);
      committed, files := Reorg.Database([], 0), map[];
      new;
      assert SatIndex.DatabaseState(index.committed) == EMPTY;
    }

    method DropHeaders(ghost s: State)
      requires HeadersHold(s) && Sound(w, s)
      modifies headers
      ensures HeadersHold(s.(live := s.committed))
    {
      CommittedIsLinked(w, s);
      headers.db := committed;
    }

    /** A failed update: the write transaction is gone. */
    method Drop(ghost s: State)
      requires Holds(s) && Sound(w, s)
      modifies headers, index
      ensures Holds(s.(live := s.committed))
    {
      DropHeaders(s);
      TakeRestart(index, w, files, s);
    }

    method RestoreHeaders(height: nat, depth: nat, ghost s: State) returns (restored: Option<nat>)
      requires HeadersHold(s) && Sound(w, s)
      modifies this`committed, headers
      ensures Reorg.IsLatest(s.savepoints.Keys, Reorg.SaturatingSub(height, depth), restored)
      ensures restored.Some? ==> restored.value in s.savepoints
      ensures HeadersHold(Back(s, restored))
    {
      ChainsKeys(s.savepoints);
      restored := headers.HandleReorg(height, depth);
      if restored.Some? {
        committed := headers.db;
      } else {
        DropHeaders(s);
      }
    }

    method RestoreIndex(restored: Option<nat>, ghost s: State)
      requires Tracks(w, index, files, s) && (restored.Some? ==> restored.value in s.savepoints)
      modifies index
      ensures Tracks(w, index, files, Back(s, restored))
    {
      if restored.Some? {
        TakeRollBack(index, files[restored.value], w, files, s, restored.value);
      } else {
        TakeRestart(index, w, files, s);
      }
    }

    /** The savepoint below the fork is put in place; without one the update has failed. */
    method Restore(height: nat, depth: nat, ghost s: State) returns (restored: Option<nat>)
      requires Holds(s) && Sound(w, s)
      modifies this`committed, headers, index
      ensures IndexRuns.RolledBack(s, Reorg.SaturatingSub(height, depth), restored, Back(s, restored))
      ensures Holds(Back(s, restored))
    {
      restored := RestoreHeaders(height, depth, s);
      RestoreIndex(restored, s);
    }

    /** What follows a verdict that is not in step. */
    method Undo(verdict: Reorg.Verdict, ghost s: State) returns (ending: Ending, ghost t: State)
      requires Holds(s) && Sound(w, s) && !verdict.InStep?
      modifies this`committed, headers, index
      ensures Holds(t) && UndoneAs(s, verdict, ending, t)
    {
      if verdict.Recoverable? {
        var restored := Restore(verdict.height, verdict.depth, s);
        t := Back(s, restored);
        ending := if restored.Some? then RolledBack else NoSavepoint;
      } else {
        Drop(s);
        t := s.(live := s.committed);
        ending := Unrecoverable;
      }
    }

    method IndexHeader(hash: Hash, node: seq<Hash>, ghost s: State, ghost next: State)
      returns (verdict: Reorg.Verdict)
      requires w.interval > 0 && w.max > 0 && HeadersHold(s)
      requires Verdict(w, s, w.parent(hash), node).InStep? ==>
        && next.live.chain == s.live.chain.(headers := s.live.chain.headers + [hash])
        && next.committed == s.committed && next.savepoints == s.savepoints
      modifies headers
      ensures verdict == Verdict(w, s, w.parent(hash), node)
      ensures HeadersHold(if verdict.InStep? then next else s)
    {
      verdict := headers.IndexBlock(hash, node);
      Reorg.DetectIsVerdict(s.live.chain.headers, node, w.parent(hash), w.interval, w.max, verdict);
    }

    method IndexContents(hash: Hash, ghost chain: seq<Hash>, ghost s: State, ghost next: State)
      requires contents == w.contents && Tracks(w, index, files, s) && IsExtended(w, s, hash, chain, next)
      modifies index
      ensures Tracks(w, index, files, next)
    {
      TakeBlock(index, contents(hash), w, files, s, hash);
    }

    /** A fetched block is indexed if it is in step. */
    method TakeInStep(hash: Hash, node: seq<Hash>, ghost chain: seq<Hash>, ghost s: State, ghost t: State)
      returns (verdict: Reorg.Verdict)
      requires w.interval > 0 && w.max > 0 && Holds(s)
      requires if Verdict(w, s, w.parent(hash), node).InStep? then IsExtended(w, s, hash, chain, t) else t == s
      modifies headers, index
      ensures verdict == Verdict(w, s, w.parent(hash), node) && Holds(t)
    {
      verdict := IndexHeader(hash, node, s, t);
      if verdict.InStep? {
        IndexContents(hash, chain, s, t);
      }
    }

    /** A fetched block is indexed, or the verdict on it is followed. */
    method Look(hash: Hash, node: seq<Hash>, ghost chain: seq<Hash>, ghost s: State)
      returns (ending: Ending, ghost t: State)
      requires w.interval > 0 && w.max > 0 && Holds(s) && Sound(w, s)
      requires Possible(w, s, NextBlock(chain, node)) && hash == Last(chain)
      modifies this`committed, headers, index
      ensures Holds(t) && EndsAs(w, s, hash, node, chain, ending, t)
    {
      t := NextInStep(w, s, hash, node, chain);
      var verdict := TakeInStep(hash, node, chain, s, t);
      ending := InStep;
      if !verdict.InStep? {
        ending, t := Undo(verdict, s);
      }
    }

    /** With no block to come the tip alone is compared. */
    method LookAtTip(node: seq<Hash>, ghost s: State) returns (ending: Ending, ghost t: State)
      requires w.interval > 0 && w.max > 0 && Holds(s) && Sound(w, s) && node != []
      modifies this`committed, headers, index
      ensures Holds(t)
      ensures var verdict := Verdict(w, s, Last(node), node);
        if verdict.InStep? then ending.InStep? && t == s else UndoneAs(s, verdict, ending, t)
    {
      var verdict := headers.DetectReorg(Last(node), node);
      Reorg.DetectIsVerdict(s.live.chain.headers, node, Last(node), w.interval, w.max, verdict);
      ending, t := InStep, s;
      if !verdict.InStep? {
        ending, t := Undo(verdict, s);
      }
    }

    // ----- commits -----

    method SaveHeaders(blocks: nat, ghost s: State) returns (made: bool, ghost t: State)
      requires HeadersHold(s)
      modifies this`committed, headers
      ensures Committed(w, s, blocks, t) && HeadersHold(t)
      ensures made <==> Reorg.SavepointRequired(
        |s.live.chain.headers|, s.live.chain.lastSavepoint, blocks, w.interval, w.max)
    {
      made := headers.UpdateSavepoints(blocks);
      committed := headers.db;
      if made {
        var savepoints := AddedDbs(s.savepoints, w.max, s.live, headers.savepoints);
        var db := Db(headers.db, s.live.ledger);
        t := State(db, db, savepoints);
      } else {
        t := s.(committed := s.live);
      }
    }

    method CommitIndex(ghost s: State)
      requires Tracks(w, index, files, s)
      modifies index
      ensures Tracks(w, index, files, s.(committed := s.live)) && Matches(w, index.committed, s.live)
    {
      index.Commit();
    }

    method CopyFiles(height: nat, ghost savepoints: map<nat, Db>, ghost after: map<nat, SatIndex.Database>)
      requires headers.savepoints == Chains(savepoints) && forall r :: r in after <==> r in savepoints
      requires forall r :: r in after ==> if r == height then after[r] == index.committed else
        r in files && after[r] == files[r]
      modifies this`files
      ensures files == after
    {
      ChainsKeys(savepoints);
      files := map r | r in headers.savepoints.Keys :: if r == height then index.committed else files[r];
    }

    /** Headers and index are committed together, and a savepoint is made if one is due. */
    method CommitBoth(blocks: nat, ghost s: State) returns (ghost t: State)
      requires Holds(s)
      modifies this`committed, this`files, headers, index
      ensures Committed(w, s, blocks, t) && Holds(t)
    {
      var height := |headers.db.headers|;
      CommitIndex(s);
      var made;
      made, t := SaveHeaders(blocks, s);
      ghost var after := CopiesMatch(w, files, s, blocks, t, index.committed);
      if made {
        CopyFiles(height, t.savepoints, after);
      }
    }

    // ----- steps on the record -----

    /** The next block of the node's chain is fetched, and then compared with the node as it is. */
    method LookNext(source: seq<Hash>, node: seq<Hash>, ghost chain: seq<Hash>, ghost s: State)
      returns (ending: Ending, ghost t: State)
      requires w.interval > 0 && w.max > 0 && Holds(s) && Sound(w, s)
      requires IsNode(w, source) && IsNode(w, node)
      requires |s.live.chain.headers| < |source| && chain == source[..|s.live.chain.headers| + 1]
      modifies this`committed, headers, index
      ensures Holds(t) && EndsAs(w, s, Last(chain), node, chain, ending, t)
    {
      OfferIsPossible(w, s, source, node, chain);
      ending, t := Look(source[|headers.db.headers|], node, chain, s);
    }

    method TakeOffer(source: seq<Hash>, node: seq<Hash>, ghost base: Run, ghost run: Run, ghost s: State)
      returns (ending: Ending, ghost longer: Run, ghost t: State)
      requires At(base, run, s) && IsNode(w, source) && IsNode(w, node)
      requires |s.live.chain.headers| < |source|
      modifies this`committed, headers, index
      ensures At(base, longer, t) && Looked(s, source, node, ending, t)
    {
      ghost var chain := source[..|s.live.chain.headers| + 1];
      EndIsSound(w, base, run, s);
      ending, t := LookNext(source, node, chain, s);
      longer := OfferIsNext(w, base, run, s, source, node, chain, ending, t);
    }

    method TakeTip(node: seq<Hash>, ghost base: Run, ghost run: Run, ghost s: State)
      returns (ending: Ending, ghost longer: Run, ghost t: State)
      requires At(base, run, s) && IsNode(w, node) && |s.live.chain.headers| == |node|
      modifies this`committed, headers, index
      ensures At(base, longer, t) && TipLooked(s, node, ending, t)
    {
      EndIsSound(w, base, run, s);
      ending, t := LookAtTip(node, s);
      longer := TipIsNext(w, base, run, s, node, ending, t);
    }

    method TakeCommit(blocks: nat, ghost base: Run, ghost run: Run, ghost s: State)
      returns (ghost longer: Run, ghost t: State)
      requires At(base, run, s)
      modifies this`committed, this`files, headers, index
      ensures At(base, longer, t)
      ensures t.live == t.committed && t.live.chain.headers == s.live.chain.headers
    {
      t := CommitBoth(blocks, s);
      longer := RunGrows(w, base, run, s, Commit(blocks), t);
    }

    /** A commit is due when the interval is full or a savepoint is to be made. */
    ghost predicate Due(uncommitted: nat, height: nat, last: nat, blocks: nat) {
      uncommitted == commitInterval || Reorg.SavepointRequired(height, last, blocks, w.interval, w.max)
    }

    method IsDue(uncommitted: nat, blocks: nat, ghost s: State) returns (due: bool)
      requires HeadersHold(s)
      ensures due == Due(uncommitted, |s.live.chain.headers|, s.live.chain.lastSavepoint, blocks)
    {
      due := uncommitted == commitInterval || Reorg.SavepointRequired(
        |headers.db.headers|, headers.db.lastSavepoint, blocks, headers.interval, headers.maxSavepoints);
    }

    /** One turn of the updater's loop: a block, and a commit when the interval is full or a savepoint is due. */
    method Turn(offer: Offer, uncommitted: nat, ghost base: Run, ghost run: Run, ghost s: State)
      returns (ending: Ending, left: nat, ghost longer: Run, ghost t: State)
      requires At(base, run, s) && IsNode(w, offer.source) && IsNode(w, offer.node)
      requires |s.live.chain.headers| < |offer.source|
      modifies this`committed, this`files, headers, index
      ensures At(base, longer, t) && Turned(s, offer, ending, left, t)
      ensures ending.InStep? ==>
        left == if Due(uncommitted + 1, |s.live.chain.headers| + 1, s.live.chain.lastSavepoint, offer.blocks)
          then 0 else uncommitted + 1
    {
      left := uncommitted + 1;
      ending, longer, t := TakeOffer(offer.source, offer.node, base, run, s);
      if ending.InStep? {
        var due := IsDue(left, offer.blocks, t);
        if due {
          longer, t := TakeCommit(offer.blocks, base, longer, t);
          left := 0;
        }
      }
    }

    method TurnOn(
      offers: seq<Offer>, i: nat, uncommitted: nat, ghost p: Property, ghost base: Run, ghost run: Run, ghost s: State)
      returns (ending: Ending, left: nat, ghost longer: Run, ghost t: State)
      requires i < |offers| && AllFromNode(w, offers) && TurnsKeep(p, offers)
      requires At(base, run, s) && p(i, false, InStep, s) && |s.live.chain.headers| < |offers[i].source|
      modifies this`committed, this`files, headers, index
      ensures At(base, longer, t) && p(i + 1, offers[i].stop, ending, t)
      ensures !ending.InStep? || left == 0 ==> t.live == t.committed
    {
      ending, left, longer, t := Turn(offers[i], uncommitted, base, run, s);
    }

    /** The updater's loop over the blocks that the node has: what turns keep, it keeps. */
    method TakeOffers(offers: seq<Offer>, ghost p: Property, ghost base: Run, ghost run: Run, ghost s: State)
      returns (
        ending: Ending, uncommitted: nat, ghost turns: nat, ghost told: bool, ghost longer: Run, ghost t: State)
      requires At(base, run, s) && s.live == s.committed && AllFromNode(w, offers)
      requires TurnsKeep(p, offers) && p(0, false, InStep, s)
      modifies this`committed, this`files, headers, index
      ensures At(base, longer, t) && (!ending.InStep? || uncommitted == 0 ==> t.live == t.committed)
      ensures turns <= |offers| && Stops(offers, turns, told, ending, t) && p(turns, told, ending, t)
    {
      ending, uncommitted, longer, t := InStep, 0, run, s;
      var i, stop := 0, false;
      while i < |offers| && |headers.db.headers| < |offers[i].source| && ending.InStep? && !stop
        invariant i <= |offers| && At(base, longer, t) && p(i, stop, ending, t)
        invariant !ending.InStep? || uncommitted == 0 ==> t.live == t.committed
        decreases |offers| - i
      {
        ending, uncommitted, longer, t := TurnOn(offers, i, uncommitted, p, base, longer, t);
        stop := offers[i].stop;
        i := i + 1;
      }
      turns, told := i, stop;
    }

    /** One call of the updater.  However it ends, nothing is left uncommitted. */
    method UpdateOnce(attempt: Attempt, ghost c: seq<Hash>, ghost base: Run, ghost run: Run, ghost s: State)
      returns (ending: Ending, ghost turns: nat, ghost longer: Run, ghost t: State)
      requires At(base, run, s) && s.live == s.committed && FromNode(w, attempt)
      modifies this`committed, this`files, headers, index
      ensures At(base, longer, t) && t.live == t.committed
      ensures turns <= |attempt.offers| && forall k :: 0 <= k < turns - 1 ==> !attempt.offers[k].stop
      ensures Steady(attempt, c) ==> Attempted(s, c, ending, t)
    {
      ending, turns, longer, t := InStep, 0, run, s;
      if |headers.db.headers| == |attempt.tip| {
        ending, longer, t := TakeTip(attempt.tip, base, run, s);
        if !ending.InStep? {
          return;
        }
      }
      var uncommitted;
      ghost var told;
      ghost var onWay := Following(s, attempt.offers, c);
      ending, uncommitted, turns, told, longer, t := TakeOffers(attempt.offers, onWay, base, longer, s);
      if Steady(attempt, c) {
        Arrives(attempt.offers, turns, told, s, c, ending, t);
      }
      if ending.InStep? && uncommitted > 0 {
        longer, t := TakeCommit(attempt.blocks, base, longer, t);
      }
    }

    /** The program's loop: after a rollback the updater is called again.  If the node stays on one chain, an update
        that comes through has caught up with it, and one that starts with savepoints on its own chain comes through
        or fails at the second attempt. */
    method Update(attempts: seq<Attempt>, ghost c: seq<Hash>, ghost run: Run, ghost s: State)
      returns (ending: Ending, ghost longer: Run, ghost t: State)
      requires At(run, run, s) && s.live == s.committed
      requires forall attempt <- attempts :: FromNode(w, attempt)
      modifies this`committed, this`files, headers, index
      ensures At(run, longer, t) && t.live == t.committed
      ensures (forall attempt <- attempts :: Steady(attempt, c)) ==>
        && (ending.InStep? ==> CaughtUp(t, c))
        && (|attempts| >= 2 && Prefixes(s) ==> !ending.RolledBack?)
    {
      ending, longer, t := RolledBack, run, s;
      var i := 0;
      while i < |attempts| && ending.RolledBack?
        invariant i <= |attempts| && At(run, longer, t) && t.live == t.committed
        invariant i == 0 ==> ending.RolledBack? && t == s
        invariant (forall attempt <- attempts :: Steady(attempt, c)) ==>
          && (ending.InStep? ==> CaughtUp(t, c))
          && (Prefixes(s) && ending.RolledBack? ==> i < 2 && (i == 1 ==> t.live.chain.headers <= c))
        decreases |attempts| - i
      {
        ghost var turns;
        ending, turns, longer, t := UpdateOnce(attempts[i], c, run, longer, t);
        i := i + 1;
      }
    }

    /** What a reader sees after any of this: the ordinals that the theory assigns along the committed headers. */
    lemma HoldsTheTheory(base: Run, run: Run, s: State)
      requires At(base, run, s)
      ensures OrdinalTheory.CoinsOf(index.committed.utxos)
        == OrdinalTheory.AssignChain(w.starts, map[], 0, Blocks(w, committed.headers))
    {
      CommittedFollowsTheory(w, run.states, run.events, |run.events|);
    }

    /** And every mined sat in exactly one place. */
    lemma HoldsIsComplete(base: Run, run: Run, s: State)
      requires At(base, run, s)
      ensures RareSats.Complete(w.starts, index.CommittedState(), w.starts(index.committed.blockCount))
    {
      CommittedIsComplete(w, run.states, run.events, |run.events|);
    }
  }
}
