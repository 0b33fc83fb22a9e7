/** Every run of the whole index: blocks, commits with their savepoints, rollbacks and restarts.

A state is what the write transaction holds, what is committed, and the savepoints.  The node's chain may
be another one at every step; a chain is linked, starts with the first block of all, and has valid blocks.
*/
module IndexRuns {
  import opened Options
  import opened Bitcoin
  import opened LedgerModel
  import opened RareSats
  import OrdinalTheory
  import SatIndex
  import Reorg

  type Hash = Reorg.Hash

  datatype World = World(
    parent: Hash -> Hash, genesis: Hash, contents: Hash -> seq<Tx>, starts: Schedule, interval: nat, max: nat)

  datatype Db = Db(chain: Reorg.Database, ledger: Ledger)

  datatype State = State(live: Db, committed: Db, savepoints: map<nat, Db>)

  /** A block arrives when the node is on some chain; without a block to come the tip alone is compared; the
      write transaction is committed when the node has so many blocks; the process dies. */
  datatype Event =
    | NextBlock(chain: seq<Hash>, node: seq<Hash>)
    | CheckTip(node: seq<Hash>)
    | Commit(blocks: nat)
    | Restart

  const START: State := State(Db(Reorg.Database([], 0), EMPTY), Db(Reorg.Database([], 0), EMPTY), map[])

  // ----- chains and their ledgers -----

  function Last<T>(s: seq<T>): T
    requires s != []
  {
    s[|s| - 1]
  }

  ghost function Blocks(w: World, headers: seq<Hash>): (blocks: seq<seq<Tx>>)
    ensures |blocks| == |headers|
  {
    if headers == [] then [] else Blocks(w, headers[..|headers| - 1]) + [w.contents(Last(headers))]
  }

  ghost predicate IsChain(w: World, headers: seq<Hash>) {
    && Reorg.Linked(w.parent, headers)
    && (headers != [] ==> headers[0] == w.genesis)
    && ChainValid(w.starts, EMPTY, 0, Blocks(w, headers))
  }

  /** The ledger after indexing a chain from its first block. */
  ghost function LedgerOf(w: World, headers: seq<Hash>): Ledger
    requires IsChain(w, headers)
  {
    IndexChain(w.starts, EMPTY, 0, Blocks(w, headers))
  }

  ghost predicate Faithful(w: World, db: Db) {
    IsChain(w, db.chain.headers) && db.ledger == LedgerOf(w, db.chain.headers)
  }

  lemma BlocksSnoc(w: World, headers: seq<Hash>, block: Hash)
    ensures Blocks(w, headers + [block]) == Blocks(w, headers) + [w.contents(block)]
  {
    assert (headers + [block])[..|headers|] == headers;
  }

  /** The last block of a chain is valid on the ledger of the others. */
  lemma LastBlock(w: World, headers: seq<Hash>, block: Hash)
    requires IsChain(w, headers + [block])
    ensures IsChain(w, headers) && BlockValid(w.starts, LedgerOf(w, headers), |headers|, w.contents(block))
    ensures LedgerOf(w, headers + [block])
         == IndexBlock(w.starts, LedgerOf(w, headers), |headers|, w.contents(block))
  {
    BlocksSnoc(w, headers, block);
    var last := SatIndex.ChainUnsnoc(w.starts, EMPTY, 0, Blocks(w, headers), w.contents(block), |headers|);
    SatIndex.ChainSnoc(w.starts, EMPTY, 0, Blocks(w, headers), w.contents(block), |headers|);
    assert Reorg.Linked(w.parent, headers) by {
      forall i | 0 < i < |headers|
        ensures w.parent(headers[i]) == headers[i - 1]
      {
        assert (headers + [block])[i] == headers[i] && (headers + [block])[i - 1] == headers[i - 1];
      }
    }
    assert headers != [] ==> (headers + [block])[0] == headers[0];
  }

  // ----- steps -----

  /** What the step asks for: chains, and the block at the height that is indexed next. */
  ghost predicate Possible(w: World, s: State, e: Event) {
    match e
    case NextBlock(chain, node) => IsChain(w, chain) && |chain| == |s.live.chain.headers| + 1 && IsNode(w, node)
    case CheckTip(node) => IsNode(w, node) && |node| == |s.live.chain.headers|
    case Commit(_) => true
    case Restart => true
  }

  ghost predicate IsNode(w: World, node: seq<Hash>) {
    node != [] && IsChain(w, node)
  }

  ghost function Verdict(w: World, s: State, previous: Hash, node: seq<Hash>): Reorg.Verdict
    requires w.interval > 0 && w.max > 0
  {
    Reorg.Detect(s.live.chain.headers, node, previous, w.interval, w.max)
  }

  /** The write transaction is gone; after a fork that is not too deep the highest savepoint below it is
      restored. */
  ghost predicate Undone(s: State, verdict: Reorg.Verdict, t: State) {
    if verdict.Recoverable? then
      exists restored :: RolledBack(s, Reorg.SaturatingSub(verdict.height, verdict.depth), restored, t)
    else
      t == s.(live := s.committed)
  }

  ghost predicate RolledBack(s: State, target: nat, restored: Option<nat>, t: State) {
    && Reorg.IsLatest(s.savepoints.Keys, target, restored)
    && if restored.Some?
       then t == s.(live := s.savepoints[restored.value], committed := s.savepoints[restored.value])
       else t == s.(live := s.committed)
  }

  ghost function Extended(w: World, db: Db, block: Hash): Db
    requires BlockValid(w.starts, db.ledger, |db.chain.headers|, w.contents(block))
  {
    var headers := db.chain.headers;
    Db(db.chain.(headers := headers + [block]), IndexBlock(w.starts, db.ledger, |headers|, w.contents(block)))
  }

  ghost predicate Committed(w: World, s: State, blocks: nat, t: State) {
    var height := |s.live.chain.headers|;
    if Reorg.SavepointRequired(height, s.live.chain.lastSavepoint, blocks, w.interval, w.max) then
      && t.live == t.committed == s.live.(chain := s.live.chain.(lastSavepoint := height))
      && Reorg.Added(s.savepoints, w.max, height, s.live, t.savepoints)
    else
      t == s.(committed := s.live)
  }

  ghost predicate Next(w: World, s: State, e: Event, t: State)
    requires w.interval > 0 && w.max > 0
  {
    && Possible(w, s, e)
    && match e
       case NextBlock(chain, node) =>
         var verdict := Verdict(w, s, w.parent(Last(chain)), node);
         if verdict.InStep? then
           && BlockValid(w.starts, s.live.ledger, |s.live.chain.headers|, w.contents(Last(chain)))
           && t == s.(live := Extended(w, s.live, Last(chain)))
         else Undone(s, verdict, t)
       case CheckTip(node) =>
         var verdict := Verdict(w, s, Last(node), node);
         if verdict.InStep? then t == s else Undone(s, verdict, t)
       case Commit(blocks) => Committed(w, s, blocks, t)
       case Restart => t == s.(live := s.committed)
  }

  // ----- what every run keeps -----

  ghost predicate Sound(w: World, s: State) {
    && Faithful(w, s.live) && Faithful(w, s.committed)
    && (forall r :: r in s.savepoints ==> Faithful(w, s.savepoints[r]) && |s.savepoints[r].chain.headers| == r)
    && s.committed.chain.headers <= s.live.chain.headers
  }

  /** A block that is in step follows the indexed ones, so it is valid and the chain is its own. */
  lemma InStepExtends(w: World, s: State, e: Event)
    requires w.interval > 0 && w.max > 0 && Sound(w, s) && Possible(w, s, e) && e.NextBlock?
    requires Verdict(w, s, w.parent(Last(e.chain)), e.node).InStep?
    ensures BlockValid(w.starts, s.live.ledger, |s.live.chain.headers|, w.contents(Last(e.chain)))
    ensures var t := Extended(w, s.live, Last(e.chain)); t.chain.headers == e.chain && Faithful(w, t)
  {
    InStepIsLast(w, s, w.parent(Last(e.chain)), e.node);
    SameBelow(w, s.live.chain.headers, e.chain);
    LastBlock(w, s.live.chain.headers, Last(e.chain));
  }

  lemma InStepIsLast(w: World, s: State, previous: Hash, node: seq<Hash>)
    requires w.interval > 0 && w.max > 0 && Verdict(w, s, previous, node).InStep?
    ensures s.live.chain.headers == [] || Last(s.live.chain.headers) == previous
  {
    var headers := s.live.chain.headers;
    Reorg.SearchIsVerdict(headers, node, 1, Reorg.MaxDepth(|headers|, w.interval, w.max));
  }

  lemma SameBelow(w: World, headers: seq<Hash>, chain: seq<Hash>)
    requires Reorg.Linked(w.parent, headers) && Reorg.Linked(w.parent, chain) && |chain| == |headers| + 1
    requires headers == [] || Last(headers) == w.parent(Last(chain))
    ensures headers + [Last(chain)] == chain
  {
    forall i | 0 <= i < |headers|
      ensures headers[i] == chain[i]
    {
      Reorg.AgreeBelow(w.parent, headers, chain, |headers| - 1, i);
    }
  }

  lemma UndoneKeeps(w: World, s: State, verdict: Reorg.Verdict, t: State)
    requires Sound(w, s) && Undone(s, verdict, t)
    ensures Sound(w, t)
  {
  }

  lemma CommitKeeps(w: World, s: State, blocks: nat, t: State)
    requires Sound(w, s) && Committed(w, s, blocks, t)
    ensures Sound(w, t)
  {
    var height := |s.live.chain.headers|;
    if Reorg.SavepointRequired(height, s.live.chain.lastSavepoint, blocks, w.interval, w.max) {
      Reorg.AddedIsOldOrNew(s.savepoints, w.max, height, s.live, t.savepoints);
    }
  }

  lemma NextKeeps(w: World, s: State, e: Event, t: State)
    requires w.interval > 0 && w.max > 0 && Sound(w, s) && Next(w, s, e, t)
    ensures Sound(w, t)
  {
    match e
    case NextBlock(chain, node) =>
      var verdict := Verdict(w, s, w.parent(Last(chain)), node);
      if verdict.InStep? {
        InStepExtends(w, s, e);
      } else {
        UndoneKeeps(w, s, verdict, t);
      }
    case CheckTip(node) =>
      var verdict := Verdict(w, s, Last(node), node);
      if !verdict.InStep? {
        UndoneKeeps(w, s, verdict, t);
      }
    case Commit(blocks) => CommitKeeps(w, s, blocks, t);
    case Restart =>
  }

  ghost predicate IsRun(w: World, states: seq<State>, events: seq<Event>)
    requires w.interval > 0 && w.max > 0
  {
    && |states| == |events| + 1 && states[0] == START
    && forall i :: 0 <= i < |events| ==> Next(w, states[i], events[i], states[i + 1])
  }

  /** In every state of every run the committed ledger, the uncommitted one and those of the savepoints are the
      ledgers of their headers. */
  lemma {:induction false} RunIsSound(w: World, states: seq<State>, events: seq<Event>, i: nat)
    requires w.interval > 0 && w.max > 0 && IsRun(w, states, events) && i < |states|
    ensures Sound(w, states[i])
  {
    if i > 0 {
      RunIsSound(w, states, events, i - 1);
      NextKeeps(w, states[i - 1], events[i - 1], states[i]);
    }
  }

  /** So a reader finds every sat mined so far in exactly one place, whatever was rolled back. */
  lemma CommittedIsComplete(w: World, states: seq<State>, events: seq<Event>, i: nat)
    requires w.interval > 0 && w.max > 0 && IsRun(w, states, events) && i < |states|
    requires SatIndex.IsMainnet(w.starts)
    ensures var db := states[i].committed; Complete(w.starts, db.ledger, w.starts(|db.chain.headers|))
  {
    RunIsSound(w, states, events, i);
    var db := states[i].committed;
    SatIndex.MainnetSchedule(w.starts);
    assert Reachable(w.starts, |db.chain.headers|, db.ledger);
    EverySatInExactlyOnePlace(w.starts, |db.chain.headers|, db.ledger);
  }

  /** And the outputs hold the ordinals that the theory assigns along the committed chain. */
  lemma CommittedFollowsTheory(w: World, states: seq<State>, events: seq<Event>, i: nat)
    requires w.interval > 0 && w.max > 0 && IsRun(w, states, events) && i < |states|
    requires SatIndex.IsMainnet(w.starts)
    ensures var db := states[i].committed;
      OrdinalTheory.CoinsOf(db.ledger.utxos)
        == OrdinalTheory.AssignChain(w.starts, map[], 0, Blocks(w, db.chain.headers))
  {
    RunIsSound(w, states, events, i);
    SatIndex.MainnetSchedule(w.starts);
    EmptySound(w.starts);
    OrdinalTheory.ChainFollows(w.starts, EMPTY, 0, Blocks(w, states[i].committed.chain.headers));
    assert OrdinalTheory.CoinsOf(map[]) == map[];
  }

  // ----- savepoints over a run -----

  ghost function Chains(savepoints: map<nat, Db>): map<nat, Reorg.Database> {
    map r | r in savepoints :: savepoints[r].chain
  }

  /** The savepoints lie on the chain of the committed headers. */
  ghost predicate Prefixes(s: State) {
    Reorg.PrefixSavepoints(s.committed.chain.headers, Chains(s.savepoints))
  }

  /** No savepoint is higher than what is committed. */
  ghost predicate NoneAbove(s: State) {
    forall r :: r in s.savepoints ==> r <= |s.committed.chain.headers|
  }

  lemma PrefixOfPrefix<T>(s: seq<T>, longer: seq<T>, n: nat)
    requires s <= longer && n <= |s|
    ensures s[..n] == longer[..n]
  {
  }

  lemma CommitKeepsPrefixes(w: World, s: State, blocks: nat, t: State)
    requires Sound(w, s) && Committed(w, s, blocks, t) && Prefixes(s)
    ensures Prefixes(t)
  {
    var headers, live := s.committed.chain.headers, s.live.chain.headers;
    if Reorg.SavepointRequired(|live|, s.live.chain.lastSavepoint, blocks, w.interval, w.max) {
      Reorg.AddedIsOldOrNew(s.savepoints, w.max, |live|, s.live, t.savepoints);
    }
    assert live[..|live|] == live;
    forall r | r in Chains(t.savepoints)
      ensures r <= |live| && Chains(t.savepoints)[r].headers == live[..r]
    {
      if t.savepoints[r] != s.live {
        assert r in Chains(s.savepoints);
        PrefixOfPrefix(headers, live, r);
      }
    }
  }

  lemma PrefixesAreNotAbove(s: State)
    requires Prefixes(s)
    ensures NoneAbove(s)
  {
    forall r | r in s.savepoints
      ensures r <= |s.committed.chain.headers|
    {
      assert r in Chains(s.savepoints);
    }
  }

  lemma UndoneKeepsPrefixes(s: State, verdict: Reorg.Verdict, t: State)
    requires Undone(s, verdict, t) && Prefixes(s) && NoneAbove(t)
    ensures Prefixes(t)
  {
    if t.committed != s.committed {
      var target := Reorg.SaturatingSub(verdict.height, verdict.depth);
      var restored :| RolledBack(s, target, restored, t);
      Reorg.StaleExactlyAboveRestored(s.committed.chain.headers, Chains(s.savepoints), restored.value);
    }
  }

  lemma NextKeepsPrefixes(w: World, s: State, e: Event, t: State)
    requires w.interval > 0 && w.max > 0 && Sound(w, s) && Next(w, s, e, t) && Prefixes(s) && NoneAbove(t)
    ensures Prefixes(t)
  {
    match e
    case NextBlock(chain, node) =>
      var verdict := Verdict(w, s, w.parent(Last(chain)), node);
      if !verdict.InStep? {
        UndoneKeepsPrefixes(s, verdict, t);
      }
    case CheckTip(node) =>
      var verdict := Verdict(w, s, Last(node), node);
      if !verdict.InStep? {
        UndoneKeepsPrefixes(s, verdict, t);
      }
    case Commit(blocks) =>
      CommitKeepsPrefixes(w, s, blocks, t);
    case Restart =>
  }

  /** Over a run the savepoints stay on the chain exactly as long as no rollback leaves one above it. */
  lemma SavepointsStayPrefixes(w: World, states: seq<State>, events: seq<Event>)
    requires w.interval > 0 && w.max > 0 && IsRun(w, states, events)
    ensures (forall i :: 0 <= i < |states| ==> Prefixes(states[i]))
       <==> (forall i :: 0 <= i < |states| ==> NoneAbove(states[i]))
  {
    if forall i :: 0 <= i < |states| ==> NoneAbove(states[i]) {
      forall i | 0 <= i < |states|
        ensures Prefixes(states[i])
      {
        PrefixesSoFar(w, states, events, i);
      }
    } else if forall i :: 0 <= i < |states| ==> Prefixes(states[i]) {
      forall i | 0 <= i < |states|
        ensures NoneAbove(states[i])
      {
        PrefixesAreNotAbove(states[i]);
      }
    }
  }

  lemma RunKeepsPrefixes(w: World, states: seq<State>, events: seq<Event>, i: nat)
    requires w.interval > 0 && w.max > 0 && IsRun(w, states, events) && i < |events|
    requires Prefixes(states[i]) && NoneAbove(states[i + 1])
    ensures Prefixes(states[i + 1])
  {
    RunIsSound(w, states, events, i);
    NextKeepsPrefixes(w, states[i], events[i], states[i + 1]);
  }

  ghost predicate NoneAboveUpTo(states: seq<State>, i: nat)
    requires i < |states|
  {
    forall j :: 0 <= j <= i ==> NoneAbove(states[j])
  }

  lemma {:induction false} PrefixesSoFar(w: World, states: seq<State>, events: seq<Event>, i: nat)
    requires w.interval > 0 && w.max > 0 && IsRun(w, states, events)
    requires i < |states| && NoneAboveUpTo(states, i)
    ensures Prefixes(states[i])
  {
    if i > 0 {
      PrefixesSoFar(w, states, events, i - 1);
      RunKeepsPrefixes(w, states, events, i - 1);
    }
  }

  // ----- following the node -----

  lemma LivePrefixes(s: State)
    requires Prefixes(s) && s.committed.chain.headers <= s.live.chain.headers
    ensures Reorg.PrefixSavepoints(s.live.chain.headers, Chains(s.savepoints))
  {
    forall r | r in Chains(s.savepoints)
      ensures Chains(s.savepoints)[r].headers == s.live.chain.headers[..r]
    {
      PrefixOfPrefix(s.committed.chain.headers, s.live.chain.headers, r);
    }
  }

  /** The index of some of the first blocks of a chain. */
  ghost predicate IsPrefixOf(w: World, db: Db, chain: seq<Hash>) {
    Faithful(w, db) && db.chain.headers <= chain
  }

  /** How a look at the node ends.  In step, the write transaction is the index of the whole chain; after a fork
      with a savepoint below it, what is committed is the index of a prefix of the node's chain; else what is
      committed stays and the rest is dropped. */
  ghost predicate Follows(w: World, s: State, verdict: Reorg.Verdict, chain: seq<Hash>, node: seq<Hash>, t: State) {
    if verdict.InStep? then IsPrefixOf(w, t.live, chain) && t.live.chain.headers == chain
    else if verdict.Recoverable? && exists r :: r in s.savepoints && r <= |s.live.chain.headers| - verdict.depth then
      t.live == t.committed && IsPrefixOf(w, t.committed, node)
    else t == s.(live := s.committed)
  }

  ghost predicate LookFollows(w: World, s: State, e: Event, t: State)
    requires w.interval > 0 && w.max > 0 && Possible(w, s, e)
  {
    match e
    case NextBlock(chain, node) => Follows(w, s, Verdict(w, s, w.parent(Last(chain)), node), chain, node, t)
    case CheckTip(node) => Follows(w, s, Verdict(w, s, Last(node), node), node, node, t)
    case _ => true
  }

  /** What is restored is a prefix of the chain the node had when the fork was found. */
  lemma RestoredIsPrefix(w: World, s: State, previous: Hash, node: seq<Hash>, restored: nat)
    requires w.interval > 0 && w.max > 0 && Sound(w, s) && Prefixes(s) && IsNode(w, node)
    requires Verdict(w, s, previous, node).Recoverable?
    requires Reorg.IsLatest(
      s.savepoints.Keys, Reorg.SaturatingSub(|s.live.chain.headers|, Verdict(w, s, previous, node).depth),
      Some(restored))
    ensures s.savepoints[restored].chain.headers <= node
  {
    var headers, savepoints := s.live.chain.headers, Chains(s.savepoints);
    var depth := Verdict(w, s, previous, node).depth;
    LivePrefixes(s);
    Reorg.DetectIsVerdict(headers, node, previous, w.interval, w.max, Verdict(w, s, previous, node));
    Reorg.DepthWithinHeight(headers, node, previous, w.interval, w.max, depth);
    assert savepoints.Keys == s.savepoints.Keys;
    Reorg.RestoredIsOnNodeChain(w.parent, headers, savepoints, node, previous, w.interval, w.max, depth, restored);
  }

  /** A verdict is about the height of the index, and the fork is at or below it. */
  lemma ForkIsBelow(w: World, s: State, previous: Hash, node: seq<Hash>)
    requires w.interval > 0 && w.max > 0 && Sound(w, s) && IsNode(w, node)
    requires Verdict(w, s, previous, node).Recoverable?
    ensures var verdict := Verdict(w, s, previous, node);
      verdict.height == |s.live.chain.headers| && verdict.depth <= verdict.height
  {
    var headers := s.live.chain.headers;
    Reorg.SearchIsVerdict(headers, node, 1, Reorg.MaxDepth(|headers|, w.interval, w.max));
    Reorg.DetectIsVerdict(headers, node, previous, w.interval, w.max, Verdict(w, s, previous, node));
    Reorg.DepthWithinHeight(
      headers, node, previous, w.interval, w.max, Verdict(w, s, previous, node).depth);
  }

  lemma UndoneFollows(w: World, s: State, previous: Hash, node: seq<Hash>, chain: seq<Hash>, t: State)
    requires w.interval > 0 && w.max > 0 && Sound(w, s) && Prefixes(s) && IsNode(w, node)
    requires !Verdict(w, s, previous, node).InStep? && Undone(s, Verdict(w, s, previous, node), t)
    ensures Follows(w, s, Verdict(w, s, previous, node), chain, node, t)
  {
    var verdict := Verdict(w, s, previous, node);
    if verdict.Recoverable? {
      ForkIsBelow(w, s, previous, node);
      var restored :| RolledBack(s, verdict.height - verdict.depth, restored, t);
      if restored.Some? {
        RestoredIsPrefix(w, s, previous, node, restored.value);
      } else {
        assert forall r :: r in s.savepoints ==> r in s.savepoints.Keys;
      }
    }
  }

  lemma SameTip(w: World, headers: seq<Hash>, node: seq<Hash>)
    requires Reorg.Linked(w.parent, headers) && Reorg.Linked(w.parent, node) && |headers| == |node| > 0
    requires Last(headers) == Last(node)
    ensures headers == node
  {
    forall i | 0 <= i < |headers|
      ensures headers[i] == node[i]
    {
      Reorg.AgreeBelow(w.parent, headers, node, |headers| - 1, i);
    }
  }

  lemma NextFollows(w: World, s: State, e: Event, t: State)
    requires w.interval > 0 && w.max > 0 && Sound(w, s) && Next(w, s, e, t) && Prefixes(s)
    ensures LookFollows(w, s, e, t)
  {
    NextKeeps(w, s, e, t);
    match e
    case NextBlock(chain, node) =>
      var previous := w.parent(Last(chain));
      if Verdict(w, s, previous, node).InStep? {
        InStepExtends(w, s, e);
      } else {
        UndoneFollows(w, s, previous, node, chain, t);
      }
    case CheckTip(node) =>
      if Verdict(w, s, Last(node), node).InStep? {
        InStepIsLast(w, s, Last(node), node);
        SameTip(w, s.live.chain.headers, node);
      } else {
        UndoneFollows(w, s, Last(node), node, node, t);
      }
    case _ =>
  }

  /** So it is as long as no rollback has left a savepoint above the index. */
  lemma FollowsTheNode(w: World, states: seq<State>, events: seq<Event>, i: nat)
    requires w.interval > 0 && w.max > 0 && IsRun(w, states, events) && i < |events|
    requires NoneAboveUpTo(states, i)
    ensures LookFollows(w, states[i], events[i], states[i + 1])
  {
    RunIsSound(w, states, events, i);
    PrefixesSoFar(w, states, events, i);
    NextFollows(w, states[i], events[i], states[i + 1]);
  }

  // ----- the index takes these steps -----

  /** The index class, with the savepoints' databases, holds what the state says. */
  ghost predicate Tracks(w: World, index: SatIndex.Index, saved: map<nat, SatIndex.Database>, s: State)
    reads index
  {
    && index.Valid() && index.CommittedValid() && index.starts == w.starts
    && index.State() == s.live.ledger && index.height == |s.live.chain.headers|
    && Matches(w, index.committed, s.committed)
    && AllMatch(w, saved, s.savepoints)
  }

  ghost predicate AllMatch(w: World, saved: map<nat, SatIndex.Database>, savepoints: map<nat, Db>) {
    && (forall r :: r in saved <==> r in savepoints)
    && (forall r :: r in saved ==> Matches(w, saved[r], savepoints[r]))
  }

  ghost predicate Matches(w: World, d: SatIndex.Database, db: Db) {
    && SatIndex.DatabaseValid(w.starts, d)
    && SatIndex.DatabaseState(d) == db.ledger && d.blockCount == |db.chain.headers|
  }

  method TakeBlock(
    index: SatIndex.Index, block: seq<Tx>, ghost w: World, ghost saved: map<nat, SatIndex.Database>, ghost s: State,
    ghost hash: Hash)
    requires Tracks(w, index, saved, s) && block == w.contents(hash)
    requires BlockValid(w.starts, s.live.ledger, |s.live.chain.headers|, block)
    modifies index
    ensures Tracks(w, index, saved, s.(live := Extended(w, s.live, hash)))
  {
    index.IndexBlock(block);
  }

  method TakeRestart(
    index: SatIndex.Index, ghost w: World, ghost saved: map<nat, SatIndex.Database>, ghost s: State)
    requires Tracks(w, index, saved, s)
    modifies index
    ensures Tracks(w, index, saved, s.(live := s.committed))
  {
    index.Restart();
  }

  method TakeRollBack(
    index: SatIndex.Index, files: SatIndex.Database, ghost w: World, ghost saved: map<nat, SatIndex.Database>,
    ghost s: State, ghost restored: nat)
    requires Tracks(w, index, saved, s) && restored in saved && files == saved[restored]
    modifies index
    ensures Tracks(w, index, saved, s.(live := s.savepoints[restored], committed := s.savepoints[restored]))
  {
    index.RollBack(files);
  }

  /** A savepoint is a copy of what has just been committed. */
  lemma CopiesMatch(
    w: World, saved: map<nat, SatIndex.Database>, s: State, blocks: nat, t: State, d: SatIndex.Database)
    returns (after: map<nat, SatIndex.Database>)
    requires AllMatch(w, saved, s.savepoints) && Matches(w, d, s.live) && Committed(w, s, blocks, t)
    ensures AllMatch(w, after, t.savepoints) && Matches(w, d, t.committed)
    ensures var height := |s.live.chain.headers|;
      if Reorg.SavepointRequired(height, s.live.chain.lastSavepoint, blocks, w.interval, w.max)
      then forall r :: r in after ==> (if r == height then after[r] == d else r in saved && after[r] == saved[r])
      else after == saved
  {
    var height := |s.live.chain.headers|;
    if Reorg.SavepointRequired(height, s.live.chain.lastSavepoint, blocks, w.interval, w.max) {
      Reorg.AddedIsOldOrNew(s.savepoints, w.max, height, s.live, t.savepoints);
      after := map r | r in t.savepoints :: if r == height then d else saved[r];
      assert t.savepoints[height] == s.live;
      forall r | r in after
        ensures Matches(w, after[r], t.savepoints[r])
      {
      }
    } else {
      after := saved;
    }
  }

  method TakeCommit(
    index: SatIndex.Index, ghost w: World, ghost saved: map<nat, SatIndex.Database>, ghost s: State,
    ghost blocks: nat, ghost t: State)
    returns (ghost after: map<nat, SatIndex.Database>)
    requires Tracks(w, index, saved, s) && Committed(w, s, blocks, t)
    modifies index
    ensures Tracks(w, index, after, t)
  {
    index.Commit();
    after := CopiesMatch(w, saved, s, blocks, t, index.committed);
  }
}
