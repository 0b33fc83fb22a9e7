/** Chain reorganisations: finding the fork, and rolling back to a savepoint.

A block hash determines the hash of the block before it.  The node's chain is the list of its block
hashes by height; it may change between two calls.
*/
module Reorg {
  import opened Options
  import Bytes

  type Hash = nat

  datatype Database = Database(headers: seq<Hash>, lastSavepoint: nat)

  datatype Verdict = InStep | Recoverable(height: nat, depth: nat) | Unrecoverable

  ghost predicate Linked(parent: Hash -> Hash, headers: seq<Hash>) {
    forall i :: 0 < i < |headers| ==> parent(headers[i]) == headers[i - 1]
  }

  // ----- finding the fork -----

  /** The hash the index reports at a height; without a height, that of its last header. */
  function HashAt(headers: seq<Hash>, height: Option<nat>): Option<Hash> {
    if height.Some? then (if height.value < |headers| then Some(headers[height.value]) else None)
    else if headers != [] then Some(headers[|headers| - 1])
    else None
  }

  function CheckedSub(a: nat, b: nat): Option<nat> {
    if b <= a then Some(a - b) else None
  }

  function SaturatingSub(a: nat, b: nat): nat {
    if b <= a then a - b else 0
  }

  /** Index and node agree `depth` blocks below `height`. */
  predicate Agree(headers: seq<Hash>, node: seq<Hash>, height: nat, depth: nat) {
    HashAt(headers, CheckedSub(height, depth)) == HashAt(node, Some(SaturatingSub(height, depth)))
  }

  function Times(a: nat, b: nat): nat {
    if a == 0 then 0 else b + Times(a - 1, b)
  }

  function Remainder(n: nat, d: nat): nat
    requires d > 0
  {
    if n < d then n else Remainder(n - d, d)
  }

  /** How deep the search goes. */
  function MaxDepth(height: nat, interval: nat, maxSavepoints: nat): nat
    requires interval > 0 && maxSavepoints > 0
  {
    Times(maxSavepoints - 1, interval) + Remainder(height, interval)
  }

  lemma MaxDepthIs(height: nat, interval: nat, maxSavepoints: nat)
    requires interval > 0 && maxSavepoints > 0
    ensures MaxDepth(height, interval, maxSavepoints) == (maxSavepoints - 1) * interval + height % interval
  {
    TimesIsProduct(maxSavepoints - 1, interval);
    RemainderIsMod(height, interval);
  }

  lemma {:induction false} TimesIsProduct(a: nat, b: nat)
    ensures Times(a, b) == a * b
  {
    if a > 0 {
      TimesIsProduct(a - 1, b);
      assert a * b == b + (a - 1) * b;
    }
  }

  lemma {:induction false} RemainderIsMod(n: nat, d: nat)
    requires d > 0
    ensures Remainder(n, d) == n % d
  {
    if n < d {
      Bytes.SmallQuotient(n, d);
    } else {
      RemainderIsMod(n - d, d);
      Bytes.FromParts(n - d, d);
      Bytes.DivModUnique(n, d, (n - d) / d + 1, (n - d) % d);
    }
  }

  /** The verdict on a block to be indexed next, said without the search. */
  ghost predicate IsVerdict(
    headers: seq<Hash>, node: seq<Hash>, previous: Hash, interval: nat, maxSavepoints: nat, verdict: Verdict)
    requires interval > 0 && maxSavepoints > 0
  {
    var height := |headers|;
    var max := MaxDepth(height, interval, maxSavepoints);
    if headers == [] || headers[height - 1] == previous then verdict == InStep
    else match verdict
      case InStep => false
      case Recoverable(at, depth) =>
        && at == height && 1 <= depth < max && Agree(headers, node, height, depth)
        && forall d :: 1 <= d < depth ==> !Agree(headers, node, height, d)
      case Unrecoverable =>
        forall d :: 1 <= d < max ==> !Agree(headers, node, height, d)
  }

  /** The search for the least depth, from `depth` on. */
  function Search(headers: seq<Hash>, node: seq<Hash>, depth: nat, max: nat): Verdict
    decreases max - depth
  {
    if depth >= max then Unrecoverable
    else if Agree(headers, node, |headers|, depth) then Recoverable(|headers|, depth)
    else Search(headers, node, depth + 1, max)
  }

  function Detect(headers: seq<Hash>, node: seq<Hash>, previous: Hash, interval: nat, maxSavepoints: nat): Verdict
    requires interval > 0 && maxSavepoints > 0
  {
    if headers == [] || headers[|headers| - 1] == previous then InStep
    else Search(headers, node, 1, MaxDepth(|headers|, interval, maxSavepoints))
  }

  lemma {:induction false} SearchIsVerdict(headers: seq<Hash>, node: seq<Hash>, depth: nat, max: nat)
    requires 1 <= depth && forall d :: 1 <= d < depth ==> !Agree(headers, node, |headers|, d)
    ensures var verdict := Search(headers, node, depth, max);
      match verdict
      case InStep => false
      case Recoverable(at, found) =>
        && at == |headers| && 1 <= found < max && Agree(headers, node, |headers|, found)
        && forall d :: 1 <= d < found ==> !Agree(headers, node, |headers|, d)
      case Unrecoverable =>
        forall d :: 1 <= d < max ==> !Agree(headers, node, |headers|, d)
    decreases max - depth
  {
    if depth < max && !Agree(headers, node, |headers|, depth) {
      SearchIsVerdict(headers, node, depth + 1, max);
    }
  }

  /** There is one verdict, and searching finds it. */
  lemma DetectIsVerdict(
    headers: seq<Hash>, node: seq<Hash>, previous: Hash, interval: nat, maxSavepoints: nat, verdict: Verdict)
    requires interval > 0 && maxSavepoints > 0
    ensures IsVerdict(headers, node, previous, interval, maxSavepoints, verdict)
      <==> verdict == Detect(headers, node, previous, interval, maxSavepoints)
  {
    SearchIsVerdict(headers, node, 1, MaxDepth(|headers|, interval, maxSavepoints));
  }

  /** Two chains that agree at one height agree below it. */
  lemma {:induction false} AgreeBelow(parent: Hash -> Hash, a: seq<Hash>, b: seq<Hash>, high: nat, low: nat)
    requires Linked(parent, a) && Linked(parent, b)
    requires low <= high < |a| && high < |b| && a[high] == b[high]
    ensures a[low] == b[low]
    decreases high - low
  {
    if low < high {
      AgreeBelow(parent, a, b, high - 1, low);
    }
  }

  /** The depth that is found marks the fork: up to it the chains are the same, above it they differ everywhere. */
  lemma DetectedDepthIsTheFork(
    parent: Hash -> Hash, headers: seq<Hash>, node: seq<Hash>, previous: Hash, interval: nat, maxSavepoints: nat,
    depth: nat)
    requires Linked(parent, headers) && Linked(parent, node) && interval > 0 && maxSavepoints > 0
    requires IsVerdict(headers, node, previous, interval, maxSavepoints, Recoverable(|headers|, depth))
    requires depth <= |headers|
    ensures var fork := |headers| - depth;
      && fork < |headers| && fork < |node|
      && headers[..fork + 1] == node[..fork + 1]
      && forall i :: fork < i < |headers| ==> i >= |node| || headers[i] != node[i]
  {
    var fork := |headers| - depth;
    forall i | 0 <= i <= fork
      ensures headers[i] == node[i]
    {
      AgreeBelow(parent, headers, node, fork, i);
    }
    forall i | fork < i < |headers|
      ensures i >= |node| || headers[i] != node[i]
    {
      assert !Agree(headers, node, |headers|, |headers| - i);
    }
  }

  /** With a common first block the depth never exceeds the height. */
  lemma DepthWithinHeight(
    headers: seq<Hash>, node: seq<Hash>, previous: Hash, interval: nat, maxSavepoints: nat, depth: nat)
    requires interval > 0 && maxSavepoints > 0
    requires IsVerdict(headers, node, previous, interval, maxSavepoints, Recoverable(|headers|, depth))
    requires headers != [] && node != [] && headers[0] == node[0]
    ensures depth <= |headers|
  {
    assert Agree(headers, node, |headers|, |headers|);
  }

  // ----- savepoints -----

  /** The highest savepoint that is not above the fork. */
  ghost predicate IsLatest(savepoints: set<nat>, target: nat, latest: Option<nat>) {
    match latest
    case None => forall s <- savepoints :: s > target
    case Some(height) =>
      height in savepoints && height <= target && forall s <- savepoints :: s <= target ==> s <= height
  }

  /** Every savepoint holds the index as it was at that height of the chain it now has. */
  ghost predicate PrefixSavepoints(headers: seq<Hash>, savepoints: map<nat, Database>) {
    forall s :: s in savepoints ==> s <= |headers| && savepoints[s].headers == headers[..s]
  }

  /** What a rollback restores is a prefix of the node's chain. */
  lemma RestoredIsOnNodeChain(
    parent: Hash -> Hash, headers: seq<Hash>, savepoints: map<nat, Database>, node: seq<Hash>,
    previous: Hash, interval: nat, maxSavepoints: nat, depth: nat, restored: nat)
    requires Linked(parent, headers) && Linked(parent, node) && interval > 0 && maxSavepoints > 0
    requires PrefixSavepoints(headers, savepoints)
    requires IsVerdict(headers, node, previous, interval, maxSavepoints, Recoverable(|headers|, depth))
    requires depth <= |headers|
    requires IsLatest(savepoints.Keys, SaturatingSub(|headers|, depth), Some(restored))
    ensures restored <= |node| && savepoints[restored].headers == node[..restored]
  {
    DetectedDepthIsTheFork(parent, headers, node, previous, interval, maxSavepoints, depth);
    assert headers[..restored] == headers[..|headers| - depth + 1][..restored];
    assert node[..restored] == node[..|headers| - depth + 1][..restored];
  }

  /** After a rollback the savepoints match the index again exactly if none is above the restored one. */
  lemma StaleExactlyAboveRestored(headers: seq<Hash>, savepoints: map<nat, Database>, restored: nat)
    requires PrefixSavepoints(headers, savepoints) && restored in savepoints
    ensures PrefixSavepoints(savepoints[restored].headers, savepoints) <==>
      forall s :: s in savepoints ==> s <= restored
  {
    forall s | s in savepoints && s <= restored
      ensures savepoints[s].headers == headers[..restored][..s]
    {
      assert headers[..restored][..s] == headers[..s];
    }
  }

  ghost predicate IsOldest(savepoints: set<nat>, oldest: nat) {
    oldest in savepoints && forall s <- savepoints :: oldest <= s
  }

  /** The savepoints after another one is made: the oldest one goes when there are enough. */
  ghost predicate Added<D(!new)>(before: map<nat, D>, max: nat, height: nat, db: D, after: map<nat, D>) {
    if |before| >= max then
      exists oldest: nat :: IsOldest(before.Keys, oldest) && after == (before - {oldest})[height := db]
    else
      after == before[height := db]
  }

  lemma AddedIsOldOrNew<D(!new)>(before: map<nat, D>, max: nat, height: nat, db: D, after: map<nat, D>)
    requires Added(before, max, height, db, after)
    ensures forall s :: s in after ==> (s == height && after[s] == db) || (s in before && after[s] == before[s])
  {
  }

  lemma AddedKeepsPrefixes(before: map<nat, Database>, max: nat, db: Database, after: map<nat, Database>)
    requires Added(before, max, |db.headers|, db, after) && PrefixSavepoints(db.headers, before)
    ensures PrefixSavepoints(db.headers, after)
  {
    AddedIsOldOrNew(before, max, |db.headers|, db, after);
    assert db.headers[..|db.headers|] == db.headers;
  }

  predicate SavepointRequired(height: nat, last: nat, blocks: nat, interval: nat, maxSavepoints: nat) {
    && (height < interval || SaturatingSub(height, last) >= interval)
    && SaturatingSub(blocks, height) <= interval * maxSavepoints + 1
  }

  /** With ten blocks between two savepoints: after every one of the first nine blocks, and then ten blocks after
      the last one, but not while the node is far ahead. */
  lemma TenBlocksApart(height: nat, last: nat, blocks: nat)
    ensures SavepointRequired(height, last, blocks, 10, 2) <==>
      (height < 10 || height >= last + 10) && blocks <= height + 21
  {
  }

  // ----- the index -----

  class HeaderIndex {
    const parent: Hash -> Hash
    const interval: nat
    const maxSavepoints: nat
    var db: Database
    var savepoints: map<nat, Database>

    ghost predicate Valid()
      reads this
    {
      && interval > 0 && maxSavepoints > 0
      && Linked(parent, db.headers)
      && (forall s :: s in savepoints ==> Linked(parent, savepoints[s].headers))
      && |savepoints| <= maxSavepoints
    }

    constructor (parent: Hash -> Hash, interval: nat, maxSavepoints: nat)
      requires interval > 0 && maxSavepoints > 0
      ensures Valid() && db == Database([], 0) && savepoints == map[]
      ensures this.parent == parent && this.interval == interval && this.maxSavepoints == maxSavepoints
    {
      this.parent, this.interval, this.maxSavepoints := parent, interval, maxSavepoints;
      this.db, this.savepoints := Database([], 0), map[];
    }

    method DetectReorg(previous: Hash, node: seq<Hash>) returns (verdict: Verdict)
      requires Valid()
      ensures IsVerdict(db.headers, node, previous, interval, maxSavepoints, verdict)
    {
      var height := |db.headers|;
      var indexed := HashAt(db.headers, CheckedSub(height, 1));
      if indexed.None? || indexed.value == previous {
        return InStep;
      }
      var max := MaxDepth(height, interval, maxSavepoints);
      var depth := 1;
      while depth < max
        invariant 1 <= depth && (depth <= max || depth == 1)
        invariant forall d :: 1 <= d < depth ==> !Agree(db.headers, node, height, d)
      {
        if HashAt(db.headers, CheckedSub(height, depth)) == HashAt(node, Some(SaturatingSub(height, depth))) {
          return Recoverable(height, depth);
        }
        depth := depth + 1;
      }
      return Unrecoverable;
    }

    /** Indexes a block that follows the last one, so the headers stay linked. */
    method IndexBlock(block: Hash, node: seq<Hash>) returns (verdict: Verdict)
      requires Valid()
      modifies this`db
      ensures Valid()
      ensures IsVerdict(old(db).headers, node, parent(block), interval, maxSavepoints, verdict)
      ensures db == if verdict.InStep? then old(db).(headers := old(db).headers + [block]) else old(db)
    {
      verdict := DetectReorg(parent(block), node);
      if verdict.InStep? {
        db := db.(headers := db.headers + [block]);
      }
    }

    method LatestSavepoint(height: nat, depth: nat) returns (latest: Option<nat>)
      ensures IsLatest(savepoints.Keys, SaturatingSub(height, depth), latest)
    {
      latest := None;
      var unseen := savepoints.Keys;
      ghost var seen: set<nat> := {};
      while unseen != {}
        invariant seen + unseen == savepoints.Keys
        invariant IsLatest(seen, SaturatingSub(height, depth), latest)
        decreases |unseen|
      {
        var s :| s in unseen;
        if s <= SaturatingSub(height, depth) && (latest.None? || latest.value < s) {
          latest := Some(s);
        }
        unseen, seen := unseen - {s}, seen + {s};
      }
    }

    /** Restores the highest savepoint not above the fork.  Higher savepoints are left behind. */
    method HandleReorg(height: nat, depth: nat) returns (restored: Option<nat>)
      requires Valid()
      modifies this`db
      ensures Valid()
      ensures IsLatest(savepoints.Keys, SaturatingSub(height, depth), restored)
      ensures db == if restored.Some? then savepoints[restored.value] else old(db)
    {
      restored := LatestSavepoint(height, depth);
      if restored.Some? {
        db := savepoints[restored.value];
      }
    }

    /** Makes a savepoint when one is due, dropping the oldest when there are enough. */
    method UpdateSavepoints(blocks: nat) returns (made: bool)
      requires Valid()
      modifies this
      ensures Valid()
      ensures made <==> SavepointRequired(|old(db).headers|, old(db).lastSavepoint, blocks, interval, maxSavepoints)
      ensures PrefixSavepoints(old(db).headers, old(savepoints)) ==> PrefixSavepoints(db.headers, savepoints)
      ensures db == if made then old(db).(lastSavepoint := |old(db).headers|) else old(db)
      ensures if made
        then Added(old(savepoints), maxSavepoints, |old(db).headers|, old(db), savepoints)
        else savepoints == old(savepoints)
    {
      made := SavepointRequired(|db.headers|, db.lastSavepoint, blocks, interval, maxSavepoints);
      if made {
        var height := |db.headers|;
        if |savepoints| >= maxSavepoints {
          var oldest := OldestSavepoint();
          assert savepoints.Keys - {oldest} == (savepoints - {oldest}).Keys;
          savepoints := savepoints - {oldest};
        }
        assert savepoints[height := db].Keys == savepoints.Keys + {height};
        savepoints := savepoints[height := db];
        assert Added(old(savepoints), maxSavepoints, height, db, savepoints);
        if PrefixSavepoints(db.headers, old(savepoints)) {
          AddedKeepsPrefixes(old(savepoints), maxSavepoints, db, savepoints);
        }
        db := db.(lastSavepoint := height);
      }
    }

    method OldestSavepoint() returns (oldest: nat)
      requires savepoints != map[]
      ensures IsOldest(savepoints.Keys, oldest)
    {
      oldest :| oldest in savepoints;
      var unseen := savepoints.Keys - {oldest};
      while unseen != {}
        invariant oldest in savepoints && unseen <= savepoints.Keys
        invariant forall s :: s in savepoints && s !in unseen ==> oldest <= s
        decreases |unseen|
      {
        var s :| s in unseen;
        if s < oldest {
          oldest := s;
        }
        unseen := unseen - {s};
      }
    }

    /** One look at the next block: either it is indexed, or the index is rolled back onto the node's chain,
        or nothing changes. */
    method Follow(block: Hash, node: seq<Hash>) returns (verdict: Verdict)
      requires Valid() && Linked(parent, node)
      requires db.headers != [] ==> node != [] && db.headers[0] == node[0]
      modifies this`db
      ensures Valid()
      ensures verdict.InStep? ==> db.headers == old(db).headers + [block]
      ensures verdict.Recoverable? && PrefixSavepoints(old(db).headers, savepoints) && db != old(db) ==>
        |db.headers| <= |node| && db.headers == node[..|db.headers|]
      ensures verdict.Unrecoverable? ==> db == old(db)
    {
      verdict := IndexBlock(block, node);
      if verdict.Recoverable? {
        DepthWithinHeight(db.headers, node, parent(block), interval, maxSavepoints, verdict.depth);
        ghost var headers := db.headers;
        var restored := HandleReorg(verdict.height, verdict.depth);
        if restored.Some? && PrefixSavepoints(headers, savepoints) {
          RestoredIsOnNodeChain(parent, headers, savepoints, node, parent(block), interval, maxSavepoints,
            verdict.depth, restored.value);
        }
      }
    }
  }

  // ----- a run that restores a stale savepoint -----

  /** The blocks of two runs: 1, 2, 3, then 4, 5, 6 after 2, and last 7, 8 after 5; and 11 to 18, then 26 to 29
      after 15. */
  function Parent(hash: Hash): Hash {
    match hash
    case 2 => 1
    case 3 => 2
    case 4 => 2
    case 5 => 4
    case 6 => 5
    case 7 => 5
    case 8 => 7
    case 26 => 15
    case _ => if 11 < hash <= 18 || 26 < hash <= 29 then hash - 1 else 0
  }

  /** The index has come to this point of the run. */
  ghost predicate IsAt(index: HeaderIndex, db: Database, savepoints: map<nat, Database>)
    reads index
  {
    && index.Valid() && index.parent == Parent && index.maxSavepoints == 2
    && index.db == db && index.savepoints == savepoints
  }

  method NextBlock(index: HeaderIndex, block: Hash, ghost db: Database, ghost savepoints: map<nat, Database>)
    requires IsAt(index, db, savepoints)
    requires db.headers != [] ==> db.headers[|db.headers| - 1] == Parent(block)
    modifies index
    ensures IsAt(index, db.(headers := db.headers + [block]), savepoints)
  {
    var verdict := index.IndexBlock(block, []);
  }

  method NoSavepoint(index: HeaderIndex, ghost db: Database, ghost savepoints: map<nat, Database>)
    requires IsAt(index, db, savepoints)
    requires |db.headers| >= index.interval && SaturatingSub(|db.headers|, db.lastSavepoint) < index.interval
    modifies index
    ensures IsAt(index, db, savepoints)
  {
    var made := index.UpdateSavepoints(|index.db.headers|);
  }

  method FirstSavepoints(index: HeaderIndex, ghost db: Database, ghost savepoints: map<nat, Database>)
    requires IsAt(index, db, savepoints) && |savepoints| < 2
    requires |db.headers| < index.interval || SaturatingSub(|db.headers|, db.lastSavepoint) >= index.interval
    modifies index
    ensures IsAt(index, db.(lastSavepoint := |db.headers|), savepoints[|db.headers| := db])
  {
    var made := index.UpdateSavepoints(|index.db.headers|);
  }

  method LaterSavepoint(
    index: HeaderIndex, ghost db: Database, ghost low: nat, ghost other: (nat, Database), ghost oldest: Database)
    requires low < other.0 && IsAt(index, db, map[low := oldest, other.0 := other.1])
    requires SaturatingSub(|db.headers|, db.lastSavepoint) >= index.interval
    modifies index
    ensures IsAt(index, db.(lastSavepoint := |db.headers|), map[other.0 := other.1][|db.headers| := db])
  {
    ghost var before := index.savepoints;
    var made := index.UpdateSavepoints(|index.db.headers|);
    OldestGoes(before, low, other.0, db, index.savepoints);
  }

  lemma OldestGoes(before: map<nat, Database>, low: nat, high: nat, db: Database, after: map<nat, Database>)
    requires Added(before, 2, |db.headers|, db, after) && low < high && before.Keys == {low, high}
    ensures after == map[high := before[high]][|db.headers| := db]
  {
    assert |before| == |before.Keys| == 2;
    var oldest: nat :| IsOldest(before.Keys, oldest) && after == (before - {oldest})[|db.headers| := db];
    assert low in before.Keys && high in before.Keys;
    assert before - {low} == map[high := before[high]];
  }

  const SAVED_1: Database := Database([1], 0)
  const SAVED_3: Database := Database([1, 2, 3], 1)
  const SAVED_2: Database := Database([1, 2], 0)
  const SAVED_4: Database := Database([1, 2, 4, 5], 2)

  /** The first chain: savepoints at heights 1 and 3. */
  method FirstChain() returns (index: HeaderIndex)
    ensures fresh(index) && index.interval == 2 && IsAt(index, Database([1, 2, 3], 3), map[1 := SAVED_1, 3 := SAVED_3])
  {
    index := new HeaderIndex(Parent, 2, 2);
    NextBlock(index, 1, Database([], 0), map[]);
    FirstSavepoints(index, SAVED_1, map[]);
    BlocksTwoAndThree(index);
  }

  method BlocksTwoAndThree(index: HeaderIndex)
    requires index.interval == 2 && IsAt(index, Database([1], 1), map[1 := SAVED_1])
    modifies index
    ensures IsAt(index, Database([1, 2, 3], 3), map[1 := SAVED_1, 3 := SAVED_3])
  {
    NextBlock(index, 2, Database([1], 1), map[1 := SAVED_1]);
    NoSavepoint(index, Database([1, 2], 1), map[1 := SAVED_1]);
    NextBlock(index, 3, Database([1, 2], 1), map[1 := SAVED_1]);
    FirstSavepoints(index, SAVED_3, map[1 := SAVED_1]);
  }

  /** The node leaves block 3, and the index is rolled back to height 1. */
  method FirstRollback() returns (index: HeaderIndex)
    ensures fresh(index) && index.interval == 2 && IsAt(index, SAVED_1, map[1 := SAVED_1, 3 := SAVED_3])
  {
    index := FirstChain();
    var node := [1, 2, 4, 5, 6];
    var verdict := index.IndexBlock(5, node);
    assert !Agree([1, 2, 3], node, 3, 1) && Agree([1, 2, 3], node, 3, 2);
    assert verdict == Recoverable(3, 2);
    var restored := index.HandleReorg(3, 2);
    assert 1 in index.savepoints.Keys && 3 in index.savepoints.Keys;
    assert restored == Some(1);
  }

  /** It follows the node again; savepoint 3 is left behind beside 4. */
  method SecondChain() returns (index: HeaderIndex)
    ensures fresh(index) && index.interval == 2
    ensures IsAt(index, Database([1, 2, 4, 5, 6], 4), map[3 := SAVED_3, 4 := SAVED_4])
  {
    index := FirstRollback();
    BlockTwoAgain(index);
    BlocksFourAndFive(index);
    NextBlock(index, 6, Database([1, 2, 4, 5], 4), map[3 := SAVED_3, 4 := SAVED_4]);
    NoSavepoint(index, Database([1, 2, 4, 5, 6], 4), map[3 := SAVED_3, 4 := SAVED_4]);
  }

  method BlockTwoAgain(index: HeaderIndex)
    requires index.interval == 2 && IsAt(index, SAVED_1, map[1 := SAVED_1, 3 := SAVED_3])
    modifies index
    ensures IsAt(index, Database([1, 2], 2), map[2 := SAVED_2, 3 := SAVED_3])
  {
    NextBlock(index, 2, SAVED_1, map[1 := SAVED_1, 3 := SAVED_3]);
    LaterSavepoint(index, SAVED_2, 1, (3, SAVED_3), SAVED_1);
    assert map[3 := SAVED_3][2 := SAVED_2] == map[2 := SAVED_2, 3 := SAVED_3];
  }

  method BlocksFourAndFive(index: HeaderIndex)
    requires index.interval == 2 && IsAt(index, Database([1, 2], 2), map[2 := SAVED_2, 3 := SAVED_3])
    modifies index
    ensures IsAt(index, Database([1, 2, 4, 5], 4), map[3 := SAVED_3, 4 := SAVED_4])
  {
    ghost var savepoints := map[2 := SAVED_2, 3 := SAVED_3];
    NextBlock(index, 4, Database([1, 2], 2), savepoints);
    NoSavepoint(index, Database([1, 2, 4], 2), savepoints);
    NextBlock(index, 5, Database([1, 2, 4], 2), savepoints);
    LaterSavepoint(index, SAVED_4, 2, (3, SAVED_3), SAVED_2);
    assert map[3 := SAVED_3][4 := SAVED_4] == map[3 := SAVED_3, 4 := SAVED_4];
  }

  /** The node leaves block 6: now the savepoint left behind is the highest below the fork, and the index is
      rolled back to blocks that the node does not have. */
  method StaleSavepointMisleads() returns (index: HeaderIndex, node: seq<Hash>)
    ensures index.Valid() && Linked(index.parent, node)
    ensures |index.db.headers| <= |node| && index.db.headers != node[..|index.db.headers|]
  {
    index := SecondChain();
    node := [1, 2, 4, 5, 7, 8];
    var verdict := index.IndexBlock(8, node);
    assert !Agree([1, 2, 4, 5, 6], node, 5, 1) && Agree([1, 2, 4, 5, 6], node, 5, 2);
    assert verdict == Recoverable(5, 2);
    var restored := index.HandleReorg(5, 2);
    assert 3 in index.savepoints.Keys && 4 in index.savepoints.Keys;
    assert restored == Some(3);
    assert index.db.headers[2] != node[..3][2];
  }

  // ----- forks that are called recoverable and are not -----

  /** Savepoints as they are when every block is followed: `max` of them, an interval apart, the last one less than
      an interval ago. */
  ghost predicate Spaced(savepoints: set<nat>, height: nat, last: nat, interval: nat, max: nat)
    requires max > 0
  {
    var lowest := last - Times(max - 1, interval);
    && last <= height < last + interval && lowest > 0 && lowest in savepoints
    && forall s <- savepoints :: s >= lowest
  }

  ghost predicate HasBelow(savepoints: set<nat>, height: nat, depth: nat) {
    exists s <- savepoints :: s <= SaturatingSub(height, depth)
  }

  /** Then each fork that is called recoverable has a savepoint below it, exactly unless the height is further into
      its interval than the index is past the last savepoint, by more than one. */
  lemma RecoverableExactly(savepoints: set<nat>, height: nat, last: nat, interval: nat, max: nat)
    requires interval > 0 && max > 0 && Spaced(savepoints, height, last, interval, max)
    ensures (forall depth: nat :: 1 <= depth < MaxDepth(height, interval, max) ==> HasBelow(savepoints, height, depth))
      <==> height % interval <= height - last + 1
  {
    RemainderIsMod(height, interval);
    var rest, lowest := Remainder(height, interval), last - Times(max - 1, interval);
    if rest > height - last + 1 {
      var depth := Times(max - 1, interval) + rest - 1;
      assert !HasBelow(savepoints, height, depth);
    } else {
      forall depth: nat | 1 <= depth < MaxDepth(height, interval, max)
        ensures HasBelow(savepoints, height, depth)
      {
        assert lowest <= SaturatingSub(height, depth);
      }
    }
  }

  /** With the default settings, and savepoints after 9 and 19 blocks, a fork eleven blocks below the top is such. */
  lemma NineteenBlocks()
    ensures var savepoints := {9, 19};
      Spaced(savepoints, 19, 19, 10, 2) && 11 < MaxDepth(19, 10, 2) && !HasBelow(savepoints, 19, 11)
  {
    assert MaxDepth(19, 10, 2) == 19;
  }

  const UP_TO_1: Database := Database([11], 0)
  const UP_TO_2: Database := Database([11, 12], 1)
  const UP_TO_5: Database := Database([11, 12, 13, 14, 15], 2)
  const UP_TO_8: Database := Database([11, 12, 13, 14, 15, 16, 17, 18], 5)

  method FirstFive() returns (index: HeaderIndex)
    ensures fresh(index) && index.interval == 3
    ensures IsAt(index, UP_TO_5.(lastSavepoint := 5), map[2 := UP_TO_2, 5 := UP_TO_5])
  {
    index := new HeaderIndex(Parent, 3, 2);
    NextBlock(index, 11, Database([], 0), map[]);
    FirstSavepoints(index, UP_TO_1, map[]);
    NextBlock(index, 12, Database([11], 1), map[1 := UP_TO_1]);
    FirstSavepoints(index, UP_TO_2, map[1 := UP_TO_1]);
    NextThree(index);
  }

  method NextThree(index: HeaderIndex)
    requires index.interval == 3 && IsAt(index, UP_TO_2.(lastSavepoint := 2), map[1 := UP_TO_1, 2 := UP_TO_2])
    modifies index
    ensures IsAt(index, UP_TO_5.(lastSavepoint := 5), map[2 := UP_TO_2, 5 := UP_TO_5])
  {
    ghost var savepoints := map[1 := UP_TO_1, 2 := UP_TO_2];
    NextBlock(index, 13, Database([11, 12], 2), savepoints);
    NoSavepoint(index, Database([11, 12, 13], 2), savepoints);
    NextBlock(index, 14, Database([11, 12, 13], 2), savepoints);
    NoSavepoint(index, Database([11, 12, 13, 14], 2), savepoints);
    NextBlock(index, 15, Database([11, 12, 13, 14], 2), savepoints);
    LaterSavepoint(index, UP_TO_5, 1, (2, UP_TO_2), UP_TO_1);
    assert map[2 := UP_TO_2][5 := UP_TO_5] == map[2 := UP_TO_2, 5 := UP_TO_5];
  }

  method LastThree(index: HeaderIndex)
    requires index.interval == 3 && IsAt(index, UP_TO_5.(lastSavepoint := 5), map[2 := UP_TO_2, 5 := UP_TO_5])
    modifies index
    ensures IsAt(index, UP_TO_8.(lastSavepoint := 8), map[5 := UP_TO_5, 8 := UP_TO_8])
  {
    ghost var savepoints := map[2 := UP_TO_2, 5 := UP_TO_5];
    NextBlock(index, 16, Database([11, 12, 13, 14, 15], 5), savepoints);
    NoSavepoint(index, Database([11, 12, 13, 14, 15, 16], 5), savepoints);
    NextBlock(index, 17, Database([11, 12, 13, 14, 15, 16], 5), savepoints);
    NoSavepoint(index, Database([11, 12, 13, 14, 15, 16, 17], 5), savepoints);
    NextBlock(index, 18, Database([11, 12, 13, 14, 15, 16, 17], 5), savepoints);
    LaterSavepoint(index, UP_TO_8, 2, (5, UP_TO_5), UP_TO_2);
    assert map[5 := UP_TO_5][8 := UP_TO_8] == map[5 := UP_TO_5, 8 := UP_TO_8];
  }

  lemma AgreeAtFour(headers: seq<Hash>, node: seq<Hash>)
    requires headers == [11, 12, 13, 14, 15, 16, 17, 18] && node == [11, 12, 13, 14, 15, 26, 27, 28, 29]
    ensures !Agree(headers, node, 8, 1) && !Agree(headers, node, 8, 2) && !Agree(headers, node, 8, 3)
    ensures Agree(headers, node, 8, 4)
  {
  }

  /** A run from the empty index that follows the node block by block.  Then the node leaves three blocks: the fork
      is called recoverable, and there is no savepoint below it. */
  method RecoverableWithoutSavepoint() returns (verdict: Verdict, restored: Option<nat>)
    ensures verdict == Recoverable(8, 4) && restored.None?
  {
    var index := FirstFive();
    LastThree(index);
    var node := [11, 12, 13, 14, 15, 26, 27, 28, 29];
    verdict := index.IndexBlock(29, node);
    AgreeAtFour([11, 12, 13, 14, 15, 16, 17, 18], node);
    assert verdict == Recoverable(8, 4);
    restored := index.HandleReorg(8, 4);
    assert forall s :: s in index.savepoints ==> s >= 5;
  }
}
