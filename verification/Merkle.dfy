/** Merkle roots and inclusion paths, with an odd level completed by its last node.

The hash of two nodes is a parameter.  Where a result needs it, it is injective.
*/
module Merkle {
  import opened Options

  /** One step of a path: whether the node so far is the left one, and the other node. */
  datatype Step<D> = Step(isLeft: bool, sibling: D)

  // ----- specification -----

  function Next<D>(pair: (D, D) -> D, level: seq<D>): (next: seq<D>)
    ensures |next| == (|level| + 1) / 2
  {
    if level == [] then []
    else if |level| == 1 then [pair(level[0], level[0])]
    else [pair(level[0], level[1])] + Next(pair, level[2..])
  }

  function Root<D>(pair: (D, D) -> D, level: seq<D>): D
    requires level != []
    decreases |level|
  {
    if |level| == 1 then level[0] else Root(pair, Next(pair, level))
  }

  function Sibling<D>(level: seq<D>, index: nat): D
    requires index < |level|
  {
    if index % 2 == 1 then level[index - 1]
    else if index + 1 < |level| then level[index + 1]
    else level[index]
  }

  function Path<D>(pair: (D, D) -> D, level: seq<D>, index: nat): seq<Step<D>>
    requires index < |level|
    decreases |level|
  {
    if |level| == 1 then []
    else [Step(index % 2 == 0, Sibling(level, index))] + Path(pair, Next(pair, level), index / 2)
  }

  function Fold<D>(pair: (D, D) -> D, digest: D, path: seq<Step<D>>): D
    decreases |path|
  {
    if path == [] then digest
    else
      var step := path[0];
      Fold(pair, if step.isLeft then pair(digest, step.sibling) else pair(step.sibling, digest), path[1..])
  }

  lemma {:induction false} NextAt<D>(pair: (D, D) -> D, level: seq<D>, k: nat)
    requires 2 * k < |level|
    ensures Next(pair, level)[k] == pair(level[2 * k], if 2 * k + 1 < |level| then level[2 * k + 1] else level[2 * k])
  {
    if k > 0 {
      NextAt(pair, level[2..], k - 1);
    }
  }

  // ----- the tree from above -----

  function PowerOfTwo(k: nat): (n: nat)
    ensures n > 0
  {
    if k == 0 then 1 else 2 * PowerOfTwo(k - 1)
  }

  /** A node without a right neighbour on so many levels is paired with itself. */
  function Lift<D>(pair: (D, D) -> D, node: D, levels: nat): D {
    if levels == 0 then node else Lift(pair, pair(node, node), levels - 1)
  }

  lemma {:induction false} NextConcat<D>(pair: (D, D) -> D, left: seq<D>, right: seq<D>)
    requires |left| % 2 == 0
    ensures Next(pair, left + right) == Next(pair, left) + Next(pair, right)
  {
    if left == [] {
      assert left + right == right;
    } else {
      assert (left + right)[2..] == left[2..] + right;
      NextConcat(pair, left[2..], right);
    }
  }

  /** The root, said from above: the first 2^k leaves, as many as go into a full tree, are the left half, the others
      the right half, and a right half that is lower is lifted. */
  lemma {:induction false} RootFromAbove<D>(pair: (D, D) -> D, left: seq<D>, right: seq<D>, k: nat)
    requires |left| == PowerOfTwo(k) && 0 < |right| <= |left|
    ensures Height(|right|) <= k
    ensures Root(pair, left + right)
         == pair(Root(pair, left), Lift(pair, Root(pair, right), k - Height(|right|)))
    decreases k
  {
    if k == 0 {
      assert left + right == [left[0], right[0]];
      assert Next(pair, [left[0], right[0]]) == [pair(left[0], right[0])];
    } else {
      NextConcat(pair, left, right);
      RootFromAbove(pair, Next(pair, left), Next(pair, right), k - 1);
    }
  }

  // ----- what paths prove -----

  /** Folding a leaf with its path gives the root. */
  lemma {:induction false} PathLeadsToRoot<D>(pair: (D, D) -> D, level: seq<D>, index: nat)
    requires index < |level|
    ensures Fold(pair, level[index], Path(pair, level, index)) == Root(pair, level)
    decreases |level|
  {
    if |level| > 1 {
      NextAt(pair, level, index / 2);
      PathLeadsToRoot(pair, Next(pair, level), index / 2);
    }
  }

  ghost predicate Injective<D(!new)>(pair: (D, D) -> D) {
    forall a, b, c, d :: pair(a, b) == pair(c, d) ==> a == c && b == d
  }

  /** Whether a path climbs from place `index` of a level. */
  predicate ClimbsFrom<D>(pair: (D, D) -> D, level: seq<D>, index: nat, path: seq<Step<D>>)
    requires index < |level|
  {
    var own := Path(pair, level, index);
    |path| == |own| && forall k :: 0 <= k < |path| ==> path[k].isLeft == own[k].isLeft
  }

  /** Only the leaf at `index`, with its own path, leads to the root from there. */
  lemma {:induction false} OnlyTheLeafLeadsToRoot<D(!new)>(
    pair: (D, D) -> D, level: seq<D>, index: nat, digest: D, path: seq<Step<D>>)
    requires Injective(pair) && index < |level| && ClimbsFrom(pair, level, index, path)
    ensures Fold(pair, digest, path) == Root(pair, level) <==>
      digest == level[index] && path == Path(pair, level, index)
    decreases |level|
  {
    PathLeadsToRoot(pair, level, index);
    if |level| > 1 {
      var own := Path(pair, level, index);
      var step := path[0];
      assert own[0].isLeft == step.isLeft;
      var up := if step.isLeft then pair(digest, step.sibling) else pair(step.sibling, digest);
      assert forall k :: 0 <= k < |path| - 1 ==> path[1..][k].isLeft == own[1..][k].isLeft;
      OnlyTheLeafLeadsToRoot(pair, Next(pair, level), index / 2, up, path[1..]);
      NextAt(pair, level, index / 2);
      assert path == [step] + path[1..];
    }
  }

  /** A path is as long as the tree is high. */
  function Height(leaves: nat): nat {
    if leaves <= 1 then 0 else 1 + Height((leaves + 1) / 2)
  }

  lemma {:induction false} PathLength<D>(pair: (D, D) -> D, level: seq<D>, index: nat)
    requires index < |level|
    ensures |Path(pair, level, index)| == Height(|level|)
    decreases |level|
  {
    if |level| > 1 {
      PathLength(pair, Next(pair, level), index / 2);
    }
  }

  // ----- what roots determine -----

  lemma NextInjectiveAt<D(!new)>(pair: (D, D) -> D, a: seq<D>, b: seq<D>, k: nat)
    requires Injective(pair) && Next(pair, a) == Next(pair, b) && 2 * k < |a| <= |b|
    ensures a[2 * k] == b[2 * k]
    ensures 2 * k + 1 < |a| ==> a[2 * k + 1] == b[2 * k + 1]
    ensures |a| == 2 * k + 1 < |b| ==> b[2 * k + 1] == a[2 * k]
  {
    NextAt(pair, a, k);
    NextAt(pair, b, k);
  }

  lemma NextInjectiveEach<D(!new)>(pair: (D, D) -> D, a: seq<D>, b: seq<D>, i: nat)
    requires Injective(pair) && Next(pair, a) == Next(pair, b) && i < |a| <= |b|
    ensures a[i] == b[i]
  {
    var k: nat := i / 2;
    assert i == 2 * k || i == 2 * k + 1;
    NextInjectiveAt(pair, a, b, k);
  }

  lemma SameHalves<D>(pair: (D, D) -> D, a: seq<D>, b: seq<D>) returns (k: nat)
    requires Next(pair, a) == Next(pair, b) && 0 < |a| < |b|
    ensures |a| == 2 * k + 1 && |b| == |a| + 1
  {
    k := (|a| - 1) / 2;
    var halves := |Next(pair, a)|;
    assert halves == |Next(pair, b)|;
  }

  /** Among lists of one length the root determines every leaf. */
  lemma {:induction false} RootsInjectiveAtOneLength<D(!new)>(pair: (D, D) -> D, a: seq<D>, b: seq<D>)
    requires Injective(pair) && |a| == |b| > 0
    ensures Root(pair, a) == Root(pair, b) <==> a == b
    decreases |a|
  {
    if |a| > 1 {
      RootsInjectiveAtOneLength(pair, Next(pair, a), Next(pair, b));
      if Next(pair, a) == Next(pair, b) {
        forall i: nat | i < |a|
          ensures a[i] == b[i]
        {
          NextInjectiveEach(pair, a, b, i);
        }
      }
    }
  }

  predicate NoDuplicates<D(==)>(s: seq<D>) {
    forall i, j :: 0 <= i < j < |s| ==> s[i] != s[j]
  }

  lemma NextHasNoDuplicates<D(!new)>(pair: (D, D) -> D, level: seq<D>)
    requires Injective(pair) && NoDuplicates(level)
    ensures NoDuplicates(Next(pair, level))
  {
    var next := Next(pair, level);
    forall i, j | 0 <= i < j < |next|
      ensures next[i] != next[j]
    {
      NextAt(pair, level, i);
      NextAt(pair, level, j);
    }
  }

  lemma {:induction false} RootsInjectiveAtOneHeight<D(!new)>(pair: (D, D) -> D, a: seq<D>, b: seq<D>)
    requires Injective(pair) && NoDuplicates(a) && NoDuplicates(b) && 0 < |a| <= |b| && Height(|a|) == Height(|b|)
    requires Root(pair, a) == Root(pair, b)
    ensures a == b
    decreases |a|
  {
    if |a| > 1 {
      NextHasNoDuplicates(pair, a);
      NextHasNoDuplicates(pair, b);
      RootsInjectiveAtOneHeight(pair, Next(pair, a), Next(pair, b));
      if |a| < |b| {
        NextInjectiveEach(pair, a, b, |a| - 1);
        var k := SameHalves(pair, a, b);
        NextInjectiveAt(pair, a, b, k);
      }
      forall i: nat | i < |a|
        ensures a[i] == b[i]
      {
        NextInjectiveEach(pair, a, b, i);
      }
    }
  }

  /** Digests that are not themselves the hash of a pair, as the digests clients submit are not. */
  ghost predicate IsLeaf<D(!new)>(pair: (D, D) -> D, digest: D) {
    forall a, b :: digest != pair(a, b)
  }

  /** The node `height` levels below the root of a tree, following left children. */
  ghost predicate LeftmostAt<D(!new)>(pair: (D, D) -> D, root: D, height: nat, node: D)
    decreases height
  {
    if height == 0 then root == node
    else exists left, right :: root == pair(left, right) && LeftmostAt(pair, left, height - 1, node)
  }

  lemma {:induction false} RootAboveLeftmost<D(!new)>(pair: (D, D) -> D, level: seq<D>)
    requires level != []
    ensures LeftmostAt(pair, Root(pair, level), Height(|level|), level[0])
    decreases |level|
  {
    if |level| > 1 {
      RootAboveLeftmost(pair, Next(pair, level));
      var right := level[1];
      LeftmostBelow(pair, Root(pair, level), Height(|level|) - 1, level[0], right);
    }
  }

  lemma {:induction false} LeftmostBelow<D(!new)>(pair: (D, D) -> D, root: D, height: nat, left: D, right: D)
    requires LeftmostAt(pair, root, height, pair(left, right))
    ensures LeftmostAt(pair, root, height + 1, left)
  {
    if height == 0 {
      assert root == pair(left, right) && LeftmostAt(pair, left, 0, left);
    } else {
      var l, r :| root == pair(l, r) && LeftmostAt(pair, l, height - 1, pair(left, right));
      LeftmostBelow(pair, l, height - 1, left, right);
      assert root == pair(l, r) && LeftmostAt(pair, l, height, left);
    }
  }

  lemma {:induction false} LeavesAreAtOneHeight<D(!new)>(
    pair: (D, D) -> D, root: D, low: nat, a: D, high: nat, b: D)
    requires Injective(pair) && IsLeaf(pair, a) && low <= high
    requires LeftmostAt(pair, root, low, a) && LeftmostAt(pair, root, high, b)
    ensures low == high
  {
    if high > 0 {
      var left, right :| root == pair(left, right) && LeftmostAt(pair, left, high - 1, b);
      if low > 0 {
        LeavesAreAtOneHeight(pair, left, low - 1, a, high - 1, b);
      }
    }
  }

  /** Lists without duplicates whose leaves are not hashes of pairs have different roots. */
  lemma RootDeterminesLeaves<D(!new)>(pair: (D, D) -> D, a: seq<D>, b: seq<D>)
    requires Injective(pair) && a != [] && b != [] && NoDuplicates(a) && NoDuplicates(b)
    requires IsLeaf(pair, a[0]) && IsLeaf(pair, b[0])
    ensures Root(pair, a) == Root(pair, b) <==> a == b
  {
    if Root(pair, a) == Root(pair, b) {
      RootAboveLeftmost(pair, a);
      RootAboveLeftmost(pair, b);
      if Height(|a|) <= Height(|b|) {
        LeavesAreAtOneHeight(pair, Root(pair, a), Height(|a|), a[0], Height(|b|), b[0]);
      } else {
        LeavesAreAtOneHeight(pair, Root(pair, a), Height(|b|), b[0], Height(|a|), a[0]);
      }
      if |a| <= |b| {
        RootsInjectiveAtOneHeight(pair, a, b);
      } else {
        RootsInjectiveAtOneHeight(pair, b, a);
      }
    }
  }

  /** With duplicates allowed, repeating the last leaf of an odd list goes unnoticed. */
  lemma OddListHidesItsCopy<D>(pair: (D, D) -> D, level: seq<D>)
    requires |level| % 2 == 1 && |level| > 1
    ensures Root(pair, level) == Root(pair, level + [level[|level| - 1]])
  {
    CompletedHasSameNext(pair, level);
  }

  lemma {:induction false} CompletedHasSameNext<D>(pair: (D, D) -> D, level: seq<D>)
    requires |level| % 2 == 1
    ensures Next(pair, level + [level[|level| - 1]]) == Next(pair, level)
  {
    var completed := level + [level[|level| - 1]];
    if |level| == 1 {
      assert completed[2..] == [];
    } else {
      assert completed[2..] == level[2..] + [level[2..][|level| - 3]];
      CompletedHasSameNext(pair, level[2..]);
    }
  }

  // ----- the algorithms -----

  lemma PathOpens<D>(pair: (D, D) -> D, level: seq<D>, index: nat, steps: seq<Step<D>>)
    requires |level| > 1 && index < |level|
    ensures steps + Path(pair, level, index)
         == steps + [Step(index % 2 == 0, Sibling(level, index))] + Path(pair, Next(pair, level), index / 2)
  {
    var step, rest := Step(index % 2 == 0, Sibling(level, index)), Path(pair, Next(pair, level), index / 2);
    assert steps + ([step] + rest) == steps + [step] + rest;
  }

  /** Adds the missing last node of an odd level. */
  method Complete<D>(pair: (D, D) -> D, level: seq<D>) returns (completed: seq<D>)
    requires level != []
    ensures |completed| == (|level| + 1) / 2 * 2 && completed[..|level|] == level
    ensures |completed| > |level| ==> completed[|level|] == level[|level| - 1]
    ensures Next(pair, completed) == Next(pair, level)
  {
    completed := level;
    if |level| % 2 == 1 {
      CompletedHasSameNext(pair, level);
      completed := level + [level[|level| - 1]];
    }
  }

  method HashPairs<D>(pair: (D, D) -> D, level: seq<D>) returns (next: seq<D>)
    requires |level| % 2 == 0
    ensures next == Next(pair, level)
  {
    next := [];
    var chunks := level;
    while chunks != []
      invariant |chunks| % 2 == 0
      invariant next + Next(pair, chunks) == Next(pair, level)
      decreases |chunks|
    {
      next := next + [pair(chunks[0], chunks[1])];
      chunks := chunks[2..];
    }
  }

  method OtsMerkleRoot<D>(pair: (D, D) -> D, leaves: seq<D>) returns (root: Option<D>)
    ensures root == if leaves == [] then None else Some(Root(pair, leaves))
  {
    if leaves == [] {
      return None;
    }
    var level := leaves;
    while |level| > 1
      invariant level != [] && Root(pair, level) == Root(pair, leaves)
      decreases |level|
    {
      var completed := Complete(pair, level);
      level := HashPairs(pair, completed);
    }
    return Some(level[0]);
  }

  method MerklePath<D>(pair: (D, D) -> D, leaves: seq<D>, index: nat) returns (path: Option<seq<Step<D>>>)
    ensures path == if index >= |leaves| then None else Some(Path(pair, leaves, index))
  {
    if index >= |leaves| {
      return None;
    }
    var steps := [];
    var level, idx := leaves, index;
    while |level| > 1
      invariant 0 <= idx < |level|
      invariant steps + Path(pair, level, idx) == Path(pair, leaves, index)
      decreases |level|
    {
      PathOpens(pair, level, idx, steps);
      var completed := Complete(pair, level);
      var siblingIdx := if idx % 2 == 0 then idx + 1 else idx - 1;
      assert completed[..|level|][idx] == completed[idx];
      steps := steps + [Step(idx % 2 == 0, completed[siblingIdx])];
      level := HashPairs(pair, completed);
      idx := idx / 2;
    }
    assert steps + [] == steps;
    return Some(steps);
  }

  /** The node pairs of Bitcoin's own tree: the last index is clamped instead of the last node copied. */
  method HashClampedPairs<D>(pair: (D, D) -> D, level: seq<D>) returns (next: seq<D>)
    requires level != []
    ensures next == Next(pair, level)
  {
    next := [];
    var pairs := (|level| + 1) / 2;
    for k := 0 to pairs
      invariant next == Next(pair, level)[..k]
    {
      var idx1 := k * 2;
      var idx2 := if idx1 + 1 < |level| - 1 then idx1 + 1 else |level| - 1;
      NextAt(pair, level, k);
      next := next + [pair(level[idx1], level[idx2])];
    }
  }

  method BitcoinTxMerklePath<D>(pair: (D, D) -> D, leaves: seq<D>, start: nat) returns (path: Option<seq<Step<D>>>)
    ensures path == if start >= |leaves| then None else Some(Path(pair, leaves, start))
  {
    if start >= |leaves| {
      return None;
    }
    var steps := [];
    var level, index := leaves, start;
    while |level| > 1
      invariant 0 <= index < |level|
      invariant steps + Path(pair, level, index) == Path(pair, leaves, start)
      decreases |level|
    {
      PathOpens(pair, level, index, steps);
      var siblingIdx :=
        if index % 2 == 0 then (if index + 1 < |level| then index + 1 else index) else index - 1;
      steps := steps + [Step(index % 2 == 0, level[siblingIdx])];
      level := HashClampedPairs(pair, level);
      index := index / 2;
    }
    assert steps + [] == steps;
    return Some(steps);
  }
}
