/** Checking the Bitcoin attestations of an OpenTimestamps proof.

A proof is a tree of steps.  Each path from the start digest to an attestation is executed;
a step whose recorded output is wrong spoils the paths through it and no others.
*/
module OtsAttest {
  import opened Options

  type Digest = seq<int>

  const U32_MAX: nat := 0xffff_ffff

  datatype Attestation = Bitcoin(height: nat) | PendingCalendar | Unrecognized

  datatype StepData<Op> = Attest(attestation: Attestation) | Fork | Run(op: Op)

  datatype Step<Op> = Step(data: StepData<Op>, output: Digest, next: seq<Step<Op>>)

  datatype Timestamp<Op> = Timestamp(startDigest: Digest, firstStep: Step<Op>)

  datatype Reason =
    | AttestationOutput
    | ForkOutput
    | OpOutput
    | NoSuccessor
    | HeightOverflow
    | WrongRoot(height: nat)
    | NotInChain(height: nat)
    | FetchFailed(height: nat, error: nat)

  datatype Status =
    | NoAttestation
    | Pending
    | Confirmed(height: nat)
    | Failed(reason: Reason)
    | Unavailable(reason: Reason)
    | Unknown

  /** What a node answers when asked for the merkle root of the block at a height. */
  datatype Answer = Root(digest: Digest) | NoBlock | NoAnswer(error: nat)

  /** How operations are executed and what the chain looks like. */
  datatype World<!Op> = World(execute: (Op, Digest) -> Digest, source: nat -> Answer)

  // ----- verifying a timestamp -----

  function VerifyAttestation<Op>(world: World<Op>, attestation: Attestation, digest: Digest): Result<Status, Reason> {
    match attestation
    case Bitcoin(height) =>
      if height > U32_MAX then Err(HeightOverflow)
      else (match world.source(height)
        case NoBlock => Ok(Unavailable(NotInChain(height)))
        case NoAnswer(error) => Ok(Unavailable(FetchFailed(height, error)))
        case Root(root) => if digest != root then Err(WrongRoot(height)) else Ok(Confirmed(height)))
    case PendingCalendar => Ok(Pending)
    case Unrecognized => Ok(Unknown)
  }

  function Contain(result: Result<Status, Reason>): Status {
    match result
    case Ok(status) => status
    case Err(reason) => Failed(reason)
  }

  function VerifyStep<Op>(world: World<Op>, step: Step<Op>, digest: Digest): Result<Status, Reason>
    decreases step
  {
    match step.data
    case Attest(attestation) =>
      if step.output != digest then Err(AttestationOutput) else VerifyAttestation(world, attestation, digest)
    case Fork =>
      if step.output != digest then Err(ForkOutput)
      else if step.next == [] then Ok(NoAttestation)
      else Ok(Aggregate(VerifyBranches(world, step.next, digest)))
    case Run(op) =>
      if step.output != world.execute(op, digest) then Err(OpOutput)
      else if step.next == [] then Err(NoSuccessor)
      else VerifyStep(world, step.next[0], step.output)
  }

  function VerifyBranches<Op>(world: World<Op>, branches: seq<Step<Op>>, digest: Digest): seq<Status>
    decreases branches
  {
    if branches == [] then []
    else [Contain(VerifyStep(world, branches[0], digest))] + VerifyBranches(world, branches[1..], digest)
  }

  function Verify<Op>(world: World<Op>, timestamp: Timestamp<Op>): Status {
    Contain(VerifyStep(world, timestamp.firstStep, timestamp.startDigest))
  }

  predicate IsConfirmed(status: Status) {
    status.Confirmed?
  }

  predicate IsUnknown(status: Status) {
    status.Unknown?
  }

  predicate IsPending(status: Status) {
    status.Pending?
  }

  predicate IsFailed(status: Status) {
    status.Failed?
  }

  predicate IsUnavailable(status: Status) {
    status.Unavailable?
  }

  function Find(statuses: seq<Status>, wanted: Status -> bool): (found: Option<Status>)
    ensures found.Some? ==> wanted(found.value)
  {
    if statuses == [] then None
    else if wanted(statuses[0]) then Some(statuses[0])
    else Find(statuses[1..], wanted)
  }

  function Aggregate(statuses: seq<Status>): Status {
    var confirmed := Find(statuses, IsConfirmed);
    var failed := Find(statuses, IsFailed);
    var unavailable := Find(statuses, IsUnavailable);
    if confirmed.Some? then confirmed.value
    else if Find(statuses, IsUnknown).Some? then Unknown
    else if Find(statuses, IsPending).Some? then Pending
    else if failed.Some? then failed.value
    else if unavailable.Some? then unavailable.value
    else NoAttestation
  }

  // ----- the priority order -----

  function Rank(status: Status): nat {
    match status
    case Confirmed(_) => 5
    case Unknown => 4
    case Pending => 3
    case Failed(_) => 2
    case Unavailable(_) => 1
    case NoAttestation => 0
  }

  /** The status that counts when one is followed by another: the first, unless the second ranks higher. */
  function Stronger(first: Status, second: Status): Status {
    if Rank(second) > Rank(first) then second else first
  }

  function Strongest(statuses: seq<Status>): Status {
    if statuses == [] then NoAttestation else Stronger(statuses[0], Strongest(statuses[1..]))
  }

  /** The aggregate is the first of the statuses that rank highest. */
  lemma {:induction false} AggregateIsStrongest(statuses: seq<Status>)
    ensures Aggregate(statuses) == Strongest(statuses)
  {
    if statuses != [] {
      AggregateIsStrongest(statuses[1..]);
    }
  }

  /** Which one that is, said by position. */
  lemma {:induction false} StrongestIsFirstOfHighest(statuses: seq<Status>) returns (k: nat)
    ensures statuses == [] ==> Strongest(statuses) == NoAttestation
    ensures statuses != [] ==>
      && k < |statuses| && Strongest(statuses) == statuses[k]
      && (forall i :: 0 <= i < |statuses| ==> Rank(statuses[i]) <= Rank(statuses[k]))
      && (forall i :: 0 <= i < k ==> Rank(statuses[i]) < Rank(statuses[k]))
  {
    k := 0;
    if |statuses| == 1 {
      assert statuses[1..] == [];
    } else if statuses != [] {
      k := StrongestIsFirstOfHighest(statuses[1..]);
      k := if Rank(statuses[1..][k]) > Rank(statuses[0]) then k + 1 else 0;
    }
  }

  lemma {:induction false} StrongestConcat(a: seq<Status>, b: seq<Status>)
    ensures Strongest(a + b) == Stronger(Strongest(a), Strongest(b))
  {
    if a == [] {
      assert a + b == b;
    } else {
      assert (a + b)[1..] == a[1..] + b;
      StrongestConcat(a[1..], b);
    }
  }

  // ----- flattening -----

  /** The outcome of every executed path, from left to right. */
  function Outcomes<Op>(world: World<Op>, step: Step<Op>, digest: Digest): seq<Status>
    decreases step
  {
    match step.data
    case Attest(attestation) =>
      [if step.output != digest then Failed(AttestationOutput)
       else Contain(VerifyAttestation(world, attestation, digest))]
    case Fork =>
      if step.output != digest then [Failed(ForkOutput)] else BranchOutcomes(world, step.next, digest)
    case Run(op) =>
      if step.output != world.execute(op, digest) then [Failed(OpOutput)]
      else if step.next == [] then [Failed(NoSuccessor)]
      else Outcomes(world, step.next[0], step.output)
  }

  function BranchOutcomes<Op>(world: World<Op>, branches: seq<Step<Op>>, digest: Digest): seq<Status>
    decreases branches
  {
    if branches == [] then []
    else Outcomes(world, branches[0], digest) + BranchOutcomes(world, branches[1..], digest)
  }

  /** Nested forks do not matter: verifying is aggregating the outcomes of all paths once. */
  lemma {:induction false} VerifyAggregatesOutcomes<Op>(world: World<Op>, step: Step<Op>, digest: Digest)
    ensures Contain(VerifyStep(world, step, digest)) == Aggregate(Outcomes(world, step, digest))
    decreases step
  {
    AggregateIsStrongest(Outcomes(world, step, digest));
    match step.data
    case Attest(_) =>
    case Fork =>
      if step.output == digest {
        BranchesAggregate(world, step.next, digest);
        AggregateIsStrongest(VerifyBranches(world, step.next, digest));
      }
    case Run(op) =>
      if step.output == world.execute(op, digest) && step.next != [] {
        VerifyAggregatesOutcomes(world, step.next[0], step.output);
      }
  }

  lemma {:induction false} BranchesAggregate<Op>(world: World<Op>, branches: seq<Step<Op>>, digest: Digest)
    ensures Strongest(VerifyBranches(world, branches, digest)) == Strongest(BranchOutcomes(world, branches, digest))
    decreases branches
  {
    if branches != [] {
      VerifyAggregatesOutcomes(world, branches[0], digest);
      AggregateIsStrongest(Outcomes(world, branches[0], digest));
      BranchesAggregate(world, branches[1..], digest);
      StrongestConcat(Outcomes(world, branches[0], digest), BranchOutcomes(world, branches[1..], digest));
    }
  }

  // ----- which paths confirm -----

  /** A path says which branch is taken at each fork.  It confirms `height` when every step on it is
      executed correctly and it ends in a Bitcoin attestation of a block whose merkle root is the digest. */
  ghost predicate Confirms<Op>(world: World<Op>, step: Step<Op>, digest: Digest, path: seq<nat>, height: nat)
    decreases step
  {
    match step.data
    case Attest(attestation) =>
      && path == [] && step.output == digest
      && attestation == Bitcoin(height) && height <= U32_MAX && world.source(height) == Root(digest)
    case Fork =>
      && path != [] && path[0] < |step.next| && step.output == digest
      && Confirms(world, step.next[path[0]], digest, path[1..], height)
    case Run(op) =>
      && step.output == world.execute(op, digest) && step.next != []
      && Confirms(world, step.next[0], step.output, path, height)
  }

  /** One path lies to the left of another. */
  predicate LeftOf(p: seq<nat>, q: seq<nat>) {
    p != [] && q != [] && (p[0] < q[0] || (p[0] == q[0] && LeftOf(p[1..], q[1..])))
  }

  ghost predicate Leftmost<Op>(world: World<Op>, step: Step<Op>, digest: Digest, path: seq<nat>, height: nat) {
    && Confirms(world, step, digest, path, height)
    && forall q, h :: Confirms(world, step, digest, q, h) ==> q == path || LeftOf(path, q)
  }

  lemma {:induction false} NotBothWays(p: seq<nat>, q: seq<nat>)
    requires LeftOf(p, q)
    ensures !LeftOf(q, p) && p != q
  {
    if p[0] == q[0] {
      NotBothWays(p[1..], q[1..]);
    }
  }

  lemma {:induction false} OnePathOneHeight<Op>(
    world: World<Op>, step: Step<Op>, digest: Digest, path: seq<nat>, g: nat, h: nat)
    requires Confirms(world, step, digest, path, g) && Confirms(world, step, digest, path, h)
    ensures g == h
    decreases step
  {
    match step.data
    case Attest(_) =>
    case Fork => OnePathOneHeight(world, step.next[path[0]], digest, path[1..], g, h);
    case Run(_) => OnePathOneHeight(world, step.next[0], step.output, path, g, h);
  }

  /** A confirming path is reported, whatever its siblings are. */
  lemma {:induction false} ConfirmingPathIsSeen<Op>(
    world: World<Op>, step: Step<Op>, digest: Digest, path: seq<nat>, height: nat)
    requires Confirms(world, step, digest, path, height)
    ensures Contain(VerifyStep(world, step, digest)).Confirmed?
    decreases step
  {
    match step.data
    case Attest(_) =>
    case Fork =>
      ConfirmingPathIsSeen(world, step.next[path[0]], digest, path[1..], height);
      ConfirmedBranchWins(world, step.next, digest, path[0]);
    case Run(_) =>
      ConfirmingPathIsSeen(world, step.next[0], step.output, path, height);
  }

  lemma {:induction false} ConfirmedBranchWins<Op>(world: World<Op>, branches: seq<Step<Op>>, digest: Digest, k: nat)
    requires k < |branches| && Contain(VerifyStep(world, branches[k], digest)).Confirmed?
    ensures Aggregate(VerifyBranches(world, branches, digest)).Confirmed?
  {
    var statuses := VerifyBranches(world, branches, digest);
    BranchStatus(world, branches, digest, k);
    AggregateIsStrongest(statuses);
    var first := StrongestIsFirstOfHighest(statuses);
    assert Rank(statuses[k]) <= Rank(statuses[first]);
  }

  lemma {:induction false} BranchStatus<Op>(world: World<Op>, branches: seq<Step<Op>>, digest: Digest, k: nat)
    requires k < |branches|
    ensures var statuses := VerifyBranches(world, branches, digest);
      |statuses| == |branches| && statuses[k] == Contain(VerifyStep(world, branches[k], digest))
  {
    if k > 0 {
      BranchStatus(world, branches[1..], digest, k - 1);
    } else {
      BranchCount(world, branches, digest);
    }
  }

  lemma {:induction false} BranchCount<Op>(world: World<Op>, branches: seq<Step<Op>>, digest: Digest)
    ensures |VerifyBranches(world, branches, digest)| == |branches|
  {
    if branches != [] {
      BranchCount(world, branches[1..], digest);
    }
  }

  /** The reported height is that of the leftmost confirming path. */
  lemma {:induction false} LeftmostIsReported<Op>(world: World<Op>, step: Step<Op>, digest: Digest)
    returns (path: seq<nat>)
    requires Contain(VerifyStep(world, step, digest)).Confirmed?
    ensures Leftmost(world, step, digest, path, Contain(VerifyStep(world, step, digest)).height)
    decreases step
  {
    match step.data
    case Attest(_) =>
      path := [];
    case Fork =>
      var statuses := VerifyBranches(world, step.next, digest);
      AggregateIsStrongest(statuses);
      var k := StrongestIsFirstOfHighest(statuses);
      BranchCount(world, step.next, digest);
      BranchStatus(world, step.next, digest, k);
      var rest := LeftmostIsReported(world, step.next[k], digest);
      path := [k] + rest;
      assert path[1..] == rest;
      forall q, h | Confirms(world, step, digest, q, h)
        ensures q == path || LeftOf(path, q)
      {
        ConfirmingPathIsSeen(world, step.next[q[0]], digest, q[1..], h);
        BranchStatus(world, step.next, digest, q[0]);
        assert q == [q[0]] + q[1..];
      }
    case Run(_) =>
      path := LeftmostIsReported(world, step.next[0], step.output);
      forall q, h | Confirms(world, step, digest, q, h)
        ensures q == path || LeftOf(path, q)
      {
        assert Confirms(world, step.next[0], step.output, q, h);
      }
  }

  /** A height is reported exactly when the leftmost confirming path confirms it. */
  lemma ConfirmedExactlyByLeftmost<Op>(world: World<Op>, timestamp: Timestamp<Op>, height: nat)
    ensures Verify(world, timestamp) == Confirmed(height) <==>
      exists path :: Leftmost(world, timestamp.firstStep, timestamp.startDigest, path, height)
  {
    var step, digest := timestamp.firstStep, timestamp.startDigest;
    if Verify(world, timestamp) == Confirmed(height) {
      var path := LeftmostIsReported(world, step, digest);
    }
    if path :| Leftmost(world, step, digest, path, height) {
      ConfirmingPathIsSeen(world, step, digest, path, height);
      var other := LeftmostIsReported(world, step, digest);
      var reported := Verify(world, timestamp).height;
      assert Confirms(world, step, digest, other, reported);
      if LeftOf(path, other) {
        NotBothWays(path, other);
      }
      assert path == other;
      OnePathOneHeight(world, step, digest, path, height, reported);
    }
  }

  ghost predicate SomePathConfirms<Op>(world: World<Op>, step: Step<Op>, digest: Digest) {
    exists path: seq<nat>, height: nat :: Confirms(world, step, digest, path, height)
  }

  /** Some path confirms exactly when the verdict is a confirmation: bad branches hide nothing and add nothing. */
  lemma ConfirmedExactlyIfSomePathIs<Op>(world: World<Op>, timestamp: Timestamp<Op>)
    ensures Verify(world, timestamp).Confirmed? <==>
      SomePathConfirms(world, timestamp.firstStep, timestamp.startDigest)
  {
    var step, digest := timestamp.firstStep, timestamp.startDigest;
    if Verify(world, timestamp).Confirmed? {
      var path := LeftmostIsReported(world, step, digest);
      assert Confirms(world, step, digest, path, Verify(world, timestamp).height);
    }
    if SomePathConfirms(world, step, digest) {
      var path: seq<nat>, height: nat :| Confirms(world, step, digest, path, height);
      ConfirmingPathIsSeen(world, step, digest, path, height);
    }
  }

  // ----- every verdict by its paths -----

  /** The path is executed correctly and leads to this attestation, of this digest. */
  ghost predicate EndsIn<Op>(
    world: World<Op>, step: Step<Op>, digest: Digest, path: seq<nat>, attestation: Attestation, attested: Digest)
    decreases step
  {
    match step.data
    case Attest(found) =>
      path == [] && step.output == digest && found == attestation && attested == digest
    case Fork =>
      && path != [] && path[0] < |step.next| && step.output == digest
      && EndsIn(world, step.next[path[0]], digest, path[1..], attestation, attested)
    case Run(op) =>
      && step.output == world.execute(op, digest) && step.next != []
      && EndsIn(world, step.next[0], step.output, path, attestation, attested)
  }

  /** The execution of the path goes wrong before it gets to an attestation. */
  ghost predicate BreaksOff<Op>(world: World<Op>, step: Step<Op>, digest: Digest, path: seq<nat>, reason: Reason)
    decreases step
  {
    match step.data
    case Attest(_) =>
      path == [] && step.output != digest && reason == AttestationOutput
    case Fork =>
      if step.output != digest then path == [] && reason == ForkOutput
      else
        path != [] && path[0] < |step.next| && BreaksOff(world, step.next[path[0]], digest, path[1..], reason)
    case Run(op) =>
      if step.output != world.execute(op, digest) then path == [] && reason == OpOutput
      else if step.next == [] then path == [] && reason == NoSuccessor
      else BreaksOff(world, step.next[0], step.output, path, reason)
  }

  /** A Bitcoin attestation of this digest fails: no block has such a height, or the block has another root. */
  ghost predicate Refuted<Op>(world: World<Op>, height: nat, digest: Digest, reason: Reason) {
    || (height > U32_MAX && reason == HeightOverflow)
    || (height <= U32_MAX && reason == WrongRoot(height)
      && world.source(height).Root? && world.source(height).digest != digest)
  }

  /** The node cannot tell. */
  ghost predicate Untold<Op>(world: World<Op>, height: nat, reason: Reason) {
    && height <= U32_MAX
    && match world.source(height)
       case NoBlock => reason == NotInChain(height)
       case NoAnswer(error) => reason == FetchFailed(height, error)
       case Root(_) => false
  }

  ghost predicate EndsUnrecognized<Op>(world: World<Op>, step: Step<Op>, digest: Digest, path: seq<nat>) {
    exists attested :: EndsIn(world, step, digest, path, Unrecognized, attested)
  }

  ghost predicate EndsPending<Op>(world: World<Op>, step: Step<Op>, digest: Digest, path: seq<nat>) {
    exists attested :: EndsIn(world, step, digest, path, PendingCalendar, attested)
  }

  ghost predicate Fails<Op>(world: World<Op>, step: Step<Op>, digest: Digest, path: seq<nat>, reason: Reason) {
    || BreaksOff(world, step, digest, path, reason)
    || exists height: nat, attested ::
         EndsIn(world, step, digest, path, Bitcoin(height), attested) && Refuted(world, height, attested, reason)
  }

  ghost predicate EndsUntold<Op>(
    world: World<Op>, step: Step<Op>, digest: Digest, path: seq<nat>, reason: Reason)
  {
    exists height: nat, attested ::
      EndsIn(world, step, digest, path, Bitcoin(height), attested) && Untold(world, height, reason)
  }

  ghost predicate SomePathUnrecognized<Op>(world: World<Op>, step: Step<Op>, digest: Digest) {
    exists path :: EndsUnrecognized(world, step, digest, path)
  }

  ghost predicate SomePathPending<Op>(world: World<Op>, step: Step<Op>, digest: Digest) {
    exists path :: EndsPending(world, step, digest, path)
  }

  ghost predicate SomePathFails<Op>(world: World<Op>, step: Step<Op>, digest: Digest) {
    exists path, reason :: Fails(world, step, digest, path, reason)
  }

  ghost predicate SomePathUntold<Op>(world: World<Op>, step: Step<Op>, digest: Digest) {
    exists path, reason :: EndsUntold(world, step, digest, path, reason)
  }

  /** What a path says about the proof. */
  ghost predicate Says<Op>(world: World<Op>, step: Step<Op>, digest: Digest, path: seq<nat>, status: Status) {
    match status
    case Confirmed(height) => Confirms(world, step, digest, path, height)
    case Unknown => EndsUnrecognized(world, step, digest, path)
    case Pending => EndsPending(world, step, digest, path)
    case Failed(reason) => Fails(world, step, digest, path, reason)
    case Unavailable(reason) => EndsUntold(world, step, digest, path, reason)
    case NoAttestation => false
  }

  /** A branch of a fork says what the path through it says. */
  lemma SaidInBranch<Op>(world: World<Op>, step: Step<Op>, digest: Digest, path: seq<nat>, status: Status)
    requires step.data.Fork? && step.output == digest && path != [] && path[0] < |step.next|
    ensures Says(world, step, digest, path, status)
      <==> Says(world, step.next[path[0]], digest, path[1..], status)
  {
    forall a, d
      ensures EndsIn(world, step, digest, path, a, d)
        <==> EndsIn(world, step.next[path[0]], digest, path[1..], a, d)
    {
    }
  }

  lemma SaidNext<Op>(world: World<Op>, step: Step<Op>, digest: Digest, path: seq<nat>, status: Status)
    requires step.data.Run? && step.output == world.execute(step.data.op, digest) && step.next != []
    ensures Says(world, step, digest, path, status) <==> Says(world, step.next[0], step.output, path, status)
  {
    forall a, d
      ensures EndsIn(world, step, digest, path, a, d) <==> EndsIn(world, step.next[0], step.output, path, a, d)
    {
    }
  }

  lemma SaidAtLeaf<Op>(world: World<Op>, step: Step<Op>, digest: Digest)
    requires step.data.Attest?
    ensures Says(world, step, digest, [], Contain(VerifyStep(world, step, digest)))
    ensures forall path, status :: Says(world, step, digest, path, status) ==>
      path == [] && status == Contain(VerifyStep(world, step, digest))
  {
    var attestation := step.data.attestation;
    if step.output == digest {
      assert EndsIn(world, step, digest, [], attestation, digest);
    }
  }

  lemma SaidOfBroken<Op>(world: World<Op>, step: Step<Op>, digest: Digest, reason: Reason)
    requires BreaksOff(world, step, digest, [], reason)
    ensures Says(world, step, digest, [], Failed(reason))
  {
  }

  predicate IsBroken<Op>(world: World<Op>, step: Step<Op>, digest: Digest) {
    match step.data
    case Attest(_) => false
    case Fork => step.output != digest
    case Run(op) => step.output != world.execute(op, digest) || step.next == []
  }

  /** A step that is not executed correctly has one path, and that fails. */
  lemma SaidOnlyBroken<Op>(world: World<Op>, step: Step<Op>, digest: Digest, path: seq<nat>, status: Status)
    requires IsBroken(world, step, digest)
    requires Says(world, step, digest, path, status)
    ensures path == [] && status == Contain(VerifyStep(world, step, digest))
  {
  }

  /** No path is overruled by one that counts less. */
  lemma {:induction false} PathIsHeard<Op>(
    world: World<Op>, step: Step<Op>, digest: Digest, path: seq<nat>, status: Status)
    requires Says(world, step, digest, path, status)
    ensures Rank(status) <= Rank(Contain(VerifyStep(world, step, digest)))
    decreases step
  {
    match step.data
    case Attest(_) =>
      SaidAtLeaf(world, step, digest);
    case Fork =>
      if step.output != digest {
        SaidOnlyBroken(world, step, digest, path, status);
      } else {
        PathTurns(world, step, digest, path, status);
        SaidInBranch(world, step, digest, path, status);
        PathIsHeard(world, step.next[path[0]], digest, path[1..], status);
        BranchIsHeard(world, step.next, digest, path[0]);
      }
    case Run(op) =>
      if step.output != world.execute(op, digest) || step.next == [] {
        SaidOnlyBroken(world, step, digest, path, status);
      } else {
        SaidNext(world, step, digest, path, status);
        PathIsHeard(world, step.next[0], step.output, path, status);
      }
  }

  lemma PathTurns<Op>(world: World<Op>, step: Step<Op>, digest: Digest, path: seq<nat>, status: Status)
    requires step.data.Fork? && step.output == digest && Says(world, step, digest, path, status)
    ensures path != [] && path[0] < |step.next|
  {
  }

  lemma BranchIsHeard<Op>(world: World<Op>, branches: seq<Step<Op>>, digest: Digest, k: nat)
    requires k < |branches|
    ensures Rank(Contain(VerifyStep(world, branches[k], digest)))
         <= Rank(Aggregate(VerifyBranches(world, branches, digest)))
  {
    var statuses := VerifyBranches(world, branches, digest);
    BranchStatus(world, branches, digest, k);
    AggregateIsStrongest(statuses);
    var first := StrongestIsFirstOfHighest(statuses);
  }

  /** The verdict is what some path says, the leftmost of those that count as much. */
  lemma {:induction false} VerdictHasPath<Op>(world: World<Op>, step: Step<Op>, digest: Digest)
    returns (path: seq<nat>)
    requires !Contain(VerifyStep(world, step, digest)).NoAttestation?
    ensures Says(world, step, digest, path, Contain(VerifyStep(world, step, digest)))
    ensures FirstOfRank(world, step, digest, path, Rank(Contain(VerifyStep(world, step, digest))))
    decreases step
  {
    path := [];
    match step.data
    case Attest(_) =>
      SaidAtLeaf(world, step, digest);
    case Fork =>
      if step.output != digest {
        SaidOfBroken(world, step, digest, ForkOutput);
        OnlyOnePath(world, step, digest);
      } else {
        path := ForkHasPath(world, step, digest);
      }
    case Run(op) =>
      if step.output != world.execute(op, digest) || step.next == [] {
        SaidOfBroken(world, step, digest, if step.output != world.execute(op, digest) then OpOutput else NoSuccessor);
        OnlyOnePath(world, step, digest);
      } else {
        path := VerdictHasPath(world, step.next[0], step.output);
        NextHasPath(world, step, digest, path);
      }
  }

  ghost predicate FirstOfRank<Op>(world: World<Op>, step: Step<Op>, digest: Digest, path: seq<nat>, rank: nat) {
    forall q, status :: Says(world, step, digest, q, status) && Rank(status) == rank ==> q == path || LeftOf(path, q)
  }

  lemma OnlyOnePath<Op>(world: World<Op>, step: Step<Op>, digest: Digest)
    requires IsBroken(world, step, digest)
    ensures forall rank :: FirstOfRank(world, step, digest, [], rank)
  {
    forall q, status | Says(world, step, digest, q, status)
      ensures q == []
    {
      SaidOnlyBroken(world, step, digest, q, status);
    }
  }

  lemma NextHasPath<Op>(world: World<Op>, step: Step<Op>, digest: Digest, path: seq<nat>)
    requires step.data.Run? && step.output == world.execute(step.data.op, digest) && step.next != []
    requires Says(world, step.next[0], step.output, path, Contain(VerifyStep(world, step.next[0], step.output)))
    requires FirstOfRank(
      world, step.next[0], step.output, path, Rank(Contain(VerifyStep(world, step.next[0], step.output))))
    ensures Says(world, step, digest, path, Contain(VerifyStep(world, step, digest)))
    ensures FirstOfRank(world, step, digest, path, Rank(Contain(VerifyStep(world, step, digest))))
  {
    SaidNext(world, step, digest, path, Contain(VerifyStep(world, step, digest)));
    forall q, status | Says(world, step, digest, q, status)
      ensures Says(world, step.next[0], step.output, q, status)
    {
      SaidNext(world, step, digest, q, status);
    }
  }

  lemma {:induction false} ForkHasPath<Op>(world: World<Op>, step: Step<Op>, digest: Digest) returns (path: seq<nat>)
    requires step.data.Fork? && step.output == digest
    requires !Contain(VerifyStep(world, step, digest)).NoAttestation?
    ensures Says(world, step, digest, path, Contain(VerifyStep(world, step, digest)))
    ensures FirstOfRank(world, step, digest, path, Rank(Contain(VerifyStep(world, step, digest))))
    decreases step, 0
  {
    var verdict := Contain(VerifyStep(world, step, digest));
    var k := FirstBranch(world, step, digest);
    var rest := VerdictHasPath(world, step.next[k], digest);
    path := [k] + rest;
    assert path[1..] == rest;
    SaidInBranch(world, step, digest, path, verdict);
    forall q, status | Says(world, step, digest, q, status) && Rank(status) == Rank(verdict)
      ensures q == path || LeftOf(path, q)
    {
      PathTurns(world, step, digest, q, status);
      SaidInBranch(world, step, digest, q, status);
      PathIsHeard(world, step.next[q[0]], digest, q[1..], status);
      assert q == [q[0]] + q[1..];
    }
  }

  /** The first branch that counts as much as the fork gives the verdict. */
  lemma FirstBranch<Op>(world: World<Op>, step: Step<Op>, digest: Digest) returns (k: nat)
    requires step.data.Fork? && step.output == digest
    requires !Contain(VerifyStep(world, step, digest)).NoAttestation?
    ensures k < |step.next|
    ensures Contain(VerifyStep(world, step.next[k], digest)) == Contain(VerifyStep(world, step, digest))
    ensures forall i :: 0 <= i < k ==>
      Rank(Contain(VerifyStep(world, step.next[i], digest))) < Rank(Contain(VerifyStep(world, step, digest)))
  {
    var statuses := VerifyBranches(world, step.next, digest);
    AggregateIsStrongest(statuses);
    k := StrongestIsFirstOfHighest(statuses);
    BranchCount(world, step.next, digest);
    BranchStatus(world, step.next, digest, k);
    forall i | 0 <= i < k
      ensures Rank(Contain(VerifyStep(world, step.next[i], digest))) < Rank(Contain(VerifyStep(world, step, digest)))
    {
      BranchStatus(world, step.next, digest, i);
    }
  }

  /** The verdict on every proof, by what its paths come to. */
  lemma VerdictExactly<Op>(world: World<Op>, timestamp: Timestamp<Op>)
    ensures var (verdict, step, digest) := (Verify(world, timestamp), timestamp.firstStep, timestamp.startDigest);
      && (verdict.Confirmed? <==> SomePathConfirms(world, step, digest))
      && (verdict.Unknown? <==> !SomePathConfirms(world, step, digest) && SomePathUnrecognized(world, step, digest))
      && (verdict.Pending? <==>
        && !SomePathConfirms(world, step, digest) && !SomePathUnrecognized(world, step, digest)
        && SomePathPending(world, step, digest))
      && (verdict.Failed? <==>
        && !SomePathConfirms(world, step, digest) && !SomePathUnrecognized(world, step, digest)
        && !SomePathPending(world, step, digest) && SomePathFails(world, step, digest))
      && (verdict.Unavailable? <==>
        && !SomePathConfirms(world, step, digest) && !SomePathUnrecognized(world, step, digest)
        && !SomePathPending(world, step, digest) && !SomePathFails(world, step, digest)
        && SomePathUntold(world, step, digest))
      && (verdict.NoAttestation? <==>
        && !SomePathConfirms(world, step, digest) && !SomePathUnrecognized(world, step, digest)
        && !SomePathPending(world, step, digest) && !SomePathFails(world, step, digest)
        && !SomePathUntold(world, step, digest))
  {
    var verdict, step, digest := Verify(world, timestamp), timestamp.firstStep, timestamp.startDigest;
    if !verdict.NoAttestation? {
      var path := VerdictHasPath(world, step, digest);
      SomeoneSays(world, step, digest, path, verdict);
    }
    AllAreHeard(world, step, digest);
  }

  lemma SomeoneSays<Op>(world: World<Op>, step: Step<Op>, digest: Digest, path: seq<nat>, status: Status)
    requires Says(world, step, digest, path, status)
    ensures match status
      case Confirmed(_) => SomePathConfirms(world, step, digest)
      case Unknown => SomePathUnrecognized(world, step, digest)
      case Pending => SomePathPending(world, step, digest)
      case Failed(_) => SomePathFails(world, step, digest)
      case Unavailable(_) => SomePathUntold(world, step, digest)
      case NoAttestation => false
  {
  }

  lemma AllAreHeard<Op>(world: World<Op>, step: Step<Op>, digest: Digest)
    ensures var rank := Rank(Contain(VerifyStep(world, step, digest)));
      && (SomePathConfirms(world, step, digest) ==> rank >= Rank(Confirmed(0)))
      && (SomePathUnrecognized(world, step, digest) ==> rank >= Rank(Unknown))
      && (SomePathPending(world, step, digest) ==> rank >= Rank(Pending))
      && (SomePathFails(world, step, digest) ==> rank >= Rank(Failed(OpOutput)))
      && (SomePathUntold(world, step, digest) ==> rank >= Rank(Unavailable(OpOutput)))
  {
    if SomePathConfirms(world, step, digest) {
      var path: seq<nat>, height: nat :| Confirms(world, step, digest, path, height);
      PathIsHeard(world, step, digest, path, Confirmed(height));
    }
    if SomePathUnrecognized(world, step, digest) {
      var path :| EndsUnrecognized(world, step, digest, path);
      PathIsHeard(world, step, digest, path, Unknown);
    }
    if SomePathPending(world, step, digest) {
      var path :| EndsPending(world, step, digest, path);
      PathIsHeard(world, step, digest, path, Pending);
    }
    if SomePathFails(world, step, digest) {
      var path, reason :| Fails(world, step, digest, path, reason);
      PathIsHeard(world, step, digest, path, Failed(reason));
    }
    if SomePathUntold(world, step, digest) {
      var path, reason :| EndsUntold(world, step, digest, path, reason);
      PathIsHeard(world, step, digest, path, Unavailable(reason));
    }
  }

  /** The reason that a failed proof is given is that of its leftmost failing path. */
  lemma FailedForLeftmost<Op>(world: World<Op>, timestamp: Timestamp<Op>) returns (path: seq<nat>)
    requires Verify(world, timestamp).Failed?
    ensures var (step, digest) := (timestamp.firstStep, timestamp.startDigest);
      && Fails(world, step, digest, path, Verify(world, timestamp).reason)
      && forall q, reason :: Fails(world, step, digest, q, reason) ==> q == path || LeftOf(path, q)
  {
    var step, digest := timestamp.firstStep, timestamp.startDigest;
    path := VerdictHasPath(world, step, digest);
    forall q, reason | Fails(world, step, digest, q, reason)
      ensures Says(world, step, digest, q, Failed(reason))
    {
    }
  }

  /** The same for a proof that the node cannot tell about. */
  lemma UnavailableForLeftmost<Op>(world: World<Op>, timestamp: Timestamp<Op>) returns (path: seq<nat>)
    requires Verify(world, timestamp).Unavailable?
    ensures var (step, digest) := (timestamp.firstStep, timestamp.startDigest);
      && EndsUntold(world, step, digest, path, Verify(world, timestamp).reason)
      && forall q, reason :: EndsUntold(world, step, digest, q, reason) ==> q == path || LeftOf(path, q)
  {
    var step, digest := timestamp.firstStep, timestamp.startDigest;
    path := VerdictHasPath(world, step, digest);
    forall q, reason | EndsUntold(world, step, digest, q, reason)
      ensures Says(world, step, digest, q, Unavailable(reason))
    {
    }
  }

  // ----- the height that is recorded -----

  /** The heights of all Bitcoin attestations, from left to right. */
  function BitcoinHeights<Op>(step: Step<Op>): seq<nat>
    decreases step
  {
    if step.data.Attest? && step.data.attestation.Bitcoin? then [step.data.attestation.height]
    else BranchHeights(step.next)
  }

  function BranchHeights<Op>(steps: seq<Step<Op>>): seq<nat>
    decreases steps
  {
    if steps == [] then [] else BitcoinHeights(steps[0]) + BranchHeights(steps[1..])
  }

  /** The height that goes into the log: that of the first Bitcoin attestation, verified or not, cut to 32 bits. */
  function RecordedHeight<Op>(step: Step<Op>): Option<nat>
    decreases step
  {
    if step.data.Attest? && step.data.attestation.Bitcoin? then Some(step.data.attestation.height % (U32_MAX + 1))
    else FirstRecorded(step.next)
  }

  function FirstRecorded<Op>(steps: seq<Step<Op>>): Option<nat>
    decreases steps
  {
    if steps == [] then None
    else
      var first := RecordedHeight(steps[0]);
      if first.Some? then first else FirstRecorded(steps[1..])
  }

  predicate IsFirst(height: Option<nat>, heights: seq<nat>) {
    height == if heights == [] then None else Some(heights[0] % (U32_MAX + 1))
  }

  lemma {:induction false} RecordedIsFirst<Op>(step: Step<Op>)
    ensures IsFirst(RecordedHeight(step), BitcoinHeights(step))
    decreases step
  {
    if !(step.data.Attest? && step.data.attestation.Bitcoin?) {
      FirstRecordedIsFirst(step.next);
    }
  }

  lemma {:induction false} FirstRecordedIsFirst<Op>(steps: seq<Step<Op>>)
    ensures IsFirst(FirstRecorded(steps), BranchHeights(steps))
    decreases steps
  {
    if steps != [] {
      RecordedIsFirst(steps[0]);
      FirstRecordedIsFirst(steps[1..]);
    }
  }

  lemma {:induction false} ConfirmedIsListed<Op>(
    world: World<Op>, step: Step<Op>, digest: Digest, path: seq<nat>, height: nat)
    requires Confirms(world, step, digest, path, height)
    ensures height in BitcoinHeights(step)
    decreases step
  {
    match step.data
    case Attest(_) =>
    case Fork =>
      ConfirmedIsListed(world, step.next[path[0]], digest, path[1..], height);
      ListedInBranch(step.next, path[0], height);
    case Run(_) =>
      ConfirmedIsListed(world, step.next[0], step.output, path, height);
      ListedInBranch(step.next, 0, height);
  }

  lemma {:induction false} ListedInBranch<Op>(steps: seq<Step<Op>>, k: nat, height: nat)
    requires k < |steps| && height in BitcoinHeights(steps[k])
    ensures height in BranchHeights(steps)
    decreases steps
  {
    if k > 0 {
      ListedInBranch(steps[1..], k - 1, height);
    }
  }

  /** A confirmed height is one that some attestation of the proof claims. */
  lemma ConfirmedHeightIsClaimed<Op>(world: World<Op>, timestamp: Timestamp<Op>)
    requires Verify(world, timestamp).Confirmed?
    ensures Verify(world, timestamp).height in BitcoinHeights(timestamp.firstStep)
    ensures RecordedHeight(timestamp.firstStep).Some?
  {
    var path := LeftmostIsReported(world, timestamp.firstStep, timestamp.startDigest);
    ConfirmedIsListed(world, timestamp.firstStep, timestamp.startDigest, path, Verify(world, timestamp).height);
    RecordedIsFirst(timestamp.firstStep);
  }

  // ----- the route to the first claim -----

  /** Which successor to take at each step to come to the first Bitcoin attestation. */
  function FirstRoute<Op>(step: Step<Op>): Option<seq<nat>>
    decreases step
  {
    if step.data.Attest? && step.data.attestation.Bitcoin? then Some([]) else FirstRouteFrom(step.next, 0)
  }

  function FirstRouteFrom<Op>(steps: seq<Step<Op>>, skipped: nat): Option<seq<nat>>
    decreases steps
  {
    if steps == [] then None
    else
      var first := FirstRoute(steps[0]);
      if first.Some? then Some([skipped] + first.value) else FirstRouteFrom(steps[1..], skipped + 1)
  }

  /** Every step on the route is executed correctly, operations go on to their first successor, and the route ends
      in a Bitcoin attestation of a block whose merkle root is the digest. */
  ghost predicate RouteConfirms<Op>(world: World<Op>, step: Step<Op>, digest: Digest, route: seq<nat>, height: nat)
    decreases step
  {
    match step.data
    case Attest(attestation) =>
      && route == [] && step.output == digest
      && attestation == Bitcoin(height) && height <= U32_MAX && world.source(height) == Root(digest)
    case Fork =>
      && route != [] && route[0] < |step.next| && step.output == digest
      && RouteConfirms(world, step.next[route[0]], digest, route[1..], height)
    case Run(op) =>
      && route != [] && route[0] == 0 && step.next != [] && step.output == world.execute(op, digest)
      && RouteConfirms(world, step.next[0], step.output, route[1..], height)
  }

  /** The route goes through a successor before which nothing is claimed. */
  lemma {:induction false} FirstRouteSkips<Op>(steps: seq<Step<Op>>, skipped: nat) returns (k: nat)
    requires FirstRouteFrom(steps, skipped).Some?
    ensures k < |steps| && FirstRoute(steps[k]).Some?
    ensures FirstRouteFrom(steps, skipped) == Some([skipped + k] + FirstRoute(steps[k]).value)
    ensures forall i :: 0 <= i < k ==> FirstRoute(steps[i]).None?
    decreases steps
  {
    k := 0;
    if FirstRoute(steps[0]).None? {
      k := FirstRouteSkips(steps[1..], skipped + 1);
      k := k + 1;
    }
  }

  lemma {:induction false} NoRouteNoClaim<Op>(step: Step<Op>)
    ensures FirstRoute(step).None? <==> BitcoinHeights(step) == []
    decreases step
  {
    if !(step.data.Attest? && step.data.attestation.Bitcoin?) {
      NoRouteNoClaimFrom(step.next, 0);
    }
  }

  lemma {:induction false} NoRouteNoClaimFrom<Op>(steps: seq<Step<Op>>, skipped: nat)
    ensures FirstRouteFrom(steps, skipped).None? <==> BranchHeights(steps) == []
    decreases steps
  {
    if steps != [] {
      NoRouteNoClaim(steps[0]);
      NoRouteNoClaimFrom(steps[1..], skipped + 1);
    }
  }

  /** What claims nothing confirms nothing. */
  lemma NoRouteNoVerdict<Op>(world: World<Op>, step: Step<Op>, digest: Digest)
    requires FirstRoute(step).None?
    ensures !Contain(VerifyStep(world, step, digest)).Confirmed?
  {
    NoRouteNoClaim(step);
    if Contain(VerifyStep(world, step, digest)).Confirmed? {
      var path := LeftmostIsReported(world, step, digest);
      ConfirmedIsListed(world, step, digest, path, Contain(VerifyStep(world, step, digest)).height);
      assert false;
    }
  }

  /** If the first claim holds, its height is the verdict. */
  lemma {:induction false} FirstClaimIsReported<Op>(world: World<Op>, step: Step<Op>, digest: Digest, height: nat)
    requires FirstRoute(step).Some? && RouteConfirms(world, step, digest, FirstRoute(step).value, height)
    ensures Contain(VerifyStep(world, step, digest)) == Confirmed(height)
    decreases step
  {
    match step.data
    case Attest(_) =>
    case Fork =>
      var k := FirstRouteSkips(step.next, 0);
      assert FirstRoute(step).value[1..] == FirstRoute(step.next[k]).value;
      FirstClaimIsReported(world, step.next[k], digest, height);
      FirstOfBranches(world, step.next, digest, k);
    case Run(_) =>
      var k := FirstRouteSkips(step.next, 0);
      assert FirstRoute(step).value[1..] == FirstRoute(step.next[k]).value;
      FirstClaimIsReported(world, step.next[0], step.output, height);
  }

  lemma FirstOfBranches<Op>(world: World<Op>, branches: seq<Step<Op>>, digest: Digest, k: nat)
    requires k < |branches| && Contain(VerifyStep(world, branches[k], digest)).Confirmed?
    requires forall i :: 0 <= i < k ==> FirstRoute(branches[i]).None?
    ensures Aggregate(VerifyBranches(world, branches, digest)) == Contain(VerifyStep(world, branches[k], digest))
  {
    var statuses := VerifyBranches(world, branches, digest);
    BranchStatus(world, branches, digest, k);
    AggregateIsStrongest(statuses);
    var first := StrongestIsFirstOfHighest(statuses);
    assert Rank(statuses[k]) <= Rank(statuses[first]);
    BranchStatus(world, branches, digest, first);
    if first < k {
      NoRouteNoVerdict(world, branches[first], digest);
    }
  }

  lemma {:induction false} RouteConfirmsFirst<Op>(
    world: World<Op>, step: Step<Op>, digest: Digest, height: nat)
    requires FirstRoute(step).Some? && RouteConfirms(world, step, digest, FirstRoute(step).value, height)
    ensures height <= U32_MAX && BitcoinHeights(step) != [] && BitcoinHeights(step)[0] == height
    decreases step
  {
    match step.data
    case Attest(_) =>
    case Fork =>
      var k := FirstRouteSkips(step.next, 0);
      assert FirstRoute(step).value[1..] == FirstRoute(step.next[k]).value;
      RouteConfirmsFirst(world, step.next[k], digest, height);
      HeightsFrom(step.next, k);
    case Run(_) =>
      var k := FirstRouteSkips(step.next, 0);
      assert FirstRoute(step).value[1..] == FirstRoute(step.next[k]).value;
      RouteConfirmsFirst(world, step.next[0], step.output, height);
      HeightsFrom(step.next, 0);
  }

  lemma {:induction false} HeightsFrom<Op>(steps: seq<Step<Op>>, k: nat)
    requires k < |steps| && BitcoinHeights(steps[k]) != []
    requires forall i :: 0 <= i < k ==> FirstRoute(steps[i]).None?
    ensures BranchHeights(steps) != [] && BranchHeights(steps)[0] == BitcoinHeights(steps[k])[0]
    decreases steps
  {
    if k > 0 {
      NoRouteNoClaim(steps[0]);
      HeightsFrom(steps[1..], k - 1);
    }
  }

  /** The first claim of the proof holds. */
  ghost predicate FirstClaimHolds<Op>(world: World<Op>, timestamp: Timestamp<Op>) {
    var route := FirstRoute(timestamp.firstStep);
    && route.Some?
    && exists height: nat :: RouteConfirms(world, timestamp.firstStep, timestamp.startDigest, route.value, height)
  }

  /** If the first claim holds, the timestamp is confirmed at the recorded height. */
  lemma FirstClaimDecides<Op>(world: World<Op>, timestamp: Timestamp<Op>)
    requires FirstClaimHolds(world, timestamp)
    ensures Verify(world, timestamp).Confirmed?
    ensures RecordedHeight(timestamp.firstStep) == Some(Verify(world, timestamp).height)
  {
    var step, digest := timestamp.firstStep, timestamp.startDigest;
    var height: nat :| RouteConfirms(world, step, digest, FirstRoute(step).value, height);
    FirstClaimIsReported(world, step, digest, height);
    RouteConfirmsFirst(world, step, digest, height);
    RecordedIsFirst(step);
  }

  /** The recorded height of a confirmed timestamp is the confirmed one exactly when the first claim holds, or is
      false but names the same height, cut to 32 bits, as the leftmost claim that holds. */
  lemma RecordedHeightOfConfirmed<Op>(world: World<Op>, timestamp: Timestamp<Op>)
    requires Verify(world, timestamp).Confirmed?
    ensures BitcoinHeights(timestamp.firstStep) != []
    ensures RecordedHeight(timestamp.firstStep) == Some(Verify(world, timestamp).height) <==>
      || FirstClaimHolds(world, timestamp)
      || BitcoinHeights(timestamp.firstStep)[0] % (U32_MAX + 1) == Verify(world, timestamp).height
    ensures FirstClaimHolds(world, timestamp) ==>
      BitcoinHeights(timestamp.firstStep)[0] == Verify(world, timestamp).height
  {
    ConfirmedHeightIsClaimed(world, timestamp);
    RecordedIsFirst(timestamp.firstStep);
    if FirstClaimHolds(world, timestamp) {
      FirstClaimDecides(world, timestamp);
      var step, digest := timestamp.firstStep, timestamp.startDigest;
      var height: nat :| RouteConfirms(world, step, digest, FirstRoute(step).value, height);
      FirstClaimIsReported(world, step, digest, height);
      RouteConfirmsFirst(world, step, digest, height);
    }
  }

  function Claim<Op>(digest: Digest, height: nat): Step<Op> {
    Step(Attest(Bitcoin(height)), digest, [])
  }

  function TwoClaims<Op>(digest: Digest, first: nat, second: nat): Timestamp<Op> {
    Timestamp(digest, Step(Fork, digest, [Claim(digest, first), Claim(digest, second)]))
  }

  /** They differ when an attestation that does not hold stands before the one that does. */
  lemma RecordedHeightMayDiffer<Op>(world: World<Op>, digest: Digest)
    requires world.source(8) == Root(digest) && world.source(99) != Root(digest)
    ensures Verify(world, TwoClaims(digest, 99, 8)) == Confirmed(8)
    ensures RecordedHeight(TwoClaims<Op>(digest, 99, 8).firstStep) == Some(99)
  {
    var late: Step<Op>, early: Step<Op> := Claim(digest, 99), Claim(digest, 8);
    var branches := [late, early];
    assert branches[1..] == [early] && [early][1..] == [];
    var first := Contain(VerifyStep(world, late, digest));
    assert VerifyStep(world, early, digest) == Ok(Confirmed(8));
    assert VerifyBranches(world, [early], digest) == [Confirmed(8)] + VerifyBranches(world, [], digest);
    assert VerifyBranches(world, branches, digest) == [first] + VerifyBranches(world, [early], digest);
    assert RecordedHeight(late) == Some(99) && FirstRecorded(branches) == Some(99);
    var statuses := [first, Confirmed(8)];
    assert !first.Confirmed? && Rank(first) < 5;
    assert statuses[1..] == [Confirmed(8)] && [Confirmed(8)][1..] == [];
    assert Strongest([Confirmed(8)]) == Confirmed(8) && Strongest(statuses) == Confirmed(8);
    AggregateIsStrongest(statuses);
    assert VerifyBranches(world, branches, digest) == statuses;
  }
}
