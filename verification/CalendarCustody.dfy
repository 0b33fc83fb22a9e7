/** The calendar's custody of submitted digests, as a state machine.

Requests and the single anchor worker change a shared queue and store under a lock, and save
both as one snapshot; a save may fail, and the process may restart from the last snapshot
at any moment.  An event is what happens under one hold of the lock, or the reading of a
snapshot, which needs no lock: it is installed by an event of its own.
*/
module CalendarCustody {
  import opened Options
  import opened Merkle

  type Digest = nat

  type Proof = nat

  type Pair = (Digest, Digest) -> Digest

  datatype PendingAnchor = PendingAnchor(txid: nat, root: Digest, batch: seq<Digest>, broadcastAt: nat)

  datatype AnchorRecord = AnchorRecord(height: nat, txid: nat, root: Digest, anchoredAt: nat)

  datatype Store = Store(
    proofs: map<Digest, Proof>,
    batches: map<Digest, seq<Digest>>,
    pendingAnchor: Option<PendingAnchor>,
    lastAnchor: Option<AnchorRecord>,
    skippedReason: Option<nat>)

  datatype Snapshot = Snapshot(queue: seq<Digest>, store: Store)

  /** How far the worker has come in its turn. */
  datatype Worker =
    | Idle
    | Loaded(snapshot: Snapshot)
    | Looking
    | Waiting(pending: PendingAnchor)
    | Draining
    | Broadcasting(batch: seq<Digest>, root: Digest)

  /** `reading` is the snapshot that a request to reload has read and not installed yet. */
  datatype State = State(
    memory: Snapshot, disk: Snapshot, worker: Worker, reading: Option<Snapshot>, acknowledged: set<Digest>)

  datatype Event =
    | Submit(digest: Digest, saved: bool)
    | ServiceLoad
    | ServiceInstall
    | Restart
    | Load
    | Install
    | Look
    | GiveUp
    | Finalize(height: nat, at: nat, proofs: Digest -> Proof, saved: bool)
    | RestorePending(saved: bool)
    | Skip(reason: nat, saved: bool)
    | Drain(priority: Option<seq<Digest>>, max: nat, saved: bool)
    | RestoreDrained(saved: bool)
    | Publish(txid: nat, at: nat, saved: bool)

  // ----- the queue -----

  function Enqueue(queue: seq<Digest>, digest: Digest): seq<Digest> {
    if digest in queue then queue else queue + [digest]
  }

  /** Puts a batch back, last digest first. */
  function EnqueueReversed(queue: seq<Digest>, batch: seq<Digest>): seq<Digest>
    decreases |batch|
  {
    if batch == [] then queue
    else EnqueueReversed(Enqueue(queue, batch[|batch| - 1]), batch[..|batch| - 1])
  }

  function Position(queue: seq<Digest>, digest: Digest): (index: nat)
    requires digest in queue
    ensures index < |queue| && queue[index] == digest
  {
    if queue[0] == digest then 0 else 1 + Position(queue[1..], digest)
  }

  function Removed(queue: seq<Digest>, digest: Digest): seq<Digest>
    requires digest in queue
  {
    var index := Position(queue, digest);
    queue[..index] + queue[index + 1..]
  }

  datatype Drained = Drained(batch: seq<Digest>, rest: seq<Digest>)

  function DrainFront(queue: seq<Digest>, max: nat): Drained {
    var n := if |queue| < max then |queue| else max;
    Drained(queue[..n], queue[n..])
  }

  /** Takes the preferred digests that are queued, up to `max` in all. */
  function Prefer(priority: seq<Digest>, d: Drained, max: nat): Drained {
    if priority == [] || |d.batch| >= max then d
    else if priority[0] in d.rest then
      Prefer(priority[1..], Drained(d.batch + [priority[0]], Removed(d.rest, priority[0])), max)
    else
      Prefer(priority[1..], d, max)
  }

  function DrainPrioritized(queue: seq<Digest>, priority: seq<Digest>, max: nat): Drained {
    var preferred := Prefer(priority, Drained([], queue), max);
    var more := DrainFront(preferred.rest, if max < |preferred.batch| then 0 else max - |preferred.batch|);
    Drained(preferred.batch + more.batch, more.rest)
  }

  function DrainAny(queue: seq<Digest>, priority: Option<seq<Digest>>, max: nat): Drained {
    if priority.Some? then DrainPrioritized(queue, priority.value, max) else DrainFront(queue, max)
  }

  // ----- events -----

  predicate Enabled(s: State, e: Event) {
    match e
    case Submit(_, _) => true
    case ServiceLoad => s.reading.None?
    case ServiceInstall => s.reading.Some?
    case Restart => true
    case Load => s.worker.Idle?
    case Install => s.worker.Loaded?
    case Look => s.worker.Looking?
    case GiveUp => s.worker.Waiting? || s.worker.Draining?
    case Finalize(_, _, _, _) => s.worker.Waiting?
    case RestorePending(_) => s.worker.Waiting?
    case Skip(_, _) => s.worker.Draining?
    case Drain(_, _, _) => s.worker.Draining?
    case RestoreDrained(_) => s.worker.Broadcasting?
    case Publish(_, _, _) => s.worker.Broadcasting?
  }

  /** The memory changes, the snapshot follows if it could be saved, and the worker moves on. */
  function Changed(s: State, memory: Snapshot, saved: bool, worker: Worker): State {
    s.(memory := memory, disk := if saved then memory else s.disk, worker := worker)
  }

  function PutProofs(proofs: map<Digest, Proof>, batch: seq<Digest>, proofOf: Digest -> Proof): map<Digest, Proof>
    decreases |batch|
  {
    if batch == [] then proofs else PutProofs(proofs[batch[0] := proofOf(batch[0])], batch[1..], proofOf)
  }

  function Submitted(s: State, digest: Digest, saved: bool): State {
    if digest in s.memory.store.proofs then
      s.(acknowledged := s.acknowledged + {digest})
    else
      var memory := s.memory.(queue := Enqueue(s.memory.queue, digest));
      Changed(s, memory, saved, s.worker).(
        acknowledged := if saved then s.acknowledged + {digest} else s.acknowledged)
  }

  function Looked(s: State): State {
    s.(worker := match s.memory.store.pendingAnchor
      case Some(pending) => Waiting(pending)
      case None => Draining)
  }

  function Finalized(s: State, height: nat, at: nat, proofOf: Digest -> Proof, saved: bool): State
    requires s.worker.Waiting?
  {
    var p := s.worker.pending;
    var store := s.memory.store.(
      proofs := PutProofs(s.memory.store.proofs, p.batch, proofOf),
      lastAnchor := Some(AnchorRecord(height, p.txid, p.root, at)),
      skippedReason := None,
      pendingAnchor := None);
    Changed(s, s.memory.(store := store), saved, Idle)
  }

  function PendingRestored(s: State, saved: bool): State
    requires s.worker.Waiting?
  {
    var memory := Snapshot(
      EnqueueReversed(s.memory.queue, s.worker.pending.batch), s.memory.store.(pendingAnchor := None));
    Changed(s, memory, saved, if saved then Draining else Idle)
  }

  function DrainedInto(pair: Pair, s: State, priority: Option<seq<Digest>>, max: nat, saved: bool): State {
    var d := DrainAny(s.memory.queue, priority, max);
    if s.memory.store.pendingAnchor.Some? || s.memory.queue == [] || d.batch == [] then
      s.(worker := Idle)
    else
      var root := Root(pair, d.batch);
      var store := s.memory.store.(batches := s.memory.store.batches[root := d.batch]);
      Changed(s, Snapshot(d.rest, store), saved, if saved then Broadcasting(d.batch, root) else Idle)
  }

  function DrainedRestored(s: State, saved: bool): State
    requires s.worker.Broadcasting?
  {
    var store := s.memory.store.(batches := s.memory.store.batches - {s.worker.root});
    Changed(s, Snapshot(EnqueueReversed(s.memory.queue, s.worker.batch), store), saved, Idle)
  }

  function Published(s: State, txid: nat, at: nat, saved: bool): State
    requires s.worker.Broadcasting?
  {
    var store := s.memory.store.(
      pendingAnchor := Some(PendingAnchor(txid, s.worker.root, s.worker.batch, at)),
      batches := s.memory.store.batches - {s.worker.root});
    Changed(s, s.memory.(store := store), saved, Idle)
  }

  function Apply(pair: Pair, s: State, e: Event): State
    requires Enabled(s, e)
  {
    match e
    case Submit(digest, saved) => Submitted(s, digest, saved)
    case ServiceLoad => s.(reading := Some(s.disk))
    case ServiceInstall => s.(memory := s.reading.value, reading := None)
    case Restart => s.(memory := s.disk, worker := Idle, reading := None)
    case Load => s.(worker := Loaded(s.disk))
    case Install => s.(memory := s.worker.snapshot, worker := Looking)
    case Look => Looked(s)
    case GiveUp => s.(worker := Idle)
    case Finalize(height, at, proofs, saved) => Finalized(s, height, at, proofs, saved)
    case RestorePending(saved) => PendingRestored(s, saved)
    case Skip(reason, saved) =>
      Changed(s, s.memory.(store := s.memory.store.(skippedReason := Some(reason))), saved, Idle)
    case Drain(priority, max, saved) => DrainedInto(pair, s, priority, max, saved)
    case RestoreDrained(saved) => DrainedRestored(s, saved)
    case Publish(txid, at, saved) => Published(s, txid, at, saved)
  }

  // ----- what is held -----

  predicate InBatches(batches: map<Digest, seq<Digest>>, digest: Digest) {
    exists root :: root in batches && digest in batches[root]
  }

  /** The digest is queued, in a stored batch, in the pending anchor or proved. */
  predicate Held(snapshot: Snapshot, digest: Digest) {
    || digest in snapshot.queue
    || InBatches(snapshot.store.batches, digest)
    || (snapshot.store.pendingAnchor.Some? && digest in snapshot.store.pendingAnchor.value.batch)
    || digest in snapshot.store.proofs
  }

  ghost predicate HeldToo(a: Snapshot, b: Snapshot) {
    forall digest :: Held(a, digest) ==> Held(b, digest)
  }

  /** The disk was once in this state, and has lost nothing since. */
  ghost predicate WasRead(snapshot: Snapshot, disk: Snapshot) {
    NoDuplicates(snapshot.queue) && HeldToo(snapshot, disk)
  }

  ghost predicate WorkerKnows(s: State) {
    match s.worker
    case Idle => true
    case Loaded(snapshot) => WasRead(snapshot, s.disk)
    case Looking => s.memory.store.pendingAnchor == s.disk.store.pendingAnchor
    case Waiting(pending) =>
      s.memory.store.pendingAnchor == Some(pending) && s.disk.store.pendingAnchor == Some(pending)
    case Draining => s.memory.store.pendingAnchor.None? && s.disk.store.pendingAnchor.None?
    case Broadcasting(batch, root) =>
      && s.memory.store.pendingAnchor.None? && s.disk.store.pendingAnchor.None?
      && root in s.memory.store.batches && s.memory.store.batches[root] == batch
      && root in s.disk.store.batches && s.disk.store.batches[root] == batch
  }

  /** What every event keeps. */
  ghost predicate Custody(s: State) {
    && NoDuplicates(s.memory.queue) && NoDuplicates(s.disk.queue)
    && HeldToo(s.disk, s.memory)
    && (forall d :: d in s.disk.store.proofs ==> d in s.memory.store.proofs)
    && (forall d :: d in s.memory.store.proofs ==> Held(s.disk, d))
    && (s.memory.store.pendingAnchor.Some? && s.disk.store.pendingAnchor.Some? ==>
      s.memory.store.pendingAnchor == s.disk.store.pendingAnchor)
    && (s.disk.store.pendingAnchor.Some? && s.memory.store.pendingAnchor.None? ==>
      forall d <- s.disk.store.pendingAnchor.value.batch :: d in s.memory.queue || d in s.memory.store.proofs)
    && WorkerKnows(s)
    && (s.reading.Some? ==> WasRead(s.reading.value, s.disk))
    && (forall d <- s.acknowledged :: Held(s.disk, d))
  }

  // ----- the queue keeps its promises -----

  lemma {:induction false} EnqueueReversedHolds(queue: seq<Digest>, batch: seq<Digest>)
    requires NoDuplicates(queue)
    ensures NoDuplicates(EnqueueReversed(queue, batch))
    ensures forall d :: d in EnqueueReversed(queue, batch) <==> d in queue || d in batch
    decreases |batch|
  {
    if batch != [] {
      EnqueueReversedHolds(Enqueue(queue, batch[|batch| - 1]), batch[..|batch| - 1]);
    }
  }

  lemma RemovedHolds(queue: seq<Digest>, digest: Digest)
    requires NoDuplicates(queue) && digest in queue
    ensures NoDuplicates(Removed(queue, digest))
    ensures |Removed(queue, digest)| == |queue| - 1
    ensures forall d :: d in Removed(queue, digest) <==> d in queue && d != digest
  {
    var index := Position(queue, digest);
    assert queue == queue[..index] + [digest] + queue[index + 1..];
  }

  /** Draining splits the queue: nothing is dropped and nothing is in both parts. */
  ghost predicate Splits(queue: seq<Digest>, d: Drained) {
    && NoDuplicates(d.batch) && NoDuplicates(d.rest)
    && (forall x :: x in queue <==> x in d.batch || x in d.rest)
    && (forall x :: x in d.batch ==> x !in d.rest)
    && |d.batch| + |d.rest| == |queue|
  }

  lemma DrainFrontSplits(queue: seq<Digest>, max: nat)
    requires NoDuplicates(queue)
    ensures Splits(queue, DrainFront(queue, max))
    ensures |DrainFront(queue, max).batch| == if |queue| < max then |queue| else max
  {
    var n := if |queue| < max then |queue| else max;
    assert queue == queue[..n] + queue[n..];
  }

  lemma {:induction false} PreferSplits(priority: seq<Digest>, queue: seq<Digest>, d: Drained, max: nat)
    requires Splits(queue, d) && |d.batch| <= max
    ensures Splits(queue, Prefer(priority, d, max)) && |Prefer(priority, d, max).batch| <= max
    ensures d.batch <= Prefer(priority, d, max).batch
    ensures forall x <- Prefer(priority, d, max).batch :: x in d.batch || x in priority
    ensures |Prefer(priority, d, max).batch| < max ==>
      forall x <- priority :: x in queue ==> x in Prefer(priority, d, max).batch
    decreases |priority|
  {
    if priority != [] && |d.batch| < max {
      if priority[0] in d.rest {
        RemovedHolds(d.rest, priority[0]);
        var next := Drained(d.batch + [priority[0]], Removed(d.rest, priority[0]));
        assert next.batch[|d.batch|] == priority[0];
        PreferSplits(priority[1..], queue, next, max);
      } else {
        PreferSplits(priority[1..], queue, d, max);
      }
    }
  }

  lemma NoDuplicatesConcat(a: seq<Digest>, b: seq<Digest>)
    requires NoDuplicates(a) && NoDuplicates(b) && forall x :: x in a ==> x !in b
    ensures NoDuplicates(a + b)
  {
    forall i, j | 0 <= i < j < |a + b|
      ensures (a + b)[i] != (a + b)[j]
    {
      if i < |a| <= j {
        assert a[i] in a && b[j - |a|] in b;
      }
    }
  }

  lemma DrainPrioritizedSplits(queue: seq<Digest>, priority: seq<Digest>, max: nat)
    requires NoDuplicates(queue)
    ensures Splits(queue, DrainPrioritized(queue, priority, max))
    ensures |DrainPrioritized(queue, priority, max).batch| == if |queue| < max then |queue| else max
  {
    PreferSplits(priority, queue, Drained([], queue), max);
    var p := Prefer(priority, Drained([], queue), max);
    DrainFrontSplits(p.rest, max - |p.batch|);
    SplitsTwice(queue, p, DrainFront(p.rest, max - |p.batch|));
  }

  lemma SplitsTwice(queue: seq<Digest>, first: Drained, second: Drained)
    requires Splits(queue, first) && Splits(first.rest, second)
    ensures Splits(queue, Drained(first.batch + second.batch, second.rest))
  {
    NoDuplicatesConcat(first.batch, second.batch);
  }

  /** A preferred digest is left behind only by a batch of preferred ones. */
  lemma PreferredComeFirst(queue: seq<Digest>, priority: seq<Digest>, max: nat, left: Digest)
    requires NoDuplicates(queue) && left in priority && left in DrainPrioritized(queue, priority, max).rest
    ensures forall y <- DrainPrioritized(queue, priority, max).batch :: y in priority
  {
    PreferSplits(priority, queue, Drained([], queue), max);
    var p := Prefer(priority, Drained([], queue), max);
    DrainFrontSplits(p.rest, max - |p.batch|);
    assert left in p.rest;
    assert |p.batch| == max;
  }

  lemma DrainAnySplits(queue: seq<Digest>, priority: Option<seq<Digest>>, max: nat)
    requires NoDuplicates(queue)
    ensures Splits(queue, DrainAny(queue, priority, max))
    ensures |DrainAny(queue, priority, max).batch| == if |queue| < max then |queue| else max
  {
    if priority.Some? {
      DrainPrioritizedSplits(queue, priority.value, max);
    } else {
      DrainFrontSplits(queue, max);
    }
  }

  lemma {:induction false} PutProofsHolds(proofs: map<Digest, Proof>, batch: seq<Digest>, proofOf: Digest -> Proof)
    ensures forall d :: d in PutProofs(proofs, batch, proofOf) <==> d in proofs || d in batch
    decreases |batch|
  {
    if batch != [] {
      PutProofsHolds(proofs[batch[0] := proofOf(batch[0])], batch[1..], proofOf);
    }
  }

  // ----- every event keeps custody -----

  /** A batch about to be stored would replace a different one under the same root. */
  ghost predicate Clobbers(pair: Pair, s: State, e: Event) {
    && e.Drain?
    && var batch := DrainAny(s.memory.queue, e.priority, e.max).batch;
      && batch != []
      && Root(pair, batch) in s.memory.store.batches && s.memory.store.batches[Root(pair, batch)] != batch
  }

  /** What an event may do to the disk: it loses no digest and no proof and overwrites no pending anchor. */
  ghost predicate DiskKeeps(s: State, t: State) {
    && HeldToo(s.disk, t.disk)
    && (forall d :: d in s.disk.store.proofs ==> d in t.disk.store.proofs)
    && (s.disk.store.pendingAnchor.Some? ==>
      || t.disk.store.pendingAnchor == s.disk.store.pendingAnchor
      || (t.disk.store.pendingAnchor.None?
        && forall d <- s.disk.store.pendingAnchor.value.batch :: d in t.disk.queue || d in t.disk.store.proofs))
  }

  ghost predicate MemoryMayBecome(s: State, memory: Snapshot) {
    && NoDuplicates(memory.queue)
    && HeldToo(s.memory, memory)
    && (forall d :: d in s.memory.store.proofs ==> d in memory.store.proofs)
    && (forall d :: d in memory.store.proofs ==> Held(s.disk, d))
    && (s.disk.store.pendingAnchor.Some? ==>
      || memory.store.pendingAnchor == s.disk.store.pendingAnchor
      || (memory.store.pendingAnchor.None?
        && forall d <- s.disk.store.pendingAnchor.value.batch :: d in memory.queue || d in memory.store.proofs))
  }

  lemma ChangedKeeps(s: State, memory: Snapshot, saved: bool, worker: Worker)
    requires Custody(s) && MemoryMayBecome(s, memory)
    requires WorkerKnows(Changed(s, memory, saved, worker))
    ensures Custody(Changed(s, memory, saved, worker)) && DiskKeeps(s, Changed(s, memory, saved, worker))
  {
    var t := Changed(s, memory, saved, worker);
    assert HeldToo(s.disk, memory);
    assert HeldToo(s.disk, t.disk);
  }

  lemma SubmitKeeps(s: State, digest: Digest, saved: bool)
    requires Custody(s)
    ensures Custody(Submitted(s, digest, saved)) && DiskKeeps(s, Submitted(s, digest, saved))
  {
    if digest !in s.memory.store.proofs {
      var memory := s.memory.(queue := Enqueue(s.memory.queue, digest));
      assert digest in memory.queue;
      ChangedKeeps(s, memory, saved, s.worker);
    }
  }

  lemma FinalizeKeeps(s: State, height: nat, at: nat, proofOf: Digest -> Proof, saved: bool)
    requires Custody(s) && s.worker.Waiting?
    ensures var t := Finalized(s, height, at, proofOf, saved); Custody(t) && DiskKeeps(s, t)
  {
    PutProofsHolds(s.memory.store.proofs, s.worker.pending.batch, proofOf);
    ChangedKeeps(s, Finalized(s, height, at, proofOf, saved).memory, saved, Idle);
  }

  lemma RestorePendingKeeps(s: State, saved: bool)
    requires Custody(s) && s.worker.Waiting?
    ensures Custody(PendingRestored(s, saved)) && DiskKeeps(s, PendingRestored(s, saved))
  {
    EnqueueReversedHolds(s.memory.queue, s.worker.pending.batch);
    ChangedKeeps(s, PendingRestored(s, saved).memory, saved, if saved then Draining else Idle);
  }

  lemma DrainKeeps(pair: Pair, s: State, priority: Option<seq<Digest>>, max: nat, saved: bool)
    requires Custody(s) && s.worker.Draining? && !Clobbers(pair, s, Drain(priority, max, saved))
    ensures Custody(DrainedInto(pair, s, priority, max, saved))
    ensures DiskKeeps(s, DrainedInto(pair, s, priority, max, saved))
  {
    DrainAnySplits(s.memory.queue, priority, max);
    var d := DrainAny(s.memory.queue, priority, max);
    if s.memory.queue != [] && d.batch != [] {
      var t := DrainedInto(pair, s, priority, max, saved);
      forall x | Held(s.memory, x)
        ensures Held(t.memory, x)
      {
        StoringHolds(s.memory.store.batches, Root(pair, d.batch), d.batch, x);
      }
      ChangedKeeps(s, t.memory, saved, t.worker);
    }
  }

  lemma StoringHolds(batches: map<Digest, seq<Digest>>, root: Digest, batch: seq<Digest>, digest: Digest)
    requires root in batches ==> batches[root] == batch
    ensures InBatches(batches, digest) || digest in batch ==> InBatches(batches[root := batch], digest)
  {
    var after := batches[root := batch];
    assert after[root] == batch;
    if r :| r in batches && digest in batches[r] {
      assert r in after && digest in after[r];
    }
  }

  lemma RestoreDrainedKeeps(s: State, saved: bool)
    requires Custody(s) && s.worker.Broadcasting?
    ensures Custody(DrainedRestored(s, saved)) && DiskKeeps(s, DrainedRestored(s, saved))
  {
    EnqueueReversedHolds(s.memory.queue, s.worker.batch);
    var t := DrainedRestored(s, saved);
    forall x | Held(s.memory, x)
      ensures Held(t.memory, x)
    {
      BatchesWithout(s.memory.store.batches, s.worker.root, x);
    }
    ChangedKeeps(s, t.memory, saved, Idle);
  }

  lemma PublishKeeps(s: State, txid: nat, at: nat, saved: bool)
    requires Custody(s) && s.worker.Broadcasting?
    ensures Custody(Published(s, txid, at, saved)) && DiskKeeps(s, Published(s, txid, at, saved))
  {
    var t := Published(s, txid, at, saved);
    forall x | Held(s.memory, x)
      ensures Held(t.memory, x)
    {
      BatchesWithout(s.memory.store.batches, s.worker.root, x);
    }
    ChangedKeeps(s, t.memory, saved, Idle);
  }

  lemma BatchesWithout(batches: map<Digest, seq<Digest>>, root: Digest, digest: Digest)
    ensures InBatches(batches, digest) <==>
      InBatches(batches - {root}, digest) || (root in batches && digest in batches[root])
  {
    if r :| r in batches && digest in batches[r] && r != root {
      assert r in batches - {root} && digest in (batches - {root})[r];
    }
    if InBatches(batches - {root}, digest) {
      var r :| r in batches - {root} && digest in (batches - {root})[r];
      assert r in batches && digest in batches[r];
    }
  }

  /** A snapshot that still has what the disk has: its digests and its proofs. */
  ghost predicate Complete(snapshot: Snapshot, disk: Snapshot) {
    HeldToo(disk, snapshot) && forall d :: d in disk.store.proofs ==> d in snapshot.store.proofs
  }

  /** And its pending anchor too. */
  ghost predicate UpToDate(snapshot: Snapshot, disk: Snapshot) {
    Complete(snapshot, disk) && snapshot.store.pendingAnchor == disk.store.pendingAnchor
  }

  /** Of two pending anchors none would overwrite the other, and one that is only on disk has its batch queued. */
  ghost predicate AnchorsAgree(snapshot: Snapshot, disk: Snapshot) {
    && (snapshot.store.pendingAnchor.Some? && disk.store.pendingAnchor.Some? ==>
      snapshot.store.pendingAnchor == disk.store.pendingAnchor)
    && (disk.store.pendingAnchor.Some? && snapshot.store.pendingAnchor.None? ==>
      forall d <- disk.store.pendingAnchor.value.batch :: d in snapshot.queue || d in snapshot.store.proofs)
  }

  /** Installing a snapshot that was read before keeps custody exactly when the snapshot is still up to date. */
  lemma InstallKeepsExactly(s: State)
    requires Custody(s) && s.worker.Loaded?
    ensures var t := s.(memory := s.worker.snapshot, worker := Looking);
      Custody(t) <==> UpToDate(s.worker.snapshot, s.disk)
  {
    var snapshot := s.worker.snapshot;
    forall d | d in snapshot.store.proofs
      ensures Held(s.disk, d)
    {
      assert Held(snapshot, d);
    }
  }

  /** When the service installs one, the worker may be in the middle of a turn: it must find in the new memory
      the anchor or batch it is at work on. */
  lemma ServiceInstallKeepsExactly(s: State)
    requires Custody(s) && s.reading.Some?
    ensures var t := s.(memory := s.reading.value, reading := None);
      Custody(t) <==>
        Complete(s.reading.value, s.disk) && AnchorsAgree(s.reading.value, s.disk) && WorkerKnows(t)
  {
    var snapshot := s.reading.value;
    forall d | d in snapshot.store.proofs
      ensures Held(s.disk, d)
    {
      assert Held(snapshot, d);
    }
  }

  /** Nothing relevant was saved between reading a snapshot and installing it. */
  ghost predicate Steady(s: State, e: Event) {
    match e
    case Install => s.worker.Loaded? ==> UpToDate(s.worker.snapshot, s.disk)
    case ServiceInstall =>
      && s.reading.Some? && Complete(s.reading.value, s.disk) && AnchorsAgree(s.reading.value, s.disk)
      && WorkerKnows(s.(memory := s.reading.value, reading := None))
    case _ => true
  }

  /** Every steady event but a clobbering one keeps custody, whatever fails. */
  lemma EventKeeps(pair: Pair, s: State, e: Event)
    requires Custody(s) && Enabled(s, e) && !Clobbers(pair, s, e) && Steady(s, e)
    ensures Custody(Apply(pair, s, e)) && DiskKeeps(s, Apply(pair, s, e))
  {
    match e
    case Submit(digest, saved) => SubmitKeeps(s, digest, saved);
    case ServiceLoad =>
    case ServiceInstall => ServiceInstallKeepsExactly(s);
    case Restart =>
    case Load =>
    case Install => InstallKeepsExactly(s);
    case Look =>
    case GiveUp =>
    case Finalize(height, at, proofs, saved) => FinalizeKeeps(s, height, at, proofs, saved);
    case RestorePending(saved) => RestorePendingKeeps(s, saved);
    case Skip(reason, saved) => ChangedKeeps(s, Apply(pair, s, e).memory, saved, Idle);
    case Drain(priority, max, saved) => DrainKeeps(pair, s, priority, max, saved);
    case RestoreDrained(saved) => RestoreDrainedKeeps(s, saved);
    case Publish(txid, at, saved) => PublishKeeps(s, txid, at, saved);
  }

  // ----- what a clobbering event loses -----

  /** Storing a batch loses exactly the digests of the batch it replaces that nothing else holds. */
  lemma DrainLosesExactly(pair: Pair, s: State, priority: Option<seq<Digest>>, max: nat, saved: bool, digest: Digest)
    requires NoDuplicates(s.memory.queue) && s.memory.store.pendingAnchor.None?
    requires DrainAny(s.memory.queue, priority, max).batch != [] && Held(s.memory, digest)
    ensures var d := DrainAny(s.memory.queue, priority, max);
      var root := Root(pair, d.batch);
      Held(DrainedInto(pair, s, priority, max, saved).memory, digest) <==>
        || digest in s.memory.queue
        || digest in s.memory.store.proofs
        || InBatches(s.memory.store.batches - {root}, digest)
  {
    DrainAnySplits(s.memory.queue, priority, max);
    var d := DrainAny(s.memory.queue, priority, max);
    assert d.batch[0] in s.memory.queue;
    var root := Root(pair, d.batch);
    var after := s.memory.store.batches[root := d.batch];
    BatchesWithout(after, root, digest);
    assert after - {root} == s.memory.store.batches - {root};
  }

  // ----- why honest digests never clobber -----

  ghost predicate Leaves(pair: Pair, digests: seq<Digest>) {
    forall d <- digests :: IsLeaf(pair, d)
  }

  /** Stored batches are kept under their own roots, and nothing is the hash of a pair. */
  ghost predicate Rooted(pair: Pair, snapshot: Snapshot) {
    && Leaves(pair, snapshot.queue)
    && (forall r :: r in snapshot.store.batches ==>
      var batch := snapshot.store.batches[r];
      batch != [] && NoDuplicates(batch) && Leaves(pair, batch) && r == Root(pair, batch))
    && (snapshot.store.pendingAnchor.Some? ==> Leaves(pair, snapshot.store.pendingAnchor.value.batch))
  }

  ghost predicate AllRooted(pair: Pair, s: State) {
    && Rooted(pair, s.memory) && Rooted(pair, s.disk)
    && (s.worker.Loaded? ==> Rooted(pair, s.worker.snapshot))
    && (s.reading.Some? ==> Rooted(pair, s.reading.value))
    && (s.worker.Waiting? ==> Leaves(pair, s.worker.pending.batch))
    && (s.worker.Broadcasting? ==> Leaves(pair, s.worker.batch))
  }

  /** Clients submit digests that are not hashes of two digests. */
  ghost predicate Honest(pair: Pair, e: Event) {
    e.Submit? ==> IsLeaf(pair, e.digest)
  }

  lemma RootedNeverClobbers(pair: Pair, s: State, e: Event)
    requires Injective(pair) && Custody(s) && AllRooted(pair, s) && Enabled(s, e)
    ensures !Clobbers(pair, s, e)
  {
    if e.Drain? {
      DrainAnySplits(s.memory.queue, e.priority, e.max);
      var batch := DrainAny(s.memory.queue, e.priority, e.max).batch;
      if batch != [] && Root(pair, batch) in s.memory.store.batches {
        RootDeterminesLeaves(pair, batch, s.memory.store.batches[Root(pair, batch)]);
      }
    }
  }

  lemma RootedKept(pair: Pair, s: State, e: Event)
    requires Custody(s) && AllRooted(pair, s) && Enabled(s, e) && Honest(pair, e)
    ensures AllRooted(pair, Apply(pair, s, e))
  {
    match e
    case Submit(_, _) =>
    case ServiceLoad =>
    case ServiceInstall =>
    case Restart =>
    case Load =>
    case Install =>
    case Look =>
    case GiveUp =>
    case Finalize(_, _, _, _) =>
    case RestorePending(_) =>
      EnqueueReversedHolds(s.memory.queue, s.worker.pending.batch);
    case Skip(_, _) =>
    case Drain(priority, max, _) =>
      DrainAnySplits(s.memory.queue, priority, max);
    case RestoreDrained(_) =>
      EnqueueReversedHolds(s.memory.queue, s.worker.batch);
    case Publish(_, _, _) =>
  }

  // ----- whole runs -----

  const EMPTY: Snapshot := Snapshot([], Store(map[], map[], None, None, None))

  const START: State := State(EMPTY, EMPTY, Idle, None, {})

  ghost predicate Possible(pair: Pair, s: State, events: seq<Event>)
    decreases |events|
  {
    events == [] ||
    (Enabled(s, events[0]) && Possible(pair, Apply(pair, s, events[0]), events[1..]))
  }

  function Run(pair: Pair, s: State, events: seq<Event>): State
    requires Possible(pair, s, events)
    decreases |events|
  {
    if events == [] then s else Run(pair, Apply(pair, s, events[0]), events[1..])
  }

  /** No snapshot is installed over something newer. */
  ghost predicate AllSteady(pair: Pair, s: State, events: seq<Event>)
    requires Possible(pair, s, events)
    decreases |events|
  {
    events == [] || (Steady(s, events[0]) && AllSteady(pair, Apply(pair, s, events[0]), events[1..]))
  }

  lemma {:induction false} RunKeeps(pair: Pair, s: State, events: seq<Event>)
    requires Injective(pair) && Custody(s) && AllRooted(pair, s) && Possible(pair, s, events)
    requires AllSteady(pair, s, events) && forall e <- events :: Honest(pair, e)
    ensures Custody(Run(pair, s, events)) && AllRooted(pair, Run(pair, s, events))
    ensures HeldToo(s.disk, Run(pair, s, events).disk)
    ensures s.acknowledged <= Run(pair, s, events).acknowledged
    ensures forall d :: d in s.disk.store.proofs ==> d in Run(pair, s, events).disk.store.proofs
    decreases |events|
  {
    if events != [] {
      RootedNeverClobbers(pair, s, events[0]);
      EventKeeps(pair, s, events[0]);
      RootedKept(pair, s, events[0]);
      RunKeeps(pair, Apply(pair, s, events[0]), events[1..]);
    }
  }

  /** From an empty calendar, through any events and failures, every acknowledged digest is on disk. */
  lemma AcknowledgedDigestsAreHeld(pair: Pair, events: seq<Event>, digest: Digest)
    requires Injective(pair) && Possible(pair, START, events) && AllSteady(pair, START, events)
    requires forall e <- events :: Honest(pair, e)
    requires digest in Run(pair, START, events).acknowledged
    ensures Held(Run(pair, START, events).disk, digest)
    ensures NoDuplicates(Run(pair, START, events).disk.queue)
  {
    RunKeeps(pair, START, events);
  }

  lemma {:induction false} RunInTwo(pair: Pair, s: State, first: seq<Event>, second: seq<Event>)
    requires Possible(pair, s, first) && Possible(pair, Run(pair, s, first), second)
    ensures Possible(pair, s, first + second)
    ensures Run(pair, s, first + second) == Run(pair, Run(pair, s, first), second)
    decreases |first|
  {
    if first == [] {
      assert first + second == second;
    } else {
      assert (first + second)[1..] == first[1..] + second;
      RunInTwo(pair, Apply(pair, s, first[0]), first[1..], second);
    }
  }

  lemma RunStep(pair: Pair, s: State, e: Event, rest: seq<Event>)
    requires Enabled(s, e) && Possible(pair, Apply(pair, s, e), rest)
    ensures Possible(pair, s, [e] + rest)
    ensures Run(pair, s, [e] + rest) == Run(pair, Apply(pair, s, e), rest)
  {
    assert ([e] + rest)[1..] == rest;
  }

  const DRAIN: Event := Drain(None, 64, true)

  /** The worker's turn up to the storing of a batch that is the whole queue. */
  lemma TurnStores(pair: Pair, queue: seq<Digest>, batches: map<Digest, seq<Digest>>, acknowledged: set<Digest>)
    requires 0 < |queue| <= 64
    ensures var before := Snapshot(queue, Store(map[], batches, None, None, None));
      var after := Snapshot([], Store(map[], batches[Root(pair, queue) := queue], None, None, None));
      var s := State(before, before, Idle, None, acknowledged);
      && Possible(pair, s, [Load, Install, Look, DRAIN])
      && Run(pair, s, [Load, Install, Look, DRAIN])
         == State(after, after, Broadcasting(queue, Root(pair, queue)), None, acknowledged)
  {
    var before := Snapshot(queue, Store(map[], batches, None, None, None));
    var s := State(before, before, Idle, None, acknowledged);
    TurnStarts(pair, s);
    WholeQueueDrained(pair, queue, batches, acknowledged);
    RunStep(pair, s.(worker := Draining), DRAIN, []);
    assert [DRAIN] + [] == [DRAIN] && [Load, Install, Look] + [DRAIN] == [Load, Install, Look, DRAIN];
    RunInTwo(pair, s, [Load, Install, Look], [DRAIN]);
  }

  lemma WholeQueueDrained(
    pair: Pair, queue: seq<Digest>, batches: map<Digest, seq<Digest>>, acknowledged: set<Digest>)
    requires 0 < |queue| <= 64
    ensures var before := Snapshot(queue, Store(map[], batches, None, None, None));
      var after := Snapshot([], Store(map[], batches[Root(pair, queue) := queue], None, None, None));
      Apply(pair, State(before, before, Draining, None, acknowledged), DRAIN)
        == State(after, after, Broadcasting(queue, Root(pair, queue)), None, acknowledged)
  {
    assert queue[..|queue|] == queue && queue[|queue|..] == [];
  }

  lemma TurnStarts(pair: Pair, s: State)
    requires s.worker.Idle? && s.memory == s.disk && s.disk.store.pendingAnchor.None?
    ensures Possible(pair, s, [Load, Install, Look])
    ensures Run(pair, s, [Load, Install, Look]) == s.(worker := Draining)
  {
    RunStep(pair, s.(worker := Looking), Look, []);
    RunStep(pair, s.(worker := Loaded(s.disk)), Install, [Look] + []);
    RunStep(pair, s, Load, [Install] + ([Look] + []));
    assert [Load] + ([Install] + ([Look] + [])) == [Load, Install, Look];
  }

  /** Submitting the hash of two stored digests loses them: when the worker stopped before it published
      their batch, the batch that holds only their hash is stored in its place. */
  lemma HashOfAPairLosesThePair(pair: Pair, a: Digest, b: Digest) returns (events: seq<Event>)
    requires a != b && pair(a, b) != a && pair(a, b) != b
    ensures Possible(pair, START, events)
    ensures a in Run(pair, START, events).acknowledged && !Held(Run(pair, START, events).disk, a)
  {
    var root, turn := pair(a, b), [Load, Install, Look, DRAIN];
    var left := Snapshot([], Store(map[], map[root := [a, b]], None, None, None));
    var stopped := State(left, left, Broadcasting([a, b], root), None, {a, b});
    var restarted := State(left, left, Idle, None, {a, b});
    var both, one := Snapshot([a, b], EMPTY.store), Snapshot([a], EMPTY.store);

    // The second turn stores the batch that holds only the hash.
    TurnStores(pair, [root], left.store.batches, {a, b, root});
    var queued := Snapshot([root], left.store);
    assert Apply(pair, restarted, Submit(root, true)) == State(queued, queued, Idle, None, {a, b, root});
    RunStep(pair, restarted, Submit(root, true), turn);
    RunStep(pair, stopped, Restart, [Submit(root, true)] + turn);
    var second := [Restart] + ([Submit(root, true)] + turn);

    // The first turn stores the batch of the pair and stops.
    TurnStores(pair, [a, b], map[], {a, b});
    assert Next(pair, [a, b]) == [root];
    RunInTwo(pair, State(both, both, Idle, None, {a, b}), turn, second);
    assert [a] + [b] == [a, b];
    assert Apply(pair, State(one, one, Idle, None, {a}), Submit(b, true)) == State(both, both, Idle, None, {a, b});
    RunStep(pair, State(one, one, Idle, None, {a}), Submit(b, true), turn + second);
    assert Apply(pair, START, Submit(a, true)) == State(one, one, Idle, None, {a});
    RunStep(pair, START, Submit(a, true), [Submit(b, true)] + (turn + second));
    events := [Submit(a, true)] + ([Submit(b, true)] + (turn + second));
    assert left.store.batches[root := [root]] == map[root := [root]];
  }

  // ----- what a stale snapshot loses -----

  /** The state after the loaded snapshot is installed and another digest is submitted and saved. */
  function InstalledAndSaved(s: State, other: Digest): State
    requires s.worker.Loaded?
  {
    Submitted(s.(memory := s.worker.snapshot, worker := Looking), other, true)
  }

  /** After the next save a digest is on disk exactly if the installed snapshot held it, or it is the saved one. */
  lemma StaleInstallLosesExactly(s: State, other: Digest, digest: Digest)
    requires s.worker.Loaded? && other !in s.worker.snapshot.store.proofs
    ensures Held(InstalledAndSaved(s, other).disk, digest) <==> Held(s.worker.snapshot, digest) || digest == other
  {
    assert InstalledAndSaved(s, other).disk.queue == Enqueue(s.worker.snapshot.queue, other);
    assert digest in Enqueue(s.worker.snapshot.queue, other) <==> digest in s.worker.snapshot.queue || digest == other;
  }

  /** So a submission that is saved and acknowledged between reading a snapshot and installing it is lost with
      the next save. */
  lemma StaleInstallLoses(pair: Pair, a: Digest, b: Digest) returns (events: seq<Event>)
    requires a != b
    ensures Possible(pair, START, events) && forall e <- events :: e.Submit? || e.Load? || e.Install?
    ensures a in Run(pair, START, events).acknowledged && !Held(Run(pair, START, events).disk, a)
  {
    var one := Snapshot([a], EMPTY.store);
    var loaded := State(EMPTY, EMPTY, Loaded(EMPTY), None, {});
    var submitted := State(one, one, Loaded(EMPTY), None, {a});
    var installed := State(EMPTY, one, Looking, None, {a});
    StaleInstallLosesExactly(submitted, b, a);
    RunStep(pair, installed, Submit(b, true), []);
    RunStep(pair, submitted, Install, [Submit(b, true)] + []);
    assert Apply(pair, loaded, Submit(a, true)) == submitted;
    RunStep(pair, loaded, Submit(a, true), [Install] + ([Submit(b, true)] + []));
    RunStep(pair, START, Load, [Submit(a, true)] + ([Install] + ([Submit(b, true)] + [])));
    events := [Load] + ([Submit(a, true)] + ([Install] + ([Submit(b, true)] + [])));
  }

  // ----- asking for a proof -----

  datatype Upgrade = Confirmed(proof: Proof) | InBatch | InQueue | NotFound

  function UpgradeDigest(store: Store, queue: seq<Digest>, digest: Digest): Upgrade {
    if digest in store.proofs then Confirmed(store.proofs[digest])
    else if InBatches(store.batches, digest) then InBatch
    else if digest in queue then InQueue
    else NotFound
  }

  /** A held digest is reported as not found exactly while only the pending anchor holds it. */
  lemma NotFoundOnlyWhilePending(s: Snapshot, digest: Digest)
    ensures Held(s, digest) && UpgradeDigest(s.store, s.queue, digest).NotFound? <==>
      && s.store.pendingAnchor.Some? && digest in s.store.pendingAnchor.value.batch
      && digest !in s.queue && digest !in s.store.proofs && !InBatches(s.store.batches, digest)
  {
  }
}
