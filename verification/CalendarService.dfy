/** The calendar's objects and methods, each proved to be an event of CalendarCustody.dfy.

Whether a save succeeds, and what Bitcoin answers, are parameters.
*/
module CalendarService {
  import opened Options
  import opened Merkle
  import opened CalendarCustody

  /** What the outside world answers during one turn of the anchor worker. */
  datatype Lookup = NotConfirmed | LookupFailed | Confirmation(height: nat, at: nat, proofs: Option<Digest -> Proof>)

  /** How the checks before a new anchor end: go on, stop here, or record a reason and stop. */
  datatype Preflight = Proceed | Stop | SkipBecause(reason: nat)

  datatype Turn = Turn(
    loaded: bool, lookup: Lookup, timedOut: bool, preflight: Preflight,
    priority: Option<seq<Digest>>, max: nat, broadcast: Option<nat>, at: nat,
    firstSave: bool, secondSave: bool, thirdSave: bool)

  class Calendar {
    const pair: Pair
    var queue: seq<Digest>
    var store: Store
    var disk: Snapshot
    ghost var worker: Worker
    ghost var reading: Option<Snapshot>
    ghost var acknowledged: set<Digest>

    constructor (pair: Pair, disk: Snapshot)
      ensures this.pair == pair && Now() == State(disk, disk, Idle, None, {})
    {
      this.pair := pair;
      this.queue, this.store, this.disk := disk.queue, disk.store, disk;
      this.worker, this.reading, this.acknowledged := Idle, None, {};
    }

    ghost function Now(): State
      reads this
    {
      State(Snapshot(queue, store), disk, worker, reading, acknowledged)
    }

    // ----- the queue -----

    method Enqueue(digest: Digest) returns (added: bool)
      modifies this`queue
      ensures queue == CalendarCustody.Enqueue(old(queue), digest)
      ensures added <==> digest !in old(queue)
    {
      if digest in queue {
        return false;
      }
      queue := queue + [digest];
      return true;
    }

    method EnqueueAllReversed(batch: seq<Digest>)
      modifies this`queue
      ensures queue == EnqueueReversed(old(queue), batch)
    {
      var left := batch;
      while left != []
        invariant EnqueueReversed(queue, left) == EnqueueReversed(old(queue), batch)
        decreases |left|
      {
        var _ := Enqueue(left[|left| - 1]);
        left := left[..|left| - 1];
      }
    }

    method DrainBatch(max: nat) returns (batch: seq<Digest>)
      modifies this`queue
      ensures Drained(batch, queue) == DrainFront(old(queue), max)
    {
      var n := if |queue| < max then |queue| else max;
      batch := queue[..n];
      queue := queue[n..];
    }

    method FindPosition(digest: Digest) returns (index: Option<nat>)
      ensures index == if digest in queue then Some(Position(queue, digest)) else None
    {
      var passed, left := 0, queue;
      while left != []
        invariant 0 <= passed
        invariant digest in left <==> digest in queue
        invariant digest in queue ==> passed + Position(left, digest) == Position(queue, digest)
        decreases |left|
      {
        if left[0] == digest {
          return Some(passed);
        }
        passed, left := passed + 1, left[1..];
      }
      return None;
    }

    method DrainBatchPrioritized(priority: seq<Digest>, max: nat) returns (batch: seq<Digest>)
      modifies this`queue
      ensures Drained(batch, queue) == DrainPrioritized(old(queue), priority, max)
    {
      batch := [];
      var left := priority;
      while left != []
        invariant Prefer(left, Drained(batch, queue), max) == Prefer(priority, Drained([], old(queue)), max)
        decreases |left|
      {
        if |batch| >= max {
          break;
        }
        var index := FindPosition(left[0]);
        if index.Some? {
          batch := batch + [queue[index.value]];
          queue := queue[..index.value] + queue[index.value + 1..];
        }
        left := left[1..];
      }
      var more := DrainBatch(if max < |batch| then 0 else max - |batch|);
      batch := batch + more;
    }

    /** Writes queue and store as one snapshot. */
    method SaveState(saved: bool)
      modifies this`disk
      ensures disk == if saved then Snapshot(queue, store) else old(disk)
    {
      if saved {
        disk := Snapshot(queue, store);
      }
    }

    // ----- requests -----

    method SubmitDigest(digest: Digest, saved: bool) returns (accepted: bool)
      modifies this
      ensures Now() == Apply(pair, old(Now()), Submit(digest, saved))
      ensures accepted <==> saved || digest in old(store.proofs)
    {
      if digest in store.proofs {
        acknowledged := acknowledged + {digest};
        return true;
      }
      var _ := Enqueue(digest);
      SaveState(saved);
      if saved {
        acknowledged := acknowledged + {digest};
      }
      return saved;
    }

    /** Reads the snapshot; no lock is held. */
    method BeginReload() returns (snapshot: Snapshot)
      requires reading.None?
      modifies this`reading
      ensures Now() == Apply(pair, old(Now()), ServiceLoad) && reading == Some(snapshot)
    {
      snapshot := disk;
      reading := Some(snapshot);
    }

    /** Installs it, whatever has been saved since. */
    method EndReload(snapshot: Snapshot)
      requires reading == Some(snapshot)
      modifies this
      ensures Now() == Apply(pair, old(Now()), ServiceInstall)
    {
      queue, store := snapshot.queue, snapshot.store;
      reading := None;
    }

    /** Both, with nothing in between. */
    method ReloadFromDisk()
      requires reading.None?
      modifies this
      ensures Now() == Apply(pair, Apply(pair, old(Now()), ServiceLoad), ServiceInstall)
    {
      var snapshot := BeginReload();
      EndReload(snapshot);
    }

    method RestartFromDisk()
      modifies this
      ensures Now() == Apply(pair, old(Now()), Restart)
    {
      queue, store := disk.queue, disk.store;
      worker, reading := Idle, None;
    }

    method UpgradeDigest(digest: Digest) returns (upgrade: Upgrade)
      ensures upgrade == CalendarCustody.UpgradeDigest(store, queue, digest)
    {
      if digest in store.proofs {
        return Confirmed(store.proofs[digest]);
      }
      var left := store.batches;
      while left != map[]
        invariant InBatches(left, digest) <==> InBatches(store.batches, digest)
        decreases |left|
      {
        var root :| root in left;
        BatchesWithout(left, root, digest);
        if digest in left[root] {
          return InBatch;
        }
        assert root in left.Keys;
        left := left - {root};
      }
      return if digest in queue then InQueue else NotFound;
    }

    // ----- the worker -----

    method RestorePendingBatch(pending: PendingAnchor, saved: bool)
      requires worker == Waiting(pending)
      modifies this
      ensures Now() == Apply(pair, old(Now()), RestorePending(saved))
    {
      EnqueueAllReversed(pending.batch);
      store := store.(pendingAnchor := None);
      SaveState(saved);
      worker := if saved then Draining else Idle;
    }

    method RestoreDrainedBatch(batch: seq<Digest>, root: Digest, saved: bool)
      requires worker == Broadcasting(batch, root)
      modifies this
      ensures Now() == Apply(pair, old(Now()), RestoreDrained(saved))
    {
      EnqueueAllReversed(batch);
      store := store.(batches := store.batches - {root});
      SaveState(saved);
      worker := Idle;
    }

    method FinalizeAnchor(pending: PendingAnchor, height: nat, at: nat, proofs: Digest -> Proof, saved: bool)
      requires worker == Waiting(pending)
      modifies this
      ensures Now() == Apply(pair, old(Now()), Finalize(height, at, proofs, saved))
    {
      var left := pending.batch;
      ghost var target := PutProofs(store.proofs, pending.batch, proofs);
      while left != []
        invariant queue == old(queue) && disk == old(disk) && worker == old(worker)
        invariant reading == old(reading) && acknowledged == old(acknowledged)
        invariant store == old(store).(proofs := store.proofs)
        invariant PutProofs(store.proofs, left, proofs) == target
        decreases |left|
      {
        store := store.(proofs := store.proofs[left[0] := proofs(left[0])]);
        left := left[1..];
      }
      store := store.(
        lastAnchor := Some(AnchorRecord(height, pending.txid, pending.root, at)),
        skippedReason := None,
        pendingAnchor := None);
      SaveState(saved);
      worker := Idle;
    }

    method RecordAnchorSkipped(reason: nat, saved: bool)
      requires worker == Draining
      modifies this
      ensures Now() == Apply(pair, old(Now()), Skip(reason, saved))
    {
      store := store.(skippedReason := Some(reason));
      SaveState(saved);
      worker := Idle;
    }

    method DrainSome(priority: Option<seq<Digest>>, max: nat) returns (batch: seq<Digest>)
      modifies this`queue
      ensures Drained(batch, queue) == DrainAny(old(queue), priority, max)
      ensures batch == [] ==> queue == old(queue)
    {
      if priority.Some? {
        batch := DrainBatchPrioritized(priority.value, max);
      } else {
        batch := DrainBatch(max);
      }
      if batch == [] {
        DrainedNothing(old(queue), priority, max);
      }
    }

    /** Drains a batch and stores it under its root, unless an anchor is pending or nothing is queued. */
    method StoreBatch(priority: Option<seq<Digest>>, max: nat, saved: bool)
      returns (stored: Option<(seq<Digest>, Digest)>)
      requires worker == Draining
      modifies this
      ensures Now() == Apply(pair, old(Now()), Drain(priority, max, saved))
      ensures stored.Some? <==> worker.Broadcasting?
      ensures stored.Some? ==> worker == Broadcasting(stored.value.0, stored.value.1)
      ensures stored.None? ==> worker == Idle
    {
      worker := Idle;
      if store.pendingAnchor.Some? || queue == [] {
        return None;
      }
      var batch := DrainSome(priority, max);
      if batch == [] {
        return None;
      }
      var root := OtsMerkleRoot(pair, batch);
      store := store.(batches := store.batches[root.value := batch]);
      SaveState(saved);
      if !saved {
        return None;
      }
      worker := Broadcasting(batch, root.value);
      return Some((batch, root.value));
    }

    lemma DrainedNothing(queue: seq<Digest>, priority: Option<seq<Digest>>, max: nat)
      requires DrainAny(queue, priority, max).batch == []
      ensures DrainAny(queue, priority, max).rest == queue
    {
      if priority.Some? {
        PreferGrows(priority.value, Drained([], queue), max);
      }
    }

    lemma {:induction false} PreferGrows(priority: seq<Digest>, d: Drained, max: nat)
      ensures |Prefer(priority, d, max).batch| >= |d.batch|
      ensures |Prefer(priority, d, max).batch| == |d.batch| ==> Prefer(priority, d, max) == d
      decreases |priority|
    {
      if priority != [] && |d.batch| < max {
        if priority[0] in d.rest {
          PreferGrows(priority[1..], Drained(d.batch + [priority[0]], Removed(d.rest, priority[0])), max);
        } else {
          PreferGrows(priority[1..], d, max);
        }
      }
    }

    method PublishAnchor(batch: seq<Digest>, root: Digest, txid: nat, at: nat, saved: bool)
      requires worker == Broadcasting(batch, root)
      modifies this
      ensures Now() == Apply(pair, old(Now()), Publish(txid, at, saved))
    {
      store := store.(
        pendingAnchor := Some(PendingAnchor(txid, root, batch, at)),
        batches := store.batches - {root});
      SaveState(saved);
      worker := Idle;
    }

    /** The worker reads the snapshot; no lock is held. */
    method LoadState() returns (snapshot: Snapshot)
      requires worker == Idle
      modifies this`worker
      ensures Now() == Apply(pair, old(Now()), Load) && worker == Loaded(snapshot)
    {
      snapshot := disk;
      worker := Loaded(snapshot);
    }

    /** The worker installs it, whatever has been saved since. */
    method InstallState(snapshot: Snapshot)
      requires worker == Loaded(snapshot)
      modifies this
      ensures Now() == Apply(pair, old(Now()), Install)
    {
      queue, store := snapshot.queue, snapshot.store;
      worker := Looking;
    }

    /** One turn of the worker with nothing in between: a run of the machine, from idle to idle. */
    method AnchorOnce(turn: Turn) returns (ghost events: seq<Event>)
      requires worker == Idle
      modifies this
      ensures worker == Idle
      ensures Possible(pair, old(Now()), events) && Now() == Run(pair, old(Now()), events)
    {
      events := [];
      if !turn.loaded {
        return;
      }
      ghost var start := Now();
      var snapshot := LoadState();
      events := Then(start, [], Load, Now());
      InstallState(snapshot);
      events := Then(start, events, Install, Now());
      worker := if store.pendingAnchor.Some? then Waiting(store.pendingAnchor.value) else Draining;
      events := Then(start, events, Look, Now());
      var free := store.pendingAnchor.None?;
      if store.pendingAnchor.Some? {
        free, events := AnchorPending(turn, store.pendingAnchor.value, start, events);
      }
      if free {
        events := AnchorNext(turn, start, events);
      }
    }

    /** The run so far, extended by one event. */
    lemma Then(start: State, events: seq<Event>, e: Event, next: State) returns (longer: seq<Event>)
      requires Possible(pair, start, events) && Enabled(Run(pair, start, events), e)
      requires next == Apply(pair, Run(pair, start, events), e)
      ensures Possible(pair, start, longer) && Run(pair, start, longer) == next
    {
      longer := events + [e];
      RunStep(pair, Run(pair, start, events), e, []);
      assert [e] + [] == [e];
      RunInTwo(pair, start, events, [e]);
    }

    /** The part of a turn that deals with a pending anchor. */
    method AnchorPending(turn: Turn, pending: PendingAnchor, ghost start: State, ghost before: seq<Event>)
      returns (free: bool, ghost events: seq<Event>)
      requires worker == Waiting(pending)
      requires Possible(pair, start, before) && Now() == Run(pair, start, before)
      modifies this
      ensures worker == if free then Draining else Idle
      ensures Possible(pair, start, events) && Now() == Run(pair, start, events)
    {
      free := false;
      if turn.lookup.Confirmation? && turn.lookup.proofs.Some? {
        FinalizeAnchor(pending, turn.lookup.height, turn.lookup.at, turn.lookup.proofs.value, turn.firstSave);
        events := Then(start, before,
          Finalize(turn.lookup.height, turn.lookup.at, turn.lookup.proofs.value, turn.firstSave), Now());
      } else if turn.lookup.NotConfirmed? && turn.timedOut {
        RestorePendingBatch(pending, turn.firstSave);
        free := turn.firstSave;
        events := Then(start, before, RestorePending(turn.firstSave), Now());
      } else {
        worker := Idle;
        events := Then(start, before, GiveUp, Now());
      }
    }

    /** The part of a turn that makes a new anchor. */
    method AnchorNext(turn: Turn, ghost start: State, ghost before: seq<Event>) returns (ghost events: seq<Event>)
      requires worker == Draining
      requires Possible(pair, start, before) && Now() == Run(pair, start, before)
      modifies this
      ensures worker == Idle
      ensures Possible(pair, start, events) && Now() == Run(pair, start, events)
    {
      match turn.preflight {
        case Stop =>
          worker := Idle;
          events := Then(start, before, GiveUp, Now());
        case SkipBecause(reason) =>
          RecordAnchorSkipped(reason, turn.secondSave);
          events := Then(start, before, Skip(reason, turn.secondSave), Now());
        case Proceed =>
          var stored := StoreBatch(turn.priority, turn.max, turn.secondSave);
          events := Then(start, before, Drain(turn.priority, turn.max, turn.secondSave), Now());
          if stored.Some? {
            var (batch, root) := stored.value;
            if turn.broadcast.None? {
              RestoreDrainedBatch(batch, root, turn.thirdSave);
              events := Then(start, events, RestoreDrained(turn.thirdSave), Now());
            } else {
              PublishAnchor(batch, root, turn.broadcast.value, turn.at, turn.thirdSave);
              events := Then(start, events, Publish(turn.broadcast.value, turn.at, turn.thirdSave), Now());
            }
          }
      }
    }
  }
}
