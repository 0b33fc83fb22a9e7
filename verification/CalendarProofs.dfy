/** What the calendar's events do, field by field, and where the proofs that it hands out come from. */
module CalendarProofs {
  import opened Options
  import opened Merkle
  import opened CalendarCustody

  // ----- what an event changes -----

  /** A submission goes to the end of the queue, unless it is queued or proved already. */
  lemma SubmitDoes(pair: Pair, s: State, digest: Digest, saved: bool)
    ensures var t := Apply(pair, s, Submit(digest, saved));
      && t.memory.store == s.memory.store && t.worker == s.worker && t.reading == s.reading
      && t.memory.queue
        == (if digest in s.memory.store.proofs || digest in s.memory.queue then s.memory.queue
            else s.memory.queue + [digest])
      && t.disk == (if saved && digest !in s.memory.store.proofs then t.memory else s.disk)
      && (digest in t.acknowledged <==> digest in s.acknowledged || saved || digest in s.memory.store.proofs)
      && forall d :: d != digest ==> (d in t.acknowledged <==> d in s.acknowledged)
  {
  }

  /** A confirmed anchor gives every digest of its batch the proof made for that digest, and no other digest one. */
  lemma FinalizeDoes(pair: Pair, s: State, height: nat, at: nat, proofOf: Digest -> Proof, saved: bool)
    requires s.worker.Waiting?
    ensures var (t, pending) := (Apply(pair, s, Finalize(height, at, proofOf, saved)), s.worker.pending);
      var (before, after) := (s.memory.store, t.memory.store);
      && (forall d :: d in after.proofs <==> d in before.proofs || d in pending.batch)
      && (forall d <- pending.batch :: after.proofs[d] == proofOf(d))
      && (forall d :: d in before.proofs && d !in pending.batch ==> after.proofs[d] == before.proofs[d])
      && after.pendingAnchor.None? && after.skippedReason.None? && after.batches == before.batches
      && after.lastAnchor.Some? && after.lastAnchor.value.height == height && after.lastAnchor.value.anchoredAt == at
      && after.lastAnchor.value.txid == pending.txid && after.lastAnchor.value.root == pending.root
      && t.memory.queue == s.memory.queue && t.disk == (if saved then t.memory else s.disk)
  {
    PutProofsGives(s.memory.store.proofs, s.worker.pending.batch, proofOf);
  }

  lemma {:induction false} PutProofsGives(proofs: map<Digest, Proof>, batch: seq<Digest>, proofOf: Digest -> Proof)
    ensures var after := PutProofs(proofs, batch, proofOf);
      && (forall d :: d in after <==> d in proofs || d in batch)
      && (forall d <- batch :: after[d] == proofOf(d))
      && (forall d :: d in proofs && d !in batch ==> after[d] == proofs[d])
    decreases |batch|
  {
    if batch != [] {
      PutProofsGives(proofs[batch[0] := proofOf(batch[0])], batch[1..], proofOf);
    }
  }

  /** A drained batch, its digests gone from the queue, is stored under its merkle root. */
  lemma DrainDoes(pair: Pair, s: State, priority: Option<seq<Digest>>, max: nat, saved: bool)
    returns (batch: seq<Digest>)
    requires NoDuplicates(s.memory.queue) && s.worker.Draining?
    ensures NoDuplicates(batch) && (forall d <- batch :: d in s.memory.queue)
    ensures |batch| == if |s.memory.queue| < max then |s.memory.queue| else max
    ensures s.memory.store.pendingAnchor.Some? || batch == [] ==>
      Apply(pair, s, Drain(priority, max, saved)) == s.(worker := Idle)
    ensures s.memory.store.pendingAnchor.None? && batch != [] ==>
      var t := Apply(pair, s, Drain(priority, max, saved));
      && t.memory.store == s.memory.store.(batches := s.memory.store.batches[Root(pair, batch) := batch])
      && (forall d :: d in t.memory.queue <==> d in s.memory.queue && d !in batch)
      && t.disk == (if saved then t.memory else s.disk)
      && t.worker == (if saved then Broadcasting(batch, Root(pair, batch)) else Idle)
  {
    batch := DrainAny(s.memory.queue, priority, max).batch;
    DrainAnySplits(s.memory.queue, priority, max);
  }

  /** A published batch becomes the pending anchor and is stored no more. */
  lemma PublishDoes(pair: Pair, s: State, txid: nat, at: nat, saved: bool)
    requires s.worker.Broadcasting?
    ensures var (t, worker) := (Apply(pair, s, Publish(txid, at, saved)), s.worker);
      var (before, after) := (s.memory.store, t.memory.store);
      && after.pendingAnchor.Some? && after.pendingAnchor.value.txid == txid
      && after.pendingAnchor.value.root == worker.root && after.pendingAnchor.value.batch == worker.batch
      && after.pendingAnchor.value.broadcastAt == at
      && (forall root :: root in after.batches <==> root in before.batches && root != worker.root)
      && (forall root :: root in after.batches ==> after.batches[root] == before.batches[root])
      && after.proofs == before.proofs && after.lastAnchor == before.lastAnchor
      && t.memory.queue == s.memory.queue && t.disk == (if saved then t.memory else s.disk)
  {
  }

  /** A batch that is put back goes to the end of the queue, its last digest first. */
  lemma {:induction false} RequeuedBehind(queue: seq<Digest>, batch: seq<Digest>, k: nat)
    requires NoDuplicates(batch) && (forall d <- batch :: d !in queue) && k < |batch|
    ensures var after := EnqueueReversed(queue, batch);
      |after| == |queue| + |batch| && queue <= after && after[|queue| + k] == batch[|batch| - 1 - k]
    decreases |batch|
  {
    var last, others := batch[|batch| - 1], batch[..|batch| - 1];
    assert forall d <- others :: d != last;
    if others == [] {
      assert EnqueueReversed(queue + [last], others) == queue + [last];
    } else {
      RequeuedBehind(queue + [last], others, if k == 0 then 0 else k - 1);
    }
  }

  lemma {:induction false} RequeueingKeeps(queue: seq<Digest>, batch: seq<Digest>)
    ensures var after := EnqueueReversed(queue, batch);
      queue <= after && forall d :: d in after <==> d in queue || d in batch
    decreases |batch|
  {
    if batch != [] {
      var last, others := batch[|batch| - 1], batch[..|batch| - 1];
      assert batch == others + [last];
      RequeueingKeeps(Enqueue(queue, last), others);
    }
  }

  /** An anchor that is given up leaves its digests behind the queue and nothing pending. */
  lemma RestorePendingDoes(pair: Pair, s: State, saved: bool)
    requires s.worker.Waiting?
    ensures var t := Apply(pair, s, RestorePending(saved));
      && t.memory.store == s.memory.store.(pendingAnchor := None) && s.memory.queue <= t.memory.queue
      && (forall d :: d in t.memory.queue <==> d in s.memory.queue || d in s.worker.pending.batch)
      && t.disk == (if saved then t.memory else s.disk) && t.worker == (if saved then Draining else Idle)
  {
    RequeueingKeeps(s.memory.queue, s.worker.pending.batch);
  }

  /** A batch that cannot be broadcast goes behind the queue and is stored no more. */
  lemma RestoreDrainedDoes(pair: Pair, s: State, saved: bool)
    requires s.worker.Broadcasting?
    ensures var t := Apply(pair, s, RestoreDrained(saved));
      && t.memory.store == s.memory.store.(batches := s.memory.store.batches - {s.worker.root})
      && s.memory.queue <= t.memory.queue
      && (forall d :: d in t.memory.queue <==> d in s.memory.queue || d in s.worker.batch)
      && t.disk == (if saved then t.memory else s.disk) && t.worker == Idle
  {
    RequeueingKeeps(s.memory.queue, s.worker.batch);
  }

  // ----- earlier digests leave first -----

  ghost predicate Before(queue: seq<Digest>, x: Digest, y: Digest) {
    exists i, j :: 0 <= i < j < |queue| && queue[i] == x && queue[j] == y
  }

  ghost predicate InOrder(rest: seq<Digest>, queue: seq<Digest>) {
    forall a, b :: 0 <= a < b < |rest| ==> Before(queue, rest[a], rest[b])
  }

  lemma RemovedInOrder(rest: seq<Digest>, queue: seq<Digest>, digest: Digest)
    requires InOrder(rest, queue) && digest in rest
    ensures InOrder(Removed(rest, digest), queue)
  {
    var at, removed := Position(rest, digest), Removed(rest, digest);
    forall a, b | 0 <= a < b < |removed|
      ensures Before(queue, removed[a], removed[b])
    {
      assert removed[a] == rest[if a < at then a else a + 1];
      assert removed[b] == rest[if b < at then b else b + 1];
    }
  }

  lemma {:induction false} PreferInOrder(priority: seq<Digest>, queue: seq<Digest>, d: Drained, max: nat)
    requires InOrder(d.rest, queue)
    ensures InOrder(Prefer(priority, d, max).rest, queue)
    decreases |priority|
  {
    if priority != [] && |d.batch| < max {
      if priority[0] in d.rest {
        RemovedInOrder(d.rest, queue, priority[0]);
        PreferInOrder(priority[1..], queue, Drained(d.batch + [priority[0]], Removed(d.rest, priority[0])), max);
      } else {
        PreferInOrder(priority[1..], queue, d, max);
      }
    }
  }

  lemma OrderIsKept(rest: seq<Digest>, queue: seq<Digest>, a: nat, b: nat, i: nat, j: nat)
    requires InOrder(rest, queue) && NoDuplicates(queue) && a < |rest| && b < |rest| && i < j < |queue|
    requires rest[a] == queue[i] && rest[b] == queue[j]
    ensures a < b
  {
    assert rest[a] != rest[b];
  }

  /** Without preferences the batch is the front of the queue. */
  lemma FrontLeaves(queue: seq<Digest>, max: nat)
    ensures var d := DrainAny(queue, None, max);
      d.batch + d.rest == queue && |d.batch| == if |queue| < max then |queue| else max
  {
  }

  /** A digest that is not preferred leaves the queue only with everything queued before it. */
  lemma EarlierLeavesFirst(queue: seq<Digest>, priority: seq<Digest>, max: nat, i: nat, j: nat)
    requires NoDuplicates(queue) && i < j < |queue|
    requires queue[j] !in priority && queue[j] in DrainPrioritized(queue, priority, max).batch
    ensures queue[i] in DrainPrioritized(queue, priority, max).batch
  {
    var start := Drained([], queue);
    var p := Prefer(priority, start, max);
    PreferSplits(priority, queue, start, max);
    PreferInOrder(priority, queue, start, max);
    var more := DrainFront(p.rest, max - |p.batch|);
    if queue[i] !in p.batch {
      var a :| 0 <= a < |p.rest| && p.rest[a] == queue[i];
      var b :| 0 <= b < |more.batch| && more.batch[b] == queue[j];
      OrderIsKept(p.rest, queue, a, b, i, j);
      assert more.batch[a] == queue[i];
    }
  }

  lemma {:induction false} PreferredInOrder(priority: seq<Digest>, d: Drained, max: nat) returns (more: seq<Digest>)
    ensures Prefer(priority, d, max).batch == d.batch + more
    ensures InOrder(more, priority) && forall x <- more :: x in priority
    decreases |priority|
  {
    more := [];
    if priority != [] && |d.batch| < max {
      var first, others := priority[0], priority[1..];
      if first in d.rest {
        var later := PreferredInOrder(others, Drained(d.batch + [first], Removed(d.rest, first)), max);
        more := [first] + later;
        OrderShifts(later, priority);
      } else {
        more := PreferredInOrder(others, d, max);
        OrderShifts(more, priority);
      }
    }
  }

  lemma OrderShifts(later: seq<Digest>, priority: seq<Digest>)
    requires priority != [] && InOrder(later, priority[1..]) && forall x <- later :: x in priority[1..]
    ensures InOrder(later, priority) && InOrder([priority[0]] + later, priority)
    ensures forall x <- [priority[0]] + later :: x in priority
  {
    var others, all := priority[1..], [priority[0]] + later;
    forall a, b | 0 <= a < b < |all|
      ensures Before(priority, all[a], all[b])
    {
      if a > 0 {
        assert Before(others, later[a - 1], later[b - 1]);
        var i, j :| 0 <= i < j < |others| && others[i] == all[a] && others[j] == all[b];
        assert priority[i + 1] == all[a] && priority[j + 1] == all[b];
      } else {
        assert all[b] == later[b - 1] && all[b] in others;
        var j :| 0 <= j < |others| && others[j] == all[b];
        assert priority[j + 1] == all[b];
      }
    }
    forall a, b | 0 <= a < b < |later|
      ensures Before(priority, later[a], later[b])
    {
      assert Before(priority, all[a + 1], all[b + 1]);
    }
  }

  /** A batch holds its preferred digests in the order of preference, and behind them others in the queue's order. */
  lemma BatchIsInOrder(queue: seq<Digest>, priority: seq<Digest>, max: nat) returns (k: nat)
    requires NoDuplicates(queue)
    ensures var batch := DrainPrioritized(queue, priority, max).batch;
      && k <= |batch| && InOrder(batch[..k], priority) && InOrder(batch[k..], queue)
      && (forall x <- batch[..k] :: x in priority) && (forall x <- batch[k..] :: x !in priority)
  {
    var start := Drained([], queue);
    var p := Prefer(priority, start, max);
    PreferSplits(priority, queue, start, max);
    PreferInOrder(priority, queue, start, max);
    var preferred := PreferredInOrder(priority, start, max);
    var others := DrainFront(p.rest, max - |p.batch|).batch;
    k := |p.batch|;
    assert p.batch == preferred && others <= p.rest;
    assert DrainPrioritized(queue, priority, max).batch == p.batch + others;
  }

  // ----- where proofs come from -----

  /** The proofs that the finalisations of a run make, each with the digest it is made for. */
  ghost function Made(pair: Pair, s: State, events: seq<Event>): set<(Digest, Proof)>
    requires Possible(pair, s, events)
    decreases |events|
  {
    if events == [] then {}
    else
      (if events[0].Finalize? then set d | d in s.worker.pending.batch :: (d, events[0].proofs(d)) else {})
        + Made(pair, Apply(pair, s, events[0]), events[1..])
  }

  ghost predicate AllMade(store: Store, made: set<(Digest, Proof)>) {
    forall d :: d in store.proofs ==> (d, store.proofs[d]) in made
  }

  /** Every copy of the store holds only such proofs. */
  ghost predicate Genuine(s: State, made: set<(Digest, Proof)>) {
    && AllMade(s.memory.store, made) && AllMade(s.disk.store, made)
    && (s.reading.Some? ==> AllMade(s.reading.value.store, made))
    && (s.worker.Loaded? ==> AllMade(s.worker.snapshot.store, made))
  }

  lemma StepIsGenuine(pair: Pair, s: State, e: Event, made: set<(Digest, Proof)>)
    requires Genuine(s, made) && Enabled(s, e)
    ensures var more := if e.Finalize? then set d | d in s.worker.pending.batch :: (d, e.proofs(d)) else {};
      Genuine(Apply(pair, s, e), made + more)
  {
    if e.Finalize? {
      PutProofsGives(s.memory.store.proofs, s.worker.pending.batch, e.proofs);
    }
  }

  lemma {:induction false} RunIsGenuine(pair: Pair, s: State, events: seq<Event>, made: set<(Digest, Proof)>)
    requires Genuine(s, made) && Possible(pair, s, events)
    ensures Genuine(Run(pair, s, events), made + Made(pair, s, events))
    decreases |events|
  {
    if events == [] {
      assert made + Made(pair, s, events) == made;
    } else {
      var e := events[0];
      var more := if e.Finalize? then set d | d in s.worker.pending.batch :: (d, e.proofs(d)) else {};
      StepIsGenuine(pair, s, e, made);
      RunIsGenuine(pair, Apply(pair, s, e), events[1..], made + more);
      assert made + Made(pair, s, events) == made + more + Made(pair, Apply(pair, s, e), events[1..]);
    }
  }

  /** Whoever asks for a digest's proof gets one that some finalisation made for this very digest. */
  lemma AnsweredProofIsItsOwn(pair: Pair, events: seq<Event>, digest: Digest)
    requires Possible(pair, START, events)
    requires var memory := Run(pair, START, events).memory;
      UpgradeDigest(memory.store, memory.queue, digest).Confirmed?
    ensures var memory := Run(pair, START, events).memory;
      (digest, UpgradeDigest(memory.store, memory.queue, digest).proof) in Made(pair, START, events)
  {
    RunIsGenuine(pair, START, events, {});
    assert {} + Made(pair, START, events) == Made(pair, START, events);
  }

  /** The answer to a request, by where the digest is. */
  lemma AnswerExactly(s: Snapshot, digest: Digest)
    ensures var answer := UpgradeDigest(s.store, s.queue, digest);
      && (digest in s.store.proofs <==> answer.Confirmed?)
      && (answer.Confirmed? ==> answer.proof == s.store.proofs[digest])
      && (answer.InBatch? <==>
        && digest !in s.store.proofs
        && exists root :: root in s.store.batches && digest in s.store.batches[root])
      && (answer.InQueue? <==>
        && digest !in s.store.proofs && digest in s.queue
        && forall root :: root in s.store.batches ==> digest !in s.store.batches[root])
  {
  }
}
