/** The operations on the commitment stores, in the order in which they write. */
module CommitStore {
  import opened Options
  import opened CommitProtocol

  /** Which writes succeed. */
  datatype Writes = Writes(staged: bool, committed: bool, appended: bool, published: bool, queued: bool)

  class Commitments {
    const keyOf: Proof -> Option<Key>
    const heightOf: Proof -> Option<nat>
    const binds: (Proof, Root) -> bool
    var tables: Tables
    var log: seq<Record>
    var published: map<Root, Proof>

    ghost predicate Valid()
      reads this
    {
      Consistent(keyOf, tables, published) && OneV2Each(log)
    }

    constructor (keyOf: Proof -> Option<Key>, heightOf: Proof -> Option<nat>, binds: (Proof, Root) -> bool)
      ensures this.keyOf == keyOf && this.heightOf == heightOf && this.binds == binds
      ensures Valid() && tables == Tables(map[], map[]) && log == [] && published == map[]
    {
      this.keyOf, this.heightOf, this.binds := keyOf, heightOf, binds;
      this.tables, this.log, this.published := Tables(map[], map[]), [], map[];
    }

    /** Registers a new commitment. */
    method AddCommitment(root: Root, path: nat, createdAt: nat) returns (added: bool)
      requires Valid()
      modifies this`tables
      ensures Valid() && (added <==> root !in old(tables).metas)
      ensures tables == if added
        then Tables(old(tables).metas[root := Meta(path, createdAt, false, None, None)], old(tables).order)
        else old(tables)
    {
      added := root !in tables.metas;
      if added {
        tables := tables.(metas := tables.metas[root := Meta(path, createdAt, false, None, None)]);
      }
    }

    method LogHasRoot(root: Root) returns (found: bool)
      ensures found <==> HasRoot(log, root)
    {
      for i := 0 to |log|
        invariant !HasRoot(log[..i], root)
      {
        if log[i].root == root {
          return true;
        }
      }
      assert log[..|log|] == log;
      return false;
    }

    method LogHasV2(root: Root) returns (found: bool)
      ensures found <==> HasV2(log, root)
    {
      for i := 0 to |log|
        invariant !HasV2(log[..i], root)
      {
        if log[i].V2? && log[i].root == root {
          return true;
        }
      }
      assert log[..|log|] == log;
      return false;
    }

    // ----- timestamping -----

    /** The metadata after timestamping. */
    function Stamped(meta: Meta, key: Key, now: nat): Meta {
      meta.(hasProof := true, orderKey := Some(key), timestampedAt := Some(now))
    }

    predicate Repairs(root: Root, force: bool)
      reads this
    {
      root in tables.metas && IsTimestamped(tables.metas[root]) && !force && !HasRoot(log, root)
    }

    /** What ends a timestamp request before it writes. */
    function Obstacle(root: Root, force: bool, answer: Option<Proof>, staged: bool): Option<Failure>
      reads this
    {
      if root !in tables.metas then Some(UnknownRoot)
      else if IsTimestamped(tables.metas[root]) && !force then Some(AlreadyTimestamped)
      else if answer.None? then Some(CalendarFailed)
      else if keyOf(answer.value).None? then Some(NoOrderKey)
      else if !staged then Some(StagingFailed)
      else None
    }

    method TimestampCommitment(root: Root, force: bool, answer: Option<Proof>, now: nat, w: Writes)
      returns (result: Result<Key, Failure>)
      requires Valid()
      modifies this
      // A retry after the log entry was missed only repairs the log.
      ensures old(Repairs(root, force)) ==>
        && tables == old(tables) && published == old(published)
        && result == (if w.appended then Ok(old(tables).metas[root].orderKey.value) else Err(AppendFailed))
        && log == if w.appended then old(log) + [Repair(root, old(tables).metas[root])] else old(log)
      ensures !old(Repairs(root, force)) && old(Obstacle(root, force, answer, w.staged)).Some? ==>
        && result == Err(old(Obstacle(root, force, answer, w.staged)).value)
        && tables == old(tables) && published == old(published) && log == old(log)
      ensures !old(Repairs(root, force)) && old(Obstacle(root, force, answer, w.staged)).None? ==>
        Timestamped(old(tables), old(log), old(published), root, answer.value, now, w, result, tables, log, published)
      // The same, field by field.
      ensures root !in old(tables).metas <==> result == Err(UnknownRoot)
      ensures root in old(tables).metas ==>
        var meta := old(tables).metas[root];
        var done := meta.hasProof && meta.orderKey.Some? && !force;
        && (result == Err(AlreadyTimestamped) <==> done && HasRoot(old(log), root))
        && (done && !HasRoot(old(log), root) && result.Ok? ==>
          |log| == |old(log)| + 1 && Stamps(log[|old(log)|], root, meta.orderKey.value, meta))
        && (result == Err(CalendarFailed) <==> !done && answer.None?)
        && (!done && answer.Some? ==>
          && (result == Err(NoOrderKey) <==> keyOf(answer.value).None?)
          && (result.Ok? ==> IsStamped(root, meta, keyOf(answer.value), answer.value, now, |old(log)|)))
      ensures old(Repairs(root, force)) || old(Obstacle(root, force, answer, w.staged)).Some? ==> Valid()
      ensures !old(Repairs(root, force)) && old(Obstacle(root, force, answer, w.staged)).None? ==>
        (Valid() <==> !Taken(old(tables), keyOf(answer.value).value, root))
    {
      if root !in tables.metas {
        return Err(UnknownRoot);
      }
      var meta := tables.metas[root];
      if IsTimestamped(meta) && !force {
        var logged := LogHasRoot(root);
        if logged {
          return Err(AlreadyTimestamped);
        }
        result := RepairFromMeta(root, meta, w.appended);
        return;
      }
      if answer.None? {
        return Err(CalendarFailed);
      }
      var key := keyOf(answer.value);
      if key.None? {
        return Err(NoOrderKey);
      }
      if !w.staged {
        return Err(StagingFailed);
      }
      result := WriteTimestamp(root, meta, answer.value, key.value, now, w);
    }

    /** Metadata, order table, proof and log all say that the commitment was timestamped now with this proof. */
    ghost predicate IsStamped(root: Root, before: Meta, key: Option<Key>, proof: Proof, now: nat, logged: nat)
      reads this
    {
      && key.Some? && root in tables.metas && root in published && published[root] == proof
      && tables.metas[root].hasProof && tables.metas[root].orderKey == key
      && tables.metas[root].timestampedAt == Some(now)
      && tables.metas[root].path == before.path && tables.metas[root].createdAt == before.createdAt
      && key.value in tables.order && tables.order[key.value] == root
      && |log| == logged + 1 && Stamps(log[logged], root, key.value, tables.metas[root])
    }

    function Repair(root: Root, meta: Meta): Record
      requires meta.orderKey.Some?
    {
      V1(root, meta.orderKey.value, LoggedAt(meta), meta.path)
    }

    method RepairFromMeta(root: Root, meta: Meta, appended: bool) returns (result: Result<Key, Failure>)
      requires OneV2Each(log) && meta.orderKey.Some?
      modifies this`log
      ensures OneV2Each(log)
      ensures result == if appended then Ok(meta.orderKey.value) else Err(AppendFailed)
      ensures log == if appended then old(log) + [Repair(root, meta)] else old(log)
    {
      if !appended {
        return Err(AppendFailed);
      }
      AppendKeepsOne(log, Repair(root, meta));
      log := log + [Repair(root, meta)];
      return Ok(meta.orderKey.value);
    }

    /** How the writes of a timestamp end.  Only a taken key leaves a trace of a failure in the tables. */
    ghost predicate Timestamped(
      tables0: Tables, log0: seq<Record>, published0: map<Root, Proof>, root: Root, proof: Proof, now: nat, w: Writes,
      result: Result<Key, Failure>, tables1: Tables, log1: seq<Record>, published1: map<Root, Proof>)
      requires root in tables0.metas && keyOf(proof).Some?
    {
      var key := keyOf(proof).value;
      var updated := Stamped(tables0.metas[root], key, now);
      var committed := CommitKey(tables0, root, tables0.metas[root].orderKey, updated, key);
      var longer := log0 + [V1(root, key, now, updated.path)];
      if Taken(tables0, key, root) then
        && result == Err(KeyTaken) && tables1 == Tables(tables0.metas, tables0.order - {key})
        && log1 == log0 && published1 == published0
      else if !w.committed then
        result == Err(CommitFailed) && tables1 == tables0 && log1 == log0 && published1 == published0
      else if !w.appended then
        result == Err(AppendFailed) && tables1 == tables0 && log1 == log0 && published1 == published0
      else if !w.published then
        result == Err(PublishFailed) && tables1 == tables0 && log1 == longer && published1 == published0
      else
        result == Ok(key) && committed == Some(tables1) && log1 == longer && published1 == published0[root := proof]
    }

    method WriteTimestamp(root: Root, meta: Meta, proof: Proof, key: Key, now: nat, w: Writes)
      returns (result: Result<Key, Failure>)
      requires Valid() && root in tables.metas && meta == tables.metas[root] && keyOf(proof) == Some(key)
      modifies this
      ensures Timestamped(old(tables), old(log), old(published), root, proof, now, w, result, tables, log, published)
      ensures Valid() <==> !Taken(old(tables), key, root)
    {
      ghost var tables0 := tables;
      var updated := Stamped(meta, key, now);
      CommitRefusedExactlyIfTaken(keyOf, tables, published, root, updated, key);
      var committed := CommitKey(tables, root, meta.orderKey, updated, key);
      if committed.None? || !w.committed {
        RollbackWithoutCommit(keyOf, tables, published, root, updated);
        RollBack(root, meta, updated);
        return Err(if committed.None? then KeyTaken else CommitFailed);
      }
      RollbackUndoesCommit(keyOf, tables, published, root, updated);
      CommitKeepsConsistent(keyOf, tables, published, root, updated, proof);
      tables := committed.value;
      if !w.appended {
        RollBack(root, meta, updated);
        return Err(AppendFailed);
      }
      AppendKeepsOne(log, V1(root, key, now, updated.path));
      log := log + [V1(root, key, now, updated.path)];
      if !w.published {
        RollBack(root, meta, updated);
        return Err(PublishFailed);
      }
      published := published[root := proof];
      return Ok(key);
    }

    /** Puts the previous metadata and order entry back in a transaction of its own. */
    method RollBack(root: Root, previous: Meta, updated: Meta)
      modifies this`tables
      ensures var back := Rollback(old(tables), root, previous, previous.orderKey, updated);
        tables == if back.Some? then back.value else old(tables)
    {
      var back := Rollback(tables, root, previous, previous.orderKey, updated);
      if back.Some? {
        tables := back.value;
      }
    }

    // ----- upgrading -----

    /** What ends an upgrade request before it writes. */
    function UpgradeObstacle(root: Root, answer: Option<Proof>): Option<Failure>
      reads this
    {
      if root !in tables.metas then Some(UnknownRoot)
      else if !tables.metas[root].hasProof then Some(NotTimestamped)
      else if root !in published then Some(NoProofFile)
      else if answer.None? then Some(CalendarFailed)
      else if !binds(answer.value, root) then Some(BadBinding)
      else if keyOf(answer.value).None? then Some(NoOrderKey)
      else None
    }

    /** The first obstacle, each by the state. */
    lemma UpgradeObstacleIs(root: Root, answer: Option<Proof>)
      ensures UpgradeObstacle(root, answer) == Some(UnknownRoot) <==> root !in tables.metas
      ensures root in tables.metas ==>
        var meta, obstacle := tables.metas[root], UpgradeObstacle(root, answer);
        && (obstacle == Some(NotTimestamped) <==> !meta.hasProof)
        && (obstacle == Some(NoProofFile) <==> meta.hasProof && root !in published)
        && (meta.hasProof && root in published ==>
          && (obstacle == Some(CalendarFailed) <==> answer.None?)
          && (obstacle == Some(BadBinding) <==> answer.Some? && !binds(answer.value, root))
          && (obstacle == Some(NoOrderKey) <==>
            answer.Some? && binds(answer.value, root) && keyOf(answer.value).None?)
          && (obstacle.None? <==> answer.Some? && binds(answer.value, root) && keyOf(answer.value).Some?))
    {
    }

    /** How the log changes when a proof with an attested height is in place. */
    function WithV2(log: seq<Record>, root: Root, meta: Meta, proof: Proof, key: Key, appended: bool): seq<Record> {
      if heightOf(proof).Some? && !HasV2(log, root) && appended then
        log + [V2Record(root, meta, key, heightOf(proof).value, 0)]
      else
        log
    }

    method MaybeAppendV2(root: Root, meta: Meta, proof: Proof, key: Key, w: Writes) returns (failed: Option<Failure>)
      requires OneV2Each(log)
      modifies this`log
      ensures OneV2Each(log) && log == WithV2(old(log), root, meta, proof, key, w.appended)
      ensures heightOf(proof).None? || HasV2(old(log), root) || !w.appended ==> log == old(log)
      ensures heightOf(proof).Some? && !HasV2(old(log), root) && w.appended ==>
        |log| == |old(log)| + 1 && old(log) <= log
        && Attests(log[|old(log)|], root, key, meta, heightOf(proof).value, 0)
      ensures failed == if heightOf(proof).None? then None
        else if !HasV2(old(log), root) && !w.appended then Some(AppendFailed)
        else if !w.queued then Some(QueueFailed)
        else None
    {
      var height := heightOf(proof);
      if height.None? {
        return None;
      }
      var present := LogHasV2(root);
      if !present {
        if !w.appended {
          return Some(AppendFailed);
        }
        var record := V2Record(root, meta, key, height.value, 0);
        AppendKeepsOne(log, record);
        log := log + [record];
      }
      return if w.queued then None else Some(QueueFailed);
    }

    /** Whether the writes of an upgrade before the log go through. */
    ghost predicate UpgradeCommits(root: Root, proof: Proof, w: Writes)
      requires root in tables.metas && keyOf(proof).Some?
      reads this
    {
      var key := keyOf(proof).value;
      var changed := tables.metas[root].orderKey != Some(key);
      || (root in published && published[root] == proof)
      || (w.staged && w.published && (changed ==> w.committed && !Taken(tables, key, root)))
    }

    /** Replaces a proof by a better one.  When it fails before the proof is published, nothing has changed;
        the flag says whether the stored proof changed. */
    method UpgradeCommitment(root: Root, answer: Option<Proof>, w: Writes)
      returns (result: Result<(Key, bool), Failure>)
      requires Valid()
      modifies this
      ensures Valid() && old(log) <= log
      ensures old(UpgradeObstacle(root, answer)).Some? ==>
        && result == Err(old(UpgradeObstacle(root, answer)).value)
        && tables == old(tables) && published == old(published) && log == old(log)
      ensures old(UpgradeObstacle(root, answer)).None? && !old(UpgradeCommits(root, answer.value, w)) ==>
        && result.Err? && tables == old(tables) && published == old(published) && log == old(log)
      ensures old(UpgradeObstacle(root, answer)).None? && old(UpgradeCommits(root, answer.value, w)) ==>
        var key := keyOf(answer.value).value;
        var updated := old(tables).metas[root].(orderKey := Some(key));
        && tables.metas == old(tables).metas[root := updated]
        && tables.order == DeleteOrder(old(tables).order, old(tables).metas[root].orderKey)[key := root]
        && published == old(published)[root := answer.value]
        && log == WithV2(old(log), root, updated, answer.value, key, w.appended)
        && (heightOf(answer.value).Some? && !HasV2(old(log), root) && w.appended ==>
          |log| == |old(log)| + 1
          && Attests(log[|old(log)|], root, key, old(tables).metas[root], heightOf(answer.value).value, 0))
        && (result.Ok? ==> result == Ok((key, answer.value != old(published)[root])))
        && (result.Err? ==>
          heightOf(answer.value).Some? && (result.error == AppendFailed || result.error == QueueFailed))
    {
      if root !in tables.metas {
        return Err(UnknownRoot);
      }
      var meta := tables.metas[root];
      if !meta.hasProof {
        return Err(NotTimestamped);
      }
      if root !in published {
        return Err(NoProofFile);
      }
      if answer.None? {
        return Err(CalendarFailed);
      }
      var proof := answer.value;
      if !binds(proof, root) {
        return Err(BadBinding);
      }
      if keyOf(proof).None? {
        return Err(NoOrderKey);
      }
      var key := keyOf(proof).value;
      var updated := meta.(orderKey := Some(key));
      var same := proof == published[root];
      var keyChanged := meta.orderKey != Some(key);
      UnchangedTables(root, key);
      if same {
        // The key is that of the published proof, so it has not changed either.
        var failure := MaybeAppendV2(root, updated, proof, key, w);
        return if failure.None? then Ok((key, false)) else Err(failure.value);
      }
      if !w.staged {
        return Err(StagingFailed);
      }
      var failed := ReplaceProof(root, meta, updated, proof, key, keyChanged, w);
      if failed.Some? {
        return Err(failed.value);
      }
      failed := MaybeAppendV2(root, updated, proof, key, w);
      return if failed.None? then Ok((key, true)) else Err(failed.value);
    }

    /** Writing back a key that is already there changes nothing. */
    lemma UnchangedTables(root: Root, key: Key)
      requires Valid() && root in tables.metas
      ensures tables.metas[root].orderKey == Some(key) ==>
        && tables.metas[root := tables.metas[root].(orderKey := Some(key))] == tables.metas
        && DeleteOrder(tables.order, Some(key))[key := root] == tables.order
    {
    }

    method ReplaceProof(root: Root, meta: Meta, updated: Meta, proof: Proof, key: Key, keyChanged: bool, w: Writes)
      returns (failed: Option<Failure>)
      requires Valid() && root in tables.metas && meta == tables.metas[root] && meta.hasProof
      requires keyOf(proof) == Some(key) && updated == meta.(orderKey := Some(key))
      requires keyChanged <==> meta.orderKey != Some(key)
      modifies this`tables, this`published
      ensures Valid()
      ensures failed.None? <==> w.published && (keyChanged ==> w.committed && !Taken(old(tables), key, root))
      ensures failed.Some? ==> tables == old(tables) && published == old(published)
      ensures failed.None? ==>
        && tables.metas == old(tables).metas[root := updated]
        && tables.order == DeleteOrder(old(tables).order, meta.orderKey)[key := root]
        && published == old(published)[root := proof]
    {
      if keyChanged {
        CommitRefusedExactlyIfTaken(keyOf, tables, published, root, updated, key);
        var committed := CommitKey(tables, root, meta.orderKey, updated, key);
        if committed.None? || !w.committed {
          return Some(if committed.None? then KeyTaken else CommitFailed);
        }
        RollbackUndoesCommit(keyOf, tables, published, root, updated);
        CommitKeepsConsistent(keyOf, tables, published, root, updated, proof);
        tables := committed.value;
      } else {
        UnchangedTables(root, key);
      }
      if !w.published {
        if keyChanged {
          RollBack(root, meta, updated);
        }
        return Some(PublishFailed);
      }
      published := published[root := proof];
      return None;
    }

    // ----- records from peers -----

    method ImportInboundTails(tails: seq<Tail>) returns (imported: nat)
      requires Valid()
      modifies this`log
      ensures Valid() && old(log) <= log && imported == |log| - |old(log)|
      ensures log == Import(heightOf, tables.metas, published, old(log), tails)
      ensures AllTaken(heightOf, tables.metas, published, |old(log)|, log, tails)
    {
      ImportKeeps(heightOf, tables.metas, published, log, tails);
      ImportedAllSay(heightOf, tables.metas, published, log, tails);
      imported := 0;
      var todo := tails;
      while todo != []
        invariant OneV2Each(log) && |log| == |old(log)| + imported
        invariant Import(heightOf, tables.metas, published, log, todo)
               == Import(heightOf, tables.metas, published, old(log), tails)
        decreases |todo|
      {
        var tail := todo[0];
        todo := todo[1..];
        if !tail.valid || tail.height.None? {
          continue;
        }
        var present := LogHasV2(tail.root);
        if present || tail.root !in tables.metas {
          continue;
        }
        var meta := tables.metas[tail.root];
        if meta.orderKey != Some(tail.orderKey) {
          continue;
        }
        if meta.hasProof && tail.root in published {
          var height := heightOf(published[tail.root]);
          if height.Some? && height != tail.height {
            continue;
          }
        }
        var record := V2Record(tail.root, meta, tail.orderKey, tail.height.value, tail.txid);
        AppendKeepsOne(log, record);
        log := log + [record];
        imported := imported + 1;
      }
    }
  }

  // ----- a run that loses an order entry -----

  /** Two commitments get the same answer from the calendar.  The second one is refused, and the order entry
      of the first is gone though its proof is published. */
  method SameAnswerTwice() returns (stores: Commitments)
    ensures !stores.Valid()
    ensures 1 in stores.tables.metas && stores.tables.metas[1].orderKey == Some(5) && stores.keyOf(9) == Some(5)
    ensures stores.published == map[1 := 9] && 5 !in stores.tables.order
  {
    stores := new Commitments(proof => Some(5), proof => None, (proof, root) => true);
    var added := stores.AddCommitment(1, 0, 0);
    added := stores.AddCommitment(2, 0, 0);
    var all := Writes(true, true, true, true, true);
    var first := stores.TimestampCommitment(1, false, Some(9), 1, all);
    assert stores.tables.order == map[5 := 1];
    var second := stores.TimestampCommitment(2, false, Some(9), 2, all);
    assert second == Err(KeyTaken);
  }
}
