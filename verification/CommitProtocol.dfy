/** Timestamping and upgrading commitments over four stores: metadata and order table, which share
transactions, the append-only log, and the published proofs.

The order key and the attested height of a proof, the binding of a proof to its commitment, what the
calendar answers and which writes fail are parameters.
*/
module CommitProtocol {
  import opened Options

  type Root = nat

  type Key = nat

  type Proof = nat

  datatype Meta = Meta(
    path: nat, createdAt: nat, hasProof: bool, orderKey: Option<Key>, timestampedAt: Option<nat>)

  datatype Record =
    | V1(root: Root, orderKey: Key, timestampedAt: nat, path: nat)
    | V2(root: Root, orderKey: Key, timestampedAt: nat, path: nat, height: nat, txid: nat)

  /** A record offered by a peer. */
  datatype Tail = Tail(valid: bool, root: Root, orderKey: Key, height: Option<nat>, txid: nat)

  /** The two tables that change together in one transaction. */
  datatype Tables = Tables(metas: map<Root, Meta>, order: map<Key, Root>)

  datatype Failure =
    | UnknownRoot
    | AlreadyTimestamped
    | NotTimestamped
    | NoProofFile
    | CalendarFailed
    | BadBinding
    | NoOrderKey
    | StagingFailed
    | KeyTaken
    | CommitFailed
    | AppendFailed
    | PublishFailed
    | QueueFailed

  predicate IsTimestamped(meta: Meta) {
    meta.hasProof && meta.orderKey.Some?
  }

  // ----- transactions -----

  /** The key belongs to another commitment. */
  predicate Taken(t: Tables, key: Key, root: Root) {
    key in t.order && t.order[key] != root
  }

  function DeleteOrder(order: map<Key, Root>, key: Option<Key>): map<Key, Root> {
    if key.Some? then order - {key.value} else order
  }

  /** Replaces a commitment's metadata and order entry; refused when the new key is taken. */
  function CommitKey(t: Tables, root: Root, oldKey: Option<Key>, updated: Meta, newKey: Key): Option<Tables> {
    var order := DeleteOrder(t.order, oldKey);
    if newKey in order && order[newKey] != root then None
    else Some(Tables(t.metas[root := updated], order[newKey := root]))
  }

  /** Puts the previous metadata and order entry back; refused when the previous key is taken. */
  function Rollback(t: Tables, root: Root, previous: Meta, oldKey: Option<Key>, updated: Meta): Option<Tables> {
    var order := DeleteOrder(t.order, updated.orderKey);
    if oldKey.None? then Some(Tables(t.metas[root := previous], order))
    else if oldKey.value in order && order[oldKey.value] != root then None
    else Some(Tables(t.metas[root := previous], order[oldKey.value := root]))
  }

  /** Every timestamped commitment's key is that of its published proof, and the order table holds these keys
      and nothing else. */
  ghost predicate Consistent(keyOf: Proof -> Option<Key>, t: Tables, published: map<Root, Proof>) {
    && (forall r :: r in t.metas ==> (t.metas[r].hasProof <==> t.metas[r].orderKey.Some?))
    && (forall r :: r in t.metas && t.metas[r].orderKey.Some? ==>
      && r in published && keyOf(published[r]) == t.metas[r].orderKey
      && t.metas[r].orderKey.value in t.order && t.order[t.metas[r].orderKey.value] == r)
    && (forall k :: k in t.order ==> t.order[k] in t.metas && t.metas[t.order[k]].orderKey == Some(k))
  }

  /** A transaction and the publication of its proof keep the stores consistent. */
  lemma CommitKeepsConsistent(
    keyOf: Proof -> Option<Key>, t: Tables, published: map<Root, Proof>, root: Root, updated: Meta, proof: Proof)
    requires Consistent(keyOf, t, published) && root in t.metas
    requires updated.hasProof && updated.orderKey.Some? && keyOf(proof) == updated.orderKey
    requires CommitKey(t, root, t.metas[root].orderKey, updated, updated.orderKey.value).Some?
    ensures Consistent(keyOf,
      CommitKey(t, root, t.metas[root].orderKey, updated, updated.orderKey.value).value, published[root := proof])
  {
  }

  lemma CommitRefusedExactlyIfTaken(
    keyOf: Proof -> Option<Key>, t: Tables, published: map<Root, Proof>, root: Root, updated: Meta, key: Key)
    requires Consistent(keyOf, t, published) && root in t.metas
    ensures CommitKey(t, root, t.metas[root].orderKey, updated, key).None? <==> Taken(t, key, root)
  {
  }

  /** Undoing a transaction that went through restores both tables exactly. */
  lemma RollbackUndoesCommit(
    keyOf: Proof -> Option<Key>, t: Tables, published: map<Root, Proof>, root: Root, updated: Meta)
    requires Consistent(keyOf, t, published) && root in t.metas && updated.orderKey.Some?
    requires CommitKey(t, root, t.metas[root].orderKey, updated, updated.orderKey.value).Some?
    ensures var previous := t.metas[root];
      var done := CommitKey(t, root, previous.orderKey, updated, updated.orderKey.value).value;
      Rollback(done, root, previous, previous.orderKey, updated) == Some(t)
  {
    var previous := t.metas[root];
    var done := CommitKey(t, root, previous.orderKey, updated, updated.orderKey.value).value;
    assert done.metas[root := previous] == t.metas;
    var order := DeleteOrder(done.order, updated.orderKey);
    var back := if previous.orderKey.None? then order else order[previous.orderKey.value := root];
    assert back == t.order;
  }

  /** Undoing a transaction that never went through is harmless exactly when the new key was not taken:
      otherwise the other commitment's order entry is deleted. */
  lemma RollbackWithoutCommit(
    keyOf: Proof -> Option<Key>, t: Tables, published: map<Root, Proof>, root: Root, updated: Meta)
    requires Consistent(keyOf, t, published) && root in t.metas && updated.orderKey.Some?
    ensures var previous := t.metas[root];
      var back := Rollback(t, root, previous, previous.orderKey, updated);
      && back == Some(
        if Taken(t, updated.orderKey.value, root) then t.(order := t.order - {updated.orderKey.value}) else t)
      && (back == Some(t) <==> !Taken(t, updated.orderKey.value, root))
  {
    var previous := t.metas[root];
    assert t.metas[root := previous] == t.metas;
    var key := updated.orderKey.value;
    var order := DeleteOrder(t.order, updated.orderKey);
    var back := if previous.orderKey.None? then order else order[previous.orderKey.value := root];
    if Taken(t, key, root) {
      assert back == t.order - {key};
      assert key !in back;
    } else {
      assert back == t.order;
    }
  }

  // ----- the log -----

  predicate HasRoot(log: seq<Record>, root: Root) {
    exists i :: 0 <= i < |log| && log[i].root == root
  }

  predicate HasV2(log: seq<Record>, root: Root) {
    exists i :: 0 <= i < |log| && log[i].V2? && log[i].root == root
  }

  /** No commitment has two records of the second kind. */
  ghost predicate OneV2Each(log: seq<Record>) {
    forall i, j :: 0 <= i < j < |log| && log[i].V2? && log[j].V2? ==> log[i].root != log[j].root
  }

  function LoggedAt(meta: Meta): nat {
    if meta.timestampedAt.Some? then meta.timestampedAt.value else meta.createdAt
  }

  function V2Record(root: Root, meta: Meta, key: Key, height: nat, txid: nat): Record {
    V2(root, key, LoggedAt(meta), meta.path, height, txid)
  }

  /** Whether a peer's record is taken into the log. */
  predicate Importable(
    heightOf: Proof -> Option<nat>, metas: map<Root, Meta>, published: map<Root, Proof>, log: seq<Record>, tail: Tail)
  {
    && tail.valid && tail.height.Some? && !HasV2(log, tail.root)
    && tail.root in metas && metas[tail.root].orderKey == Some(tail.orderKey)
    && (metas[tail.root].hasProof && tail.root in published && heightOf(published[tail.root]).Some? ==>
      heightOf(published[tail.root]) == tail.height)
  }

  function Import(
    heightOf: Proof -> Option<nat>, metas: map<Root, Meta>, published: map<Root, Proof>, log: seq<Record>,
    tails: seq<Tail>)
      : (longer: seq<Record>)
    decreases |tails|
  {
    if tails == [] then log
    else if Importable(heightOf, metas, published, log, tails[0]) then
      var tail := tails[0];
      Import(heightOf, metas, published,
        log + [V2Record(tail.root, metas[tail.root], tail.orderKey, tail.height.value, tail.txid)], tails[1..])
    else
      Import(heightOf, metas, published, log, tails[1..])
  }

  lemma AppendKeepsOne(log: seq<Record>, record: Record)
    requires OneV2Each(log) && (record.V2? ==> !HasV2(log, record.root))
    ensures OneV2Each(log + [record])
  {
  }

  /** Importing keeps what is logged and stays within one record each. */
  lemma {:induction false} ImportKeeps(
    heightOf: Proof -> Option<nat>, metas: map<Root, Meta>, published: map<Root, Proof>, log: seq<Record>,
    tails: seq<Tail>)
    requires OneV2Each(log)
    ensures var longer := Import(heightOf, metas, published, log, tails);
      && log <= longer && OneV2Each(longer)
      && forall i :: |log| <= i < |longer| ==>
        && longer[i].V2? && longer[i].root in metas && metas[longer[i].root].orderKey == Some(longer[i].orderKey)
    decreases |tails|
  {
    if tails != [] {
      var tail := tails[0];
      if Importable(heightOf, metas, published, log, tail) {
        var record := V2Record(tail.root, metas[tail.root], tail.orderKey, tail.height.value, tail.txid);
        AppendKeepsOne(log, record);
        ImportKeeps(heightOf, metas, published, log + [record], tails[1..]);
        assert Import(heightOf, metas, published, log, tails)[|log|] == record;
      } else {
        ImportKeeps(heightOf, metas, published, log, tails[1..]);
      }
    }
  }

  /** Importing the same records again adds nothing. */
  lemma {:induction false} ImportIsIdempotent(
    heightOf: Proof -> Option<nat>, metas: map<Root, Meta>, published: map<Root, Proof>, log: seq<Record>,
    tails: seq<Tail>)
    requires OneV2Each(log)
    ensures var once := Import(heightOf, metas, published, log, tails);
      Import(heightOf, metas, published, once, tails) == once
  {
    var once := Import(heightOf, metas, published, log, tails);
    forall i | 0 <= i < |tails|
      ensures !Importable(heightOf, metas, published, once, tails[i])
    {
      ImportedOrRefused(heightOf, metas, published, log, tails, i);
    }
    NothingToImport(heightOf, metas, published, once, tails);
  }

  lemma {:induction false} NothingToImport(
    heightOf: Proof -> Option<nat>, metas: map<Root, Meta>, published: map<Root, Proof>, log: seq<Record>,
    tails: seq<Tail>)
    requires forall i :: 0 <= i < |tails| ==> !Importable(heightOf, metas, published, log, tails[i])
    ensures Import(heightOf, metas, published, log, tails) == log
    decreases |tails|
  {
    if tails != [] {
      assert !Importable(heightOf, metas, published, log, tails[0]);
      forall i | 0 <= i < |tails[1..]|
        ensures !Importable(heightOf, metas, published, log, tails[1..][i])
      {
        assert tails[1..][i] == tails[i + 1];
      }
      NothingToImport(heightOf, metas, published, log, tails[1..]);
    }
  }

  lemma {:induction false} ImportedOrRefused(
    heightOf: Proof -> Option<nat>, metas: map<Root, Meta>, published: map<Root, Proof>, log: seq<Record>,
    tails: seq<Tail>,
    i: nat)
    requires OneV2Each(log) && i < |tails|
    ensures !Importable(heightOf, metas, published, Import(heightOf, metas, published, log, tails), tails[i])
    decreases |tails|
  {
    var tail := tails[0];
    var next := log;
    if Importable(heightOf, metas, published, log, tail) {
      var record := V2Record(tail.root, metas[tail.root], tail.orderKey, tail.height.value, tail.txid);
      AppendKeepsOne(log, record);
      next := log + [record];
      assert next[|log|] == record;
    }
    ImportKeeps(heightOf, metas, published, next, tails[1..]);
    if i > 0 {
      ImportedOrRefused(heightOf, metas, published, next, tails[1..], i - 1);
    } else if HasV2(next, tail.root) {
      var k :| 0 <= k < |next| && next[k].V2? && next[k].root == tail.root;
      assert Import(heightOf, metas, published, log, tails)[k] == next[k];
    }
  }

  // ----- what is logged -----

  /** A record of the first kind says this about a commitment. */
  ghost predicate Stamps(record: Record, root: Root, key: Key, meta: Meta) {
    && record.V1? && record.root == root && record.orderKey == key && record.path == meta.path
    && record.timestampedAt == (match meta.timestampedAt case Some(at) => at case None => meta.createdAt)
  }

  /** A record of the second kind says this about a commitment, with this height and this transaction. */
  ghost predicate Attests(record: Record, root: Root, key: Key, meta: Meta, height: nat, txid: nat) {
    && record.V2? && record.root == root && record.orderKey == key && record.path == meta.path
    && record.timestampedAt == (match meta.timestampedAt case Some(at) => at case None => meta.createdAt)
    && record.height == height && record.txid == txid
  }

  /** A peer's record holds for a commitment: it is valid and has a height, the commitment is known and has the
      record's key, and a proof with a height, if there is one, has the record's. */
  ghost predicate Holds(
    heightOf: Proof -> Option<nat>, metas: map<Root, Meta>, published: map<Root, Proof>, tail: Tail)
  {
    && tail.valid && tail.height.Some? && tail.root in metas && metas[tail.root].orderKey == Some(tail.orderKey)
    && (metas[tail.root].hasProof && tail.root in published ==>
      heightOf(published[tail.root]).None? || heightOf(published[tail.root]) == tail.height)
  }

  ghost predicate TakenFrom(metas: map<Root, Meta>, record: Record, tail: Tail) {
    && tail.height.Some? && tail.root in metas
    && Attests(record, tail.root, tail.orderKey, metas[tail.root], tail.height.value, tail.txid)
  }

  /** Every imported record says what some offered one says that holds. */
  lemma {:induction false} ImportedSay(
    heightOf: Proof -> Option<nat>, metas: map<Root, Meta>, published: map<Root, Proof>, log: seq<Record>,
    tails: seq<Tail>, i: nat)
    returns (tail: Tail)
    requires OneV2Each(log) && |log| <= i < |Import(heightOf, metas, published, log, tails)|
    ensures tail in tails && Holds(heightOf, metas, published, tail)
    ensures TakenFrom(metas, Import(heightOf, metas, published, log, tails)[i], tail)
    decreases |tails|
  {
    tail := tails[0];
    if Importable(heightOf, metas, published, log, tail) {
      var record := V2Record(tail.root, metas[tail.root], tail.orderKey, tail.height.value, tail.txid);
      AppendKeepsOne(log, record);
      ImportKeeps(heightOf, metas, published, log + [record], tails[1..]);
      if i > |log| {
        tail := ImportedSay(heightOf, metas, published, log + [record], tails[1..], i);
      } else {
        assert Import(heightOf, metas, published, log, tails)[i] == (log + [record])[i] == record;
      }
    } else {
      tail := ImportedSay(heightOf, metas, published, log, tails[1..], i);
    }
  }

  /** From a place in the log on, all records are taken from offered ones that hold. */
  ghost predicate AllTaken(
    heightOf: Proof -> Option<nat>, metas: map<Root, Meta>, published: map<Root, Proof>, from: nat, log: seq<Record>,
    tails: seq<Tail>)
  {
    forall i :: from <= i < |log| ==> SomeoneOffered(heightOf, metas, published, log[i], tails)
  }

  ghost predicate SomeoneOffered(
    heightOf: Proof -> Option<nat>, metas: map<Root, Meta>, published: map<Root, Proof>, record: Record,
    tails: seq<Tail>)
  {
    exists tail <- tails :: Holds(heightOf, metas, published, tail) && TakenFrom(metas, record, tail)
  }

  lemma ImportedAllSay(
    heightOf: Proof -> Option<nat>, metas: map<Root, Meta>, published: map<Root, Proof>, log: seq<Record>,
    tails: seq<Tail>)
    requires OneV2Each(log)
    ensures AllTaken(
      heightOf, metas, published, |log|, Import(heightOf, metas, published, log, tails), tails)
  {
    var longer := Import(heightOf, metas, published, log, tails);
    forall i | |log| <= i < |longer|
      ensures SomeoneOffered(heightOf, metas, published, longer[i], tails)
    {
      var tail := ImportedSay(heightOf, metas, published, log, tails, i);
    }
  }

  /** After an import a commitment has a record of the second kind exactly if it had one or an offered record
      holds for it. */
  lemma ImportExactly(
    heightOf: Proof -> Option<nat>, metas: map<Root, Meta>, published: map<Root, Proof>, log: seq<Record>,
    tails: seq<Tail>, root: Root)
    requires OneV2Each(log)
    ensures HasV2(Import(heightOf, metas, published, log, tails), root) <==>
      (HasV2(log, root) || exists tail <- tails :: tail.root == root && Holds(heightOf, metas, published, tail))
  {
    var longer := Import(heightOf, metas, published, log, tails);
    ImportKeeps(heightOf, metas, published, log, tails);
    if HasV2(longer, root) && !HasV2(log, root) {
      var i :| 0 <= i < |longer| && longer[i].V2? && longer[i].root == root;
      if i >= |log| {
        var tail := ImportedSay(heightOf, metas, published, log, tails, i);
      }
    }
    if HasV2(log, root) {
      var i :| 0 <= i < |log| && log[i].V2? && log[i].root == root;
      assert longer[i] == log[i];
    }
    if tail :| tail in tails && tail.root == root && Holds(heightOf, metas, published, tail) {
      var i :| 0 <= i < |tails| && tails[i] == tail;
      ImportedOrRefused(heightOf, metas, published, log, tails, i);
    }
  }
}
