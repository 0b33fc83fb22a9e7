/** Why `find_range` can count down the sats it still has to find.

The search visits the entries in any order and stops looking inside an entry, but not
at further entries, once nothing remains.  The partition makes this safe: the pieces
found never overlap, so their sizes can never exceed what was asked for.
*/
module RangeSearch {
  import opened Bitcoin
  import opened SatRanges
  import opened LedgerModel
  import opened Conservation
  import opened RareSats

  datatype FindRangeOutput = FindRangeOutput(start: nat, size: nat, satpoint: SatPoint)

  function PieceHolds(p: FindRangeOutput, sat: nat): nat {
    if p.start <= sat < p.start + p.size then 1 else 0
  }

  /** How many of the pieces hold `sat`. */
  function PiecesHold(pieces: seq<FindRangeOutput>, sat: nat): nat {
    if pieces == [] then 0 else PieceHolds(pieces[|pieces| - 1], sat) + PiecesHold(pieces[..|pieces| - 1], sat)
  }

  function PiecesTotal(pieces: seq<FindRangeOutput>): nat {
    if pieces == [] then 0 else pieces[|pieces| - 1].size + PiecesTotal(pieces[..|pieces| - 1])
  }

  ghost predicate PlacedAt(utxos: Utxos, p: FindRangeOutput, k: nat) {
    Locates(utxos, p.start + k, SatPoint(p.satpoint.outpoint, p.satpoint.offset + k))
  }

  /** Every sat of the piece is where the piece says. */
  ghost predicate Placed(utxos: Utxos, p: FindRangeOutput) {
    forall k: nat | k < p.size :: PlacedAt(utxos, p, k)
  }

  /** A nonempty piece of the range asked for, at its true place. */
  ghost predicate TruePiece(s: Search, p: FindRangeOutput) {
    s.from <= p.start < p.start + p.size <= s.to && Placed(s.utxos, p)
  }

  /** The pieces are nonempty, each is where it says, and every sat of the range is in
      exactly one of them, no other sat in any. */
  ghost predicate PiecesCover(pieces: seq<FindRangeOutput>, s: Search) {
    && (forall i | 0 <= i < |pieces| :: TruePiece(s, pieces[i]))
    && (forall sat: nat :: PiecesHold(pieces, sat) == if s.from <= sat < s.to then 1 else 0)
    && PiecesTotal(pieces) == s.to - s.from
  }

  datatype Search = Search(utxos: Utxos, from: nat, to: nat)

  /** All sats asked for are in exactly one place. */
  ghost predicate Answerable(s: Search) {
    && s.from < s.to
    && forall sat: nat | s.from <= sat < s.to :: Count(s.utxos, sat) == 1
  }

  /** In the middle of the search: `left` are the entries not yet visited and `todo` the
      ranges of the current entry not yet visited. */
  ghost predicate Searching(s: Search, pieces: seq<FindRangeOutput>, left: Utxos, todo: seq<SatRange>, remaining: nat) {
    && Answerable(s)
    && PiecesTotal(pieces) + remaining == s.to - s.from
    && (forall i | 0 <= i < |pieces| :: TruePiece(s, pieces[i]))
    && (forall sat: nat | s.from <= sat < s.to ::
          && PiecesHold(pieces, sat) + Occurs(todo, sat) + Count(left, sat) <= 1
          && (remaining > 0 ==> PiecesHold(pieces, sat) + Occurs(todo, sat) + Count(left, sat) == 1))
  }

  lemma SearchStarts(starts: Schedule, ledger: Ledger, height: nat, s: Search)
    requires Sound(starts, ledger, height) && s.utxos == ledger.utxos && s.to <= starts(height)
    ensures s.from < s.to ==> Searching(s, [], s.utxos, [], s.to - s.from)
  {
    forall sat: nat | s.from <= sat < s.to
      ensures Count(s.utxos, sat) == 1
    {
      assert Held(Progress(ledger, []), sat) == Count(ledger.utxos, sat);
    }
  }

  lemma EnterEntry(s: Search, pieces: seq<FindRangeOutput>, left: Utxos, outpoint: OutPoint, remaining: nat)
    requires outpoint in left
    ensures Searching(s, pieces, left, [], remaining) ==>
      Searching(s, pieces, left - {outpoint}, left[outpoint].ranges, remaining)
  {
    forall sat: nat
      ensures Count(left, sat) == Occurs(left[outpoint].ranges, sat) + Count(left - {outpoint}, sat)
    {
      CountRemove(left, outpoint, sat);
    }
  }

  // ----- the sizes of the pieces add up to the sats they hold -----

  /** The pieces' holdings summed over the sats from `from` up to `to`. */
  ghost function Cover(pieces: seq<FindRangeOutput>, from: nat, to: nat): nat
    decreases if from < to then to - from else 0
  {
    if from < to then PiecesHold(pieces, from) + Cover(pieces, from + 1, to) else 0
  }

  lemma {:induction false} CoverAtMost(pieces: seq<FindRangeOutput>, from: nat, to: nat)
    requires from <= to && forall sat: nat | from <= sat < to :: PiecesHold(pieces, sat) <= 1
    ensures Cover(pieces, from, to) <= to - from
    ensures Cover(pieces, from, to) == to - from ==> forall sat: nat | from <= sat < to :: PiecesHold(pieces, sat) == 1
    ensures (forall sat: nat | from <= sat < to :: PiecesHold(pieces, sat) == 1) ==>
      Cover(pieces, from, to) == to - from
    decreases if from < to then to - from else 0
  {
    if from < to {
      CoverAtMost(pieces, from + 1, to);
    }
  }

  function Overlap(p: FindRangeOutput, from: nat, to: nat): nat {
    var low := if from < p.start then p.start else from;
    var high := if to < p.start + p.size then to else p.start + p.size;
    if low < high then high - low else 0
  }

  lemma {:induction false} CoverPush(pieces: seq<FindRangeOutput>, p: FindRangeOutput, from: nat, to: nat)
    ensures Cover(pieces + [p], from, to) == Cover(pieces, from, to) + Overlap(p, from, to)
    decreases if from < to then to - from else 0
  {
    if from < to {
      PiecesHoldPush(pieces, p, from);
      CoverPush(pieces, p, from + 1, to);
    }
  }

  lemma PiecesHoldPush(pieces: seq<FindRangeOutput>, p: FindRangeOutput, sat: nat)
    ensures PiecesHold(pieces + [p], sat) == PiecesHold(pieces, sat) + PieceHolds(p, sat)
    ensures PiecesTotal(pieces + [p]) == PiecesTotal(pieces) + p.size
  {
    assert (pieces + [p])[..|pieces|] == pieces;
  }

  lemma {:induction false} CoverIsTotal(pieces: seq<FindRangeOutput>, from: nat, to: nat)
    requires forall i | 0 <= i < |pieces| :: from <= pieces[i].start && pieces[i].start + pieces[i].size <= to
    ensures Cover(pieces, from, to) == PiecesTotal(pieces)
  {
    if pieces == [] {
      CoverOfNothing(from, to);
    } else {
      var last := |pieces| - 1;
      CoverIsTotal(pieces[..last], from, to);
      assert pieces == pieces[..last] + [pieces[last]];
      CoverPush(pieces[..last], pieces[last], from, to);
    }
  }

  lemma {:induction false} CoverOfNothing(from: nat, to: nat)
    ensures Cover([], from, to) == 0
    decreases if from < to then to - from else 0
  {
    if from < to {
      CoverOfNothing(from + 1, to);
    }
  }

  lemma {:induction false} NothingOutside(pieces: seq<FindRangeOutput>, from: nat, to: nat, sat: nat)
    requires forall i | 0 <= i < |pieces| :: from <= pieces[i].start && pieces[i].start + pieces[i].size <= to
    requires !(from <= sat < to)
    ensures PiecesHold(pieces, sat) == 0
  {
    if pieces != [] {
      NothingOutside(pieces[..|pieces| - 1], from, to, sat);
    }
  }

  // ----- one range -----

  function Max(a: nat, b: nat): nat {
    if a < b then b else a
  }

  function Min(a: nat, b: nat): nat {
    if a < b then a else b
  }

  predicate Overlaps(s: Search, r: SatRange) {
    r.end > s.from && r.start < s.to
  }

  /** The part of the range asked for that `r` holds, when `r` stands `offset` sats into its entry. */
  function PieceOf(s: Search, r: SatRange, outpoint: OutPoint, offset: nat): FindRangeOutput
    requires Overlaps(s, r) && r.start < r.end && s.from <= s.to
  {
    var low, high := Max(r.start, s.from), Min(r.end, s.to);
    FindRangeOutput(low, high - low, SatPoint(outpoint, offset + low - r.start))
  }

  /** The countdown never goes below zero, and the pieces stay disjoint and true. */
  lemma VisitRange(
    s: Search, pieces: seq<FindRangeOutput>, left: Utxos, outpoint: OutPoint, done: seq<SatRange>, r: SatRange,
    todo: seq<SatRange>, remaining: nat)
    requires Searching(s, pieces, left, [r] + todo, remaining) && r.start < r.end
    requires outpoint in s.utxos && s.utxos[outpoint].ranges == done + ([r] + todo)
    ensures !Overlaps(s, r) ==> Searching(s, pieces, left, todo, remaining)
    ensures Overlaps(s, r) ==>
      var p := PieceOf(s, r, outpoint, Total(done));
      p.size <= remaining && Searching(s, pieces + [p], left, todo, remaining - p.size)
  {
    forall sat: nat
      ensures Occurs([r] + todo, sat) == Holds(r, sat) + Occurs(todo, sat)
    {
      OccursConcat([r], todo, sat);
    }
    if Overlaps(s, r) {
      var p := PieceOf(s, r, outpoint, Total(done));
      PieceIsTrue(s, outpoint, done, r, todo);
      var more := pieces + [p];
      forall sat: nat | s.from <= sat < s.to
        ensures PiecesHold(more, sat) == PiecesHold(pieces, sat) + Holds(r, sat)
      {
        PiecesHoldPush(pieces, p, sat);
      }
      PiecesHoldPush(pieces, p, s.from);
      CoverAtMost(more, s.from, s.to);
      CoverIsTotal(more, s.from, s.to);
    }
  }

  lemma PieceIsTrue(s: Search, outpoint: OutPoint, done: seq<SatRange>, r: SatRange, todo: seq<SatRange>)
    requires s.from < s.to && Overlaps(s, r) && r.start < r.end
    requires outpoint in s.utxos && s.utxos[outpoint].ranges == done + ([r] + todo)
    ensures TruePiece(s, PieceOf(s, r, outpoint, Total(done)))
  {
    var p := PieceOf(s, r, outpoint, Total(done));
    forall k: nat | k < p.size
      ensures PlacedAt(s.utxos, p, k)
    {
      TotalConcat([r], todo);
      SatAtConcat(done, [r] + todo, p.satpoint.offset + k);
    }
  }

  /** With nothing left to find, the rest of an entry need not be looked at. */
  lemma SkipRest(s: Search, pieces: seq<FindRangeOutput>, left: Utxos, todo: seq<SatRange>)
    requires Searching(s, pieces, left, todo, 0)
    ensures Searching(s, pieces, left, [], 0)
  {
  }

  lemma SearchEnds(s: Search, pieces: seq<FindRangeOutput>, remaining: nat)
    requires Searching(s, pieces, map[], [], remaining)
    ensures remaining == 0 && PiecesCover(pieces, s)
  {
    forall sat: nat | s.from <= sat < s.to
      ensures PiecesHold(pieces, sat) <= 1 && (remaining > 0 ==> PiecesHold(pieces, sat) == 1)
    {
      assert Count(map[], sat) == 0;
    }
    CoverAtMost(pieces, s.from, s.to);
    CoverIsTotal(pieces, s.from, s.to);
    forall sat: nat | !(s.from <= sat < s.to)
      ensures PiecesHold(pieces, sat) == 0
    {
      NothingOutside(pieces, s.from, s.to, sat);
    }
  }

  lemma RangesNonempty(starts: Schedule, ledger: Ledger, height: nat, outpoint: OutPoint)
    requires Sound(starts, ledger, height) && outpoint in ledger.utxos
    ensures forall r | r in ledger.utxos[outpoint].ranges :: r.start < r.end
  {
    forall r | r in ledger.utxos[outpoint].ranges
      ensures r.start < r.end
    {
      assert WithinBlock(starts, r);
    }
  }
}
