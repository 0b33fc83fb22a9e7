/** Ranges of satoshis and the first-in, first-out assignment of inputs to outputs.

A list of ranges stands for a sequence of individual sats.  Everything the index
promises about ownership is a statement about that sequence, so the assignment
is specified here by what it does to the sequence: it cuts it, in order.
*/
module SatRanges {
  /** The half-open range of sats from `start` up to but not including `end`. */
  datatype SatRange = SatRange(start: nat, end: nat)

  function Size(r: SatRange): nat {
    if r.start < r.end then r.end - r.start else 0
  }

  function Total(ranges: seq<SatRange>): nat {
    if ranges == [] then 0 else Size(ranges[0]) + Total(ranges[1..])
  }

  function Span(start: nat, end: nat): seq<nat>
    decreases end - start
  {
    if start < end then [start] + Span(start + 1, end) else []
  }

  lemma {:induction false} SpanAt(start: nat, end: nat)
    requires start <= end
    ensures |Span(start, end)| == end - start
    ensures forall i :: 0 <= i < end - start ==> Span(start, end)[i] == start + i
    decreases end - start
  {
    if start < end {
      SpanAt(start + 1, end);
    }
  }

  lemma {:induction false} SpanSplit(start: nat, middle: nat, end: nat)
    requires start <= middle <= end
    ensures Span(start, end) == Span(start, middle) + Span(middle, end)
    decreases middle - start
  {
    if start < middle {
      SpanSplit(start + 1, middle, end);
    }
  }

  lemma ConcatAssociative<T>(a: seq<T>, b: seq<T>, c: seq<T>)
    ensures a + b + c == a + (b + c)
  {
  }

  /** The sats of a list of ranges, one by one. */
  function Sats(ranges: seq<SatRange>): seq<nat> {
    if ranges == [] then [] else Span(ranges[0].start, ranges[0].end) + Sats(ranges[1..])
  }

  lemma {:induction false} SatsLength(ranges: seq<SatRange>)
    ensures |Sats(ranges)| == Total(ranges)
  {
    if ranges != [] {
      SatsLength(ranges[1..]);
      if ranges[0].start < ranges[0].end {
        SpanAt(ranges[0].start, ranges[0].end);
      }
    }
  }

  lemma {:induction false} TotalConcat(a: seq<SatRange>, b: seq<SatRange>)
    ensures Total(a + b) == Total(a) + Total(b)
  {
    if a == [] {
      assert a + b == b;
    } else {
      TotalConcat(a[1..], b);
      assert (a + b)[1..] == a[1..] + b;
    }
  }

  lemma {:induction false} SatsConcat(a: seq<SatRange>, b: seq<SatRange>)
    ensures Sats(a + b) == Sats(a) + Sats(b)
  {
    if a == [] {
      assert a + b == b;
    } else {
      SatsConcat(a[1..], b);
      assert (a + b)[1..] == a[1..] + b;
      ConcatAssociative(Span(a[0].start, a[0].end), Sats(a[1..]), Sats(b));
    }
  }

  // ----- first in, first out -----

  datatype Cut = Cut(taken: seq<SatRange>, rest: seq<SatRange>)

  /** Take the first `n` sats, splitting the last range touched if it is too long. */
  function Take(ranges: seq<SatRange>, n: nat): Cut
    requires n <= Total(ranges)
  {
    if n == 0 then
      Cut([], ranges)
    else
      var r := ranges[0];
      if n < Size(r) then
        Cut([SatRange(r.start, r.start + n)], [SatRange(r.start + n, r.end)] + ranges[1..])
      else
        var more := Take(ranges[1..], n - Size(r));
        Cut([r] + more.taken, more.rest)
  }

  lemma {:induction false} TakeTotals(ranges: seq<SatRange>, n: nat)
    requires n <= Total(ranges)
    ensures Total(Take(ranges, n).taken) == n
    ensures Total(Take(ranges, n).rest) == Total(ranges) - n
  {
    if n > 0 {
      var r := ranges[0];
      if n < Size(r) {
        TakeSplits(r, n, ranges[1..]);
        assert ranges == [r] + ranges[1..];
      } else {
        TakeTotals(ranges[1..], n - Size(r));
        assert ([r] + Take(ranges[1..], n - Size(r)).taken)[1..] == Take(ranges[1..], n - Size(r)).taken;
      }
    }
  }

  lemma {:induction false} TakeSats(ranges: seq<SatRange>, n: nat)
    requires n <= Total(ranges)
    ensures Sats(Take(ranges, n).taken) + Sats(Take(ranges, n).rest) == Sats(ranges)
  {
    if n > 0 {
      var r := ranges[0];
      if n < Size(r) {
        TakeSplits(r, n, ranges[1..]);
        assert ranges == [r] + ranges[1..];
      } else {
        TakeSats(ranges[1..], n - Size(r));
        var more := Take(ranges[1..], n - Size(r));
        assert ([r] + more.taken)[1..] == more.taken;
        ConcatAssociative(Span(r.start, r.end), Sats(more.taken), Sats(more.rest));
      }
    }
  }

  /** Taking cuts the sequence of sats. */
  lemma TakeCuts(ranges: seq<SatRange>, n: nat)
    requires n <= Total(ranges)
    ensures Sats(Take(ranges, n).taken) + Sats(Take(ranges, n).rest) == Sats(ranges)
    ensures Total(Take(ranges, n).taken) == n
    ensures Total(Take(ranges, n).rest) == Total(ranges) - n
  {
    TakeTotals(ranges, n);
    TakeSats(ranges, n);
  }

  lemma TakeSplits(r: SatRange, n: nat, rest: seq<SatRange>)
    requires 0 < n < Size(r)
    ensures Sats([SatRange(r.start, r.start + n)]) + Sats([SatRange(r.start + n, r.end)] + rest) == Sats([r] + rest)
    ensures Total([SatRange(r.start, r.start + n)]) == n
    ensures Total([SatRange(r.start + n, r.end)] + rest) == Total([r] + rest) - n
  {
    var left, right := SatRange(r.start, r.start + n), SatRange(r.start + n, r.end);
    SatsHead(left, []);
    assert [left] + [] == [left];
    SatsHead(right, rest);
    SatsHead(r, rest);
    SpanSplit(r.start, r.start + n, r.end);
    ConcatAssociative(Span(r.start, r.start + n), Span(r.start + n, r.end), Sats(rest));
  }

  lemma SatsHead(r: SatRange, rest: seq<SatRange>)
    ensures Sats([r] + rest) == Span(r.start, r.end) + Sats(rest)
    ensures Total([r] + rest) == Size(r) + Total(rest)
  {
    assert ([r] + rest)[1..] == rest;
  }

  function Sum(values: seq<nat>): nat {
    if values == [] then 0 else values[0] + Sum(values[1..])
  }

  datatype Assignment = Assignment(outputs: seq<seq<SatRange>>, leftover: seq<SatRange>)

  /** Fill the outputs one after the other. */
  function Assign(values: seq<nat>, ranges: seq<SatRange>): Assignment
    requires Sum(values) <= Total(ranges)
  {
    if values == [] then
      Assignment([], ranges)
    else
      TakeCuts(ranges, values[0]);
      var cut := Take(ranges, values[0]);
      var more := Assign(values[1..], cut.rest);
      Assignment([cut.taken] + more.outputs, more.leftover)
  }

  function Flatten(lists: seq<seq<SatRange>>): seq<SatRange> {
    if lists == [] then [] else lists[0] + Flatten(lists[1..])
  }

  /** A transaction neither creates, destroys nor reorders sats: its inputs, flattened,
      are its outputs in order followed by the fee. */
  lemma {:induction false} AssignConserves(values: seq<nat>, ranges: seq<SatRange>)
    requires Sum(values) <= Total(ranges)
    ensures var a := Assign(values, ranges);
      && |a.outputs| == |values|
      && Sats(Flatten(a.outputs)) + Sats(a.leftover) == Sats(ranges)
      && Total(a.leftover) == Total(ranges) - Sum(values)
  {
    if values != [] {
      TakeCuts(ranges, values[0]);
      var cut := Take(ranges, values[0]);
      AssignConserves(values[1..], cut.rest);
      var more := Assign(values[1..], cut.rest);
      assert ([cut.taken] + more.outputs)[1..] == more.outputs;
      SatsConcat(cut.taken, Flatten(more.outputs));
      ConcatAssociative(Sats(cut.taken), Sats(Flatten(more.outputs)), Sats(more.leftover));
    }
  }

  lemma {:induction false} SumPrefix(values: seq<nat>, j: nat)
    requires j < |values|
    ensures Sum(values[..j]) + values[j] <= Sum(values)
  {
    if j > 0 {
      SumPrefix(values[1..], j - 1);
      assert values[..j][1..] == values[1..][..j - 1];
    }
  }

  // ----- sats by position, and how often a sat occurs -----

  /** The sat `i` places into the ranges. */
  function SatAt(ranges: seq<SatRange>, i: nat): nat
    requires i < Total(ranges)
    decreases |ranges|
  {
    if i < Size(ranges[0]) then ranges[0].start + i else SatAt(ranges[1..], i - Size(ranges[0]))
  }

  lemma {:induction false} SatAtIsIndex(ranges: seq<SatRange>, i: nat)
    requires i < Total(ranges)
    ensures |Sats(ranges)| == Total(ranges) && SatAt(ranges, i) == Sats(ranges)[i]
    decreases |ranges|
  {
    SatsLength(ranges);
    if ranges[0].start < ranges[0].end {
      SpanAt(ranges[0].start, ranges[0].end);
    }
    if i >= Size(ranges[0]) {
      SatAtIsIndex(ranges[1..], i - Size(ranges[0]));
    }
  }

  lemma {:induction false} TakeSatAt(ranges: seq<SatRange>, n: nat, i: nat)
    requires n <= Total(ranges) && i < Total(ranges)
    ensures Total(Take(ranges, n).taken) == n && Total(Take(ranges, n).rest) == Total(ranges) - n
    ensures SatAt(ranges, i) == if i < n then SatAt(Take(ranges, n).taken, i) else SatAt(Take(ranges, n).rest, i - n)
    decreases |ranges|
  {
    TakeCuts(ranges, n);
    if n > 0 {
      var r := ranges[0];
      if n < Size(r) {
        assert ([SatRange(r.start + n, r.end)] + ranges[1..])[1..] == ranges[1..];
      } else {
        assert ([r] + Take(ranges[1..], n - Size(r)).taken)[1..] == Take(ranges[1..], n - Size(r)).taken;
        if i >= Size(r) {
          TakeSatAt(ranges[1..], n - Size(r), i - Size(r));
        }
      }
    }
  }

  lemma {:induction false} AssignTotals(values: seq<nat>, ranges: seq<SatRange>, j: nat)
    requires Sum(values) <= Total(ranges) && j < |values|
    ensures |Assign(values, ranges).outputs| == |values| && Total(Assign(values, ranges).outputs[j]) == values[j]
  {
    AssignConserves(values, ranges);
    TakeCuts(ranges, values[0]);
    if j > 0 {
      AssignTotals(values[1..], Take(ranges, values[0]).rest, j - 1);
    }
  }

  /** First in, first out, said without the algorithm: sat `i` of output `j` is the input
      sat that stands `i` places after everything the earlier outputs received. */
  lemma {:induction false} AssignIsSlicing(values: seq<nat>, ranges: seq<SatRange>, j: nat, i: nat)
    requires Sum(values) <= Total(ranges) && j < |values| && i < values[j]
    ensures |Assign(values, ranges).outputs| == |values|
    ensures Total(Assign(values, ranges).outputs[j]) == values[j]
    ensures Sum(values[..j]) + i < Total(ranges)
    ensures SatAt(Assign(values, ranges).outputs[j], i) == SatAt(ranges, Sum(values[..j]) + i)
  {
    AssignTotals(values, ranges, j);
    SumPrefix(values, j);
    TakeSatAt(ranges, values[0], Sum(values[..j]) + i);
    if j > 0 {
      var rest := Take(ranges, values[0]).rest;
      AssignIsSlicing(values[1..], rest, j - 1, i);
      SumAfterFirst(values, j);
      assert Assign(values, ranges).outputs[j] == Assign(values[1..], rest).outputs[j - 1];
    }
  }

  lemma SumAfterFirst(values: seq<nat>, j: nat)
    requires 0 < j <= |values|
    ensures Sum(values[..j]) == values[0] + Sum(values[1..][..j - 1])
  {
    assert values[..j][1..] == values[1..][..j - 1];
  }

  lemma {:induction false} SatAtConcat(a: seq<SatRange>, b: seq<SatRange>, i: nat)
    requires i < Total(a) + Total(b)
    ensures Total(a + b) == Total(a) + Total(b)
    ensures SatAt(a + b, i) == if i < Total(a) then SatAt(a, i) else SatAt(b, i - Total(a))
    decreases |a|
  {
    TotalConcat(a, b);
    if a == [] {
      assert a + b == b;
    } else {
      assert (a + b)[1..] == a[1..] + b;
      if i >= Size(a[0]) {
        SatAtConcat(a[1..], b, i - Size(a[0]));
      }
    }
  }

  function Holds(r: SatRange, sat: nat): nat {
    if r.start <= sat < r.end then 1 else 0
  }

  /** How many of the ranges hold `sat`. */
  function Occurs(ranges: seq<SatRange>, sat: nat): nat {
    if ranges == [] then 0 else Holds(ranges[0], sat) + Occurs(ranges[1..], sat)
  }

  /** The same over several lists, from list `from` on. */
  function OccursIn(lists: seq<seq<SatRange>>, from: nat, sat: nat): nat
    requires from <= |lists|
    decreases |lists| - from
  {
    if from == |lists| then 0 else Occurs(lists[from], sat) + OccursIn(lists, from + 1, sat)
  }

  lemma {:induction false} OccursConcat(a: seq<SatRange>, b: seq<SatRange>, sat: nat)
    ensures Occurs(a + b, sat) == Occurs(a, sat) + Occurs(b, sat)
  {
    if a == [] {
      assert a + b == b;
    } else {
      OccursConcat(a[1..], b, sat);
      assert (a + b)[1..] == a[1..] + b;
    }
  }

  lemma {:induction false} OccursInTail(first: seq<SatRange>, lists: seq<seq<SatRange>>, from: nat, sat: nat)
    requires from <= |lists|
    ensures OccursIn([first] + lists, from + 1, sat) == OccursIn(lists, from, sat)
    decreases |lists| - from
  {
    if from < |lists| {
      OccursInTail(first, lists, from + 1, sat);
    }
  }

  lemma {:induction false} SatAtOccurs(ranges: seq<SatRange>, i: nat)
    requires i < Total(ranges)
    ensures Occurs(ranges, SatAt(ranges, i)) >= 1
    decreases |ranges|
  {
    if i >= Size(ranges[0]) {
      SatAtOccurs(ranges[1..], i - Size(ranges[0]));
    }
  }

  lemma {:induction false} SatAtOccursTwice(ranges: seq<SatRange>, i: nat, j: nat)
    requires i < j < Total(ranges) && SatAt(ranges, i) == SatAt(ranges, j)
    ensures Occurs(ranges, SatAt(ranges, i)) >= 2
    decreases |ranges|
  {
    if i >= Size(ranges[0]) {
      SatAtOccursTwice(ranges[1..], i - Size(ranges[0]), j - Size(ranges[0]));
    } else {
      SatAtOccurs(ranges[1..], j - Size(ranges[0]));
    }
  }

  lemma {:induction false} OccursSatAt(ranges: seq<SatRange>, sat: nat) returns (i: nat)
    requires Occurs(ranges, sat) >= 1
    ensures i < Total(ranges) && SatAt(ranges, i) == sat
  {
    if Holds(ranges[0], sat) == 1 {
      i := sat - ranges[0].start;
    } else {
      i := OccursSatAt(ranges[1..], sat);
      i := i + Size(ranges[0]);
    }
  }

  lemma {:induction false} OccursTwiceSatAt(ranges: seq<SatRange>, sat: nat) returns (i: nat, j: nat)
    requires Occurs(ranges, sat) >= 2
    ensures i < j < Total(ranges) && SatAt(ranges, i) == sat && SatAt(ranges, j) == sat
  {
    if Holds(ranges[0], sat) == 1 {
      i := sat - ranges[0].start;
      j := OccursSatAt(ranges[1..], sat);
    } else {
      i, j := OccursTwiceSatAt(ranges[1..], sat);
      i := i + Size(ranges[0]);
    }
    j := j + Size(ranges[0]);
  }

  lemma {:induction false} TakeOccurs(ranges: seq<SatRange>, n: nat, sat: nat)
    requires n <= Total(ranges)
    ensures Occurs(Take(ranges, n).taken, sat) + Occurs(Take(ranges, n).rest, sat) == Occurs(ranges, sat)
  {
    if n > 0 {
      var r := ranges[0];
      if n < Size(r) {
        OccursConcat([SatRange(r.start + n, r.end)], ranges[1..], sat);
      } else {
        TakeOccurs(ranges[1..], n - Size(r), sat);
        OccursConcat([r], Take(ranges[1..], n - Size(r)).taken, sat);
      }
    }
  }

  /** A sat occurs in the outputs and the fee as often as in the inputs. */
  lemma {:induction false} AssignOccurs(values: seq<nat>, ranges: seq<SatRange>, sat: nat)
    requires Sum(values) <= Total(ranges)
    ensures OccursIn(Assign(values, ranges).outputs, 0, sat) + Occurs(Assign(values, ranges).leftover, sat)
         == Occurs(ranges, sat)
  {
    if values != [] {
      TakeCuts(ranges, values[0]);
      TakeOccurs(ranges, values[0], sat);
      var cut := Take(ranges, values[0]);
      AssignOccurs(values[1..], cut.rest, sat);
      OccursInTail(cut.taken, Assign(values[1..], cut.rest).outputs, 0, sat);
    }
  }
}
