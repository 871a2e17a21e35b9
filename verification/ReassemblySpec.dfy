/** Reassembly of a byte stream, on values: what add and the data part of recv do to the queue and to rcv_nxt_, and
what the result means in terms of the set of bytes received. */
module ReassemblySpec {
  /** The bytes from `lo` up to, not including, `hi`. */
  datatype Range = Range(lo: int, hi: int)

  datatype Segment = Segment(range: Range, flags: bv8)

  /** The sequence number of the next byte expected, and the segments beyond it. */
  datatype State = State(next: int, queue: seq<Segment>)

  // ---------- the code's steps ----------

  /** How many segments at the front start before `hi`. */
  function Skip(q: seq<Segment>, hi: int): (i: nat)
    ensures i <= |q|
    ensures forall k :: 0 <= k < i ==> q[k].range.lo < hi
    ensures i < |q| ==> q[i].range.lo >= hi
  {
    if q != [] && hi > q[0].range.lo then 1 + Skip(q[1..], hi) else 0
  }

  /** Where add puts a segment: behind the tail if it starts after it, else before the first that starts after it. */
  function Place(q: seq<Segment>, s: Segment): (i: nat)
    ensures i <= |q|
  {
    if q != [] && q[|q| - 1].range.hi <= s.range.lo then |q| else Skip(q, s.range.hi)
  }

  function Inserted(q: seq<Segment>, s: Segment): (r: seq<Segment>)
    ensures |r| == |q| + 1
  {
    q[..Place(q, s)] + [s] + q[Place(q, s)..]
  }

  /** How many segments at the front follow each other without a gap. */
  function InSequence(q: seq<Segment>): (n: nat)
    ensures n <= |q| && (q != [] ==> n > 0)
  {
    if |q| <= 1 then |q|
    else if q[0].range.hi < q[1].range.lo then 1
    else 1 + InSequence(q[1..])
  }

  function Flags(q: seq<Segment>): bv8 {
    if q == [] then 0 else Flags(q[..|q| - 1]) | q[|q| - 1].flags
  }

  /** The queue releases everything in sequence at its front, unless a hole remains before it. */
  function Drained(s: State): (State, bv8)
    requires s.queue != []
  {
    if s.queue[0].range.lo > s.next then (s, 0)
    else
      var n := InSequence(s.queue);
      (State(s.queue[n - 1].range.hi, s.queue[n..]), Flags(s.queue[..n]))
  }

  /** BayReassemblyQueue::add */
  function Added(s: State, x: Segment): (State, bv8) {
    Drained(s.(queue := Inserted(s.queue, x)))
  }

  /** Trimming of what has been received already; true when nothing is left. */
  function Trimmed(s: State, x: Segment): (Segment, bool) {
    var todrop := s.next - x.range.lo;
    var datalen := x.range.hi - x.range.lo;
    if todrop <= 0 then (x, false)
    else if todrop >= datalen then (x.(range := Range(x.range.hi, x.range.hi)), true)
    else (x.(range := Range(s.next, x.range.hi)), false)
  }

  /** The data part of recv, for a segment without a FIN: the direct path when it is next and nothing is queued.
  On the other path the start is trimmed but the length is not. */
  function Received(s: State, x: Segment): State {
    var (t, _) := Trimmed(s, x);
    if t.range.hi <= t.range.lo then s
    else if t.range.lo == s.next && s.queue == [] then s.(next := s.next + (t.range.hi - t.range.lo))
    else Added(s, x.(range := Range(t.range.lo, t.range.lo + (x.range.hi - x.range.lo)))).0
  }

  function Stream(base: int, arrivals: seq<Segment>): State {
    if arrivals == [] then State(base, [])
    else Received(Stream(base, arrivals[..|arrivals| - 1]), arrivals[|arrivals| - 1])
  }

  // ---------- what they mean ----------

  predicate Meet(a: Range, b: Range) {
    a.lo < b.hi && b.lo < a.hi
  }

  /** Segments of one sender: none empty, none before the start, and each repeated whole or not at all. */
  ghost predicate Segmented(base: int, arrivals: seq<Segment>) {
    && (forall i :: 0 <= i < |arrivals| ==> base <= arrivals[i].range.lo < arrivals[i].range.hi)
    && forall i, j :: 0 <= i < |arrivals| && 0 <= j < |arrivals| && Meet(arrivals[i].range, arrivals[j].range) ==>
         arrivals[i].range == arrivals[j].range
  }

  ghost predicate Covered(arrivals: seq<Segment>, b: int) {
    exists x :: x in arrivals && x.range.lo <= b < x.range.hi
  }

  /** `n` is the first byte from `base` on that no arrival covers. */
  ghost predicate FirstMissing(base: int, arrivals: seq<Segment>, n: int) {
    n >= base && (forall b :: base <= b < n ==> Covered(arrivals, b)) && !Covered(arrivals, n)
  }

  function Ranges(q: seq<Segment>): (r: seq<Range>)
    ensures |r| == |q|
  {
    seq(|q|, i requires 0 <= i < |q| => q[i].range)
  }

  /** In the order of their bytes; copies of one segment are neighbours. */
  ghost predicate Sorted(q: seq<Segment>) {
    && (forall i :: 0 <= i < |q| ==> q[i].range.lo < q[i].range.hi)
    && forall i, j :: 0 <= i < j < |q| ==> q[i].range == q[j].range || q[i].range.hi <= q[j].range.lo
  }

  /** Of every range, the queue holds as many copies as arrived, if it lies beyond `next`, and otherwise none. */
  ghost predicate HoldsBeyond(s: State, arrivals: seq<Segment>) {
    forall r: Range :: multiset(Ranges(s.queue))[r] == if r.lo > s.next then multiset(Ranges(arrivals))[r] else 0
  }

  /** The whole promise. */
  ghost predicate Reassembles(base: int, arrivals: seq<Segment>, s: State) {
    FirstMissing(base, arrivals, s.next) && Sorted(s.queue) && HoldsBeyond(s, arrivals)
  }

  // ---------- insertion ----------

  lemma RangesOf(q: seq<Segment>, x: Segment)
    ensures x in q ==> x.range in Ranges(q)
    ensures forall r :: r in Ranges(q) ==> exists i :: 0 <= i < |q| && q[i].range == r
  {
    if x in q {
      var i :| 0 <= i < |q| && q[i] == x;
      assert Ranges(q)[i] == x.range;
    }
  }

  lemma RangesConcat(a: seq<Segment>, b: seq<Segment>)
    ensures Ranges(a + b) == Ranges(a) + Ranges(b)
  {
  }

  lemma InsertedRanges(q: seq<Segment>, x: Segment)
    ensures multiset(Ranges(Inserted(q, x))) == multiset(Ranges(q)) + multiset{x.range}
  {
    var i := Place(q, x);
    RangesConcat(q[..i] + [x], q[i..]);
    RangesConcat(q[..i], [x]);
    RangesConcat(q[..i], q[i..]);
    assert q == q[..i] + q[i..];
    assert Ranges([x]) == [x.range];
  }

  /** A segment fits a queue when it meets no queued segment but its own copies. */
  ghost predicate Fits(q: seq<Segment>, x: Segment) {
    x.range.lo < x.range.hi && forall i :: 0 <= i < |q| && Meet(q[i].range, x.range) ==> q[i].range == x.range
  }

  /** Insertion behind a prefix that starts before the segment ends, and before a rest that starts later. */
  lemma PlaceSplits(q: seq<Segment>, x: Segment)
    requires Sorted(q) && Fits(q, x)
    ensures forall k :: 0 <= k < Place(q, x) ==> q[k].range == x.range || q[k].range.hi <= x.range.lo
    ensures forall k :: Place(q, x) <= k < |q| ==> x.range.hi <= q[k].range.lo
  {
    var i := Place(q, x);
    forall k | 0 <= k < i
      ensures q[k].range == x.range || q[k].range.hi <= x.range.lo
    {
      var r := q[k].range;
      assert Meet(r, x.range) || r.hi <= x.range.lo || r.lo >= x.range.hi;
    }
    forall k | i <= k < |q|
      ensures x.range.hi <= q[k].range.lo
    {
      assert k == i || q[i].range == q[k].range || q[i].range.hi <= q[k].range.lo;
    }
  }

  lemma InsertedIsSorted(q: seq<Segment>, x: Segment)
    requires Sorted(q) && Fits(q, x)
    ensures Sorted(Inserted(q, x))
  {
    PlaceSplits(q, x);
  }

  // ---------- release ----------

  /** The first `n` segments are a contiguous run of bytes, and a gap follows it. */
  ghost predicate Front(q: seq<Segment>, n: nat) {
    && 0 < n <= |q|
    && (forall b :: q[0].range.lo <= b < q[n - 1].range.hi ==> Covered(q[..n], b))
    && (forall k :: 0 <= k < n ==> q[k].range.lo < q[n - 1].range.hi && q[k].range.hi <= q[n - 1].range.hi)
    && (forall k :: n <= k < |q| ==> q[n - 1].range.hi < q[k].range.lo)
  }

  lemma {:induction false} FrontIsContiguous(q: seq<Segment>)
    requires Sorted(q) && q != []
    ensures Front(q, InSequence(q))
  {
    if |q| == 1 || q[0].range.hi < q[1].range.lo {
      assert InSequence(q) == 1 && q[0] in q[..1];
      assert |q| > 1 ==> forall k :: 1 < k < |q| ==> q[1].range.lo <= q[k].range.lo;
    } else {
      FrontIsContiguous(q[1..]);
      FrontGrows(q, InSequence(q[1..]));
    }
  }

  lemma FrontGrows(q: seq<Segment>, n: nat)
    requires Sorted(q) && |q| > 1 && q[0].range.hi >= q[1].range.lo && Front(q[1..], n)
    ensures Front(q, n + 1)
  {
    hide Sorted, Covered;
    var rest := q[1..];
    var last := rest[n - 1].range.hi;
    assert q[n] == rest[n - 1];
    FirstTwo(q);
    FrontGrowsCovered(q, n + 1);
    forall k | 0 <= k < n + 1
      ensures q[k].range.lo < last && q[k].range.hi <= last
    {
      assert k > 0 ==> q[k] == rest[k - 1];
      assert rest[0] == q[1];
    }
    forall k | n + 1 <= k < |q|
      ensures last < q[k].range.lo
    {
      assert q[k] == rest[k - 1];
    }
  }

  lemma FirstTwo(q: seq<Segment>)
    requires Sorted(q) && |q| > 1 && q[0].range.hi >= q[1].range.lo
    ensures q[0].range == q[1].range || q[0].range.hi == q[1].range.lo
    ensures q[0].range.lo < q[0].range.hi && q[1].range.lo < q[1].range.hi
  {
  }

  lemma FrontGrowsCovered(q: seq<Segment>, n: nat)
    requires Sorted(q) && |q| > 1 && q[0].range.hi >= q[1].range.lo && n > 0 && Front(q[1..], n - 1)
    ensures forall b :: q[0].range.lo <= b < q[n - 1].range.hi ==> Covered(q[..n], b)
  {
    var rest := q[1..];
    FirstTwo(q);
    hide Sorted;
    forall b | q[0].range.lo <= b < q[n - 1].range.hi
      ensures Covered(q[..n], b)
    {
      assert q[0] in q[..n] && rest[0] == q[1];
      if b >= q[0].range.hi {
        assert Covered(rest[..n - 1], b);
        var x :| x in rest[..n - 1] && x.range.lo <= b < x.range.hi;
        assert q[..n] == [q[0]] + rest[..n - 1];
      }
    }
  }

  lemma CountSplit(q: seq<Segment>, n: nat, r: Range)
    requires n <= |q|
    ensures multiset(Ranges(q))[r] == multiset(Ranges(q[..n]))[r] + multiset(Ranges(q[n..]))[r]
  {
    RangesConcat(q[..n], q[n..]);
    assert q == q[..n] + q[n..];
  }

  lemma CountAbsent(q: seq<Segment>, r: Range)
    requires forall i :: 0 <= i < |q| ==> q[i].range != r
    ensures multiset(Ranges(q))[r] == 0
  {
    assert r !in Ranges(q);
  }

  /** After a release, the queue holds of the old one exactly what lies beyond the new `next`. */
  lemma ReleasedCounts(q: seq<Segment>, n: nat, next: int, r: Range)
    requires n <= |q|
    requires forall k :: 0 <= k < n ==> q[k].range.lo < next
    requires forall k :: n <= k < |q| ==> next < q[k].range.lo
    ensures multiset(Ranges(q[n..]))[r] == if r.lo > next then multiset(Ranges(q))[r] else 0
  {
    CountSplit(q, n, r);
    if r.lo > next {
      CountAbsent(q[..n], r);
    } else {
      CountAbsent(q[n..], r);
    }
  }

  // ---------- arrivals ----------

  lemma ArrivedRanges(arrivals: seq<Segment>, x: Segment, r: Range)
    ensures multiset(Ranges(arrivals + [x]))[r] == multiset(Ranges(arrivals))[r] + if x.range == r then 1 else 0
  {
    RangesConcat(arrivals, [x]);
    assert Ranges([x]) == [x.range];
  }

  lemma CoveredGrows(arrivals: seq<Segment>, x: Segment, b: int)
    ensures Covered(arrivals + [x], b) <==> Covered(arrivals, b) || x.range.lo <= b < x.range.hi
  {
    assert x in arrivals + [x];
    if Covered(arrivals, b) {
      var y :| y in arrivals && y.range.lo <= b < y.range.hi;
      assert y in arrivals + [x];
    }
  }

  /** What is queued has arrived. */
  lemma QueuedArrived(s: State, arrivals: seq<Segment>, y: Segment)
    requires HoldsBeyond(s, arrivals) && y in s.queue
    ensures y.range.lo > s.next && exists z :: z in arrivals && z.range == y.range
  {
    RangesOf(s.queue, y);
    assert multiset(Ranges(s.queue))[y.range] > 0;
    assert y.range in Ranges(arrivals);
    RangesOf(arrivals, y);
    var i :| 0 <= i < |arrivals| && arrivals[i].range == y.range;
    assert arrivals[i] in arrivals;
  }

  /** An arrival is behind `next` or wholly beyond it. */
  lemma ArrivedSides(base: int, arrivals: seq<Segment>, s: State, y: Segment)
    requires FirstMissing(base, arrivals, s.next) && y in arrivals
    ensures y.range.hi <= s.next || y.range.lo > s.next
  {
  }

  lemma SegmentedPair(base: int, arrivals: seq<Segment>, x: Segment, y: Segment)
    requires Segmented(base, arrivals) && x in arrivals && y in arrivals && Meet(x.range, y.range)
    ensures x.range == y.range
  {
  }

  lemma SegmentedPrefix(base: int, arrivals: seq<Segment>, x: Segment)
    requires Segmented(base, arrivals + [x])
    ensures Segmented(base, arrivals) && base <= x.range.lo < x.range.hi && x in arrivals + [x]
    ensures forall y :: y in arrivals ==> y in arrivals + [x] && y.range.lo < y.range.hi
  {
    assert (arrivals + [x])[|arrivals|] == x;
    forall i | 0 <= i < |arrivals|
      ensures (arrivals + [x])[i] == arrivals[i]
    {
    }
  }

  /** A new arrival is either wholly old, or starts at or after `next`. */
  lemma NewSides(base: int, arrivals: seq<Segment>, s: State, x: Segment)
    requires FirstMissing(base, arrivals, s.next) && Segmented(base, arrivals + [x])
    ensures x.range.hi <= s.next || x.range.lo >= s.next
  {
    SegmentedPrefix(base, arrivals, x);
    if x.range.lo < s.next < x.range.hi {
      assert Covered(arrivals, s.next - 1);
      var y :| y in arrivals && y.range.lo <= s.next - 1 < y.range.hi;
      SegmentedPair(base, arrivals + [x], x, y);
      ArrivedSides(base, arrivals, s, y);
      assert false;
    }
  }

  lemma NewFits(base: int, arrivals: seq<Segment>, s: State, x: Segment)
    requires HoldsBeyond(s, arrivals) && Segmented(base, arrivals + [x])
    ensures Fits(s.queue, x)
  {
    SegmentedPrefix(base, arrivals, x);
    forall i | 0 <= i < |s.queue| && Meet(s.queue[i].range, x.range)
      ensures s.queue[i].range == x.range
    {
      QueuedArrived(s, arrivals, s.queue[i]);
      var z :| z in arrivals && z.range == s.queue[i].range;
      SegmentedPair(base, arrivals + [x], x, z);
    }
  }

  /** A segment received whole before changes nothing. */
  lemma OldArrival(base: int, arrivals: seq<Segment>, s: State, x: Segment)
    requires Reassembles(base, arrivals, s) && x.range.lo < x.range.hi <= s.next
    ensures Received(s, x) == s && Reassembles(base, arrivals + [x], s)
  {
    hide Ranges, Covered, Sorted, Added;
    forall b
      ensures Covered(arrivals + [x], b) <==> Covered(arrivals, b) || x.range.lo <= b < x.range.hi
    {
      CoveredGrows(arrivals, x, b);
    }
    OldCounts(arrivals, s, x);
  }

  lemma OldCounts(arrivals: seq<Segment>, s: State, x: Segment)
    requires HoldsBeyond(s, arrivals) && x.range.lo <= s.next
    ensures HoldsBeyond(s, arrivals + [x])
  {
    hide Ranges;
    forall r: Range
      ensures multiset(Ranges(arrivals + [x]))[r] == multiset(Ranges(arrivals))[r] + if x.range == r then 1 else 0
    {
      ArrivedRanges(arrivals, x, r);
    }
  }

  /** The direct path does what the queue would have done. */
  lemma DirectIsAdd(s: State, x: Segment)
    requires s.queue == [] && x.range.lo == s.next && x.range.lo < x.range.hi
    ensures Received(s, x) == Added(s, x).0 == State(x.range.hi, [])
  {
    assert Inserted([], x) == [x];
  }

  lemma NewArrivalIsAdded(s: State, x: Segment)
    requires x.range.lo < x.range.hi && x.range.lo >= s.next
    ensures Received(s, x) == Added(s, x).0
  {
    if s.queue == [] && x.range.lo == s.next {
      DirectIsAdd(s, x);
    }
  }

  /** Of every range, `m` holds what arrived, if it lies beyond `next` or is the new one, and otherwise none. */
  ghost predicate JoinedCounts(m: seq<Segment>, next: int, x: Segment, all: seq<Segment>) {
    forall r: Range ::
      multiset(Ranges(m))[r] == if r.lo > next || r == x.range then multiset(Ranges(all))[r] else 0
  }

  /** The queue with the new segment in it. */
  lemma Joined(base: int, arrivals: seq<Segment>, s: State, x: Segment)
    requires Reassembles(base, arrivals, s) && Segmented(base, arrivals + [x]) && x.range.lo >= s.next
    ensures var m := Inserted(s.queue, x);
      && Sorted(m) && JoinedCounts(m, s.next, x, arrivals + [x])
      && (m[0].range.lo > s.next <==> x.range.lo > s.next)
      && m[0].range.lo >= s.next
  {
    var m := Inserted(s.queue, x);
    NewFits(base, arrivals, s, x);
    InsertedIsSorted(s.queue, x);
    InsertedRanges(s.queue, x);
    forall r: Range
      ensures multiset(Ranges(m))[r] ==
              if r.lo > s.next || r == x.range then multiset(Ranges(arrivals + [x]))[r] else 0
    {
      ArrivedRanges(arrivals, x, r);
      if r == x.range && r.lo <= s.next {
        NextNotArrived(base, arrivals, s, x);
      }
    }
    FrontStarts(base, arrivals, s, x);
  }

  lemma NextNotArrived(base: int, arrivals: seq<Segment>, s: State, x: Segment)
    requires FirstMissing(base, arrivals, s.next) && x.range.lo == s.next && x.range.lo < x.range.hi
    ensures multiset(Ranges(arrivals))[x.range] == 0
  {
    if x.range in Ranges(arrivals) {
      RangesOf(arrivals, x);
      var i :| 0 <= i < |arrivals| && arrivals[i].range == x.range;
      ArrivedSides(base, arrivals, s, arrivals[i]);
      assert false;
    }
    assert x.range !in Ranges(arrivals);
  }

  lemma FrontStarts(base: int, arrivals: seq<Segment>, s: State, x: Segment)
    requires Reassembles(base, arrivals, s) && Segmented(base, arrivals + [x]) && x.range.lo >= s.next
    ensures var m := Inserted(s.queue, x);
      && (m[0].range.lo > s.next <==> x.range.lo > s.next) && m[0].range.lo >= s.next
  {
    hide Place;
    var i, m := Place(s.queue, x), Inserted(s.queue, x);
    assert m[i] == x;
    if i > 0 {
      assert m[0] == s.queue[0];
      QueuedArrived(s, arrivals, s.queue[0]);
      NewFits(base, arrivals, s, x);
      PlaceSplits(s.queue, x);
    }
  }

  /** Beyond a hole, a new segment is only queued. */
  lemma HoleStays(base: int, arrivals: seq<Segment>, s: State, x: Segment)
    requires Reassembles(base, arrivals, s) && Segmented(base, arrivals + [x]) && x.range.lo > s.next
    ensures Added(s, x).0 == s.(queue := Inserted(s.queue, x))
    ensures Reassembles(base, arrivals + [x], Added(s, x).0)
  {
    Joined(base, arrivals, s, x);
    forall b
      ensures Covered(arrivals + [x], b) <==> Covered(arrivals, b) || x.range.lo <= b < x.range.hi
    {
      CoveredGrows(arrivals, x, b);
    }
  }

  lemma JoinedArrived(m: seq<Segment>, next: int, x: Segment, all: seq<Segment>, y: Segment)
    requires y in m && JoinedCounts(m, next, x, all)
    ensures exists z :: z in all && z.range == y.range
  {
    RangesOf(m, y);
    assert multiset(Ranges(m))[y.range] > 0;
    assert y.range in Ranges(all);
    RangesOf(all, y);
    var i :| 0 <= i < |all| && all[i].range == y.range;
    assert all[i] in all;
  }

  lemma JoinedReleased(m: seq<Segment>, n: nat, next: int, x: Segment, all: seq<Segment>)
    requires Front(m, n) && JoinedCounts(m, next, x, all) && x.range.lo <= next < m[n - 1].range.hi
    ensures HoldsBeyond(State(m[n - 1].range.hi, m[n..]), all)
  {
    hide Ranges;
    var s := State(m[n - 1].range.hi, m[n..]);
    forall r: Range
      ensures multiset(Ranges(s.queue))[r] == if r.lo > s.next then multiset(Ranges(all))[r] else 0
    {
      FrontCounts(m, n, r);
    }
  }

  lemma FrontCounts(m: seq<Segment>, n: nat, r: Range)
    requires Front(m, n)
    ensures multiset(Ranges(m[n..]))[r] == if r.lo > m[n - 1].range.hi then multiset(Ranges(m))[r] else 0
  {
    ReleasedCounts(m, n, m[n - 1].range.hi, r);
  }

  lemma {:induction false} FlagsAre(q: seq<Segment>, m: bv8)
    ensures Flags(q) & m != 0 <==> exists y :: y in q && y.flags & m != 0
  {
    if q != [] {
      var rest, last := q[..|q| - 1], q[|q| - 1];
      FlagsAre(rest, m);
      EitherFlag(Flags(rest), last.flags, m);
      assert q == rest + [last];
      if y :| y in q && y.flags & m != 0 {
        assert y in rest || y == last;
      }
    }
  }

  lemma EitherFlag(a: bv8, b: bv8, m: bv8)
    ensures (a | b) & m != 0 <==> a & m != 0 || b & m != 0
  {
    assert (a | b) & m == (a & m) | (b & m);
  }

  /** Whatever is added: add loses no segment, and returns exactly the flags of those it releases. */
  lemma AddedFlags(s: State, x: Segment, m: bv8)
    ensures var (t, flags) := Added(s, x);
      && multiset(t.queue) <= multiset(s.queue + [x])
      && (flags & m != 0 <==> exists y :: y in multiset(s.queue + [x]) - multiset(t.queue) && y.flags & m != 0)
  {
    var all := Inserted(s.queue, x);
    InsertedCounts(s.queue, x);
    hide InSequence, Flags, Inserted;
    if all[0].range.lo <= s.next {
      FrontFlags(all, InSequence(all), m);
    }
  }

  lemma InsertedCounts(q: seq<Segment>, x: Segment)
    ensures multiset(Inserted(q, x)) == multiset(q + [x])
  {
    hide Place;
    assert q == q[..Place(q, x)] + q[Place(q, x)..];
  }

  lemma FrontFlags(all: seq<Segment>, n: nat, m: bv8)
    requires n <= |all|
    ensures multiset(all[n..]) <= multiset(all)
    ensures Flags(all[..n]) & m != 0 <==> exists y :: y in multiset(all) - multiset(all[n..]) && y.flags & m != 0
  {
    FlagsAre(all[..n], m);
    hide Flags;
    assert all == all[..n] + all[n..];
    assert multiset(all[..n]) == multiset(all) - multiset(all[n..]);
    assert forall y :: y in all[..n] <==> y in multiset(all[..n]);
  }

  /** The segment that fills the hole releases what follows it. */
  lemma HoleFills(base: int, arrivals: seq<Segment>, s: State, x: Segment)
    requires Reassembles(base, arrivals, s) && Segmented(base, arrivals + [x]) && x.range.lo == s.next
    ensures Reassembles(base, arrivals + [x], Added(s, x).0)
  {
    hide Inserted, InSequence, Flags, HoldsBeyond, JoinedCounts, Front, FirstMissing, Segmented;
    var m := Inserted(s.queue, x);
    Joined(base, arrivals, s, x);
    assert m != [] && m[0].range.lo == s.next;
    FrontIsContiguous(m);
    var n := InSequence(m);
    assert Added(s, x).0 == State(m[n - 1].range.hi, m[n..]);
    ReleasedIsFirst(base, arrivals, s, x, m, n);
    JoinedReleased(m, n, s.next, x, arrivals + [x]);
  }

  lemma ReleasedIsFirst(base: int, arrivals: seq<Segment>, s: State, x: Segment, m: seq<Segment>, n: nat)
    requires FirstMissing(base, arrivals, s.next) && Segmented(base, arrivals + [x]) && x.range.lo == s.next
    requires m != [] && m[0].range.lo == s.next && JoinedCounts(m, s.next, x, arrivals + [x]) && Front(m, n)
    ensures m[n - 1].range.hi > s.next
    ensures FirstMissing(base, arrivals + [x], m[n - 1].range.hi)
  {
    hide JoinedCounts;
    var next, all := m[n - 1].range.hi, arrivals + [x];
    SegmentedPrefix(base, arrivals, x);
    FrontHasStart(arrivals, s.next, x, m);
    var i :| 0 <= i < |m| && m[i].range == x.range;
    assert i < n;
    forall b | base <= b < next
      ensures Covered(all, b)
    {
      CoveredGrows(arrivals, x, b);
      if b >= s.next {
        FrontCovers(all, s.next, x, m, n, b);
      }
    }
    hide Covered, Segmented;
    if Covered(all, next) {
      GapAfterFront(base, arrivals, s, x, m, n);
    }
  }

  lemma FrontCovers(all: seq<Segment>, next: int, x: Segment, m: seq<Segment>, n: nat, b: int)
    requires JoinedCounts(m, next, x, all) && Front(m, n) && m[0].range.lo <= b < m[n - 1].range.hi
    ensures Covered(all, b)
  {
    assert Covered(m[..n], b);
    var y :| y in m[..n] && y.range.lo <= b < y.range.hi;
    JoinedArrived(m, next, x, all, y);
  }

  lemma GapAfterFront(base: int, arrivals: seq<Segment>, s: State, x: Segment, m: seq<Segment>, n: nat)
    requires FirstMissing(base, arrivals, s.next)
    requires JoinedCounts(m, s.next, x, arrivals + [x]) && Front(m, n) && m[n - 1].range.hi > s.next
    ensures !Covered(arrivals + [x], m[n - 1].range.hi)
  {
    forall y | y in arrivals + [x]
      ensures y.range.hi <= m[n - 1].range.hi || m[n - 1].range.hi < y.range.lo
    {
      ArrivalApart(base, arrivals, s, x, m, n, y);
    }
  }

  lemma ArrivalApart(base: int, arrivals: seq<Segment>, s: State, x: Segment, m: seq<Segment>, n: nat, y: Segment)
    requires FirstMissing(base, arrivals, s.next)
    requires JoinedCounts(m, s.next, x, arrivals + [x]) && Front(m, n) && m[n - 1].range.hi > s.next
    requires y in arrivals + [x]
    ensures y.range.hi <= m[n - 1].range.hi || m[n - 1].range.hi < y.range.lo
  {
    if y.range.lo > s.next || y.range == x.range {
      RangesOf(arrivals + [x], y);
      assert multiset(Ranges(m))[y.range] == multiset(Ranges(arrivals + [x]))[y.range] > 0;
      assert y.range in Ranges(m);
      var i :| 0 <= i < |m| && Ranges(m)[i] == y.range;
      FrontApart(m, n, i);
    } else {
      ArrivedSides(base, arrivals, s, y);
    }
  }

  lemma FrontApart(m: seq<Segment>, n: nat, i: nat)
    requires Front(m, n) && i < |m|
    ensures m[i].range.hi <= m[n - 1].range.hi || m[n - 1].range.hi < m[i].range.lo
  {
  }

  lemma FrontHasStart(arrivals: seq<Segment>, next: int, x: Segment, m: seq<Segment>)
    requires JoinedCounts(m, next, x, arrivals + [x])
    ensures exists i :: 0 <= i < |m| && m[i].range == x.range
  {
    assert x in arrivals + [x];
    RangesOf(arrivals + [x], x);
    assert multiset(Ranges(arrivals + [x]))[x.range] > 0;
    assert x.range in Ranges(m);
    var i :| 0 <= i < |m| && Ranges(m)[i] == x.range;
    assert m[i].range == x.range;
  }

  /** One arrival keeps the promise. */
  lemma ArrivalReassembles(base: int, arrivals: seq<Segment>, s: State, x: Segment)
    requires Reassembles(base, arrivals, s) && Segmented(base, arrivals + [x])
    ensures Reassembles(base, arrivals + [x], Received(s, x))
  {
    hide Reassembles, Received, Added;
    assert FirstMissing(base, arrivals, s.next) by {
      FirstOf(base, arrivals, s);
    }
    SegmentedPrefix(base, arrivals, x);
    NewSides(base, arrivals, s, x);
    if x.range.hi <= s.next {
      OldArrival(base, arrivals, s, x);
    } else {
      NewArrivalIsAdded(s, x);
      if x.range.lo > s.next {
        HoleStays(base, arrivals, s, x);
      } else {
        HoleFills(base, arrivals, s, x);
      }
    }
  }

  lemma FirstOf(base: int, arrivals: seq<Segment>, s: State)
    requires Reassembles(base, arrivals, s)
    ensures FirstMissing(base, arrivals, s.next)
  {
  }

  /** In any order, with repetitions: `next` is the end of the contiguous prefix received, and the queue holds, in
  order, exactly the arrivals beyond it. */
  lemma {:induction false} StreamReassembles(base: int, arrivals: seq<Segment>)
    requires Segmented(base, arrivals)
    ensures Reassembles(base, arrivals, Stream(base, arrivals))
  {
    if arrivals == [] {
      assert multiset(Ranges(arrivals)) == multiset{};
    } else {
      var n := |arrivals| - 1;
      assert arrivals == arrivals[..n] + [arrivals[n]];
      SegmentedPrefix(base, arrivals[..n], arrivals[n]);
      StreamReassembles(base, arrivals[..n]);
      ArrivalReassembles(base, arrivals[..n], Stream(base, arrivals[..n]), arrivals[n]);
    }
  }

  // ---------- order does not matter ----------

  lemma FirstMissingUnique(base: int, a: seq<Segment>, b: seq<Segment>, n: int, m: int)
    requires FirstMissing(base, a, n) && FirstMissing(base, b, m)
    requires forall x :: Covered(a, x) <==> Covered(b, x)
    ensures n == m
  {
  }

  lemma {:induction false} SortedUnique(q: seq<Segment>, p: seq<Segment>)
    requires Sorted(q) && Sorted(p) && multiset(Ranges(q)) == multiset(Ranges(p))
    ensures Ranges(q) == Ranges(p)
  {
    if q == [] || p == [] {
      assert |multiset(Ranges(q))| == |q| && |multiset(Ranges(p))| == |p|;
    } else {
      HeadIsFirst(q, p);
      HeadIsFirst(p, q);
      SortedTail(q);
      SortedTail(p);
      hide Sorted, Ranges;
      SortedUnique(q[1..], p[1..]);
    }
  }

  lemma SortedTail(q: seq<Segment>)
    requires Sorted(q) && q != []
    ensures Sorted(q[1..]) && q[0].range.lo < q[0].range.hi
    ensures Ranges(q) == [q[0].range] + Ranges(q[1..])
    ensures multiset(Ranges(q[1..])) == multiset(Ranges(q)) - multiset{q[0].range}
  {
    assert Ranges(q) == [q[0].range] + Ranges(q[1..]);
  }

  lemma HeadIsFirst(q: seq<Segment>, p: seq<Segment>)
    requires Sorted(q) && Sorted(p) && multiset(Ranges(q)) == multiset(Ranges(p)) && q != [] && p != []
    ensures p[0].range == q[0].range || p[0].range.hi <= q[0].range.lo
  {
    assert Ranges(q)[0] == q[0].range;
    assert q[0].range in multiset(Ranges(p));
    var i :| 0 <= i < |p| && Ranges(p)[i] == q[0].range;
    assert p[i].range == q[0].range;
  }

  lemma SameCover(a: seq<Segment>, b: seq<Segment>, x: int)
    requires (forall r :: r in Ranges(a) ==> r in Ranges(b)) && Covered(a, x)
    ensures Covered(b, x)
  {
    var y :| y in a && y.range.lo <= x < y.range.hi;
    RangesOf(a, y);
    assert y.range in Ranges(b);
    var i :| 0 <= i < |b| && Ranges(b)[i] == y.range;
    assert b[i] in b && b[i].range == y.range;
  }

  /** Neither order nor repetition moves the next byte expected. */
  lemma RepetitionIsIrrelevant(base: int, a: seq<Segment>, b: seq<Segment>)
    requires Segmented(base, a) && Segmented(base, b)
    requires forall r :: r in Ranges(a) <==> r in Ranges(b)
    ensures Stream(base, a).next == Stream(base, b).next
  {
    StreamReassembles(base, a);
    StreamReassembles(base, b);
    forall x
      ensures Covered(a, x) <==> Covered(b, x)
    {
      if Covered(a, x) {
        SameCover(a, b, x);
      }
      if Covered(b, x) {
        SameCover(b, a, x);
      }
    }
    FirstMissingUnique(base, a, b, Stream(base, a).next, Stream(base, b).next);
  }

  /** The outcome depends on which segments arrived, and how often, but not on their order. */
  lemma OrderIsIrrelevant(base: int, a: seq<Segment>, b: seq<Segment>)
    requires Segmented(base, a) && Segmented(base, b) && multiset(Ranges(a)) == multiset(Ranges(b))
    ensures Stream(base, a).next == Stream(base, b).next
    ensures Ranges(Stream(base, a).queue) == Ranges(Stream(base, b).queue)
  {
    StreamReassembles(base, a);
    StreamReassembles(base, b);
    var s, t := Stream(base, a), Stream(base, b);
    assert forall r :: r in Ranges(a) <==> r in multiset(Ranges(b));
    RepetitionIsIrrelevant(base, a, b);
    assert multiset(Ranges(s.queue)) == multiset(Ranges(t.queue));
    SortedUnique(s.queue, t.queue);
  }

  /** Once every byte up to `end` has arrived, all of them have been handed on and nothing is queued. */
  lemma CompleteStreamIsDelivered(base: int, arrivals: seq<Segment>, end: int)
    requires Segmented(base, arrivals) && base <= end
    requires forall b :: base <= b < end ==> Covered(arrivals, b)
    requires forall x :: x in arrivals ==> x.range.hi <= end
    ensures Stream(base, arrivals) == State(end, [])
  {
    StreamReassembles(base, arrivals);
    var s := Stream(base, arrivals);
    assert !Covered(arrivals, end);
    assert s.next == end;
    if s.queue != [] {
      QueuedArrived(s, arrivals, s.queue[0]);
      assert false;
    }
  }

  // ---------- segments that overlap in part ----------

  /** What a caller can see of a segment before it comes: it is wholly old, or nothing is queued, or it starts beyond
  the next byte expected, or it starts there and ends before anything queued. */
  predicate Manageable(s: State, x: Range) {
    x.hi <= s.next || s.queue == [] || x.lo > s.next || (x.lo == s.next && x.hi <= s.queue[0].range.lo)
  }

  /** A segment that reaches into the queue is put behind what it reaches, and nothing is released. */
  lemma ReachingIn(s: State, y: Segment)
    requires Sorted(s.queue) && s.queue != [] && s.next < s.queue[0].range.lo
    requires y.range.lo == s.next && y.range.hi > s.queue[0].range.lo
    ensures Added(s, y).0.next == s.next
  {
    assert Place(s.queue, y) > 0;
    hide Place;
    assert Inserted(s.queue, y)[0] == s.queue[0];
  }

  /** One that ends before the queue is released, with or without what follows. */
  lemma StandingClear(s: State, y: Segment)
    requires Sorted(s.queue) && s.queue != [] && s.next < s.queue[0].range.lo
    requires y.range.lo == s.next && y.range.lo < y.range.hi <= s.queue[0].range.lo
    ensures Added(s, y).0.next >= y.range.hi
  {
    assert s.queue[|s.queue| - 1].range.hi > s.queue[0].range.lo by {
      assert |s.queue| > 1 ==> s.queue[0].range == s.queue[|s.queue| - 1].range
                               || s.queue[0].range.hi <= s.queue[|s.queue| - 1].range.lo;
    }
    assert Place(s.queue, y) == 0;
    var m := Inserted(s.queue, y);
    assert m == [y] + s.queue;
    FrontIsContiguous(m);
    assert m[0] == y;
    hide InSequence;
  }

  /** Beyond the next byte, only queued bytes have come. */
  lemma ArrivedIsQueued(base: int, arrivals: seq<Segment>, s: State, b: int)
    requires Reassembles(base, arrivals, s) && Covered(arrivals, b) && b >= s.next
    ensures s.queue != [] && b >= s.queue[0].range.lo
  {
    var y :| y in arrivals && y.range.lo <= b < y.range.hi;
    ArrivedSides(base, arrivals, s, y);
    RangesOf(arrivals, y);
    assert multiset(Ranges(arrivals))[y.range] > 0;
    assert y.range in Ranges(s.queue) by {
      assert multiset(Ranges(s.queue))[y.range] > 0;
    }
    var i :| 0 <= i < |s.queue| && Ranges(s.queue)[i] == y.range;
    assert s.queue[i].range == y.range;
    assert i > 0 ==> s.queue[0].range == s.queue[i].range || s.queue[0].range.hi <= s.queue[i].range.lo;
  }

  lemma QueueIsBeyond(s: State, arrivals: seq<Segment>)
    requires HoldsBeyond(s, arrivals) && s.queue != []
    ensures s.next < s.queue[0].range.lo
  {
    QueuedArrived(s, arrivals, s.queue[0]);
  }

  /** A segment that starts beyond the next byte leaves it alone, wherever it goes. */
  lemma FarArrival(base: int, arrivals: seq<Segment>, s: State, x: Segment)
    requires Reassembles(base, arrivals, s) && s.next < x.range.lo < x.range.hi
    ensures FirstMissing(base, arrivals + [x], Received(s, x).next)
  {
    assert Received(s, x).next == s.next by {
      var i, m := Place(s.queue, x), Inserted(s.queue, x);
      hide Place;
      assert m[0] == if i == 0 then x else s.queue[0];
      if i > 0 {
        QueueIsBeyond(s, arrivals);
      }
    }
    hide Received, Covered;
    forall b
      ensures Covered(arrivals + [x], b) <==> Covered(arrivals, b) || x.range.lo <= b < x.range.hi
    {
      CoveredGrows(arrivals, x, b);
    }
  }

  /** With nothing queued, a segment that is new in part is taken up to its end. */
  lemma DirectArrival(base: int, arrivals: seq<Segment>, s: State, x: Segment)
    requires Reassembles(base, arrivals, s) && s.queue == [] && base <= x.range.lo <= s.next < x.range.hi
    ensures Received(s, x).next == x.range.hi && FirstMissing(base, arrivals + [x], x.range.hi)
  {
    forall b
      ensures Covered(arrivals + [x], b) <==> Covered(arrivals, b) || x.range.lo <= b < x.range.hi
    {
      CoveredGrows(arrivals, x, b);
    }
    if Covered(arrivals, x.range.hi) {
      ArrivedIsQueued(base, arrivals, s, x.range.hi);
      assert false;
    }
  }

  /** A segment that fills the space before the queue, or part of it, overlaps nothing that has come. */
  lemma ClearIsSegmented(base: int, arrivals: seq<Segment>, s: State, x: Segment)
    requires Reassembles(base, arrivals, s) && Segmented(base, arrivals) && s.queue != []
    requires base <= x.range.lo == s.next < x.range.hi <= s.queue[0].range.lo
    ensures Segmented(base, arrivals + [x])
  {
    forall y | y in arrivals
      ensures !Meet(y.range, x.range)
    {
      ArrivedSides(base, arrivals, s, y);
      if y.range.lo > s.next {
        assert y.range.lo < y.range.hi;
        assert Covered(arrivals, y.range.lo);
        ArrivedIsQueued(base, arrivals, s, y.range.lo);
      }
    }
  }

  /** The segment as add takes it: the start is trimmed and the length is not. */
  function Mistrimmed(s: State, x: Segment): Segment {
    x.(range := Range(s.next, s.next + (x.range.hi - x.range.lo)))
  }

  lemma OverlapIsAdded(s: State, x: Segment)
    requires s.queue != [] && x.range.lo <= s.next < x.range.hi
    ensures Received(s, x) == Added(s, Mistrimmed(s, x)).0
  {
    hide Added;
  }

  lemma ReassemblesParts(base: int, arrivals: seq<Segment>, s: State)
    requires Reassembles(base, arrivals, s)
    ensures Sorted(s.queue) && FirstMissing(base, arrivals, s.next)
    ensures s.queue != [] ==> s.next < s.queue[0].range.lo
  {
    if s.queue != [] {
      QueueIsBeyond(s, arrivals);
    }
  }

  /** With others queued, a segment that has the next byte leaves it waiting if and only if, with its length counted
  from there, it reaches into the queue. */
  lemma OverlapStallsIff(base: int, arrivals: seq<Segment>, s: State, x: Segment)
    requires Reassembles(base, arrivals, s) && s.queue != [] && x.range.lo <= s.next < x.range.hi
    ensures Received(s, x).next == s.next <==> s.next + (x.range.hi - x.range.lo) > s.queue[0].range.lo
    ensures Covered(arrivals + [x], s.next)
  {
    hide Reassembles, Received, Added, Sorted, Covered, FirstMissing;
    ReassemblesParts(base, arrivals, s);
    OverlapIsAdded(s, x);
    CoveredGrows(arrivals, x, s.next);
    if s.next + (x.range.hi - x.range.lo) > s.queue[0].range.lo {
      ReachingIn(s, Mistrimmed(s, x));
    } else {
      StandingClear(s, Mistrimmed(s, x));
    }
  }

  /** It runs on past a byte that has not come if and only if it is old in part and, so counted, ends before the
  queue; the byte is the one right behind it. */
  lemma OverlapOverrunsIff(base: int, arrivals: seq<Segment>, s: State, x: Segment)
    requires Reassembles(base, arrivals, s) && Segmented(base, arrivals) && s.queue != []
    requires base <= x.range.lo <= s.next < x.range.hi
    ensures x.range.hi < Received(s, x).next && !Covered(arrivals + [x], x.range.hi) <==>
            x.range.lo < s.next && s.next + (x.range.hi - x.range.lo) <= s.queue[0].range.lo
  {
    hide Reassembles, Received, Added, Sorted, Covered;
    ReassemblesParts(base, arrivals, s);
    OverlapStallsIff(base, arrivals, s, x);
    CoveredGrows(arrivals, x, x.range.hi);
    if s.next + (x.range.hi - x.range.lo) <= s.queue[0].range.lo {
      if x.range.lo < s.next {
        OverlapIsAdded(s, x);
        StandingClear(s, Mistrimmed(s, x));
        if Covered(arrivals, x.range.hi) {
          ArrivedIsQueued(base, arrivals, s, x.range.hi);
          assert false;
        }
      } else {
        ClearIsSegmented(base, arrivals, s, x);
        ArrivalReassembles(base, arrivals, s, x);
        FirstOf(base, arrivals + [x], Received(s, x));
      }
    }
  }

  /** After any one arrival, whole or not, the next byte expected is right if and only if the arrival was manageable. */
  lemma ArrivalIsRightIff(base: int, arrivals: seq<Segment>, s: State, x: Segment)
    requires Reassembles(base, arrivals, s) && Segmented(base, arrivals) && base <= x.range.lo < x.range.hi
    ensures FirstMissing(base, arrivals + [x], Received(s, x).next) <==> Manageable(s, x.range)
  {
    hide Reassembles, Received, Segmented, FirstMissing;
    if x.range.hi <= s.next {
      OldArrival(base, arrivals, s, x);
      FirstOf(base, arrivals + [x], s);
    } else if x.range.lo > s.next {
      FarArrival(base, arrivals, s, x);
    } else if s.queue == [] {
      DirectArrival(base, arrivals, s, x);
    } else {
      OverlapIsRightIff(base, arrivals, s, x);
    }
  }

  lemma OverlapIsRightIff(base: int, arrivals: seq<Segment>, s: State, x: Segment)
    requires Reassembles(base, arrivals, s) && Segmented(base, arrivals) && s.queue != []
    requires base <= x.range.lo <= s.next < x.range.hi
    ensures FirstMissing(base, arrivals + [x], Received(s, x).next) <==>
            x.range.lo == s.next && x.range.hi <= s.queue[0].range.lo
  {
    hide Reassembles, Received, Segmented;
    OverlapStallsIff(base, arrivals, s, x);
    OverlapOverrunsIff(base, arrivals, s, x);
    if x.range.lo == s.next && x.range.hi <= s.queue[0].range.lo {
      ClearIsSegmented(base, arrivals, s, x);
      ArrivalReassembles(base, arrivals, s, x);
      FirstOf(base, arrivals + [x], Received(s, x));
    }
  }

  /** An instance that stalls: byte 5 has arrived, but a queued segment of later bytes was put before it. */
  lemma PartialOverlapStalls()
    ensures var arrivals := [Segment(Range(10, 20), 0), Segment(Range(5, 30), 0)];
      Covered(arrivals, 5) && Stream(5, arrivals).next == 5
  {
    var a, b := Segment(Range(10, 20), 0), Segment(Range(5, 30), 0);
    assert [a, b][..1] == [a] && [a][..0] == [];
    assert Stream(5, []) == State(5, []);
    assert Inserted([], a) == [a];
    assert Stream(5, [a]) == State(5, [a]);
    assert Skip([a], 30) == 1 by {
      assert Skip([a][1..], 30) == 0;
    }
    assert Inserted([a], b) == [a, b];
    assert b in [a, b];
  }

  /** An instance that overruns: the stream runs on to 15, though bytes 10 to 14 never arrived. */
  lemma TrimmedOverlapOverruns()
    ensures var arrivals := [Segment(Range(0, 5), 0), Segment(Range(20, 30), 0), Segment(Range(0, 10), 0)];
      !Covered(arrivals, 10) && Stream(0, arrivals).next == 15
  {
    var a, b, c := Segment(Range(0, 5), 0), Segment(Range(20, 30), 0), Segment(Range(0, 10), 0);
    StreamStep(0, [], a);
    StreamStep(0, [a], b);
    StreamStep(0, [a, b], c);
    assert [] + [a] == [a] && [a] + [b] == [a, b] && [a, b] + [c] == [a, b, c];
    assert Stream(0, []) == State(0, []);
    hide Stream, Covered;
    assert Stream(0, [a]) == State(5, []);
    assert Stream(0, [a, b]) == State(5, [b]) by {
      assert Inserted([], b) == [b];
    }
    assert Received(State(5, [b]), c) == Added(State(5, [b]), Segment(Range(5, 15), 0)).0;
    hide Received, Added;
    OverrunStep(b, Segment(Range(5, 15), 0));
    NotCoveredByThree(a, b, c, 10);
  }

  lemma StreamStep(base: int, arrivals: seq<Segment>, x: Segment)
    ensures Stream(base, arrivals + [x]) == Received(Stream(base, arrivals), x)
  {
    assert (arrivals + [x])[..|arrivals|] == arrivals;
  }

  lemma NotCoveredByThree(a: Segment, b: Segment, c: Segment, n: int)
    requires !(a.range.lo <= n < a.range.hi) && !(b.range.lo <= n < b.range.hi) && !(c.range.lo <= n < c.range.hi)
    ensures !Covered([a, b, c], n)
  {
  }

  lemma OverrunStep(b: Segment, d: Segment)
    requires b.range == Range(20, 30) && d.range == Range(5, 15)
    ensures Added(State(5, [b]), d).0 == State(15, [b])
  {
    assert Inserted([b], d) == [d, b];
    assert InSequence([d, b]) == 1;
    assert [d, b][1..] == [b];
  }
}
