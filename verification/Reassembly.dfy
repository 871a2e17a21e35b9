/** The reassembly queue as it is built: a doubly linked list, and the data part of recv above it. */
module Reassembly {
  import opened ReassemblySpec

  class SegInfo {
    var next: SegInfo?
    var prev: SegInfo?
    const startseq: int
    const endseq: int
    const flags: bv8

    constructor (x: Segment)
      ensures Value() == x
    {
      startseq, endseq, flags := x.range.lo, x.range.hi, x.flags;
    }

    ghost function Value(): Segment {
      Segment(Range(startseq, endseq), flags)
    }
  }

  /** The original shares rcv_nxt_ with the agent through a reference; here the agent reads it from the queue. */
  class ReassemblyQueue {
    var head: SegInfo?
    var tail: SegInfo?
    var rcvNxt: int
    ghost var nodes: seq<SegInfo>

    ghost predicate Valid()
      reads this, nodes
    {
      Chained(nodes) && head == At(nodes, 0) && tail == At(nodes, |nodes| - 1)
    }

    static ghost predicate Chained(nodes: seq<SegInfo>)
      reads nodes
    {
      && Apart(nodes)
      && (forall i {:trigger nodes[i].next} :: 0 <= i < |nodes| ==> nodes[i].next == At(nodes, i + 1))
      && (forall i {:trigger nodes[i].prev} :: 0 <= i < |nodes| ==> nodes[i].prev == At(nodes, i - 1))
    }

    static ghost predicate Apart(nodes: seq<SegInfo>) {
      forall i, j :: 0 <= i < j < |nodes| ==> nodes[i] != nodes[j]
    }

    static function At(nodes: seq<SegInfo>, i: int): SegInfo? {
      if 0 <= i < |nodes| then nodes[i] else null
    }

    static ghost function Values(nodes: seq<SegInfo>): (q: seq<Segment>)
      ensures |q| == |nodes|
    {
      seq(|nodes|, i requires 0 <= i < |nodes| => nodes[i].Value())
    }

    ghost function Snap(): State
      reads this
    {
      State(rcvNxt, Values(nodes))
    }

    constructor (next: int)
      ensures Valid() && Snap() == State(next, [])
    {
      head, tail, rcvNxt := null, null, next;
      nodes := [];
    }

    /** In-order data goes past an empty queue. */
    method Advance(n: nat)
      requires Valid()
      modifies this`rcvNxt
      ensures Valid() && Snap() == old(Snap()).(next := old(rcvNxt) + n)
    {
      rcvNxt := rcvNxt + n;
    }

    /** clear: the nodes are left to the collector. */
    method Clear()
      requires Valid()
      modifies this
      ensures Valid() && Snap() == State(old(rcvNxt), [])
    {
      head, tail := null, null;
      nodes := [];
    }

    /** The search for the segment before which a new one belongs. */
    method Search(end: int) returns (p: SegInfo?, ghost i: nat)
      requires Valid()
      ensures i == Skip(Values(nodes), end) && p == At(nodes, i - 1)
    {
      var q := head;
      i := 0;
      while q != null && end > q.startseq
        invariant 0 <= i <= |nodes| && q == At(nodes, i)
        invariant forall k :: 0 <= k < i ==> nodes[k].startseq < end
        decreases |nodes| - i
      {
        q, i := q.next, i + 1;
      }
      SkipUnique(Values(nodes), end, i);
      if q == null {
        p := tail;
      } else {
        p := q.prev;
      }
    }

    /** Put `n` in an empty list. */
    method LinkOnly(n: SegInfo)
      requires Valid() && nodes == []
      modifies this, n
      ensures Valid() && nodes == [n] && rcvNxt == old(rcvNxt)
    {
      head, tail := n, n;
      n.prev, n.next := null, null;
      nodes := [n];
    }

    /** Put `n` in front of all others. */
    method LinkFirst(n: SegInfo)
      requires Valid() && nodes != [] && n !in nodes
      modifies this, nodes, n
      ensures Valid() && nodes == [n] + old(nodes) && rcvNxt == old(rcvNxt)
    {
      n.next := head;
      n.prev := null;
      head.prev := n;
      head := n;
      ghost var was := nodes;
      assert forall k {:trigger was[k].next} :: 0 <= k < |was| ==> was[k].next == At(was, k + 1);
      assert forall k {:trigger was[k].prev} :: 0 <= k < |was| ==> was[k].prev == if k == 0 then n else At(was, k - 1);
      nodes := [n] + nodes;
      assert nodes[0] == n && forall k :: 0 < k < |nodes| ==> nodes[k] == was[k - 1];
    }

    /** Put `n` behind `p`. */
    method LinkAfter(p: SegInfo, n: SegInfo, ghost i: nat)
      requires Valid() && 0 < i <= |nodes| && p == nodes[i - 1] && n !in nodes
      modifies this, nodes, n
      ensures Valid() && nodes == old(nodes)[..i] + [n] + old(nodes)[i..] && rcvNxt == old(rcvNxt)
    {
      ghost var was := nodes;
      n.next := p.next;
      if p.next != null {
        p.next.prev := n;
      }
      assert forall k {:trigger was[k].prev} :: 0 <= k < |was| ==> was[k].prev == if k == i then n else At(was, k - 1);
      p.next := n;
      assert forall k {:trigger was[k].next} ::
          0 <= k < |was| ==> was[k].next == if k == i - 1 then n else At(was, k + 1);
      n.prev := p;
      if p == tail {
        tail := n;
      }
      assert forall k {:trigger was[k].prev} :: 0 <= k < |was| ==> was[k].prev == if k == i then n else At(was, k - 1);
      assert Apart(was);
      hide Apart, Chained;
      Joined(was, n, i);
      nodes := was[..i] + [n] + was[i..];
    }

    /** With `n` between its neighbours, the longer list is a chain. */
    static lemma Joined(was: seq<SegInfo>, n: SegInfo, i: nat)
      requires 0 < i <= |was| && n !in was && Apart(was)
      requires n.next == At(was, i) && n.prev == was[i - 1]
      requires forall k {:trigger was[k].next} ::
                 0 <= k < |was| ==> was[k].next == if k == i - 1 then n else At(was, k + 1)
      requires forall k {:trigger was[k].prev} ::
                 0 <= k < |was| ==> was[k].prev == if k == i then n else At(was, k - 1)
      ensures var now := was[..i] + [n] + was[i..];
        Chained(now) && now[0] == was[0] && now[|now| - 1] == if i == |was| then n else was[|was| - 1]
    {
      var now := was[..i] + [n] + was[i..];
      JoinedApart(was, n, i);
      forall k | 0 <= k < |now|
        ensures now[k].next == At(now, k + 1) && now[k].prev == At(now, k - 1)
      {
        JoinedAt(was, n, i, k);
        JoinedAt(was, n, i, k + 1);
        JoinedAt(was, n, i, k - 1);
      }
    }

    static lemma JoinedAt(was: seq<SegInfo>, n: SegInfo, i: nat, k: int)
      requires i <= |was|
      ensures At(was[..i] + [n] + was[i..], k) == if k < i then At(was, k) else if k == i then n else At(was, k - 1)
    {
    }

    static lemma JoinedApart(was: seq<SegInfo>, n: SegInfo, i: nat)
      requires i <= |was| && n !in was && Apart(was)
      ensures Apart(was[..i] + [n] + was[i..])
    {
    }

    /** Take `q` out of the list. */
    method Unlink(q: SegInfo, ghost i: nat)
      requires Valid() && i < |nodes| && q == nodes[i]
      modifies this, nodes
      ensures Valid() && nodes == old(nodes)[..i] + old(nodes)[i + 1..] && rcvNxt == old(rcvNxt)
      ensures q.next == old(q.next)
    {
      ghost var was := nodes;
      assert q.prev == At(was, i - 1) && q.next == At(was, i + 1);
      if q.prev != null {
        q.prev.next := q.next;
      } else {
        head := q.next;
      }
      assert forall k {:trigger was[k].next} ::
          0 <= k < |was| ==> was[k].next == At(was, if k == i - 1 then k + 2 else k + 1);
      if q.next != null {
        q.next.prev := q.prev;
      } else {
        tail := q.prev;
      }
      assert forall k {:trigger was[k].prev} ::
          0 <= k < |was| ==> was[k].prev == At(was, if k == i + 1 then k - 2 else k - 1);
      assert Apart(was);
      hide Apart, Chained;
      ClosedUp(was, i);
      nodes := was[..i] + was[i + 1..];
    }

    /** With the neighbours of node `i` linked to each other, the shorter list is a chain. */
    static lemma ClosedUp(was: seq<SegInfo>, i: nat)
      requires i < |was| && Apart(was)
      requires forall k {:trigger was[k].next} ::
                 0 <= k < |was| ==> was[k].next == At(was, if k == i - 1 then k + 2 else k + 1)
      requires forall k {:trigger was[k].prev} ::
                 0 <= k < |was| ==> was[k].prev == At(was, if k == i + 1 then k - 2 else k - 1)
      ensures var now := was[..i] + was[i + 1..];
        && Chained(now) && At(now, 0) == At(was, if i == 0 then 1 else 0)
        && At(now, |now| - 1) == At(was, if i == |was| - 1 then |was| - 2 else |was| - 1)
    {
      var now := was[..i] + was[i + 1..];
      ClosedApart(was, i);
      forall k | 0 <= k < |now|
        ensures now[k].next == At(now, k + 1) && now[k].prev == At(now, k - 1)
      {
        ClosedAt(was, i, k);
        ClosedAt(was, i, k + 1);
        ClosedAt(was, i, k - 1);
      }
    }

    static lemma ClosedAt(was: seq<SegInfo>, i: nat, k: int)
      requires i < |was|
      ensures At(was[..i] + was[i + 1..], k) == if k < i then At(was, k) else At(was, k + 1)
    {
    }

    static lemma ClosedApart(was: seq<SegInfo>, i: nat)
      requires i < |was| && Apart(was)
      ensures Apart(was[..i] + was[i + 1..])
    {
    }

    method UnlinkHead(q: SegInfo)
      requires Valid() && nodes != [] && q == nodes[0]
      modifies this, nodes
      ensures Valid() && nodes == old(nodes)[1..] && rcvNxt == old(rcvNxt) && q.next == old(q.next)
    {
      hide Valid;
      Unlink(q, 0);
    }

    method Insert(x: Segment)
      requires Valid()
      modifies this, nodes
      ensures Valid() && Snap() == State(old(rcvNxt), Inserted(old(Snap()).queue, x))
      ensures forall k :: 0 <= k < |nodes| ==> nodes[k] in old(nodes) || fresh(nodes[k])
    {
      hide Values, Inserted, Skip, Apart, Chained;
      ghost var was := nodes;
      var n := new SegInfo(x);
      ghost var i: nat := 0;
      if head == null {
        LinkOnly(n);
      } else if tail.endseq <= x.range.lo {
        i := |nodes|;
        LinkAfter(tail, n, |nodes|);
      } else {
        var p;
        p, i := Search(x.range.hi);
        if p == null {
          LinkFirst(n);
        } else {
          LinkAfter(p, n, i);
        }
      }
      assert nodes == was[..i] + [n] + was[i..];
      PlaceFound(was, x, i);
      ValuesInserted(was, n, x, i);
    }

    /** The branch taken by Insert, and the place it finds. */
    static lemma PlaceFound(was: seq<SegInfo>, x: Segment, i: nat)
      requires i == if was == [] then 0
                    else if was[|was| - 1].endseq <= x.range.lo then |was|
                    else Skip(Values(was), x.range.hi)
      ensures i == Place(Values(was), x)
    {
    }

    static lemma ValuesInserted(was: seq<SegInfo>, n: SegInfo, x: Segment, i: nat)
      requires n.Value() == x && i == Place(Values(was), x)
      ensures i <= |was| && Values(was[..i] + [n] + was[i..]) == Inserted(Values(was), x)
    {
    }

    /** The release of everything in sequence at the front. */
    method Drain() returns (tiflags: bv8)
      requires Valid() && nodes != []
      modifies this, nodes
      ensures Valid() && (Snap(), tiflags) == Drained(old(Snap()))
      ensures forall n :: n in nodes ==> n in old(nodes)
    {
      if head.startseq > rcvNxt {
        return 0;
      }
      hide InSequence, Flags;
      ghost var all := nodes;
      ghost var k;
      tiflags, k := Release();
      ValuesTail(all, k);
    }

    /** The loop that frees nodes until it meets a gap or the end. */
    method Release() returns (tiflags: bv8, ghost k: nat)
      requires Valid() && nodes != []
      modifies this, nodes
      ensures Valid() && 0 < k <= |old(nodes)| && nodes == old(nodes)[k..]
      ensures k == InSequence(Values(old(nodes))) && tiflags == Flags(Values(old(nodes))[..k])
      ensures rcvNxt == old(nodes)[k - 1].endseq
    {
      hide Values, Flags, InSequence;
      tiflags, k := 0, 0;
      ghost var all, vals := nodes, Values(nodes);
      var p := head;
      ReleaseStarts(all);
      while p != null
        invariant Valid() && 0 <= k <= |all| && nodes == all[k..] && p == At(all, k)
        invariant k > 0 ==> rcvNxt == all[k - 1].endseq
        invariant tiflags == Flags(vals[..k])
        invariant InSequence(vals) == k + InSequence(vals[k..])
        decreases |all| - k
      {
        ReleaseStep(all, k);
        rcvNxt := p.endseq;
        tiflags := tiflags | p.flags;
        var q := p;
        UnlinkHead(q);
        k := k + 1;
        assert q.next == At(nodes, 0) == At(all, k);
        if q.next != null && q.endseq < q.next.startseq {
          return;
        }
        p := p.next;
      }
      ReleaseEnds(all, k);
    }

    static lemma ReleaseStarts(all: seq<SegInfo>)
      ensures |Values(all)| == |all| && all[0..] == all && Values(all)[0..] == Values(all)
      ensures Flags(Values(all)[..0]) == 0
    {
    }

    static lemma ReleaseEnds(all: seq<SegInfo>, k: nat)
      requires k == |all|
      ensures InSequence(Values(all)[k..]) == 0
    {
    }

    /** What one turn of the loop does to the list, the flags and the count. */
    static lemma ReleaseStep(all: seq<SegInfo>, k: nat)
      requires k < |all|
      ensures all[k..][0] == all[k] && all[k..][1..] == all[k + 1..]
      ensures Flags(Values(all)[..k + 1]) == Flags(Values(all)[..k]) | all[k].flags
      ensures InSequence(Values(all)[k..]) ==
              if k + 1 < |all| && all[k].endseq < all[k + 1].startseq then 1 else 1 + InSequence(Values(all)[k + 1..])
    {
      FlagsStep(Values(all), k);
      SequenceStep(Values(all), k);
    }

    static lemma ValuesTail(all: seq<SegInfo>, k: nat)
      requires k <= |all|
      ensures |Values(all)| == |all| && Values(all[k..]) == Values(all)[k..]
      ensures forall i :: 0 <= i < |all| ==> Values(all)[i] == all[i].Value()
    {
    }

    /** add */
    method Add(x: Segment) returns (tiflags: bv8)
      requires Valid()
      modifies this, nodes
      ensures Valid() && (Snap(), tiflags) == Added(old(Snap()), x)
    {
      Insert(x);
      assert nodes != [];
      assert forall k :: 0 <= k < |nodes| ==> nodes[k] in old(nodes) || fresh(nodes[k]);
      tiflags := Drain();
    }
  }

  lemma {:induction false} SkipUnique(q: seq<Segment>, hi: int, i: nat)
    requires i <= |q| && forall k :: 0 <= k < i ==> q[k].range.lo < hi
    requires i < |q| ==> q[i].range.lo >= hi
    ensures Skip(q, hi) == i
  {
  }

  lemma FlagsStep(q: seq<Segment>, k: nat)
    requires k < |q|
    ensures Flags(q[..k + 1]) == Flags(q[..k]) | q[k].flags
  {
    assert q[..k + 1][..k] == q[..k];
  }

  /** One segment further, the count of those in sequence grows by one, and ends where there is a gap. */
  lemma SequenceStep(q: seq<Segment>, k: nat)
    requires k < |q|
    ensures InSequence(q[k..]) ==
            if k + 1 < |q| && q[k].range.hi < q[k + 1].range.lo then 1 else 1 + InSequence(q[k + 1..])
  {
    assert q[k..][1..] == q[k + 1..];
  }

  class Receiver {
    const rq: ReassemblyQueue

    constructor (next: int)
      ensures rq.Valid() && rq.Snap() == State(next, [])
    {
      rq := new ReassemblyQueue(next);
    }

    /** The trimming and the data part of recv; the segment carries no SYN and no FIN. */
    method RecvData(seqno: int, datalen: nat, flags: bv8) returns (dupseg: bool)
      requires rq.Valid()
      modifies rq, rq.nodes
      ensures rq.Valid()
      ensures rq.Snap() == Received(old(rq.Snap()), Segment(Range(seqno, seqno + datalen), flags))
      ensures dupseg == Trimmed(old(rq.Snap()), Segment(Range(seqno, seqno + datalen), flags)).1
    {
      hide Added, ReassemblyQueue.Values;
      var start, len := seqno, datalen;
      dupseg := false;
      var todrop := rq.rcvNxt - start;
      if todrop > 0 {
        if todrop >= len {
          todrop := len;
          dupseg := true;
        }
        start := start + todrop;
        len := len - todrop;
      }
      if len > 0 {
        assert rq.head == null <==> rq.Snap().queue == [];
        hide ReassemblyQueue.Valid;
        if start == rq.rcvNxt && rq.head == null {
          rq.Advance(len);
        } else {
          // add works out the end from the size in the header, which is not trimmed
          var _ := rq.Add(Segment(Range(start, start + datalen), flags));
        }
      }
    }
  }
}
