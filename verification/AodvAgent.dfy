/** The AODV agent as it runs: a route table kept as a list, scanned and updated in place, and the linked packet buffer.

Every handler is proved to change the agent's abstract state, and to send, exactly as AodvSpec says. */
module AodvAgent {
  import opened Routing
  import opened BufferSpec
  import opened RingSearch
  import opened RouteList
  import RouteBuffer
  import opened AodvSpec

  lemma ReleasedStep(e: Entry, index: Addr, p: Packet, rest: seq<Packet>, now: real)
    ensures Released(e, index, [p] + rest, now) ==
            if p.ttl == 0 || p.dst == index then Released(e, index, rest, now)
            else var r := Released(e.(expire := now + ACTIVE_ROUTE_TIMEOUT), index, rest, now);
                 (r.0, [Data(e.nexthop, p)] + r.1)
  {
    assert ([p] + rest)[1..] == rest;
  }

  lemma ReleasedNone(e: Entry, index: Addr, now: real)
    ensures Released(e, index, [], now) == (e, [])
  {
  }

  lemma ReleasedOne(e: Entry, index: Addr, p: Packet, now: real)
    ensures Released(e, index, [p], now) ==
            if p.ttl == 0 || p.dst == index then (e, [])
            else (e.(expire := now + ACTIVE_ROUTE_TIMEOUT), [Data(e.nexthop, p)])
  {
    assert [p] + [] == [p];
    assert [Data(e.nexthop, p)] + [] == [Data(e.nexthop, p)];
    ReleasedStep(e, index, p, [], now);
    ReleasedNone(e, index, now);
    ReleasedNone(e.(expire := now + ACTIVE_ROUTE_TIMEOUT), index, now);
  }

  lemma ErroredKeys(n: Node, from: Addr, unreachable: map<Addr, nat>)
    ensures ErroredTable(n, from, unreachable).Keys == n.table.Keys
  {
  }

  /** One more destination in the message. */
  lemma ErroredStep(n: Node, from: Addr, unreachable: map<Addr, nat>, d: Addr, q: nat)
    requires d !in unreachable
    ensures d in n.table ==> ErroredTable(n, from, unreachable)[d] == n.table[d]
    ensures var u' := unreachable[d := q];
            if Hit(n, from, u', d)
            then && ErroredTable(n, from, u') ==
                    ErroredTable(n, from, unreachable)[d := Downed(n.table[d].(seqno := q)).(precursors := {})]
                 && Reported(n, from, u') == (if n.table[d].precursors != {} then Reported(n, from, unreachable)[d := q]
                                              else Reported(n, from, unreachable))
            else ErroredTable(n, from, u') == ErroredTable(n, from, unreachable)
                 && Reported(n, from, u') == Reported(n, from, unreachable)
  {
    var u' := unreachable[d := q];
    assert forall x :: x in n.table && x != d ==> Errored(n, from, u', x) == Errored(n, from, unreachable, x);
  }

  /** The routes among the first `i` entries that run through `id`, with the numbers they are left with. */
  function LostUpTo(list: seq<(Addr, Entry)>, i: nat, id: Addr): map<Addr, nat>
    requires i <= |list|
  {
    if i == 0 then map[]
    else if Breaks(list[i - 1].1, id) then LostUpTo(list, i - 1, id)[list[i - 1].0 := list[i - 1].1.seqno + 1]
    else LostUpTo(list, i - 1, id)
  }

  lemma {:induction false} LostUpToAt(list: seq<(Addr, Entry)>, i: nat, id: Addr, d: Addr)
    requires DistinctKeys(list) && i <= |list|
    ensures d in LostUpTo(list, i, id) <==> exists j :: 0 <= j < i && list[j].0 == d && Breaks(list[j].1, id)
    ensures forall j :: 0 <= j < i && list[j].0 == d && Breaks(list[j].1, id) ==>
              LostUpTo(list, i, id)[d] == list[j].1.seqno + 1
  {
    hide Breaks;
    if i > 0 {
      LostUpToAt(list, i - 1, id, d);
    }
  }

  lemma LostIsAllBroken(list: seq<(Addr, Entry)>, id: Addr)
    requires DistinctKeys(list)
    ensures LostUpTo(list, |list|, id) ==
            LostRoutes(TableOf(list), id)
  {
    hide Breaks;
    var lost, table := LostUpTo(list, |list|, id), TableOf(list);
    forall d: Addr
      ensures d in lost <==> d in table && Breaks(table[d], id)
      ensures d in lost ==> lost[d] == table[d].seqno + 1
    {
      LostUpToAt(list, |list|, id, d);
      TableKeys(list, d);
      if d in table {
        var j :| 0 <= j < |list| && list[j].0 == d;
        TableAt(list, j);
      }
    }
  }

  lemma BrokenByPlace(list: seq<(Addr, Entry)>, list': seq<(Addr, Entry)>, id: Addr)
    requires DistinctKeys(list) && |list'| == |list|
    requires forall j :: 0 <= j < |list| ==> list'[j] == (list[j].0, Broken(list[j].1, id))
    ensures DistinctKeys(list')
    ensures TableOf(list') == BrokenTable(TableOf(list), id)
  {
    hide Broken;
    var table := TableOf(list);
    var table' := BrokenTable(table, id);
    forall j | 0 <= j < |list'|
      ensures list'[j].0 in table' && table'[list'[j].0] == list'[j].1
    {
      TableAt(list, j);
    }
    forall d | d in table'
      ensures exists j :: 0 <= j < |list'| && list'[j].0 == d
    {
      TableKeys(list, d);
      var j :| 0 <= j < |list| && list[j].0 == d;
      assert list'[j].0 == d;
    }
    hide TableOf;
    TableByPlace(list', table');
  }

  lemma {:induction false} RtPurgeSnoc(n: Node, order: seq<Addr>, d: Addr, now: real, perHop: Addr -> real)
    requires forall x :: x in order ==> x in n.table
    requires d in n.table
    ensures forall x :: x in order + [d] ==> x in n.table
    ensures d in RtPurge(n, order, now, perHop).node.table
    ensures var r := RtPurge(n, order, now, perHop);
            var last := PurgeEntry(r.node, d, now, perHop);
            RtPurge(n, order + [d], now, perHop) == Result(last.node, r.sent + last.sent)
    decreases |order|
  {
    hide PurgeEntry;
    if order == [] {
      assert order + [d] == [d] && [d][1..] == [];
      var last := PurgeEntry(n, d, now, perHop);
      assert RtPurge(last.node, [], now, perHop) == Result(last.node, []);
      assert last.sent + [] == last.sent && [] + last.sent == last.sent;
    } else {
      var r1 := PurgeEntry(n, order[0], now, perHop);
      PurgeEntryKeepsKeys(n, order[0], now, perHop);
      assert (order + [d])[1..] == order[1..] + [d] && (order + [d])[0] == order[0];
      RtPurgeSnoc(r1.node, order[1..], d, now, perHop);
      var r := RtPurge(r1.node, order[1..], now, perHop);
      var last := PurgeEntry(r.node, d, now, perHop);
      assert r1.sent + (r.sent + last.sent) == (r1.sent + r.sent) + last.sent;
    }
  }

  lemma PurgeEntryKeepsKeys(n: Node, d: Addr, now: real, perHop: Addr -> real)
    requires d in n.table
    ensures PurgeEntry(n, d, now, perHop).node.table.Keys == n.table.Keys
  {
  }

  /** A blank entry added for a lookup changes nothing for the forward route. */
  lemma ForwardRouteOfNew(n: Node, n': Node, rp: Reply, now: real)
    requires n' == SetEntry(n, rp.dst, EntryOf(n, rp.dst))
    ensures ForwardRoute(n', rp, now) == ForwardRoute(n, rp, now)
  {
    hide Release;
    var e := Updated(EntryOf(n, rp.dst), rp.dstSeqno, rp.hopCount, rp.sender, now + (rp.lifetime as real));
    var e' := e.(reqCnt := 0, reqTimeout := 0.0, reqLastTtl := rp.hopCount);
    assert SetEntry(n', rp.dst, e') == SetEntry(n, rp.dst, e');
  }

  class Agent {
    const index: Addr
    var seqno: nat
    var bid: nat
    const rtable: RouteTable<Entry>
    var bihead: seq<Broadcast>
    const rqueue: RouteBuffer.Queue

    ghost predicate Valid()
      reads rtable, rqueue, rqueue.nodes
    {
      rtable.Valid() && rqueue.Valid()
    }

    ghost function Abs(): Node
      reads this, rtable, rqueue, rqueue.nodes
    {
      Node(index, seqno, bid, TableOf(rtable.list), bihead, rqueue.Contents())
    }

    constructor (id: Addr)
      ensures Valid() && fresh(rtable) && fresh(rqueue) && fresh(rqueue.cells) && Abs() == NewNode(id)
    {
      index := id;
      seqno, bid := 2, 1;
      rtable := new RouteTable<Entry>();
      rqueue := new RouteBuffer.Queue();
      bihead := [];
    }

    method IdLookup(src: Addr, id: nat) returns (found: bool)
      ensures found == Heard(Abs(), src, id)
    {
      for i := 0 to |bihead|
        invariant forall j :: 0 <= j < i ==> !(bihead[j].src == src && bihead[j].id == id)
      {
        if bihead[i].src == src && bihead[i].id == id {
          return true;
        }
      }
      return false;
    }

    method IdInsert(src: Addr, id: nat, now: real)
      modifies this`bihead
      ensures bihead == [Broadcast(src, id, now + BCAST_ID_SAVE)] + old(bihead)
    {
      bihead := [Broadcast(src, id, now + BCAST_ID_SAVE)] + bihead;
    }

    method IdPurge(now: real)
      modifies this`bihead
      ensures Abs() == AodvSpec.IdPurge(old(Abs()), now)
    {
      var i := 0;
      var kept: seq<Broadcast> := [];
      while i < |bihead|
        invariant 0 <= i <= |bihead| && bihead == old(bihead)
        invariant kept + HeardKept(bihead[i..], now) == HeardKept(bihead, now)
      {
        var tail := bihead[i..];
        assert tail[0] == bihead[i] && tail[1..] == bihead[i + 1..];
        if bihead[i].expire > now {
          kept := kept + [bihead[i]];
        }
        i := i + 1;
      }
      assert bihead[i..] == [];
      bihead := kept;
    }

    /** rqueue.enque(p) */
    method Enque(p: Packet, now: real)
      requires Valid()
      modifies rqueue, rqueue.cells
      ensures Valid() && fresh(rqueue.cells - old(rqueue.cells))
      ensures Abs() == old(Abs()).(buffer := Enqueued(old(Abs()).buffer, p, now))
    {
      hide TableOf, Enqueued;
      var q := new RouteBuffer.QueuedPacket(p);
      var _ := rqueue.Enque(q, now);
    }

    /** Drop everything buffered for `dst`. */
    method DropBuffered(dst: Addr, now: real)
      requires Valid()
      modifies rqueue, rqueue.cells
      ensures Valid() && rqueue.cells == old(rqueue.cells)
      ensures Abs() == old(Abs()).(buffer := Others(Purged(old(Abs()).buffer, now), dst))
    {
      hide TableOf, Purged, Others;
      var _ := rqueue.DrainFor(dst, now);
    }

    /** The loop that sends out what was buffered for the destination of entry `i`. */
    method ForwardBuffered(i: nat, now: real) returns (sent: seq<Msg>)
      requires Valid() && i < |rtable.list|
      modifies rtable, rqueue, rqueue.cells
      ensures Valid() && Dsts(rtable.list) == old(Dsts(rtable.list)) && rqueue.cells == old(rqueue.cells)
      ensures old(rtable.list)[i].0 in old(Abs()).table
      ensures Result(Abs(), sent) == Release(old(Abs()), old(rtable.list)[i].0, now)
    {
      hide Purged, Dequeued, AfterDequeue, TableOf, FirstFor, Released, Held, Others, RouteBuffer.Queue.Valid;
      var d := rtable.list[i].0;
      ghost var e0 := rtable.list[i].1;
      TableAt(rtable.list, i);
      sent := [];
      ghost var live := Purged(rqueue.Contents(), now);
      ghost var goal := Released(e0, index, Held(live, d), now);
      DequeueOutcome(rqueue.Contents(), d, now);
      var p := rqueue.DequeFor(d, now);
      while p != null
        invariant Valid() && rqueue.cells == old(rqueue.cells)
        invariant |rtable.list| == |old(rtable.list)| && rtable.list == old(rtable.list)[i := (d, rtable.list[i].1)]
        invariant TableOf(rtable.list) == old(TableOf(rtable.list))[d := rtable.list[i].1]
        invariant var todo := (if p != null then [p.packet] else []) + Held(rqueue.Contents(), d);
                  var r := Released(rtable.list[i].1, index, todo, now);
                  r.0 == goal.0 && sent + r.1 == goal.1
        invariant p == null ==> Held(rqueue.Contents(), d) == []
        invariant Others(live, d) == Others(rqueue.Contents(), d)
        invariant p == null ==> rqueue.Contents() == Others(live, d)
        invariant Purged(rqueue.Contents(), now) == rqueue.Contents()
        decreases p != null, |rqueue.Contents()|
      {
        ghost var q, e := rqueue.Contents(), rtable.list[i].1;
        ReleasedStep(e, index, p.packet, Held(q, d), now);
        if p.packet.ttl != 0 && p.packet.dst != index {
          sent := sent + [Data(rtable.list[i].1.nexthop, p.packet)];
          rtable.Set(i, rtable.list[i].1.(expire := now + ACTIVE_ROUTE_TIMEOUT));
        }
        DequeueOutcome(q, d, now);
        p := rqueue.DequeFor(d, now);
      }
      ReleasedNone(rtable.list[i].1, index, now);
      ghost var none: seq<Packet> := [];
      assert none + Held(rqueue.Contents(), d) == [];
      assert sent + [] == sent;
      assert goal == (rtable.list[i].1, sent);
    }

    /** The expanding ring search: TTL, retry count and timeout of the next request. */
    static method NextRequest(e: Entry, now: real, perHop: real) returns (e': Entry)
      ensures e' == Requested(e, now, perHop)
    {
      hide RequestTimeout;
      var lastTtl := Max(e.reqLastTtl, e.lastHopCount);
      var ttl, cnt := 0, e.reqCnt;
      if lastTtl == 0 {
        ttl := TTL_START;
      } else if lastTtl < TTL_THRESHOLD {
        ttl := lastTtl + TTL_INCREMENT;
      } else {
        ttl := NETWORK_DIAMETER;
        cnt := cnt + 1;
      }
      var timeout := RequestDeadline(ttl, cnt, perHop, now, MAX_RREQ_TIMEOUT);
      e' := e.(reqLastTtl := ttl, reqCnt := cnt, reqTimeout := timeout, expire := 0.0);
    }

    method SendRequest(dst: Addr, now: real, perHop: Addr -> real) returns (sent: seq<Msg>)
      requires Valid() && dst in Abs().table
      modifies this, rtable, rqueue, rqueue.cells
      ensures fresh(rqueue.cells - old(rqueue.cells))
      ensures Valid() && Dsts(rtable.list) == old(Dsts(rtable.list))
      ensures Result(Abs(), sent) == AodvSpec.SendRequest(old(Abs()), dst, now, perHop)
    {
      hide RouteBuffer.Queue.Valid, RouteBuffer.Queue.Contents;
      hide Requested, TableOf, Purged, Others;
      var i := rtable.Lookup(dst);
      var e := rtable.list[i].1;
      sent := [];
      if e.flags == Up {
        return;
      }
      if e.reqTimeout > now {
        return;
      }
      if e.reqCnt > RREQ_RETRIES {
        rtable.Set(i, e.(reqTimeout := now + MAX_RREQ_TIMEOUT, reqCnt := 0));
        DropBuffered(dst, now);
        return;
      }
      var e' := NextRequest(e, now, perHop(dst));
      rtable.Set(i, e');
      var id := bid;
      bid := bid + 1;
      seqno := seqno + 2;
      sent := [Rreq(Request(index, 1, id, dst, e.seqno, index, seqno, now, e'.reqLastTtl))];
    }

    /** recvRequest up to the point where the reverse route is in place. */
    method InstallReverseRoute(rq: Request, now: real) returns (sent: seq<Msg>)
      requires Valid()
      modifies this, rtable, rqueue, rqueue.cells
      ensures fresh(rqueue.cells - old(rqueue.cells))
      ensures Valid() && rq.src in Abs().table
      ensures Result(Abs(), sent) == ReverseRoute(old(Abs()), rq, now)
    {
      hide RouteBuffer.Queue.Valid, RouteBuffer.Queue.Contents;
      hide Release, TableOf;
      IdInsert(rq.src, rq.bcastId, now);
      var i := rtable.LookupOrAdd(rq.src, NewEntry);
      rtable.Set(i, rtable.list[i].1.(expire := MaxReal(rtable.list[i].1.expire, now + REV_ROUTE_LIFE)));
      TableAt(rtable.list, i);
      var e := rtable.list[i].1;
      ghost var n1 := Abs();
      sent := [];
      if rq.srcSeqno > e.seqno || (rq.srcSeqno == e.seqno && Finite(rq.hopCount).Below(e.hops)) {
        var e' := Updated(e, rq.srcSeqno, rq.hopCount, rq.sender, MaxReal(e.expire, now + REV_ROUTE_LIFE));
        if e'.reqTimeout > 0.0 {
          e' := e'.(reqCnt := 0, reqTimeout := 0.0, reqLastTtl := rq.hopCount, expire := now + ACTIVE_ROUTE_TIMEOUT);
        }
        rtable.Set(i, e');
        TableAt(rtable.list, i);
        ghost var n0 := old(Abs()).(heard := bihead);
        assert n1.table == n0.table[rq.src := e];
        assert Abs().table == n0.table[rq.src := e'];
        ReleaseKeepsKeys(Abs(), rq.src, now);
        sent := ForwardBuffered(i, now);
      }
    }

    method PcInsert(d: Addr, id: Addr)
      requires Valid() && d in Abs().table
      modifies rtable
      ensures Valid() && Abs() == AddPrecursor(old(Abs()), d, id)
    {
      var i := rtable.Lookup(d);
      rtable.Set(i, rtable.list[i].1.(precursors := rtable.list[i].1.precursors + {id}));
    }

    method AnswerRequest(rq: Request, now: real) returns (sent: seq<Msg>)
      requires Valid() && rq.src in Abs().table
      modifies this`seqno, rtable
      ensures Valid() && Result(Abs(), sent) == Answer(old(Abs()), rq, now)
    {
      hide RouteBuffer.Queue.Valid, RouteBuffer.Queue.Contents;
      var k := rtable.Lookup(rq.dst);
      var back := rtable.Lookup(rq.src);
      if rq.dst == index {
        seqno := Max(seqno, rq.dstSeqno) + 1;
        if seqno % 2 == 1 {
          seqno := seqno + 1;
        }
        sent := [Rrep(Reply(index, rq.src, rtable.list[back].1.nexthop, 1, rq.dst, seqno, MY_ROUTE_TIMEOUT,
                            rq.timestamp, NETWORK_DIAMETER))];
      } else if k >= 0 && rtable.list[k].1.hops.Finite? && rtable.list[k].1.seqno >= rq.dstSeqno {
        var e := rtable.list[k].1;
        sent := [Rrep(Reply(index, rq.src, rtable.list[back].1.nexthop, e.hops.n + 1, rq.dst, e.seqno,
                            Seconds(e.expire - now), rq.timestamp, NETWORK_DIAMETER))];
        PcInsert(rq.dst, rtable.list[back].1.nexthop);
        k := rtable.Lookup(rq.dst);
        PcInsert(rq.src, rtable.list[k].1.nexthop);
      } else {
        var asked := rq.dstSeqno;
        if k >= 0 {
          asked := Max(rtable.list[k].1.seqno, asked);
        }
        sent := if rq.ttl == 0 then []
                else [Rreq(rq.(sender := index, hopCount := rq.hopCount + 1, dstSeqno := asked))];
      }
    }

    method RecvRequest(rq: Request, now: real) returns (sent: seq<Msg>)
      requires Valid()
      modifies this, rtable, rqueue, rqueue.cells
      ensures fresh(rqueue.cells - old(rqueue.cells))
      ensures Valid() && Result(Abs(), sent) == AodvSpec.RecvRequest(old(Abs()), rq, now)
    {
      if rq.src == index {
        return [];
      }
      var seen := IdLookup(rq.src, rq.bcastId);
      if seen {
        return [];
      }
      var first := InstallReverseRoute(rq, now);
      var second := AnswerRequest(rq, now);
      sent := first + second;
    }

    method ForwardReply(rp: Reply, now: real) returns (sent: seq<Msg>)
      requires Valid() && rp.dst in Abs().table
      modifies rtable
      ensures Valid() && Result(Abs(), sent) == PassReply(old(Abs()), rp, now)
    {
      var k := rtable.Lookup(rp.to);
      if k >= 0 && rtable.list[k].1.hops.Finite? {
        var hop := rtable.list[k].1.nexthop;
        sent := [];
        if rp.ttl != 0 {
          rtable.Set(k, rtable.list[k].1.(expire := now + ACTIVE_ROUTE_TIMEOUT));
          sent := [Rrep(rp.(sender := index, via := hop, hopCount := rp.hopCount + 1))];
        }
        PcInsert(rp.dst, hop);
      } else {
        sent := [];
      }
    }

    /** rt_update with a reply fresher than entry `i`, and the release of what was waiting for it. */
    method InstallForwardRoute(i: nat, rp: Reply, now: real) returns (sent: seq<Msg>)
      requires Valid() && i < |rtable.list| && rtable.list[i].0 == rp.dst
      modifies this, rtable, rqueue, rqueue.cells
      ensures fresh(rqueue.cells - old(rqueue.cells))
      ensures Valid() && rp.dst in Abs().table
      ensures Result(Abs(), sent) == ForwardRoute(old(Abs()), rp, now)
    {
      hide Release, TableOf;
      TableAt(rtable.list, i);
      var e := Updated(rtable.list[i].1, rp.dstSeqno, rp.hopCount, rp.sender, now + (rp.lifetime as real));
      rtable.Set(i, e.(reqCnt := 0, reqTimeout := 0.0, reqLastTtl := rp.hopCount));
      TableAt(rtable.list, i);
      ReleaseKeepsKeys(Abs(), rp.dst, now);
      sent := ForwardBuffered(i, now);
    }

    method RecvReply(rp: Reply, now: real) returns (sent: seq<Msg>)
      requires Valid()
      modifies this, rtable, rqueue, rqueue.cells
      ensures fresh(rqueue.cells - old(rqueue.cells))
      ensures Valid() && Result(Abs(), sent) == AodvSpec.RecvReply(old(Abs()), rp, now)
    {
      hide Release, TableOf, PassReply;
      ghost var n := Abs();
      var i := rtable.LookupOrAdd(rp.dst, NewEntry);
      var e := rtable.list[i].1;
      if e.seqno < rp.dstSeqno || (e.seqno == rp.dstSeqno && Finite(rp.hopCount).Below(e.hops)) {
        ForwardRouteOfNew(n, Abs(), rp, now);
        sent := InstallForwardRoute(i, rp, now);
        hide ForwardRoute;
        if rp.to != index {
          var more := ForwardReply(rp, now);
          sent := sent + more;
        }
      } else {
        sent := [];
      }
    }

    /** recvError: the loop over the destinations of the message, taking entries down and collecting a new message. */
    method RecvError(from: Addr, errors: seq<(Addr, nat)>) returns (sent: seq<Msg>)
      requires Valid()
      requires forall i, j :: 0 <= i < j < |errors| ==> errors[i].0 != errors[j].0
      modifies rtable
      ensures Valid() && Result(Abs(), sent) == AodvSpec.RecvError(old(Abs()), from, ErrorsOf(errors))
    {
      hide RouteBuffer.Queue.Valid, RouteBuffer.Queue.Contents;
      ghost var n := Abs();
      ghost var all := ErrorsOf(errors);
      var nre: map<Addr, nat> := map[];
      var i := 0;
      while i < |errors|
        invariant 0 <= i <= |errors| && Valid()
        invariant Abs() == n.(table := ErroredTable(n, from, ErrorsOf(errors[..i])))
        invariant nre == Reported(n, from, ErrorsOf(errors[..i]))
      {
        hide ErroredTable, Reported, Errored, TableOf;
        var d, q := errors[i].0, errors[i].1;
        ghost var before := errors[..i];
        assert errors[..i + 1][..i] == before && errors[..i + 1][i] == errors[i];
        ErrorsKeys(before, d);
        ErroredStep(n, from, ErrorsOf(before), d, q);
        ErroredKeys(n, from, ErrorsOf(before));
        var k := rtable.Lookup(d);
        if k >= 0 {
          var e := rtable.list[k].1;
          if e.hops.Finite? && e.nexthop == from && e.seqno <= q {
            rtable.Set(k, Downed(e.(seqno := q)).(precursors := {}));
            if e.precursors != {} {
              nre := nre[d := q];
            }
          }
        }
        i := i + 1;
      }
      assert errors[..i] == errors;
      sent := SendError(index, nre);
    }

    /** handle_link_failure: every route through the lost neighbour goes down, and the neighbour leaves every
    precursor list. */
    method HandleLinkFailure(id: Addr) returns (sent: seq<Msg>)
      requires Valid()
      modifies rtable
      ensures Valid() && Result(Abs(), sent) == AodvSpec.HandleLinkFailure(old(Abs()), id)
    {
      hide RouteBuffer.Queue.Valid, RouteBuffer.Queue.Contents;
      ghost var list := rtable.list;
      var re: map<Addr, nat> := map[];
      var i := 0;
      while i < |rtable.list|
        invariant 0 <= i <= |rtable.list| == |list|
        invariant forall j :: 0 <= j < i ==> rtable.list[j] == (list[j].0, Broken(list[j].1, id))
        invariant forall j :: i <= j < |list| ==> rtable.list[j] == list[j]
        invariant re == LostUpTo(list, i, id)
      {
        hide TableOf;
        var e := rtable.list[i].1;
        if e.hops.Finite? && e.nexthop == id {
          re := re[rtable.list[i].0 := e.seqno + 1];
          e := Downed(e.(seqno := e.seqno + 1));
        }
        rtable.list := rtable.list[i := (rtable.list[i].0, e.(precursors := e.precursors - {id}))];
        i := i + 1;
      }
      BrokenByPlace(list, rtable.list, id);
      LostIsAllBroken(list, id);
      hide BrokenTable, LostRoutes, TableOf, LostUpTo;
      sent := SendError(index, re);
    }

    method LocalRepair(p: Packet, now: real, perHop: Addr -> real) returns (sent: seq<Msg>)
      requires Valid() && p.dst in Abs().table
      modifies this, rtable, rqueue, rqueue.cells
      ensures fresh(rqueue.cells - old(rqueue.cells))
      ensures Valid() && Result(Abs(), sent) == AodvSpec.LocalRepair(old(Abs()), p, now, perHop)
    {
      hide AodvSpec.SendRequest, TableOf;
      Enque(p, now);
      var k := rtable.Lookup(p.dst);
      rtable.Set(k, rtable.list[k].1.(flags := InRepair));
      sent := SendRequest(p.dst, now, perHop);
    }

    /** rt_ll_failed for a data packet. */
    method LinkLayerFailed(p: Packet, neighbour: Addr, now: real, perHop: Addr -> real) returns (sent: seq<Msg>)
      requires Valid()
      modifies this, rtable, rqueue, rqueue.cells
      ensures fresh(rqueue.cells - old(rqueue.cells))
      ensures Valid() && Result(Abs(), sent) == AodvSpec.LinkLayerFailed(old(Abs()), p, neighbour, now, perHop)
    {
      hide RouteBuffer.Queue.Valid, RouteBuffer.Queue.Contents;
      hide AodvSpec.LocalRepair, AodvSpec.HandleLinkFailure, TableOf;
      var k := rtable.Lookup(p.dst);
      if k < 0 {
        sent := [];
      } else if rtable.list[k].1.hops.Finite? && p.forwards > rtable.list[k].1.hops.n {
        sent := LocalRepair(p, now, perHop);
      } else {
        seqno := seqno + 2;
        sent := HandleLinkFailure(neighbour);
      }
    }

    method RepairTimeout(dst: Addr)
      requires Valid()
      modifies rtable
      ensures Valid() && Result(Abs(), []) == AodvSpec.RepairTimeout(old(Abs()), dst)
    {
      var k := rtable.Lookup(dst);
      if k >= 0 && rtable.list[k].1.flags != Up {
        rtable.Set(k, Downed(rtable.list[k].1));
      }
    }

    /** rt_purge: one pass over the table in list order. */
    method RtPurge(now: real, perHop: Addr -> real) returns (sent: seq<Msg>)
      requires Valid()
      modifies this, rtable, rqueue, rqueue.cells
      ensures fresh(rqueue.cells - old(rqueue.cells))
      ensures Valid() && Dsts(rtable.list) == old(Dsts(rtable.list))
      ensures forall d :: d in old(Dsts(rtable.list)) ==> d in old(Abs()).table
      ensures Result(Abs(), sent) == AodvSpec.RtPurge(old(Abs()), old(Dsts(rtable.list)), now, perHop)
    {
      hide RouteBuffer.Queue.Valid, RouteBuffer.Queue.Contents;
      hide PurgeEntry;
      ghost var n := Abs();
      ghost var order := Dsts(rtable.list);
      assert forall d :: d in order ==> d in n.table by {
        forall j | 0 <= j < |order| ensures order[j] in n.table {
          TableAt(rtable.list, j);
        }
      }
      sent := [];
      var i := 0;
      while i < |rtable.list|
        invariant 0 <= i <= |rtable.list| == |order| && Valid() && Dsts(rtable.list) == order
        invariant forall d :: d in order[..i] ==> d in n.table
        invariant Result(Abs(), sent) == AodvSpec.RtPurge(n, order[..i], now, perHop)
        invariant fresh(rqueue.cells - old(rqueue.cells))
        decreases |order| - i
      {
        ghost var before := Abs();
        assert order[i] == rtable.list[i].0;
        TableAt(rtable.list, i);
        var more := PurgeAt(i, now, perHop);
        sent := sent + more;
        assert order[..i + 1] == order[..i] + [order[i]];
        RtPurgeSnoc(n, order[..i], order[i], now, perHop);
        i := i + 1;
      }
      assert order[..i] == order;
    }

    method PurgeAt(i: nat, now: real, perHop: Addr -> real) returns (sent: seq<Msg>)
      requires Valid() && i < |rtable.list|
      modifies this, rtable, rqueue, rqueue.cells
      ensures fresh(rqueue.cells - old(rqueue.cells))
      ensures Valid() && Dsts(rtable.list) == old(Dsts(rtable.list))
      ensures old(rtable.list)[i].0 in old(Abs()).table
      ensures Result(Abs(), sent) == PurgeEntry(old(Abs()), old(rtable.list)[i].0, now, perHop)
    {
      hide RouteBuffer.Queue.Valid, RouteBuffer.Queue.Contents;
      hide AodvSpec.SendRequest, Release, TableOf, Purged, Others;
      TableAt(rtable.list, i);
      var d, e := rtable.list[i].0, rtable.list[i].1;
      sent := [];
      if e.flags == Up && e.expire < now {
        DropBuffered(d, now);
        rtable.Set(i, Downed(e.(seqno := e.seqno + 1)));
      } else if e.flags == Up {
        sent := ForwardBuffered(i, now);
      } else {
        var waiting := rqueue.Find(d);
        if waiting {
          sent := SendRequest(d, now, perHop);
        }
      }
    }

    method RtResolve(p: Packet, now: real, perHop: Addr -> real) returns (sent: seq<Msg>)
      requires Valid()
      modifies this, rtable, rqueue, rqueue.cells
      ensures fresh(rqueue.cells - old(rqueue.cells))
      ensures Valid() && Result(Abs(), sent) == AodvSpec.RtResolve(old(Abs()), p, now, perHop)
    {
      hide RouteBuffer.Queue.Valid, RouteBuffer.Queue.Contents;
      hide AodvSpec.SendRequest, TableOf, Purged, Enqueued;
      var i := rtable.LookupOrAdd(p.dst, NewEntry);
      var e := rtable.list[i].1;
      sent := [];
      if e.flags == Up {
        if p.ttl != 0 && p.dst != index {
          rtable.Set(i, e.(expire := now + ACTIVE_ROUTE_TIMEOUT));
          sent := [Data(e.nexthop, p)];
        }
        ReleasedOne(e, index, p, now);
      } else if p.src == index {
        Enque(p, now);
        sent := SendRequest(p.dst, now, perHop);
      } else if e.flags == InRepair {
        Enque(p, now);
      } else {
        sent := [Rerr(index, map[p.dst := e.seqno])];
      }
    }

    /** recv for a unicast data packet. */
    method RecvData(p: Packet, now: real, perHop: Addr -> real) returns (sent: seq<Msg>)
      requires Valid()
      modifies this, rtable, rqueue, rqueue.cells
      ensures fresh(rqueue.cells - old(rqueue.cells))
      ensures Valid() && Result(Abs(), sent) == AodvSpec.RecvData(old(Abs()), p, now, perHop)
    {
      hide AodvSpec.RtResolve;
      if p.src == index && p.forwards == 0 {
        sent := RtResolve(p.(ttl := NETWORK_DIAMETER), now, perHop);
      } else if p.src == index {
        sent := [];
      } else {
        var ttl := p.ttl - 1;
        if ttl == 0 {
          sent := [];
        } else {
          sent := RtResolve(p.(ttl := ttl), now, perHop);
        }
      }
    }
  }
}
