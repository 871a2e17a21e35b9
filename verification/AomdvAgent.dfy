/** The AOMDV agent as it runs: route table, request cache and neighbour list kept as lists and updated in place, with
the linked packet buffer and the path lists.

Every handler is proved to change the agent's abstract state, and to send, exactly as AomdvSpec says. */
module AomdvAgent {
  import opened Routing
  import opened BufferSpec
  import opened RingSearch
  import opened RouteList
  import RouteBuffer
  import opened AomdvPaths
  import opened AomdvSpec

  lemma {:induction false} CacheIndexAt(cache: seq<Broadcast>, src: Addr, id: nat, i: nat)
    requires i <= |cache| && forall j :: 0 <= j < i ==> !(cache[j].src == src && cache[j].id == id)
    requires i < |cache| ==> cache[i].src == src && cache[i].id == id
    ensures CacheIndex(cache, src, id) == i
  {
    if i > 0 {
      CacheIndexAt(cache[1..], src, id, i - 1);
    }
  }

  lemma {:induction false} NeighbourIndexAt(nbs: seq<Neighbour>, id: Addr, i: nat)
    requires i <= |nbs| && forall j :: 0 <= j < i ==> nbs[j].addr != id
    requires i < |nbs| ==> nbs[i].addr == id
    ensures NeighbourIndex(nbs, id) == i
  {
    if i > 0 {
      NeighbourIndexAt(nbs[1..], id, i - 1);
    }
  }

  lemma ReleasedStep(e: Entry, index: Addr, p: Packet, rest: seq<Packet>, now: real)
    ensures Released(e, index, [p] + rest, now) ==
            if p.ttl == 0 || p.dst == index then Released(e, index, rest, now)
            else var e1 := FirstExpires(e, now + ACTIVE_ROUTE_TIMEOUT);
                 var r := Released(if p.src != index then e1.(error := true) else e1, index, rest, now);
                 (r.0, [Data(FirstPath(e).nexthop, p)] + r.1)
  {
    assert ([p] + rest)[1..] == rest;
  }

  /** One more destination of an error message. */
  lemma ErroredStep(table: map<Addr, Entry>, from: Addr, unreachable: map<Addr, nat>, d: Addr, q: nat)
    requires d !in unreachable
    ensures d in table ==> ErroredTable(table, from, unreachable)[d] == table[d]
    ensures ErroredTable(table, from, unreachable).Keys == table.Keys
    ensures var u' := unreachable[d := q];
            && ErroredTable(table, from, u') ==
               (if d in table then ErroredTable(table, from, unreachable)[d := Errored(table[d], from, q)]
                else ErroredTable(table, from, unreachable))
            && ErrorReport(table, from, u') ==
               (if d in table && ReportsError(table[d], from, q)
                then ErrorReport(table, from, unreachable)[d := Errored(table[d], from, q).seqno]
                else ErrorReport(table, from, unreachable))
  {
    hide Errored, ReportsError;
  }

  /** The losses reported among the first `i` entries. */
  function LossUpTo(list: seq<(Addr, Entry)>, i: nat, id: Addr): map<Addr, nat>
    requires i <= |list|
  {
    if i == 0 then map[]
    else if ReportsLoss(list[i - 1].1, id) then LossUpTo(list, i - 1, id)[list[i - 1].0 := Lost(list[i - 1].1, id).seqno]
    else LossUpTo(list, i - 1, id)
  }

  lemma {:induction false} LossUpToAt(list: seq<(Addr, Entry)>, i: nat, id: Addr, d: Addr)
    requires DistinctKeys(list) && i <= |list|
    ensures d in LossUpTo(list, i, id) <==> exists j :: 0 <= j < i && list[j].0 == d && ReportsLoss(list[j].1, id)
    ensures forall j :: 0 <= j < i && list[j].0 == d && ReportsLoss(list[j].1, id) ==>
              LossUpTo(list, i, id)[d] == Lost(list[j].1, id).seqno
  {
    hide ReportsLoss, Lost;
    if i > 0 {
      LossUpToAt(list, i - 1, id, d);
    }
  }

  lemma LossIsWholeReport(list: seq<(Addr, Entry)>, id: Addr)
    requires DistinctKeys(list)
    ensures LossUpTo(list, |list|, id) == LossReport(TableOf(list), id)
  {
    hide ReportsLoss, Lost;
    var loss, table := LossUpTo(list, |list|, id), TableOf(list);
    forall d: Addr
      ensures d in loss <==> d in table && ReportsLoss(table[d], id)
      ensures d in loss ==> loss[d] == Lost(table[d], id).seqno
    {
      LossUpToAt(list, |list|, id, d);
      TableKeys(list, d);
      if d in table {
        var j :| 0 <= j < |list| && list[j].0 == d;
        TableAt(list, j);
      }
    }
  }

  lemma LostByPlace(list: seq<(Addr, Entry)>, list': seq<(Addr, Entry)>, id: Addr)
    requires DistinctKeys(list) && |list'| == |list|
    requires forall j :: 0 <= j < |list| ==> list'[j] == (list[j].0, Lost(list[j].1, id))
    ensures DistinctKeys(list')
    ensures TableOf(list') == LostTable(TableOf(list), id)
  {
    hide Lost;
    var table' := LostTable(TableOf(list), id);
    forall j | 0 <= j < |list'|
      ensures list'[j].0 in table' && table'[list'[j].0] == list'[j].1
    {
      TableAt(list, j);
    }
    forall d | d in table'
      ensures exists j :: 0 <= j < |list'| && list'[j].0 == d
    {
      TableKeys(list, d);
      var j :| 0 <= j < |list| && list[j].0 == d;
      assert list'[j].0 == d;
    }
    hide TableOf;
    TableByPlace(list', table');
  }

  lemma {:induction false} RtPurgeSnoc(n: Node, order: seq<Addr>, d: Addr, now: real, perHop: Addr -> real)
    requires forall x :: x in order ==> x in n.table
    requires d in n.table
    ensures forall x :: x in order + [d] ==> x in n.table
    ensures d in RtPurge(n, order, now, perHop).node.table
    ensures var r := RtPurge(n, order, now, perHop);
            var last := PurgeEntry(r.node, d, now, perHop);
            RtPurge(n, order + [d], now, perHop) == Result(last.node, r.sent + last.sent)
    decreases |order|
  {
    hide PurgeEntry;
    if order == [] {
      assert order + [d] == [d] && [d][1..] == [];
      var last := PurgeEntry(n, d, now, perHop);
      assert RtPurge(last.node, [], now, perHop) == Result(last.node, []);
      assert last.sent + [] == last.sent && [] + last.sent == last.sent;
    } else {
      var r1 := PurgeEntry(n, order[0], now, perHop);
      PurgeEntryKeepsKeys(n, order[0], now, perHop);
      assert (order + [d])[1..] == order[1..] + [d] && (order + [d])[0] == order[0];
      RtPurgeSnoc(r1.node, order[1..], d, now, perHop);
      var r := RtPurge(r1.node, order[1..], now, perHop);
      var last := PurgeEntry(r.node, d, now, perHop);
      assert r1.sent + (r.sent + last.sent) == (r1.sent + r.sent) + last.sent;
    }
  }

  lemma PurgeEntryKeepsKeys(n: Node, d: Addr, now: real, perHop: Addr -> real)
    requires d in n.table
    ensures PurgeEntry(n, d, now, perHop).node.table.Keys == n.table.Keys
  {
  }

  lemma {:induction false} NeighboursLostSnoc(n: Node, ids: seq<Addr>, id: Addr, stuck: Addr -> seq<Stuck>, now: real)
    ensures var r := NeighboursLost(n, ids, stuck, now);
            var last := NeighbourLost(r.node, id, stuck(id), now);
            NeighboursLost(n, ids + [id], stuck, now) == Result(last.node, r.sent + last.sent)
    decreases |ids|
  {
    hide NeighbourLost;
    if ids == [] {
      assert ids + [id] == [id] && [id][1..] == [];
      var last := NeighbourLost(n, id, stuck(id), now);
      assert NeighboursLost(last.node, [], stuck, now) == Result(last.node, []);
      assert last.sent + [] == last.sent && [] + last.sent == last.sent;
    } else {
      var r1 := NeighbourLost(n, ids[0], stuck(ids[0]), now);
      assert (ids + [id])[1..] == ids[1..] + [id];
      NeighboursLostSnoc(r1.node, ids[1..], id, stuck, now);
      var r := NeighboursLost(r1.node, ids[1..], stuck, now);
      var last := NeighbourLost(r.node, id, stuck(id), now);
      assert r1.sent + (r.sent + last.sent) == (r1.sent + r.sent) + last.sent;
    }
  }

  lemma ExpiredStep(done: seq<Addr>, nbs: seq<Neighbour>, i: nat, now: real)
    requires i < |nbs|
    ensures done + Expired(nbs[i..], now) ==
            (if nbs[i].expire <= now then done + [nbs[i].addr] else done) + Expired(nbs[i + 1..], now)
  {
    var tail := nbs[i..];
    assert tail[0] == nbs[i] && tail[1..] == nbs[i + 1..];
    if nbs[i].expire <= now {
      assert done + ([nbs[i].addr] + Expired(nbs[i + 1..], now)) == done + [nbs[i].addr] + Expired(nbs[i + 1..], now);
    } else {
      assert [] + Expired(nbs[i + 1..], now) == Expired(nbs[i + 1..], now);
    }
  }

  lemma {:induction false} SalvageSnoc(n: Node, stuck: seq<Stuck>, s: Stuck, now: real)
    ensures var r := Salvage(n, stuck, now);
            var last := SalvageOne(r.node, s, now);
            Salvage(n, stuck + [s], now) == Result(last.node, r.sent + last.sent)
    decreases |stuck|
  {
    hide SalvageOne;
    if stuck == [] {
      assert stuck + [s] == [s] && [s][1..] == [];
      var last := SalvageOne(n, s, now);
      assert Salvage(last.node, [], now) == Result(last.node, []);
      assert last.sent + [] == last.sent && [] + last.sent == last.sent;
    } else {
      var r1 := SalvageOne(n, stuck[0], now);
      assert (stuck + [s])[1..] == stuck[1..] + [s];
      SalvageSnoc(r1.node, stuck[1..], s, now);
      var r := Salvage(r1.node, stuck[1..], now);
      var last := SalvageOne(r.node, s, now);
      assert r1.sent + (r.sent + last.sent) == (r1.sent + r.sent) + last.sent;
    }
  }

  class Agent {
    const index: Addr
    const maxPaths: int
    const lengthDiff: int
    var seqno: nat
    var bid: nat
    const rtable: RouteTable<Entry>
    var bihead: seq<Broadcast>
    var nbhead: seq<Neighbour>
    const rqueue: RouteBuffer.Queue

    ghost predicate Valid()
      reads rtable, rqueue, rqueue.nodes
    {
      rtable.Valid() && rqueue.Valid()
    }

    ghost function Abs(): Node
      reads this, rtable, rqueue, rqueue.nodes
    {
      Node(index, seqno, bid, TableOf(rtable.list), bihead, nbhead, rqueue.Contents(), maxPaths, lengthDiff)
    }

    constructor (id: Addr, paths: int, diff: int)
      ensures Valid() && fresh(rtable) && fresh(rqueue) && fresh(rqueue.cells) && Abs() == NewNode(id, paths, diff)
    {
      index, maxPaths, lengthDiff := id, paths, diff;
      seqno, bid := 2, 1;
      rtable := new RouteTable<Entry>();
      rqueue := new RouteBuffer.Queue();
      bihead, nbhead := [], [];
    }

    /** rqueue.enque(p) */
    method Enque(p: Packet, now: real)
      requires Valid()
      modifies rqueue, rqueue.cells
      ensures Valid() && fresh(rqueue.cells - old(rqueue.cells))
      ensures Abs() == old(Abs()).(buffer := Enqueued(old(Abs()).buffer, p, now))
    {
      hide TableOf, Enqueued;
      var q := new RouteBuffer.QueuedPacket(p);
      var _ := rqueue.Enque(q, now);
    }

    /** Take out everything buffered for `dst`. */
    method Drain(dst: Addr, now: real) returns (pkts: seq<Packet>)
      requires Valid()
      modifies rqueue, rqueue.cells
      ensures Valid() && rqueue.cells == old(rqueue.cells)
      ensures pkts == Held(Purged(old(Abs()).buffer, now), dst)
      ensures Abs() == old(Abs()).(buffer := Others(Purged(old(Abs()).buffer, now), dst))
    {
      hide TableOf, Purged, Others, Held;
      pkts := rqueue.DrainFor(dst, now);
    }

    /** id_get: position in the cache, or -1. */
    method IdGet(src: Addr, id: nat) returns (i: int)
      ensures if Cached(Abs(), src, id) then i == CacheIndex(bihead, src, id) else i == -1
    {
      i := 0;
      while i < |bihead|
        invariant 0 <= i <= |bihead|
        invariant forall j :: 0 <= j < i ==> !(bihead[j].src == src && bihead[j].id == id)
      {
        if bihead[i].src == src && bihead[i].id == id {
          CacheIndexAt(bihead, src, id, i);
          return;
        }
        i := i + 1;
      }
      CacheIndexAt(bihead, src, id, i);
      i := -1;
    }

    method IdPurge(now: real)
      modifies this`bihead
      ensures Abs() == AomdvSpec.IdPurge(old(Abs()), now)
    {
      hide TableOf;
      var i := 0;
      var kept: seq<Broadcast> := [];
      while i < |bihead|
        invariant 0 <= i <= |bihead| && bihead == old(bihead)
        invariant kept + CacheKept(bihead[i..], now) == CacheKept(bihead, now)
      {
        var tail := bihead[i..];
        assert tail[0] == bihead[i] && tail[1..] == bihead[i + 1..];
        if bihead[i].expire > now {
          kept := kept + [bihead[i]];
        }
        i := i + 1;
      }
      assert bihead[i..] == [];
      bihead := kept;
    }

    method NbLookup(id: Addr) returns (i: int)
      ensures if NeighbourIndex(nbhead, id) < |nbhead| then i == NeighbourIndex(nbhead, id) else i == -1
    {
      i := 0;
      while i < |nbhead|
        invariant 0 <= i <= |nbhead| && forall j :: 0 <= j < i ==> nbhead[j].addr != id
      {
        if nbhead[i].addr == id {
          NeighbourIndexAt(nbhead, id, i);
          return;
        }
        i := i + 1;
      }
      NeighbourIndexAt(nbhead, id, i);
      i := -1;
    }

    /** Send out everything buffered for the destination of entry `i`. */
    method ForwardBuffered(i: nat, now: real) returns (sent: seq<Msg>)
      requires Valid() && i < |rtable.list|
      modifies rtable, rqueue, rqueue.cells
      ensures fresh(rqueue.cells - old(rqueue.cells))
      ensures Valid() && Dsts(rtable.list) == old(Dsts(rtable.list))
      ensures old(rtable.list)[i].0 in old(Abs()).table
      ensures Result(Abs(), sent) == Release(old(Abs()), old(rtable.list)[i].0, now)
    {
      hide RouteBuffer.Queue.Valid, RouteBuffer.Queue.Contents;
      hide Purged, Held, Others, Released, TableOf;
      TableAt(rtable.list, i);
      var d, e := rtable.list[i].0, rtable.list[i].1;
      var pkts := Drain(d, now);
      ghost var n := Abs();
      ghost var goal := Released(e, index, pkts, now);
      sent := [];
      var k := 0;
      while k < |pkts|
        invariant 0 <= k <= |pkts| && rtable.list == old(rtable.list) && Abs() == n && Valid()
        invariant rqueue.cells == old(rqueue.cells)
        invariant var r := Released(e, index, pkts[k..], now);
                  r.0 == goal.0 && sent + r.1 == goal.1
      {
        var p := pkts[k];
        assert pkts[k..] == [p] + pkts[k + 1..];
        ReleasedStep(e, index, p, pkts[k + 1..], now);
        if p.ttl != 0 && p.dst != index {
          sent := sent + [Data(FirstPath(e).nexthop, p)];
          e := FirstExpires(e, now + ACTIVE_ROUTE_TIMEOUT);
          if p.src != index {
            e := e.(error := true);
          }
        }
        k := k + 1;
      }
      assert pkts[k..] == [];
      ReleasedNone(e, index, now);
      assert sent + [] == sent;
      rtable.Set(i, e);
    }

    static lemma ReleasedNone(e: Entry, index: Addr, now: real)
      ensures Released(e, index, [], now) == (e, [])
    {
    }

    /** The entry after one more request: a wider ring, a network-wide try counted, and when to ask again. */
    static method NextRequest(e: Entry, now: real, perHop: real) returns (e': Entry)
      ensures e' == Requested(e, now, perHop)
    {
      hide RequestTimeout;
      var lastTtl := Max(e.reqLastTtl, e.lastHopCount);
      var ttl, cnt := 0, e.reqCnt;
      if lastTtl == 0 {
        ttl := TTL_START;
      } else if lastTtl < TTL_THRESHOLD {
        ttl := lastTtl + TTL_INCREMENT;
      } else {
        ttl := NETWORK_DIAMETER;
        cnt := cnt + 1;
      }
      var timeout := RequestDeadline(ttl, cnt, perHop, now, MAX_RREQ_TIMEOUT);
      e' := e.(reqLastTtl := ttl, reqCnt := cnt, reqTimeout := timeout, expire := 0.0);
    }

    method SendRequest(dst: Addr, now: real, perHop: Addr -> real) returns (sent: seq<Msg>)
      requires Valid() && dst in Abs().table
      modifies this, rtable, rqueue, rqueue.cells
      ensures fresh(rqueue.cells - old(rqueue.cells))
      ensures Valid() && Dsts(rtable.list) == old(Dsts(rtable.list))
      ensures Result(Abs(), sent) == AomdvSpec.SendRequest(old(Abs()), dst, now, perHop)
    {
      hide RouteBuffer.Queue.Valid, RouteBuffer.Queue.Contents;
      hide Requested, TableOf, Purged, Others;
      var i := rtable.Lookup(dst);
      var e := rtable.list[i].1;
      sent := [];
      if e.flags == Up {
        return;
      }
      if e.reqTimeout > now {
        return;
      }
      if e.reqCnt > RREQ_RETRIES {
        rtable.Set(i, e.(reqTimeout := now + MAX_RREQ_TIMEOUT, reqCnt := 0));
        var _ := Drain(dst, now);
        return;
      }
      var e' := NextRequest(e, now, perHop(dst));
      rtable.Set(i, e');
      var id := bid;
      bid := bid + 1;
      seqno := seqno + 2;
      sent := [Rreq(Request(index, 0, id, dst, e.seqno, index, seqno, 0, now, e'.reqLastTtl))];
    }

    /** The branches of recvRequest that create, prolong or extend the reverse route. */
    method UpdateReverseRoute(e: Entry, rq: Request, now: real) returns (e': Entry, v: Verdict)
      ensures (e', v) == ReverseRoute(Abs(), e, rq, now)
    {
      hide MaxHops, MinHops, Between, EndingAt, RouteBuffer.Queue.Contents, TableOf;
      var p := Path(rq.sender, rq.hopCount + 1, now + REV_ROUTE_LIFE, rq.firstHop);
      var list := new PathList(e.paths);
      e', v := e, Stop;
      if e.seqno < rq.srcSeqno {
        list.DeleteAll();
        assert [] + [p] == [p];
        list.Insert(p);
        var longest := list.GetMaxHopcount();
        e' := e.(seqno := rq.srcSeqno, advertised := Infinity, paths := list.paths, flags := Up,
                 lastHopCount := HopNumber(longest));
        v := Go(true);
      } else if e.seqno == rq.srcSeqno && Finite(rq.hopCount).Below(e.advertised) {
        var i := list.DisjointPathLookup(rq.sender, rq.firstHop);
        if i >= 0 {
          list.Prolong(i, now + REV_ROUTE_LIFE);
          e' := e.(paths := list.paths);
          v := Go(true);
        } else {
          var disjoint := list.NewDisjointPath(rq.sender, rq.firstHop);
          if disjoint {
            v := Go(false);
            var shortest := list.GetMinHopcount();
            if list.num < maxPaths && rq.hopCount + 1 - shortest <= lengthDiff {
              list.Insert(p);
              var longest := list.GetMaxHopcount();
              e' := e.(paths := list.paths, lastHopCount := HopNumber(longest));
              v := Go(true);
            }
            shortest := list.GetMinHopcount();
            if rq.hopCount + 1 - shortest > lengthDiff {
              v := Stop;
            }
          } else {
            var k := list.LookupLasthop(rq.firstHop);
            if !(rq.dst == index && (k < 0 || rq.hopCount + 1 > list.paths[k].hopcount)) {
              v := Go(false);
            }
          }
        }
      }
    }

    /** The advertised hop count is fixed when it is first needed. */
    method Advertise(e: Entry) returns (e': Entry)
      ensures e' == Advertised(e)
    {
      e' := e;
      if e.advertised == Infinity {
        var list := new PathList(e.paths);
        var longest := list.GetMaxHopcount();
        e' := e.(advertised := longest);
      }
    }

    method RefreshRoute(i: nat, now: real) returns (sent: seq<Msg>)
      requires Valid() && i < |rtable.list|
      modifies rtable, rqueue, rqueue.cells
      ensures fresh(rqueue.cells - old(rqueue.cells))
      ensures Valid() && Dsts(rtable.list) == old(Dsts(rtable.list))
      ensures old(rtable.list)[i].0 in old(Abs()).table
      ensures Result(Abs(), sent) == Refresh(old(Abs()), old(rtable.list)[i].0, now)
    {
      hide RouteBuffer.Queue.Valid, RouteBuffer.Queue.Contents;
      hide Release, TableOf;
      TableAt(rtable.list, i);
      sent := [];
      if rtable.list[i].1.flags == Up {
        rtable.Set(i, rtable.list[i].1.(reqTimeout := 0.0, reqLastTtl := 0, reqCnt := 0));
        sent := ForwardBuffered(i, now);
      }
    }

    method MarkRepliedAt(src: Addr, id: nat)
      modifies this`bihead
      ensures Abs() == MarkReplied(old(Abs()), src, id)
    {
      hide RouteBuffer.Queue.Valid, RouteBuffer.Queue.Contents;
      hide TableOf;
      var b := IdGet(src, id);
      if b >= 0 {
        bihead := bihead[b := bihead[b].(replied := true)];
      }
    }

    /** A request seen for the first time that cannot be answered here goes on, one advertised hop longer. */
    method PassRequestOn(rq: Request, ghost reversePath: bool, now: real) returns (sent: seq<Msg>)
      requires Valid() && rq.src in Abs().table && rq.dst != index
      requires rq.dst in Abs().table ==> Abs().table[rq.dst].flags != Up || Abs().table[rq.dst].seqno < rq.dstSeqno
      modifies rtable
      ensures Valid() && Result(Abs(), sent) == Answer(old(Abs()), rq, reversePath, false, now)
    {
      hide RouteBuffer.Queue.Valid, RouteBuffer.Queue.Contents;
      hide TableOf, DistinctKeys, Replied, MarkReplied, ReplySeqno, Advertised, FirstPath;
      var k := rtable.Lookup(rq.dst);
      var asked := rq.dstSeqno;
      if k >= 0 {
        asked := Max(rtable.list[k].1.seqno, asked);
      }
      var back := rtable.Lookup(rq.src);
      var e := Advertise(rtable.list[back].1);
      rtable.Set(back, e);
      sent := [];
      if rq.ttl != 0 {
        sent := [Rreq(rq.(sender := index, hopCount := HopNumber(e.advertised), dstSeqno := asked,
                          firstHop := FirstPath(e).lasthop))];
      }
    }

    method AnswerRequest(rq: Request, reversePath: bool, seen: bool, now: real) returns (sent: seq<Msg>)
      requires Valid() && rq.src in Abs().table
      modifies this`seqno, this`bihead, rtable
      ensures Valid() && Result(Abs(), sent) == Answer(old(Abs()), rq, reversePath, seen, now)
    {
      hide RouteBuffer.Queue.Valid, RouteBuffer.Queue.Contents;
      hide TableOf, DistinctKeys, CacheIndex, MarkReplied, Advertised, FirstPath;
      var k := rtable.Lookup(rq.dst);
      sent := [];
      if rq.dst == index {
        if seqno < rq.dstSeqno {
          seqno := rq.dstSeqno + 1;
        }
        if seqno % 2 == 1 {
          seqno := seqno + 1;
        }
        sent := [Rrep(Reply(index, rq.src, rq.sender, 0, index, seqno, MY_ROUTE_TIMEOUT, rq.timestamp, rq.bcastId,
                            rq.sender, NETWORK_DIAMETER))];
      } else if k >= 0 && rtable.list[k].1.flags == Up && rtable.list[k].1.seqno >= rq.dstSeqno {
        var b := IdGet(rq.src, rq.bcastId);
        if reversePath && !(b >= 0 && bihead[b].replied) {
          MarkRepliedAt(rq.src, rq.bcastId);
          var e := Advertise(rtable.list[k].1);
          e := e.(error := true);
          rtable.Set(k, e);
          sent := [Rrep(Reply(index, rq.src, rq.sender, HopNumber(e.advertised), rq.dst, e.seqno,
                              FirstPath(e).expire - now, rq.timestamp, rq.bcastId, FirstPath(e).lasthop,
                              NETWORK_DIAMETER))];
        }
      } else if !seen {
        sent := PassRequestOn(rq, reversePath, now);
      }
    }

    /** recvRequest up to the point where the reverse route is in place. */
    method InstallReverseRoute(rq0: Request, now: real) returns (sent: seq<Msg>, v: Verdict)
      requires Valid()
      modifies this, rtable, rqueue, rqueue.cells
      ensures fresh(rqueue.cells - old(rqueue.cells))
      ensures Valid() && (Result(Abs(), sent), v) == TakeRequest(old(Abs()), rq0, now)
    {
      hide TableOf, ReverseRoute, Refresh, CacheIndex, RouteBuffer.Queue.Valid, RouteBuffer.Queue.Contents;
      var b := IdGet(rq0.src, rq0.bcastId);
      if b < 0 {
        bihead := [Broadcast(rq0.src, rq0.bcastId, now + BCAST_ID_SAVE, false)] + bihead;
      }
      var rq := rq0;
      if rq.hopCount == 0 {
        rq := rq.(firstHop := index);
      }
      ghost var n1 := CacheRequest(old(Abs()), rq, now);
      assert Abs() == n1;
      var i := rtable.LookupOrAdd(rq.src, NewEntry);
      var e;
      e, v := UpdateReverseRoute(rtable.list[i].1, rq, now);
      ReverseRouteReads(Abs(), n1, rtable.list[i].1, rq, now);
      rtable.Set(i, e);
      ghost var n2 := Abs();
      assert n2 == SetEntry(n1, rq.src, e);
      sent := [];
      if v.Go? {
        sent := RefreshRoute(i, now);
        RefreshKeepsKey(n2, rq.src, now);
      }
    }

    method RecvRequest(rq: Request, now: real) returns (sent: seq<Msg>)
      requires Valid()
      modifies this, rtable, rqueue, rqueue.cells
      ensures fresh(rqueue.cells - old(rqueue.cells))
      ensures Valid() && Result(Abs(), sent) == AomdvSpec.RecvRequest(old(Abs()), rq, now)
    {
      hide TableOf, TakeRequest, Answer, CacheIndex, RouteBuffer.Queue.Valid, RouteBuffer.Queue.Contents;
      if rq.src == index {
        return [];
      }
      var b := IdGet(rq.src, rq.bcastId);
      var v;
      sent, v := InstallReverseRoute(rq, now);
      if v.Go? {
        var first := rq.hopCount == 0;
        var more := AnswerRequest(if first then rq.(firstHop := index) else rq, v.reversePath, b >= 0, now);
        sent := sent + more;
      }
    }

    /** The reverse-route branches look only at the node's address and limits. */
    static lemma ReverseRouteReads(n: Node, n': Node, e: Entry, rq: Request, now: real)
      requires n'.index == n.index && n'.maxPaths == n.maxPaths && n'.lengthDiff == n.lengthDiff
      ensures ReverseRoute(n', e, rq, now) == ReverseRoute(n, e, rq, now)
    {
    }

    static lemma RefreshKeepsKey(n: Node, d: Addr, now: real)
      requires d in n.table
      ensures d in Refresh(n, d, now).node.table
    {
    }

    method UpdateForwardRoute(e: Entry, rp: Reply, now: real) returns (e': Entry, v: Verdict)
      ensures (e', v) == ForwardRoute(Abs(), e, rp, now)
    {
      hide MaxHops, MinHops, Between, RouteBuffer.Queue.Contents, TableOf;
      var p := Path(rp.sender, rp.hopCount + 1, now + rp.lifetime, rp.firstHop);
      var list := new PathList(e.paths);
      e', v := e, Stop;
      if e.seqno < rp.dstSeqno {
        list.DeleteAll();
        assert [] + [p] == [p];
        list.Insert(p);
        var longest := list.GetMaxHopcount();
        e' := e.(seqno := rp.dstSeqno, advertised := Infinity, paths := list.paths, flags := Up,
                 lastHopCount := HopNumber(longest));
        v := Go(true);
      } else if e.seqno == rp.dstSeqno && Finite(rp.hopCount).Below(e.advertised) {
        var i := list.DisjointPathLookup(rp.sender, rp.firstHop);
        if i >= 0 {
          list.Prolong(i, now + rp.lifetime);
          e' := e.(paths := list.paths);
          v := Go(true);
        } else {
          var disjoint := list.NewDisjointPath(rp.sender, rp.firstHop);
          var shortest := list.GetMinHopcount();
          if disjoint && list.num < maxPaths && rp.hopCount + 1 - shortest <= lengthDiff {
            list.Insert(p);
            var longest := list.GetMaxHopcount();
            e' := e.(paths := list.paths, lastHopCount := HopNumber(longest));
            v := Go(true);
          }
        }
      }
    }

    /** What passing a reply on does to the entries for its subject `d` and, behind `back`, for its receiver. */
    method PassAlong(d: Addr, back: nat, now: real) returns (e: Entry, via: Addr)
      requires Valid() && back < |rtable.list| && d in Abs().table
      modifies rtable
      ensures var to := old(rtable.list)[back].0;
              && to in old(Abs()).table
              && e == Advertised(old(Abs()).table[d])
              && var n1 := SetEntry(old(Abs()), d, e);
                 var n2 := SetEntry(n1, to, FirstExpires(n1.table[to], now + ACTIVE_ROUTE_TIMEOUT));
                 && via == FirstPath(n1.table[to]).nexthop
                 && Abs() == SetEntry(n2, d, n2.table[d].(error := true))
      ensures Valid()
    {
      hide RouteBuffer.Queue.Valid, RouteBuffer.Queue.Contents;
      hide TableOf, Advertised, FirstPath, FirstExpires;
      TableAt(rtable.list, back);
      var k := rtable.Lookup(d);
      e := Advertise(rtable.list[k].1);
      rtable.Set(k, e);
      TableAt(rtable.list, back);
      via := FirstPath(rtable.list[back].1).nexthop;
      rtable.Set(back, FirstExpires(rtable.list[back].1, now + ACTIVE_ROUTE_TIMEOUT));
      TableAt(rtable.list, k);
      rtable.Set(k, rtable.list[k].1.(error := true));
    }

    method ForwardReply(rp: Reply, now: real) returns (sent: seq<Msg>)
      requires Valid() && rp.dst in Abs().table
      modifies this`bihead, rtable
      ensures Valid() && Result(Abs(), sent) == PassReply(old(Abs()), rp, now)
    {
      hide RouteBuffer.Queue.Valid, RouteBuffer.Queue.Contents;
      hide TableOf, CacheIndex, Advertised, FirstPath, FirstExpires;
      var back := rtable.Lookup(rp.to);
      var b := IdGet(rp.to, rp.bcastId);
      sent := [];
      if back < 0 || rtable.list[back].1.flags != Up || b < 0 || bihead[b].replied {
        return;
      }
      MarkRepliedAt(rp.to, rp.bcastId);
      var e, via := PassAlong(rp.dst, back, now);
      if rp.ttl != 0 {
        sent := [Rrep(rp.(sender := index, via := via, hopCount := HopNumber(e.advertised),
                          firstHop := FirstPath(e).lasthop))];
      }
    }

    method RecvReply(rp: Reply, now: real) returns (sent: seq<Msg>)
      requires Valid()
      modifies this, rtable, rqueue, rqueue.cells
      ensures fresh(rqueue.cells - old(rqueue.cells))
      ensures Valid() && Result(Abs(), sent) == AomdvSpec.RecvReply(old(Abs()), rp, now)
    {
      hide RouteBuffer.Queue.Valid, RouteBuffer.Queue.Contents;
      hide TableOf, ForwardRoute, Refresh, PassReply;
      if rp.dst == index {
        return [];
      }
      ghost var n := Abs();
      var i := rtable.LookupOrAdd(rp.dst, NewEntry);
      var e, v := UpdateForwardRoute(rtable.list[i].1, rp, now);
      ForwardRouteReads(Abs(), n, rtable.list[i].1, rp, now);
      rtable.Set(i, e);
      ghost var n1 := Abs();
      assert n1 == SetEntry(n, rp.dst, e);
      sent := [];
      if v.Go? {
        sent := RefreshRoute(i, now);
        RefreshKeepsKey(n1, rp.dst, now);
        if rp.to != index {
          var more := ForwardReply(rp, now);
          sent := sent + more;
        }
      }
    }

    static lemma ForwardRouteReads(n: Node, n': Node, e: Entry, rp: Reply, now: real)
      requires n'.maxPaths == n.maxPaths && n'.lengthDiff == n.lengthDiff
      ensures ForwardRoute(n', e, rp, now) == ForwardRoute(n, e, rp, now)
    {
    }

    method RecvHello(sender: Addr, hello: nat, now: real) returns (sent: seq<Msg>)
      requires Valid()
      modifies this, rtable, rqueue, rqueue.cells
      ensures fresh(rqueue.cells - old(rqueue.cells))
      ensures Valid() && Result(Abs(), sent) == AomdvSpec.RecvHello(old(Abs()), sender, hello, now)
    {
      hide RouteBuffer.Queue.Valid, RouteBuffer.Queue.Contents;
      hide TableOf, AomdvSpec.RecvReply, NeighbourIndex;
      var i := NbLookup(sender);
      if i < 0 {
        nbhead := [Neighbour(sender, now + HELLO_INTERVAL * ALLOWED_HELLO_LOSS)] + nbhead;
      } else {
        nbhead := nbhead[i := nbhead[i].(expire := now + 1.5 * ALLOWED_HELLO_LOSS * HELLO_INTERVAL)];
      }
      sent := RecvReply(Reply(sender, index, index, 0, sender, hello, (1.0 + ALLOWED_HELLO_LOSS) * HELLO_INTERVAL,
                              0.0, 0, index, 0), now);
    }

    /** What recvError does to one entry. */
    static method TakeError(e: Entry, from: Addr, q: nat) returns (e': Entry, report: bool)
      ensures e' == Errored(e, from, q)
      ensures report == ReportsError(e, from, q)
    {
      e', report := e, false;
      var list := new PathList(e.paths);
      var i := list.Lookup(from);
      if e.flags == Up && i >= 0 && e.seqno <= q {
        list.Delete(from);
        e' := e.(paths := list.paths, highestHeard := Max(e.highestHeard, q));
        var empty := list.Empty();
        if empty {
          e' := Downed(e'.(seqno := e'.highestHeard));
          if e'.error {
            report := true;
            e' := e'.(error := false);
          }
        }
      }
    }

    method RecvError(from: Addr, errors: seq<(Addr, nat)>) returns (sent: seq<Msg>)
      requires Valid()
      requires forall i, j :: 0 <= i < j < |errors| ==> errors[i].0 != errors[j].0
      modifies rtable
      ensures Valid() && Result(Abs(), sent) == AomdvSpec.RecvError(old(Abs()), from, ErrorsOf(errors))
    {
      hide RouteBuffer.Queue.Valid, RouteBuffer.Queue.Contents;
      hide ErroredTable, ErrorReport, Errored, ReportsError, Hit, TableOf;
      ghost var n := Abs();
      var nre: map<Addr, nat> := map[];
      var i := 0;
      assert errors[..0] == [];
      NothingErrored(n.table, from);
      while i < |errors|
        invariant 0 <= i <= |errors| && Valid()
        invariant Abs() == n.(table := ErroredTable(n.table, from, ErrorsOf(errors[..i])))
        invariant nre == ErrorReport(n.table, from, ErrorsOf(errors[..i]))
      {
        var d, q := errors[i].0, errors[i].1;
        ghost var before := errors[..i];
        assert errors[..i + 1][..i] == before && errors[..i + 1][i] == errors[i];
        ErrorsKeys(before, d);
        ErroredStep(n.table, from, ErrorsOf(before), d, q);
        var k := rtable.Lookup(d);
        if k >= 0 {
          var e, report := TakeError(rtable.list[k].1, from, q);
          rtable.Set(k, e);
          if report {
            nre := nre[d := e.seqno];
          }
        }
        i := i + 1;
      }
      assert errors[..i] == errors;
      sent := SendError(index, nre);
    }

    static lemma NothingErrored(table: map<Addr, Entry>, from: Addr)
      ensures ErroredTable(table, from, map[]) == table && ErrorReport(table, from, map[]) == map[]
    {
    }

    /** What handle_link_failure does to one entry. */
    static method TakeLoss(e: Entry, id: Addr) returns (e': Entry, report: bool)
      ensures e' == Lost(e, id)
      ensures report == ReportsLoss(e, id)
    {
      e', report := e, false;
      var list := new PathList(e.paths);
      var i := list.Lookup(id);
      if e.flags == Up && i >= 0 {
        list.Delete(id);
        e' := e.(paths := list.paths);
        var empty := list.Empty();
        if empty {
          e' := e'.(seqno := Max(e'.seqno + 1, e'.highestHeard));
          if e'.error {
            report := true;
            e' := e'.(error := false);
          }
          e' := Downed(e');
        }
      }
    }

    method HandleLinkFailure(id: Addr) returns (sent: seq<Msg>)
      requires Valid()
      modifies rtable
      ensures Valid() && Result(Abs(), sent) == AomdvSpec.HandleLinkFailure(old(Abs()), id)
    {
      hide RouteBuffer.Queue.Valid, RouteBuffer.Queue.Contents;
      hide Lost, ReportsLoss, LostTable, LossReport, TableOf;
      ghost var list := rtable.list;
      var re: map<Addr, nat> := map[];
      var i := 0;
      while i < |rtable.list|
        invariant 0 <= i <= |rtable.list| == |list|
        invariant forall j :: 0 <= j < i ==> rtable.list[j] == (list[j].0, Lost(list[j].1, id))
        invariant forall j :: i <= j < |list| ==> rtable.list[j] == list[j]
        invariant re == LossUpTo(list, i, id)
      {
        var e, report := TakeLoss(rtable.list[i].1, id);
        if report {
          re := re[rtable.list[i].0 := e.seqno];
        }
        rtable.list := rtable.list[i := (rtable.list[i].0, e)];
        i := i + 1;
      }
      LostByPlace(list, rtable.list, id);
      LossIsWholeReport(list, id);
      hide LossUpTo;
      sent := SendError(index, re);
    }

    /** The loop that sends on, along other paths, what the interface queue held for a lost neighbour. */
    method SalvageStuck(stuck: seq<Stuck>, now: real) returns (sent: seq<Msg>)
      requires Valid()
      modifies rtable
      ensures Valid() && Result(Abs(), sent) == Salvage(old(Abs()), stuck, now)
    {
      hide TableOf, SalvageOne, RouteBuffer.Queue.Valid, RouteBuffer.Queue.Contents;
      ghost var n := Abs();
      sent := [];
      var i := 0;
      while i < |stuck|
        invariant 0 <= i <= |stuck| && Valid()
        invariant Result(Abs(), sent) == Salvage(n, stuck[..i], now)
      {
        assert stuck[..i + 1] == stuck[..i] + [stuck[i]];
        SalvageSnoc(n, stuck[..i], stuck[i], now);
        var more := SendOn(stuck[i], now);
        sent := sent + more;
        i := i + 1;
      }
      assert stuck[..i] == stuck;
    }

    method SendOn(s: Stuck, now: real) returns (sent: seq<Msg>)
      requires Valid()
      modifies rtable
      ensures Valid() && Result(Abs(), sent) == SalvageOne(old(Abs()), s, now)
    {
      hide TableOf, Released, RouteBuffer.Queue.Valid, RouteBuffer.Queue.Contents;
      sent := [];
      var k := rtable.Lookup(s.packet.dst);
      if k >= 0 && rtable.list[k].1.flags == Up && s.salvaged < MAX_SALVAGE_COUNT {
        var e;
        e, sent := Forward(rtable.list[k].1, s.packet, now);
        rtable.Set(k, e);
      }
    }

    /** forward, for a data packet and a route that is up */
    method Forward(e: Entry, p: Packet, now: real) returns (e': Entry, sent: seq<Msg>)
      ensures (e', sent) == Released(e, index, [p], now)
    {
      assert [p] + [] == [p];
      ReleasedStep(e, index, p, [], now);
      e', sent := e, [];
      if p.ttl != 0 && p.dst != index {
        sent := [Data(FirstPath(e).nexthop, p)];
        e' := FirstExpires(e, now + ACTIVE_ROUTE_TIMEOUT);
        if p.src != index {
          e' := e'.(error := true);
        }
      }
      ReleasedNone(e', index, now);
      assert sent + [] == sent;
    }

    /** nb_delete, with the packets that the interface queue holds for the neighbour */
    method NbDelete(id: Addr, stuck: seq<Stuck>, now: real) returns (sent: seq<Msg>)
      requires Valid()
      modifies this`seqno, this`nbhead, rtable
      ensures Valid() && Result(Abs(), sent) == NeighbourLost(old(Abs()), id, stuck, now)
    {
      hide TableOf, AomdvSpec.HandleLinkFailure, Salvage, NeighbourIndex, RouteBuffer.Queue.Valid,
        RouteBuffer.Queue.Contents;
      seqno := seqno + 2;
      var i := NbLookup(id);
      if i >= 0 {
        nbhead := nbhead[..i] + nbhead[i + 1..];
      }
      assert Abs() == NeighbourRemoved(old(Abs()), id);
      var first := HandleLinkFailure(id);
      var second := SalvageStuck(stuck, now);
      sent := first + second;
    }

    /** nb_purge: the neighbours that have fallen silent, in list order. */
    method NbPurge(now: real, stuck: Addr -> seq<Stuck>) returns (sent: seq<Msg>)
      requires Valid()
      modifies this`seqno, this`nbhead, rtable
      ensures Valid() && Result(Abs(), sent) == NeighboursLost(old(Abs()), Expired(old(nbhead), now), stuck, now)
    {
      hide TableOf, NeighbourLost, RouteBuffer.Queue.Valid, RouteBuffer.Queue.Contents;
      ghost var n := Abs();
      var all := nbhead;
      ghost var done: seq<Addr> := [];
      sent := [];
      assert Result(Abs(), sent) == NeighboursLost(n, done, stuck, now);
      var i := 0;
      assert all[i..] == all && done + Expired(all, now) == Expired(all, now);
      assert Expired([], now) == [];
      hide NeighboursLost, Expired;
      while i < |all|
        invariant 0 <= i <= |all| && Valid()
        invariant done + Expired(all[i..], now) == Expired(all, now)
        invariant Result(Abs(), sent) == NeighboursLost(n, done, stuck, now)
        decreases |all| - i
      {
        ExpiredStep(done, all, i, now);
        if all[i].expire <= now {
          var more := NbDelete(all[i].addr, stuck(all[i].addr), now);
          sent := sent + more;
          NeighboursLostSnoc(n, done, all[i].addr, stuck, now);
          done := done + [all[i].addr];
        }
        i := i + 1;
      }
      assert all[i..] == [];
      assert done + [] == done;
    }

    /** The expired paths go, and the route with them when none is left. */
    static method ExpirePaths(e: Entry, now: real) returns (e': Entry, down: bool)
      ensures down <==> LivePaths(e.paths, now) == []
      ensures e' == if down then Downed(e.(paths := [], seqno := PastNumber(e)))
                    else e.(paths := LivePaths(e.paths, now))
    {
      hide LivePaths;
      var list := new PathList(e.paths);
      list.Purge(now);
      e' := e.(paths := list.paths);
      down := list.Empty();
      if down {
        var q := Max(e.seqno + 1, e.highestHeard);
        if q % 2 == 0 {
          q := q + 1;
        }
        e' := Downed(e'.(seqno := q));
      }
    }

    method PurgeAt(i: nat, now: real, perHop: Addr -> real) returns (sent: seq<Msg>)
      requires Valid() && i < |rtable.list|
      modifies this, rtable, rqueue, rqueue.cells
      ensures fresh(rqueue.cells - old(rqueue.cells))
      ensures Valid() && Dsts(rtable.list) == old(Dsts(rtable.list))
      ensures old(rtable.list)[i].0 in old(Abs()).table
      ensures Result(Abs(), sent) == PurgeEntry(old(Abs()), old(rtable.list)[i].0, now, perHop)
    {
      hide RouteBuffer.Queue.Valid, RouteBuffer.Queue.Contents;
      hide AomdvSpec.SendRequest, Release, TableOf, Purged, Others, LivePaths, Downed, PastNumber;
      TableAt(rtable.list, i);
      var d, e := rtable.list[i].0, rtable.list[i].1;
      sent := [];
      if e.flags == Up && e.expire < now {
        var e', down := ExpirePaths(e, now);
        if down {
          var _ := Drain(d, now);
        }
        rtable.Set(i, e');
      } else if e.flags == Up {
        sent := ForwardBuffered(i, now);
      } else {
        var waiting := rqueue.Find(d);
        if waiting {
          sent := SendRequest(d, now, perHop);
        }
      }
    }

    method RtPurge(now: real, perHop: Addr -> real) returns (sent: seq<Msg>)
      requires Valid()
      modifies this, rtable, rqueue, rqueue.cells
      ensures fresh(rqueue.cells - old(rqueue.cells))
      ensures Valid() && Dsts(rtable.list) == old(Dsts(rtable.list))
      ensures forall d :: d in old(Dsts(rtable.list)) ==> d in old(Abs()).table
      ensures Result(Abs(), sent) == AomdvSpec.RtPurge(old(Abs()), old(Dsts(rtable.list)), now, perHop)
    {
      hide RouteBuffer.Queue.Valid, RouteBuffer.Queue.Contents;
      hide PurgeEntry, TableOf;
      ghost var n := Abs();
      ghost var order := Dsts(rtable.list);
      assert forall d :: d in order ==> d in n.table by {
        forall j | 0 <= j < |order| ensures order[j] in n.table {
          TableAt(rtable.list, j);
        }
      }
      sent := [];
      var i := 0;
      while i < |rtable.list|
        invariant 0 <= i <= |rtable.list| == |order| && Valid() && Dsts(rtable.list) == order
        invariant forall d :: d in order[..i] ==> d in n.table
        invariant Result(Abs(), sent) == AomdvSpec.RtPurge(n, order[..i], now, perHop)
        invariant fresh(rqueue.cells - old(rqueue.cells))
        decreases |order| - i
      {
        assert order[i] == rtable.list[i].0;
        TableAt(rtable.list, i);
        var more := PurgeAt(i, now, perHop);
        sent := sent + more;
        assert order[..i + 1] == order[..i] + [order[i]];
        RtPurgeSnoc(n, order[..i], order[i], now, perHop);
        i := i + 1;
      }
      assert order[..i] == order;
    }

    method RtResolve(p: Packet, now: real, perHop: Addr -> real) returns (sent: seq<Msg>)
      requires Valid()
      modifies this, rtable, rqueue, rqueue.cells
      ensures fresh(rqueue.cells - old(rqueue.cells))
      ensures Valid() && Result(Abs(), sent) == AomdvSpec.RtResolve(old(Abs()), p, now, perHop)
    {
      hide RouteBuffer.Queue.Valid, RouteBuffer.Queue.Contents;
      hide AomdvSpec.SendRequest, TableOf, Purged, Enqueued, Released;
      var i := rtable.LookupOrAdd(p.dst, NewEntry);
      var e := rtable.list[i].1;
      sent := [];
      if e.flags == Up {
        e, sent := Forward(e, p, now);
        rtable.Set(i, e);
      } else if p.src == index {
        Enque(p, now);
        sent := SendRequest(p.dst, now, perHop);
      } else {
        sent := [Rerr(index, map[p.dst := e.seqno])];
      }
    }

    method RecvData(p: Packet, now: real, perHop: Addr -> real) returns (sent: seq<Msg>)
      requires Valid()
      modifies this, rtable, rqueue, rqueue.cells
      ensures fresh(rqueue.cells - old(rqueue.cells))
      ensures Valid() && Result(Abs(), sent) == AomdvSpec.RecvData(old(Abs()), p, now, perHop)
    {
      hide RouteBuffer.Queue.Valid, RouteBuffer.Queue.Contents;
      hide AomdvSpec.RtResolve, TableOf;
      if p.src == index && p.forwards == 0 {
        sent := RtResolve(p.(ttl := NETWORK_DIAMETER), now, perHop);
      } else if p.src == index {
        sent := [];
      } else {
        var ttl := p.ttl - 1;
        if ttl == 0 {
          sent := [];
        } else {
          sent := RtResolve(p.(ttl := ttl), now, perHop);
        }
      }
    }
  }
}
