/** Route discovery works: a request that travels along a path of nodes, and the reply that travels back, leave live
routes in both directions, of the right lengths, and send what was waiting at the source. */
module AodvSetup {
  import opened Routing
  import opened BufferSpec
  import opened RingSearch
  import opened AodvSpec
  import opened AodvSafety
  import opened AodvNetwork

  /** A live route to `d` of this rank, through `via`. */
  predicate Routes(n: Node, d: Addr, rank: Rank, via: Addr) {
    d in n.table && n.table[d].flags == Up && n.table[d].Freshness() == rank && n.table[d].nexthop == via
  }

  /** Somebody upstream is known to use the route to `d`. */
  predicate Serves(n: Node, d: Addr) {
    d in n.table && n.table[d].precursors != {}
  }

  predicate Hears(n: Node, rq: Request) {
    && n.index != rq.src && !Heard(n, rq.src, rq.bcastId)
    && Rank(rq.srcSeqno, Finite(rq.hopCount)).Fresher(EntryOf(n, rq.src).Freshness())
  }

  /** Nothing better to do with a request than to pass it on. */
  predicate Relays(n: Node, rq: Request) {
    n.index != rq.dst && !CanReply(n, rq)
  }

  function PassedOn(n: Node, rq: Request): Request {
    rq.(sender := n.index, hopCount := rq.hopCount + 1, dstSeqno := Max(EntryOf(n, rq.dst).seqno, rq.dstSeqno))
  }

  /** How far the node that answers is from the destination. */
  function Distance(n: Node, d: Addr): nat {
    if n.index == d || d !in n.table || n.table[d].hops.Infinity? then 0 else n.table[d].hops.n
  }

  // ---------- one node ----------

  lemma ReverseRouteInstalled(n: Node, rq: Request, now: real)
    requires Hears(n, rq)
    ensures var n' := ReverseRoute(n, rq, now).node;
      && n'.index == n.index && n'.seqno == n.seqno
      && Routes(n', rq.src, Rank(rq.srcSeqno, Finite(rq.hopCount)), rq.sender)
      && forall d :: d != rq.src ==> (d in n'.table <==> d in n.table) && (d in n.table ==> n'.table[d] == n.table[d])
  {
  }

  lemma RelayPasses(n: Node, rq: Request, now: real)
    requires Hears(n, rq) && Relays(n, rq) && rq.src != rq.dst && rq.ttl > 0
    ensures var r := RecvRequest(n, rq, now);
      && r.node.index == n.index
      && Routes(r.node, rq.src, Rank(rq.srcSeqno, Finite(rq.hopCount)), rq.sender)
      && EntryOf(r.node, rq.dst) == EntryOf(n, rq.dst)
      && Rreq(PassedOn(n, rq)) in r.sent
  {
    ReverseRouteInstalled(n, rq, now);
    hide ReverseRoute;
    var n1 := ReverseRoute(n, rq, now).node;
    assert Answer(n1, rq, now).sent == [Rreq(PassedOn(n, rq))];
  }

  /** The reply of a node that answers. */
  predicate Answers(n: Node, rq: Request, rp: Reply) {
    && rp.sender == n.index && rp.to == rq.src && rp.via == rq.sender && rp.dst == rq.dst
    && rp.hopCount == Distance(n, rq.dst) + 1 && rp.dstSeqno >= rq.dstSeqno && rp.ttl == NETWORK_DIAMETER
  }

  lemma TargetAnswers(n: Node, rq: Request, now: real) returns (rp: Reply)
    requires Hears(n, rq) && !Relays(n, rq) && rq.src != rq.dst
    ensures Rrep(rp) in RecvRequest(n, rq, now).sent && Answers(n, rq, rp)
    ensures var n' := RecvRequest(n, rq, now).node;
      n'.index == n.index && Routes(n', rq.src, Rank(rq.srcSeqno, Finite(rq.hopCount)), rq.sender)
      && (rq.dst != n.index ==> Serves(n', rq.dst) && rq.sender in n'.table[rq.dst].precursors)
  {
    ReverseRouteInstalled(n, rq, now);
    hide ReverseRoute;
    var n1 := ReverseRoute(n, rq, now).node;
    if rq.dst == n.index {
      rp := ReplyTo(n1, rq, 1, ReplySeqno(n1.seqno, rq.dstSeqno), MY_ROUTE_TIMEOUT).rp;
    } else {
      var e := n1.table[rq.dst];
      rp := ReplyTo(n1, rq, e.hops.n + 1, e.seqno, Seconds(e.expire - now)).rp;
    }
    assert Answer(n1, rq, now).sent == [Rrep(rp)];
  }

  predicate Learns(n: Node, rp: Reply) {
    Rank(rp.dstSeqno, Finite(rp.hopCount)).Fresher(EntryOf(n, rp.dst).Freshness())
  }

  lemma ForwardRouteInstalled(n: Node, rp: Reply, now: real)
    ensures var n' := ForwardRoute(n, rp, now).node;
      && n'.index == n.index
      && Routes(n', rp.dst, Rank(rp.dstSeqno, Finite(rp.hopCount)), rp.sender)
      && forall d :: d != rp.dst ==> (d in n'.table <==> d in n.table) && (d in n.table ==> n'.table[d] == n.table[d])
  {
  }

  lemma RelayReturns(n: Node, rp: Reply, now: real, rank: Rank, back: Addr)
    requires Learns(n, rp) && rp.to != n.index && rp.to != rp.dst && rp.ttl > 0
    requires Routes(n, rp.to, rank, back) && rank.hops.Finite?
    ensures var r := RecvReply(n, rp, now);
      && r.node.index == n.index
      && Routes(r.node, rp.dst, Rank(rp.dstSeqno, Finite(rp.hopCount)), rp.sender)
      && Routes(r.node, rp.to, rank, back) && Serves(r.node, rp.dst) && back in r.node.table[rp.dst].precursors
      && Rrep(rp.(sender := n.index, via := back, hopCount := rp.hopCount + 1)) in r.sent
  {
    ForwardRouteInstalled(n, rp, now);
    hide ForwardRoute;
    var n1 := ForwardRoute(n, rp, now).node;
    assert PassReply(n1, rp, now).sent == [Rrep(rp.(sender := n.index, via := back, hopCount := rp.hopCount + 1))];
  }

  lemma {:induction false} ReleasedAll(e: Entry, index: Addr, pkts: seq<Packet>, now: real, p: Packet)
    requires p in pkts && p.ttl != 0 && p.dst != index
    ensures Data(e.nexthop, p) in Released(e, index, pkts, now).1
    decreases |pkts|
  {
    if pkts[0].ttl == 0 || pkts[0].dst == index {
      ReleasedAll(e, index, pkts[1..], now, p);
    } else if pkts[0] != p {
      ReleasedAll(e.(expire := now + ACTIVE_ROUTE_TIMEOUT), index, pkts[1..], now, p);
    }
  }

  /** Back at the source, every live packet that waited for the destination leaves through the new next hop. */
  lemma SourceSends(n: Node, rp: Reply, now: real, p: Packet)
    requires Learns(n, rp) && rp.to == n.index && rp.to != rp.dst
    ensures var r := RecvReply(n, rp, now);
      && Routes(r.node, rp.dst, Rank(rp.dstSeqno, Finite(rp.hopCount)), rp.sender)
      && (p in Held(Purged(n.buffer, now), rp.dst) && p.ttl != 0 && p.dst != n.index ==> Data(rp.sender, p) in r.sent)
  {
    ForwardRouteInstalled(n, rp, now);
    var e := Updated(EntryOf(n, rp.dst), rp.dstSeqno, rp.hopCount, rp.sender, now + (rp.lifetime as real))
             .(reqCnt := 0, reqTimeout := 0.0, reqLastTtl := rp.hopCount);
    if p in Held(Purged(n.buffer, now), rp.dst) && p.ttl != 0 && p.dst != n.index {
      ReleasedAll(e, n.index, Held(Purged(n.buffer, now), rp.dst), now, p);
    }
  }

  // ---------- the path ----------

  /** A node whose knowledge of `d` neither answers a request for `asked` nor outlives a reply to it. */
  predicate Behind(n: Node, d: Addr, asked: nat) {
    var e := EntryOf(n, d);
    e.seqno <= asked && (e.hops.Infinity? || e.seqno < asked)
  }

  /** The path and the request leave their first node, and no node is met twice. */
  predicate Leaves(path: seq<Addr>, rq: Request) {
    && 2 <= |path| <= NETWORK_DIAMETER + 1 && rq.src == path[0] == rq.sender && rq.src != rq.dst
    && rq.hopCount == 1 && rq.ttl >= |path| - 1
    && (forall i :: 0 < i < |path| - 1 ==> path[i] != rq.dst)
    && forall i, j :: 0 <= i < j < |path| ==> path[i] != path[j]
  }

  ghost predicate OnPath(net: Net, path: seq<Addr>) {
    forall i :: 0 <= i < |path| ==> path[i] in net.nodes && net.nodes[path[i]].index == path[i]
  }

  /** The largest number asked for once node `i` has passed the request on. */
  function Asked(net: Net, path: seq<Addr>, rq: Request, i: nat): nat {
    if i == 0 || i >= |path| || path[i] !in net.nodes then rq.dstSeqno
    else Max(EntryOf(net.nodes[path[i]], rq.dst).seqno, Asked(net, path, rq, i - 1))
  }

  /** The state before: the request is out, nobody else on the path has heard of it or knows a fresher route to its
  source, and the last node of the path, but none before it, can answer. */
  ghost predicate Ready(net: Net, path: seq<Addr>, rq: Request) {
    && Leaves(path, rq) && OnPath(net, path) && Rreq(rq) in net.msgs
    && Behind(net.nodes[path[0]], rq.dst, rq.dstSeqno)
    && (forall i: nat :: 0 < i < |path| ==> Hears(net.nodes[path[i]], rq.(hopCount := i)))
    && (forall i: nat :: 0 < i < |path| - 1 ==>
          EntryOf(net.nodes[path[i]], rq.dst).hops.Infinity?
          || EntryOf(net.nodes[path[i]], rq.dst).seqno < Asked(net, path, rq, i - 1))
    && var last := net.nodes[path[|path| - 1]];
       last.index == rq.dst || (EntryOf(last, rq.dst).hops.Finite?
                                && EntryOf(last, rq.dst).seqno >= Asked(net, path, rq, |path| - 2))
  }

  /** The request as node `i` of the path has sent it. */
  function Copy(path: seq<Addr>, rq: Request, i: nat, asked: nat): Request
    requires i < |path|
  {
    rq.(sender := path[i], hopCount := i + 1, dstSeqno := asked, ttl := rq.ttl - i)
  }

  /** The request has passed node `i`: there are routes back to the source up to there, and the rest is untouched. */
  ghost predicate Outward(net0: Net, net: Net, path: seq<Addr>, rq: Request, i: nat) {
    && i < |path| && OnPath(net0, path) && OnPath(net, path)
    && Rreq(Copy(path, rq, i, Asked(net0, path, rq, i))) in net.msgs
    && (forall j: nat :: 0 < j <= i ==>
          && Routes(net.nodes[path[j]], rq.src, Rank(rq.srcSeqno, Finite(j)), path[j - 1])
          && Behind(net.nodes[path[j]], rq.dst, Asked(net0, path, rq, i)))
    && (forall j :: i < j < |path| ==> net.nodes[path[j]] == net0.nodes[path[j]])
    && net.nodes[path[0]] == net0.nodes[path[0]]
  }

  lemma OutwardStarts(net: Net, path: seq<Addr>, rq: Request)
    requires Ready(net, path, rq)
    ensures Outward(net, net, path, rq, 0)
  {
    assert Copy(path, rq, 0, rq.dstSeqno) == rq;
  }

  /** What a delivery does to the network. */
  lemma Delivered(net: Net, at: Addr, m: Msg, now: real, perHop: Addr -> real)
    requires at in net.nodes && m in net.msgs
    ensures var ev := Deliver(at, m, now, perHop);
      && Enabled(net, ev)
      && Apply(net, ev).nodes == net.nodes[at := Recv(net.nodes[at], m, now, perHop).node]
      && (forall x :: x in net.msgs ==> x in Apply(net, ev).msgs)
      && (forall x :: x in Recv(net.nodes[at], m, now, perHop).sent ==> x in Apply(net, ev).msgs)
  {
    hide Recv;
  }

  /** The next node of the path relays. */
  lemma RelayOnPath(net: Net, path: seq<Addr>, rq: Request, i: nat, now: real)
    requires Ready(net, path, rq) && i + 1 < |path| - 1
    ensures var r := Copy(path, rq, i, Asked(net, path, rq, i));
      var res := RecvRequest(net.nodes[path[i + 1]], r.(ttl := r.ttl - 1), now);
      && res.node.index == path[i + 1]
      && Routes(res.node, rq.src, Rank(rq.srcSeqno, Finite(i + 1)), path[i])
      && Behind(res.node, rq.dst, Asked(net, path, rq, i + 1))
      && Rreq(Copy(path, rq, i + 1, Asked(net, path, rq, i + 1))) in res.sent
  {
    hide RecvRequest;
    var n := net.nodes[path[i + 1]];
    var r := Copy(path, rq, i, Asked(net, path, rq, i));
    var r' := r.(ttl := r.ttl - 1);
    assert Hears(n, rq.(hopCount := i + 1));
    assert Hears(n, r') && Relays(n, r');
    RelayPasses(n, r', now);
    assert PassedOn(n, r') == Copy(path, rq, i + 1, Asked(net, path, rq, i + 1));
  }

  lemma BehindMore(n: Node, d: Addr, asked: nat, asked': nat)
    requires Behind(n, d, asked) && asked <= asked'
    ensures Behind(n, d, asked')
  {
  }

  /** The network after one more node has relayed. */
  lemma OutwardMoves(net0: Net, net: Net, net': Net, path: seq<Addr>, rq: Request, i: nat)
    requires Leaves(path, rq) && Outward(net0, net, path, rq, i) && i + 1 < |path|
    requires path[i + 1] in net'.nodes && net'.nodes == net.nodes[path[i + 1] := net'.nodes[path[i + 1]]]
    requires var n' := net'.nodes[path[i + 1]];
      && n'.index == path[i + 1]
      && Routes(n', rq.src, Rank(rq.srcSeqno, Finite(i + 1)), path[i])
      && Behind(n', rq.dst, Asked(net0, path, rq, i + 1))
    requires Rreq(Copy(path, rq, i + 1, Asked(net0, path, rq, i + 1))) in net'.msgs
    ensures Outward(net0, net', path, rq, i + 1)
  {
    hide Routes, Behind, Copy;
    forall j: nat | 0 < j <= i + 1
      ensures Routes(net'.nodes[path[j]], rq.src, Rank(rq.srcSeqno, Finite(j)), path[j - 1])
      ensures Behind(net'.nodes[path[j]], rq.dst, Asked(net0, path, rq, i + 1))
    {
      if j <= i {
        BehindMore(net.nodes[path[j]], rq.dst, Asked(net0, path, rq, i), Asked(net0, path, rq, i + 1));
      }
    }
  }

  lemma NextOutward(net0: Net, net: Net, path: seq<Addr>, rq: Request, i: nat)
    requires Ready(net0, path, rq) && Outward(net0, net, path, rq, i) && i + 1 < |path|
    ensures Leaves(path, rq) && path[i + 1] in net0.nodes && path[i + 1] in net.nodes
    ensures net.nodes[path[i + 1]] == net0.nodes[path[i + 1]]
    ensures Rreq(Copy(path, rq, i, Asked(net0, path, rq, i))) in net.msgs
  {
  }

  lemma RequestReceived(n: Node, r: Request, now: real, perHop: Addr -> real)
    ensures Recv(n, Rreq(r), now, perHop) == RecvRequest(n, r.(ttl := r.ttl - 1), now)
  {
    hide RecvRequest;
  }

  lemma OutwardStep(net0: Net, net: Net, path: seq<Addr>, rq: Request, i: nat, now: real, perHop: Addr -> real)
    requires Ready(net0, path, rq) && Outward(net0, net, path, rq, i) && i + 1 < |path| - 1
    ensures var ev := Deliver(path[i + 1], Rreq(Copy(path, rq, i, Asked(net0, path, rq, i))), now, perHop);
      Enabled(net, ev) && Outward(net0, Apply(net, ev), path, rq, i + 1)
  {
    hide *;
    var r := Copy(path, rq, i, Asked(net0, path, rq, i));
    NextOutward(net0, net, path, rq, i);
    RelayOnPath(net0, path, rq, i, now);
    RequestReceived(net0.nodes[path[i + 1]], r, now, perHop);
    Delivered(net, path[i + 1], Rreq(r), now, perHop);
    OutwardMoves(net0, net, Apply(net, Deliver(path[i + 1], Rreq(r), now, perHop)), path, rq, i);
  }

  /** Steps of the network, one after the other. */
  ghost predicate Steps(nets: seq<Net>, evs: seq<Event>) {
    && |nets| == |evs| + 1
    && forall i :: 0 <= i < |evs| ==> Enabled(nets[i], evs[i]) && nets[i + 1] == Apply(nets[i], evs[i])
  }

  lemma StepsNone(net: Net)
    ensures Steps([net], [])
  {
  }

  lemma StepsCons(net: Net, ev: Event, nets: seq<Net>, evs: seq<Event>)
    requires Steps(nets, evs) && |nets| > 0 && Enabled(net, ev) && nets[0] == Apply(net, ev)
    ensures Steps([net] + nets, [ev] + evs)
  {
    hide Enabled, Apply;
  }

  lemma {:induction false} CarryOut(net0: Net, net: Net, path: seq<Addr>, rq: Request, i: nat, now: real, perHop: Addr -> real)
    returns (nets: seq<Net>, evs: seq<Event>)
    requires Ready(net0, path, rq) && Outward(net0, net, path, rq, i) && i < |path| - 1
    ensures Steps(nets, evs) && |nets| == |evs| + 1 && nets[0] == net && |evs| == |path| - 2 - i
    ensures Outward(net0, nets[|evs|], path, rq, |path| - 2)
    ensures forall k :: 0 <= k < |evs| ==> evs[k].Deliver?
    decreases |path| - i
  {
    hide *;
    if i == |path| - 2 {
      nets, evs := [net], [];
      StepsNone(net);
    } else {
      var ev := Deliver(path[i + 1], Rreq(Copy(path, rq, i, Asked(net0, path, rq, i))), now, perHop);
      OutwardStep(net0, net, path, rq, i, now, perHop);
      nets, evs := CarryOut(net0, Apply(net, ev), path, rq, i + 1, now, perHop);
      StepsCons(net, ev, nets, evs);
      nets, evs := [net] + nets, [ev] + evs;
    }
  }

  // ---------- the way back ----------

  /** The reply as node `i` of the path has sent it; `base` is how far the last node is from the destination. */
  predicate IsReply(path: seq<Addr>, rq: Request, i: nat, s: nat, base: nat, rp: Reply) {
    && 0 < i < |path| && rp.sender == path[i] && rp.to == rq.src && rp.via == path[i - 1] && rp.dst == rq.dst
    && rp.dstSeqno == s && rp.hopCount == base + |path| - i && rp.ttl == NETWORK_DIAMETER - (|path| - 1 - i)
  }

  ghost predicate BackRoutes(net: Net, path: seq<Addr>, rq: Request) {
    OnPath(net, path) &&
    forall j: nat :: 0 < j < |path| ==> Routes(net.nodes[path[j]], rq.src, Rank(rq.srcSeqno, Finite(j)), path[j - 1])
  }

  /** Routes to the destination from node `i` of the path on. */
  ghost predicate ForthRoutes(net: Net, path: seq<Addr>, rq: Request, i: nat, s: nat, base: nat) {
    OnPath(net, path) &&
    forall j: nat :: i <= j < |path| - 1 ==>
      && Routes(net.nodes[path[j]], rq.dst, Rank(s, Finite(base + |path| - 1 - j)), path[j + 1])
      && (j > 0 ==> Serves(net.nodes[path[j]], rq.dst))
  }

  /** The reply has passed node `i`. */
  ghost predicate Homeward(net0: Net, net: Net, path: seq<Addr>, rq: Request, i: nat, s: nat, base: nat, rp: Reply) {
    && OnPath(net0, path) && OnPath(net, path) && IsReply(path, rq, i, s, base, rp) && Rrep(rp) in net.msgs
    && BackRoutes(net, path, rq) && ForthRoutes(net, path, rq, i, s, base)
    && (forall j: nat :: 0 <= j < i ==> Behind(net.nodes[path[j]], rq.dst, s))
    && net.nodes[path[0]] == net0.nodes[path[0]]
  }

  lemma {:induction false} AskedGrows(net: Net, path: seq<Addr>, rq: Request, i: nat)
    ensures Asked(net, path, rq, i) >= rq.dstSeqno
  {
    if i > 0 {
      AskedGrows(net, path, rq, i - 1);
    }
  }

  /** The last node answers. */
  lemma TargetOnPath(net: Net, path: seq<Addr>, rq: Request, now: real) returns (rp: Reply)
    requires Ready(net, path, rq)
    ensures var i := |path| - 1;
      var r := Copy(path, rq, i - 1, Asked(net, path, rq, i - 1));
      var res := RecvRequest(net.nodes[path[i]], r.(ttl := r.ttl - 1), now);
      && res.node.index == path[i]
      && Routes(res.node, rq.src, Rank(rq.srcSeqno, Finite(i)), path[i - 1])
      && Rrep(rp) in res.sent && rp.dstSeqno >= Asked(net, path, rq, i - 1)
      && IsReply(path, rq, i, rp.dstSeqno, Distance(net.nodes[path[i]], rq.dst), rp)
  {
    hide RecvRequest;
    var i := |path| - 1;
    var n := net.nodes[path[i]];
    var r := Copy(path, rq, i - 1, Asked(net, path, rq, i - 1));
    var r' := r.(ttl := r.ttl - 1);
    assert Hears(n, rq.(hopCount := i));
    assert Hears(n, r') && !Relays(n, r');
    rp := TargetAnswers(n, r', now);
  }

  /** The network after the last node has answered. */
  lemma HomewardStarts(net0: Net, net: Net, net': Net, path: seq<Addr>, rq: Request, rp: Reply, base: nat)
    requires Ready(net0, path, rq) && Outward(net0, net, path, rq, |path| - 2)
    requires var at := path[|path| - 1]; at in net'.nodes && net'.nodes == net.nodes[at := net'.nodes[at]]
    requires var i := |path| - 1; var n' := net'.nodes[path[i]];
      n'.index == path[i] && Routes(n', rq.src, Rank(rq.srcSeqno, Finite(i)), path[i - 1])
    requires Rrep(rp) in net'.msgs && rp.dstSeqno >= Asked(net0, path, rq, |path| - 2)
    requires IsReply(path, rq, |path| - 1, rp.dstSeqno, base, rp)
    ensures Homeward(net0, net', path, rq, |path| - 1, rp.dstSeqno, base, rp)
  {
    hide Routes, Behind, Hears, IsReply, Asked;
    forall j: nat | 0 <= j < |path| - 1
      ensures net'.nodes[path[j]] == net.nodes[path[j]]
      ensures Behind(net'.nodes[path[j]], rq.dst, rp.dstSeqno)
    {
      if j == 0 {
        AskedGrows(net0, path, rq, |path| - 2);
        BehindMore(net0.nodes[path[0]], rq.dst, rq.dstSeqno, rp.dstSeqno);
      } else {
        BehindMore(net.nodes[path[j]], rq.dst, Asked(net0, path, rq, |path| - 2), rp.dstSeqno);
      }
    }
  }

  lemma TargetStep(net0: Net, net: Net, path: seq<Addr>, rq: Request, now: real, perHop: Addr -> real)
    returns (ev: Event, rp: Reply)
    requires Ready(net0, path, rq) && Outward(net0, net, path, rq, |path| - 2)
    ensures ev.Deliver? && Enabled(net, ev) && rp.dstSeqno >= rq.dstSeqno
    ensures |path| > 1 && path[|path| - 1] in net0.nodes
    ensures Homeward(net0, Apply(net, ev), path, rq, |path| - 1, rp.dstSeqno,
                     Distance(net0.nodes[path[|path| - 1]], rq.dst), rp)
  {
    hide *;
    ReadyOnPath(net0, path, rq);
    var i := |path| - 2;
    var r := Copy(path, rq, i, Asked(net0, path, rq, i));
    NextOutward(net0, net, path, rq, i);
    rp := TargetOnPath(net0, path, rq, now);
    AskedGrows(net0, path, rq, i);
    RequestReceived(net0.nodes[path[i + 1]], r, now, perHop);
    Delivered(net, path[i + 1], Rreq(r), now, perHop);
    ev := Deliver(path[i + 1], Rreq(r), now, perHop);
    HomewardStarts(net0, net, Apply(net, ev), path, rq, rp, Distance(net0.nodes[path[i + 1]], rq.dst));
  }

  lemma ReadyOnPath(net: Net, path: seq<Addr>, rq: Request)
    requires Ready(net, path, rq)
    ensures |path| >= 2 && Leaves(path, rq) && forall i: nat :: i < |path| ==> path[i] in net.nodes
  {
  }

  lemma BehindLearns(n: Node, rp: Reply)
    requires Behind(n, rp.dst, rp.dstSeqno)
    ensures Learns(n, rp)
  {
  }

  /** A node in the middle of the path takes the reply and passes it back. */
  lemma ReturnOnPath(net0: Net, net: Net, path: seq<Addr>, rq: Request, i: nat, s: nat, base: nat, rp: Reply, now: real)
    returns (rp': Reply)
    requires Leaves(path, rq) && Homeward(net0, net, path, rq, i, s, base, rp) && i >= 2
    ensures var res := RecvReply(net.nodes[path[i - 1]], rp.(ttl := rp.ttl - 1), now);
      && res.node.index == path[i - 1]
      && Routes(res.node, rq.dst, Rank(s, Finite(base + |path| - i)), path[i]) && Serves(res.node, rq.dst)
      && Routes(res.node, rq.src, Rank(rq.srcSeqno, Finite(i - 1)), path[i - 2])
      && Rrep(rp') in res.sent && IsReply(path, rq, i - 1, s, base, rp')
  {
    hide RecvReply;
    var n := net.nodes[path[i - 1]];
    var r := rp.(ttl := rp.ttl - 1);
    assert Behind(n, rq.dst, s);
    BehindLearns(n, r);
    assert Routes(n, rq.src, Rank(rq.srcSeqno, Finite(i - 1)), path[i - 2]);
    hide Behind, Learns, Routes, Serves;
    RelayReturns(n, r, now, Rank(rq.srcSeqno, Finite(i - 1)), path[i - 2]);
    rp' := r.(sender := n.index, via := path[i - 2], hopCount := r.hopCount + 1);
  }

  /** The network after one more node has passed the reply. */
  lemma HomewardMoves(net0: Net, net: Net, net': Net, path: seq<Addr>, rq: Request, i: nat, s: nat, base: nat,
                      rp: Reply, rp': Reply)
    requires Leaves(path, rq) && Homeward(net0, net, path, rq, i, s, base, rp) && i >= 2
    requires var at := path[i - 1]; at in net'.nodes && net'.nodes == net.nodes[at := net'.nodes[at]]
    requires var n' := net'.nodes[path[i - 1]];
      && n'.index == path[i - 1]
      && Routes(n', rq.dst, Rank(s, Finite(base + |path| - i)), path[i]) && Serves(n', rq.dst)
      && Routes(n', rq.src, Rank(rq.srcSeqno, Finite(i - 1)), path[i - 2])
    requires Rrep(rp') in net'.msgs && IsReply(path, rq, i - 1, s, base, rp')
    ensures Homeward(net0, net', path, rq, i - 1, s, base, rp')
  {
    hide Routes, Serves, Behind, IsReply;
    HomewardFacts(net0, net, path, rq, i, s, base, rp);
    forall j: nat | j < |path| && j != i - 1
      ensures path[j] in net'.nodes && net'.nodes[path[j]] == net.nodes[path[j]]
    {
    }
  }

  lemma ReplyReceived(n: Node, rp: Reply, now: real, perHop: Addr -> real)
    ensures Recv(n, Rrep(rp), now, perHop) == RecvReply(n, rp.(ttl := rp.ttl - 1), now)
  {
    hide RecvReply;
  }

  lemma HomewardFacts(net0: Net, net: Net, path: seq<Addr>, rq: Request, i: nat, s: nat, base: nat, rp: Reply)
    requires Homeward(net0, net, path, rq, i, s, base, rp)
    ensures 0 < i < |path| && path[i - 1] in net.nodes && Rrep(rp) in net.msgs && path[0] in net0.nodes
  {
  }

  lemma HomewardStep(net0: Net, net: Net, path: seq<Addr>, rq: Request, i: nat, s: nat, base: nat, rp: Reply,
                     now: real, perHop: Addr -> real) returns (ev: Event, rp': Reply)
    requires Leaves(path, rq) && Homeward(net0, net, path, rq, i, s, base, rp) && i >= 2
    ensures ev.Deliver? && Enabled(net, ev) && Homeward(net0, Apply(net, ev), path, rq, i - 1, s, base, rp')
  {
    hide *;
    HomewardFacts(net0, net, path, rq, i, s, base, rp);
    rp' := ReturnOnPath(net0, net, path, rq, i, s, base, rp, now);
    ReplyReceived(net.nodes[path[i - 1]], rp, now, perHop);
    Delivered(net, path[i - 1], Rrep(rp), now, perHop);
    ev := Deliver(path[i - 1], Rrep(rp), now, perHop);
    HomewardMoves(net0, net, Apply(net, ev), path, rq, i, s, base, rp, rp');
  }

  lemma {:induction false} CarryBack(net0: Net, net: Net, path: seq<Addr>, rq: Request, i: nat, s: nat, base: nat,
                                     rp: Reply, now: real, perHop: Addr -> real)
    returns (nets: seq<Net>, evs: seq<Event>, rp': Reply)
    requires Leaves(path, rq) && Homeward(net0, net, path, rq, i, s, base, rp) && i >= 1
    ensures Steps(nets, evs) && |nets| == |evs| + 1 && nets[0] == net && |evs| == i - 1
    ensures Homeward(net0, nets[|evs|], path, rq, 1, s, base, rp')
    ensures forall k :: 0 <= k < |evs| ==> evs[k].Deliver?
    decreases i
  {
    hide *;
    if i == 1 {
      nets, evs, rp' := [net], [], rp;
      StepsNone(net);
    } else {
      var ev, next := HomewardStep(net0, net, path, rq, i, s, base, rp, now, perHop);
      nets, evs, rp' := CarryBack(net0, Apply(net, ev), path, rq, i - 1, s, base, next, now, perHop);
      StepsCons(net, ev, nets, evs);
      nets, evs := [net] + nets, [ev] + evs;
    }
  }

  /** The outcome: live routes from every node of the path to both its ends, through its neighbours on the path. */
  ghost predicate Connected(net: Net, path: seq<Addr>, rq: Request, s: nat, base: nat) {
    BackRoutes(net, path, rq) && ForthRoutes(net, path, rq, 0, s, base)
  }

  /** The packet that waited at the source has been handed to the second node. */
  ghost predicate Sends(net0: Net, net: Net, path: seq<Addr>, rq: Request, now: real, p: Packet)
    requires |path| >= 2 && path[0] in net0.nodes
  {
    p in Held(Purged(net0.nodes[path[0]].buffer, now), rq.dst) && p.ttl != 0 ==> Data(path[1], p) in net.msgs
  }

  lemma SourceStep(net0: Net, net: Net, path: seq<Addr>, rq: Request, s: nat, base: nat, rp: Reply,
                   now: real, perHop: Addr -> real) returns (ev: Event)
    requires Leaves(path, rq) && Homeward(net0, net, path, rq, 1, s, base, rp)
    ensures ev.Deliver? && Enabled(net, ev) && |path| >= 2 && path[0] in net0.nodes
    ensures Connected(Apply(net, ev), path, rq, s, base)
    ensures forall p :: Sends(net0, Apply(net, ev), path, rq, now, p)
  {
    var n, r := net.nodes[path[0]], rp.(ttl := rp.ttl - 1);
    var n' := RecvReply(n, r, now).node;
    assert Behind(n, rq.dst, s);
    BehindLearns(n, r);
    SourceSends(n, r, now, Packet(0, 0, 0, 0, 0));
    RecvReplyKeepsIndex(n, r, now);
    forall p
      ensures Sends(net0, Apply(net, Deliver(path[0], Rrep(rp), now, perHop)), path, rq, now, p)
    {
      hide Apply, RecvReply, Learns, Behind, Routes;
      SourceSends(n, r, now, p);
      HeldAreFor(Purged(n.buffer, now), rq.dst);
      ReplyReceived(n, rp, now, perHop);
      Delivered(net, path[0], Rrep(rp), now, perHop);
    }
    hide RecvReply, Learns, Behind, Routes, Held, Purged;
    ReplyReceived(n, rp, now, perHop);
    Delivered(net, path[0], Rrep(rp), now, perHop);
    ev := Deliver(path[0], Rrep(rp), now, perHop);
    hide Apply;
    SourceConnects(net0, net, Apply(net, ev), path, rq, s, base, rp);
  }

  lemma RecvReplyKeepsIndex(n: Node, rp: Reply, now: real)
    requires rp.to == n.index && Learns(n, rp)
    ensures RecvReply(n, rp, now).node.index == n.index
  {
    ForwardRouteInstalled(n, rp, now);
  }

  lemma SourceConnects(net0: Net, net: Net, net': Net, path: seq<Addr>, rq: Request, s: nat, base: nat, rp: Reply)
    requires Leaves(path, rq) && Homeward(net0, net, path, rq, 1, s, base, rp)
    requires path[0] in net'.nodes && net'.nodes == net.nodes[path[0] := net'.nodes[path[0]]]
    requires net'.nodes[path[0]].index == path[0]
    requires Routes(net'.nodes[path[0]], rq.dst, Rank(s, Finite(base + |path| - 1)), path[1])
    ensures Connected(net', path, rq, s, base)
  {
    hide Routes, Serves, Behind, IsReply;
    forall j: nat | 0 < j < |path|
      ensures path[j] in net'.nodes && net'.nodes[path[j]] == net.nodes[path[j]]
    {
    }
  }

  lemma StepsAppend(a: seq<Net>, ea: seq<Event>, b: seq<Net>, eb: seq<Event>)
    requires Steps(a, ea) && Steps(b, eb) && |a| == |ea| + 1 && |b| == |eb| + 1 && a[|ea|] == b[0]
    ensures Steps(a[..|ea|] + b, ea + eb)
    ensures (a[..|ea|] + b)[0] == a[0] && (a[..|ea|] + b)[|ea| + |eb|] == b[|eb|]
  {
    hide Enabled, Apply;
    var nets, evs := a[..|ea|] + b, ea + eb;
    forall i | 0 <= i < |evs|
      ensures Enabled(nets[i], evs[i]) && nets[i + 1] == Apply(nets[i], evs[i])
    {
      if i < |ea| {
        assert nets[i] == a[i] && evs[i] == ea[i] && nets[i + 1] == a[i + 1];
      } else {
        assert nets[i] == b[i - |ea|] && evs[i] == eb[i - |ea|] && nets[i + 1] == b[i + 1 - |ea|];
      }
    }
  }

  /** From any state in which a request has just left the source and the nodes of some path to a node that can answer
  have not heard of it, twice as many deliveries as the path has hops connect the path in both directions, with the
  right hop counts, and send every live packet that was waiting. */
  lemma RouteIsFound(net0: Net, path: seq<Addr>, rq: Request, now: real, perHop: Addr -> real)
    returns (nets: seq<Net>, evs: seq<Event>, s: nat)
    requires Ready(net0, path, rq)
    ensures |path| >= 2 && path[0] in net0.nodes && path[|path| - 1] in net0.nodes
    ensures Steps(nets, evs) && |nets| == |evs| + 1 && nets[0] == net0 && |evs| == 2 * (|path| - 1)
    ensures forall k :: 0 <= k < |evs| ==> evs[k].Deliver?
    ensures s >= rq.dstSeqno
    ensures Connected(nets[|evs|], path, rq, s, Distance(net0.nodes[path[|path| - 1]], rq.dst))
    ensures forall p :: Sends(net0, nets[|evs|], path, rq, now, p)
  {
    hide *;
    ReadyOnPath(net0, path, rq);
    OutwardStarts(net0, path, rq);
    nets, evs := CarryOut(net0, net0, path, rq, 0, now, perHop);
    var net1 := nets[|evs|];
    var ev1, rp1 := TargetStep(net0, net1, path, rq, now, perHop);
    s := rp1.dstSeqno;
    var base := Distance(net0.nodes[path[|path| - 1]], rq.dst);
    var nets2, evs2, rp2 := CarryBack(net0, Apply(net1, ev1), path, rq, |path| - 1, s, base, rp1, now, perHop);
    StepsCons(net1, ev1, nets2, evs2);
    StepsAppend(nets, evs, [net1] + nets2, [ev1] + evs2);
    nets, evs := nets[..|evs|] + ([net1] + nets2), evs + ([ev1] + evs2);
    var net3 := nets[|evs|];
    assert net3 == nets2[|evs2|];
    var ev3 := SourceStep(net0, net3, path, rq, s, base, rp2, now, perHop);
    StepsOne(net3, ev3);
    StepsAppend(nets, evs, [net3, Apply(net3, ev3)], [ev3]);
    nets, evs := nets[..|evs|] + [net3, Apply(net3, ev3)], evs + [ev3];
  }

  lemma StepsOne(net: Net, ev: Event)
    requires Enabled(net, ev)
    ensures Steps([net, Apply(net, ev)], [ev])
  {
    hide Enabled, Apply;
  }

  // ---------- from the start ----------

  /** The first packet of a fresh node makes it ask the whole network, since no hop count is known yet. */
  lemma FreshNodeAsks(n: Node, p: Packet, now: real, perHop: Addr -> real)
    requires n == NewNode(n.index) && p.src == n.index && p.forwards == 0 && p.dst != n.index && now >= 0.0
    ensures var r := RecvData(n, p, now, perHop);
      && r.node.index == n.index && EntryOf(r.node, p.dst).hops.Infinity? && EntryOf(r.node, p.dst).seqno == 0
      && r.sent == [Rreq(Request(n.index, 1, 1, p.dst, 0, n.index, 4, now, NETWORK_DIAMETER))]
      && p.(ttl := NETWORK_DIAMETER) in Held(Purged(r.node.buffer, now), p.dst)
  {
    var q := p.(ttl := NETWORK_DIAMETER);
    var n1 := SetEntry(n, p.dst, NewEntry);
    var n2 := n1.(buffer := Enqueued(n.buffer, q, now));
    assert RecvData(n, p, now, perHop) == SendRequest(n2, p.dst, now, perHop);
    assert n2.buffer == [Buffered(q, now + BUFFER_TIMEOUT)] by {
      assert Purged(n.buffer, now) == [];
    }
    assert Purged(n2.buffer, now) == n2.buffer by {
      PurgedFixpoint(n2.buffer, now);
    }
    assert Held(n2.buffer, p.dst) == [q];
  }

  lemma FreshIsReady(net: Net, path: seq<Addr>, p: Packet, now: real, perHop: Addr -> real) returns (rq: Request)
    requires Init(net) && 2 <= |path| <= NETWORK_DIAMETER + 1 && Distinct(path) && now >= 0.0
    requires forall i :: 0 <= i < |path| ==> path[i] in net.nodes
    requires p.src == path[0] && p.dst == path[|path| - 1] && p.forwards == 0
    ensures var ev := Originate(path[0], p, now, perHop);
      && Enabled(net, ev) && Ready(Apply(net, ev), path, rq)
      && rq.src == p.src && rq.dst == p.dst && path[0] in Apply(net, ev).nodes && path[|path| - 1] in Apply(net, ev).nodes
      && Distance(Apply(net, ev).nodes[path[|path| - 1]], rq.dst) == 0
      && p.(ttl := NETWORK_DIAMETER) in Held(Purged(Apply(net, ev).nodes[path[0]].buffer, now), p.dst)
  {
    hide RecvData, Held, Purged;
    FreshNodeAsks(net.nodes[path[0]], p, now, perHop);
    rq := Request(path[0], 1, 1, p.dst, 0, path[0], 4, now, NETWORK_DIAMETER);
    var net' := Apply(net, Originate(path[0], p, now, perHop));
    assert forall i :: 0 < i < |path| ==> net'.nodes[path[i]] == NewNode(path[i]);
    FreshAsked(net', path, rq, |path| - 2);
  }

  lemma {:induction false} FreshAsked(net: Net, path: seq<Addr>, rq: Request, i: nat)
    requires forall j :: 0 < j < |path| ==> path[j] in net.nodes && net.nodes[path[j]] == NewNode(path[j])
    requires i < |path| && rq.dstSeqno == 0
    ensures Asked(net, path, rq, i) == 0
  {
    if i > 0 {
      FreshAsked(net, path, rq, i - 1);
    }
  }

  /** In a network where nobody knows anything, the first packet from one end of any path of up to NETWORK_DIAMETER
  hops to the other can lead, in one step per hop and direction, to routes along the path both ways, of its length, and
  leaves along it. */
  lemma FirstPacketFindsRoute(net: Net, path: seq<Addr>, p: Packet, now: real, perHop: Addr -> real)
    returns (nets: seq<Net>, evs: seq<Event>, rq: Request, s: nat)
    requires Init(net) && 2 <= |path| <= NETWORK_DIAMETER + 1 && Distinct(path) && now >= 0.0
    requires forall i :: 0 <= i < |path| ==> path[i] in net.nodes
    requires p.src == path[0] && p.dst == path[|path| - 1] && p.forwards == 0
    ensures CarefulRun(nets, evs) && |nets| == |evs| + 1 && |evs| == 2 * |path| - 1 && nets[0] == net
    ensures rq.src == p.src && rq.dst == p.dst && Connected(nets[|evs|], path, rq, s, 0)
    ensures Data(path[1], p.(ttl := NETWORK_DIAMETER)) in nets[|evs|].msgs
  {
    hide *;
    rq := FreshIsReady(net, path, p, now, perHop);
    var ev := Originate(path[0], p, now, perHop);
    var net0 := Apply(net, ev);
    nets, evs, s := RouteIsFound(net0, path, rq, now, perHop);
    WaitingIsSent(net0, nets[|evs|], path, rq, now, p.(ttl := NETWORK_DIAMETER));
    StepsCons(net, ev, nets, evs);
    nets, evs := [net] + nets, [ev] + evs;
    StepsAreRun(nets, evs);
  }

  lemma WaitingIsSent(net0: Net, net: Net, path: seq<Addr>, rq: Request, now: real, q: Packet)
    requires |path| >= 2 && path[0] in net0.nodes && Sends(net0, net, path, rq, now, q) && q.ttl != 0
    requires q in Held(Purged(net0.nodes[path[0]].buffer, now), rq.dst)
    ensures Data(path[1], q) in net.msgs
  {
  }

  lemma StepsAreRun(nets: seq<Net>, evs: seq<Event>)
    requires Steps(nets, evs) && |nets| > 0 && Init(nets[0]) && forall k :: 0 <= k < |evs| ==> !evs[k].RepairTimer?
    ensures CarefulRun(nets, evs)
  {
    hide Init, Apply;
  }
}
