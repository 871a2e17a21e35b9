/** What a connected path is good for: data packets travel along it to its end, and when one of its links breaks, the
errors that travel back leave no node before the break with a route into it. */
module AodvDelivery {
  import opened Routing
  import opened BufferSpec
  import opened RingSearch
  import opened AodvSpec
  import opened AodvSafety
  import opened AodvNetwork
  import opened AodvSetup

  // ---------- data packets at one node ----------

  predicate NoRoute(n: Node, d: Addr) {
    d !in n.table || n.table[d].flags == Down
  }

  predicate UnderRepair(n: Node, d: Addr) {
    d in n.table && n.table[d].flags == InRepair
  }

  lemma ReleasedOne(e: Entry, index: Addr, p: Packet, now: real)
    ensures Released(e, index, [p], now) ==
            if p.ttl == 0 || p.dst == index then (e, [])
            else (e.(expire := now + ACTIVE_ROUTE_TIMEOUT), [Data(e.nexthop, p)])
  {
    var e' := e.(expire := now + ACTIVE_ROUTE_TIMEOUT);
    assert [p][1..] == [];
    assert Released(e, index, [], now) == (e, []) && Released(e', index, [], now) == (e', []);
    assert [Data(e.nexthop, p)] + [] == [Data(e.nexthop, p)];
  }

  /** A packet on its way goes to the next hop of a live route, with one hop less to go; the route lives on. */
  lemma RelayForwards(n: Node, from: Addr, p: Packet, now: real, perHop: Addr -> real, rank: Rank, via: Addr)
    requires Routes(n, p.dst, rank, via) && p.src != n.index && p.dst != n.index && p.ttl > 1
    ensures var r := Recv(n, Data(from, p), now, perHop);
      && r.sent == [Data(via, p.(ttl := p.ttl - 1))]
      && r.node == n.(table := n.table[p.dst := n.table[p.dst].(expire := now + ACTIVE_ROUTE_TIMEOUT)])
  {
    ReleasedOne(n.table[p.dst], n.index, p.(ttl := p.ttl - 1), now);
    hide Released;
    assert n.table[p.dst := n.table[p.dst]] == n.table;
    var e' := n.table[p.dst].(expire := now + ACTIVE_ROUTE_TIMEOUT);
    assert n.table[p.dst := n.table[p.dst]][p.dst := e'] == n.table[p.dst := e'];
  }

  /** Without a route it is reported lost, under the last number known for its destination. */
  lemma StrandedIsReported(n: Node, from: Addr, p: Packet, now: real, perHop: Addr -> real)
    requires NoRoute(n, p.dst) && p.src != n.index && p.ttl > 1
    ensures var r := Recv(n, Data(from, p), now, perHop);
      && r.sent == [Rerr(n.index, map[p.dst := if p.dst in n.table then n.table[p.dst].seqno else 0])]
      && r.node.buffer == n.buffer && r.node == n.(table := r.node.table)
      && forall d :: d in n.table ==> d in r.node.table && r.node.table[d] == n.table[d]
  {
  }

  /** While the route is being repaired it waits. */
  lemma RepairHolds(n: Node, from: Addr, p: Packet, now: real, perHop: Addr -> real)
    requires UnderRepair(n, p.dst) && p.src != n.index && p.ttl > 1
    ensures var r := Recv(n, Data(from, p), now, perHop);
      r.sent == [] && p.(ttl := p.ttl - 1) in Held(r.node.buffer, p.dst)
  {
    EnqueuedIsHeld(n.buffer, p.(ttl := p.ttl - 1), now);
  }

  /** With its hops used up, or back at its source, it is dropped. */
  lemma SpentIsDropped(n: Node, from: Addr, p: Packet, now: real, perHop: Addr -> real)
    requires if p.src == n.index then p.forwards > 0 else p.ttl == 1
    ensures Recv(n, Data(from, p), now, perHop) == Result(n, [])
  {
  }

  /** A packet of the node's own leaves through a live route, and otherwise waits, with a request for its destination
  out, if none is due later or given up. */
  lemma OwnPacketLeaves(n: Node, p: Packet, now: real, perHop: Addr -> real)
    requires p.src == n.index && p.forwards == 0 && p.dst != n.index
    ensures var r, q, e := RecvData(n, p, now, perHop), p.(ttl := NETWORK_DIAMETER), EntryOf(n, p.dst);
      && (e.flags == Up ==> r.sent == [Data(e.nexthop, q)] && r.node.buffer == n.buffer)
      && (e.flags != Up && (e.reqTimeout > now || e.reqCnt <= RREQ_RETRIES) ==> q in Held(r.node.buffer, p.dst))
      && (e.flags != Up && e.reqTimeout <= now && e.reqCnt <= RREQ_RETRIES ==>
            |r.sent| == 1 && AsksFor(r.sent[0], n, p.dst))
      && (e.flags != Up && e.reqTimeout > now ==> r.sent == [])
  {
    var q := p.(ttl := NETWORK_DIAMETER);
    ReleasedOne(EntryOf(n, p.dst), n.index, q, now);
    EnqueuedIsHeld(n.buffer, q, now);
    hide Released, Held, Enqueued, Purged, Others;
  }

  /** A new request of the node's own: under the next id and a number not used before, for at least the number known. */
  predicate AsksFor(m: Msg, n: Node, d: Addr) {
    && m.Rreq? && m.rq.sender == m.rq.src == n.index && m.rq.dst == d && m.rq.dstSeqno == EntryOf(n, d).seqno
    && m.rq.hopCount == 1 && m.rq.bcastId == n.bid && m.rq.srcSeqno > n.seqno
  }

  // ---------- a packet along the path ----------

  /** The packet as it is sent to node `i` of the path. */
  function OnTheWay(q: Packet, i: nat): Packet
    requires i > 0
  {
    q.(ttl := q.ttl - (i - 1))
  }

  /** It fits the path: from its first node towards the destination, with hops enough. */
  predicate Travels(path: seq<Addr>, rq: Request, q: Packet) {
    && Leaves(path, rq) && q.src == path[0] && q.dst == rq.dst && q.ttl >= |path| - 1
  }

  /** The packet has been sent to node `i`. */
  ghost predicate Underway(net: Net, path: seq<Addr>, rq: Request, s: nat, base: nat, q: Packet, i: nat) {
    && 0 < i < |path| && Travels(path, rq, q) && Connected(net, path, rq, s, base)
    && Data(path[i], OnTheWay(q, i)) in net.msgs
  }

  /** Prolonging one route keeps every route. */
  lemma ProlongedKeeps(n: Node, d: Addr, t: real, x: Addr, rank: Rank, via: Addr)
    requires d in n.table && Routes(n, x, rank, via)
    ensures var n' := n.(table := n.table[d := n.table[d].(expire := t)]);
      Routes(n', x, rank, via) && (Serves(n, x) ==> Serves(n', x))
  {
  }

  lemma ConnectedAt(net: Net, path: seq<Addr>, rq: Request, s: nat, base: nat, i: nat)
    requires Connected(net, path, rq, s, base) && i < |path|
    ensures path[i] in net.nodes && net.nodes[path[i]].index == path[i]
    ensures i > 0 ==> Routes(net.nodes[path[i]], rq.src, Rank(rq.srcSeqno, Finite(i)), path[i - 1])
    ensures i < |path| - 1 ==> Routes(net.nodes[path[i]], rq.dst, Rank(s, Finite(base + |path| - 1 - i)), path[i + 1])
    ensures 0 < i < |path| - 1 ==> Serves(net.nodes[path[i]], rq.dst)
  {
  }

  /** One node changed, with its routes and users as they were. */
  lemma StaysConnected(net: Net, net': Net, path: seq<Addr>, rq: Request, s: nat, base: nat, i: nat)
    requires Leaves(path, rq) && Connected(net, path, rq, s, base) && 0 < i < |path| - 1
    requires path[i] in net'.nodes && net'.nodes == net.nodes[path[i] := net'.nodes[path[i]]]
    requires var n' := net'.nodes[path[i]];
      && n'.index == path[i] && Serves(n', rq.dst)
      && Routes(n', rq.src, Rank(rq.srcSeqno, Finite(i)), path[i - 1])
      && Routes(n', rq.dst, Rank(s, Finite(base + |path| - 1 - i)), path[i + 1])
    ensures Connected(net', path, rq, s, base)
  {
    hide Routes, Serves;
  }

  lemma HopOn(net: Net, path: seq<Addr>, rq: Request, s: nat, base: nat, q: Packet, i: nat, now: real,
              perHop: Addr -> real)
    requires Underway(net, path, rq, s, base, q, i) && i < |path| - 1
    ensures var ev := Deliver(path[i], Data(path[i], OnTheWay(q, i)), now, perHop);
      Enabled(net, ev) && Underway(Apply(net, ev), path, rq, s, base, q, i + 1)
  {
    hide Connected, Routes, Serves, Recv;
    ConnectedAt(net, path, rq, s, base, i);
    var n, p := net.nodes[path[i]], OnTheWay(q, i);
    var forth, back := Rank(s, Finite(base + |path| - 1 - i)), Rank(rq.srcSeqno, Finite(i));
    RelayForwards(n, path[i], p, now, perHop, forth, path[i + 1]);
    RoutesIn(n, rq.dst, forth, path[i + 1]);
    ProlongedKeeps(n, rq.dst, now + ACTIVE_ROUTE_TIMEOUT, rq.dst, forth, path[i + 1]);
    ProlongedKeeps(n, rq.dst, now + ACTIVE_ROUTE_TIMEOUT, rq.src, back, path[i - 1]);
    Delivered(net, path[i], Data(path[i], p), now, perHop);
    var net' := Apply(net, Deliver(path[i], Data(path[i], p), now, perHop));
    hide Apply;
    StaysConnected(net, net', path, rq, s, base, i);
    assert OnTheWay(q, i + 1) == p.(ttl := p.ttl - 1);
  }

  lemma RoutesIn(n: Node, d: Addr, rank: Rank, via: Addr)
    requires Routes(n, d, rank, via)
    ensures d in n.table
  {
  }

  /** Over the nodes in between, one delivery each, to the end of the path; and the path stays connected. */
  lemma {:induction false} PacketArrives(net: Net, path: seq<Addr>, rq: Request, s: nat, base: nat, q: Packet, i: nat,
                                         now: real, perHop: Addr -> real)
    returns (nets: seq<Net>, evs: seq<Event>)
    requires Underway(net, path, rq, s, base, q, i) && 0 < i < |path|
    ensures Steps(nets, evs) && |nets| == |evs| + 1 && nets[0] == net && |evs| == |path| - 1 - i
    ensures Underway(nets[|evs|], path, rq, s, base, q, |path| - 1)
    ensures forall k :: 0 <= k < |evs| ==> evs[k].Deliver?
    decreases |path| - i
  {
    hide *;
    if i == |path| - 1 {
      nets, evs := [net], [];
      StepsNone(net);
    } else {
      var ev := Deliver(path[i], Data(path[i], OnTheWay(q, i)), now, perHop);
      HopOn(net, path, rq, s, base, q, i, now, perHop);
      nets, evs := PacketArrives(Apply(net, ev), path, rq, s, base, q, i + 1, now, perHop);
      StepsCons(net, ev, nets, evs);
      nets, evs := [net] + nets, [ev] + evs;
    }
  }

  lemma ConnectedPath(net: Net, path: seq<Addr>, rq: Request, s: nat, base: nat, q: Packet, i: nat)
    requires Leaves(path, rq) && Connected(net, path, rq, s, base) && 0 < i < |path|
    requires q.src == path[0] && q.dst == rq.dst && q.ttl >= |path| - 1 && Data(path[i], OnTheWay(q, i)) in net.msgs
    ensures Underway(net, path, rq, s, base, q, i)
  {
  }

  /** From any state in which a request has just left the source: what waited there for the destination gets to the end
  of the path. */
  lemma WaitingPacketArrives(net0: Net, path: seq<Addr>, rq: Request, q: Packet, now: real, perHop: Addr -> real)
    returns (nets: seq<Net>, evs: seq<Event>, s: nat)
    requires Ready(net0, path, rq) && |path| >= 2 && path[0] in net0.nodes
    requires q in Held(Purged(net0.nodes[path[0]].buffer, now), rq.dst)
    requires q.src == path[0] && q.dst == rq.dst && q.ttl >= |path| - 1
    ensures Steps(nets, evs) && |nets| == |evs| + 1 && nets[0] == net0 && |evs| == 3 * |path| - 4
    ensures forall k :: 0 <= k < |evs| ==> evs[k].Deliver?
    ensures path[|path| - 1] in net0.nodes && s >= rq.dstSeqno
    ensures Connected(nets[|evs|], path, rq, s, Distance(net0.nodes[path[|path| - 1]], rq.dst))
    ensures Data(path[|path| - 1], q.(ttl := q.ttl - (|path| - 2))) in nets[|evs|].msgs
  {
    hide *;
    ReadyOnPath(net0, path, rq);
    nets, evs, s := RouteIsFound(net0, path, rq, now, perHop);
    var base := Distance(net0.nodes[path[|path| - 1]], rq.dst);
    var net1 := nets[|evs|];
    SentOn(net0, net1, path, rq, now, q);
    ConnectedPath(net1, path, rq, s, base, q, 1);
    var nets2, evs2 := PacketArrives(net1, path, rq, s, base, q, 1, now, perHop);
    Arrived(nets2[|evs2|], path, rq, s, base, q);
    StepsAppend(nets, evs, nets2, evs2);
    nets, evs := nets[..|evs|] + nets2, evs + evs2;
  }

  lemma SentOn(net0: Net, net: Net, path: seq<Addr>, rq: Request, now: real, q: Packet)
    requires |path| >= 2 && path[0] in net0.nodes && Sends(net0, net, path, rq, now, q) && q.ttl != 0
    requires q in Held(Purged(net0.nodes[path[0]].buffer, now), rq.dst)
    ensures Data(path[1], OnTheWay(q, 1)) in net.msgs
  {
    assert OnTheWay(q, 1) == q;
  }

  lemma Arrived(net: Net, path: seq<Addr>, rq: Request, s: nat, base: nat, q: Packet)
    requires |path| >= 2 && Underway(net, path, rq, s, base, q, |path| - 1)
    ensures Connected(net, path, rq, s, base)
    ensures Data(path[|path| - 1], q.(ttl := q.ttl - (|path| - 2))) in net.msgs
  {
  }

  /** In a network where nobody knows anything, the first packet from one end of any path of up to NETWORK_DIAMETER hops
  to the other can get there, in one step per hop for the request, for the reply and for the packet itself. */
  lemma FirstPacketArrives(net: Net, path: seq<Addr>, p: Packet, now: real, perHop: Addr -> real)
    returns (nets: seq<Net>, evs: seq<Event>, rq: Request, s: nat)
    requires Init(net) && 2 <= |path| <= NETWORK_DIAMETER + 1 && Distinct(path) && now >= 0.0
    requires forall i :: 0 <= i < |path| ==> path[i] in net.nodes
    requires p.src == path[0] && p.dst == path[|path| - 1] && p.forwards == 0
    ensures CarefulRun(nets, evs) && |nets| == |evs| + 1 && |evs| == 3 * |path| - 3 && nets[0] == net
    ensures rq.src == p.src && rq.dst == p.dst && Connected(nets[|evs|], path, rq, s, 0)
    ensures Data(p.dst, p.(ttl := NETWORK_DIAMETER - (|path| - 2))) in nets[|evs|].msgs
  {
    var ev := Originate(path[0], p, now, perHop);
    rq := FreshIsReady(net, path, p, now, perHop);
    var q := p.(ttl := NETWORK_DIAMETER);
    hide *;
    nets, evs, s := EventAndArrival(net, ev, path, rq, q, now, perHop);
    StepsAreRun(nets, evs);
  }

  lemma EventAndArrival(net: Net, ev: Event, path: seq<Addr>, rq: Request, q: Packet, now: real, perHop: Addr -> real)
    returns (nets: seq<Net>, evs: seq<Event>, s: nat)
    requires Enabled(net, ev) && !ev.RepairTimer? && |path| >= 2 && path[0] in Apply(net, ev).nodes
    requires Ready(Apply(net, ev), path, rq) && path[|path| - 1] in Apply(net, ev).nodes
    requires q in Held(Purged(Apply(net, ev).nodes[path[0]].buffer, now), rq.dst)
    requires q.src == path[0] && q.dst == rq.dst && q.ttl >= |path| - 1
    ensures Steps(nets, evs) && |nets| == |evs| + 1 && nets[0] == net && |evs| == 3 * |path| - 3
    ensures forall k :: 0 <= k < |evs| ==> !evs[k].RepairTimer?
    ensures Connected(nets[|evs|], path, rq, s, Distance(Apply(net, ev).nodes[path[|path| - 1]], rq.dst))
    ensures Data(path[|path| - 1], q.(ttl := q.ttl - (|path| - 2))) in nets[|evs|].msgs
  {
    hide *;
    nets, evs, s := WaitingPacketArrives(Apply(net, ev), path, rq, q, now, perHop);
    StepsCons(net, ev, nets, evs);
    nets, evs := [net] + nets, [ev] + evs;
  }

  // ---------- errors at one node ----------

  /** An entry goes down for good: no route, and a number from which no older news of it is taken. */
  predicate Severed(n: Node, d: Addr, s: nat) {
    d in n.table && n.table[d].flags == Down && n.table[d].hops.Infinity? && n.table[d].seqno == s
  }

  predicate Through(n: Node, d: Addr, id: Addr) {
    d in n.table && n.table[d].hops.Finite? && n.table[d].nexthop == id
  }

  /** A lost neighbour: every route through it is severed under the next number, every other keeps all but the lost
  neighbour among its users, and one error goes out that lists exactly the severed ones with those numbers. */
  lemma LostNeighbourIsReported(n: Node, id: Addr)
    ensures var r := HandleLinkFailure(n, id);
      && r.node == n.(table := r.node.table) && r.node.table.Keys == n.table.Keys
      && (forall d :: Through(n, d, id) && n.table[d].flags != Down ==> Severed(r.node, d, n.table[d].seqno + 1))
      && (forall d :: d in n.table && !Through(n, d, id) ==>
            r.node.table[d] == n.table[d].(precursors := n.table[d].precursors - {id}))
      && ((exists d :: Through(n, d, id)) ==> |r.sent| == 1 && r.sent[0].Rerr? && r.sent[0].sender == n.index)
      && forall m :: m in r.sent ==>
           && m.Rerr?
           && (forall d :: d in m.unreachable <==> Through(n, d, id))
           && (forall d :: d in m.unreachable ==> m.unreachable[d] == n.table[d].seqno + 1)
  {
    var u := LostRoutes(n.table, id);
    if exists d :: Through(n, d, id) {
      var d :| Through(n, d, id);
      assert d in u;
    }
  }

  predicate Taken(n: Node, from: Addr, u: map<Addr, nat>, d: Addr) {
    d in u && Through(n, d, from) && n.table[d].seqno <= u[d]
  }

  /** An error takes down exactly the routes through its sender that it names under a number no older, leaves them with
  that number and without users, and is passed on for exactly those that had users. */
  lemma ErrorIsPassedOn(n: Node, from: Addr, u: map<Addr, nat>)
    ensures var r := RecvError(n, from, u);
      && r.node == n.(table := r.node.table) && r.node.table.Keys == n.table.Keys
      && (forall d :: Taken(n, from, u, d) && n.table[d].flags != Down ==> Severed(r.node, d, u[d]) && r.node.table[d].precursors == {})
      && (forall d :: d in n.table && !Taken(n, from, u, d) ==> r.node.table[d] == n.table[d])
      && ((exists d :: Taken(n, from, u, d) && Serves(n, d)) ==> |r.sent| == 1 && r.sent[0].Rerr? && r.sent[0].sender == n.index)
      && forall m :: m in r.sent ==>
           && m.Rerr?
           && (forall d :: d in m.unreachable <==> Taken(n, from, u, d) && Serves(n, d))
           && (forall d :: d in m.unreachable ==> m.unreachable[d] == u[d])
  {
    if d :| Hit(n, from, u, d) && Serves(n, d) {
      assert d in Reported(n, from, u);
    }
  }

  /** The link layer reports a packet lost on the way to a neighbour. One that has come further than it still had to go
  makes the node repair its route, and waits; otherwise, if there is a route at all, the neighbour is lost. */
  lemma LostPacketIsRepairedOrReported(n: Node, p: Packet, id: Addr, now: real, perHop: Addr -> real)
    ensures var r := LinkLayerFailed(n, p, id, now, perHop);
      if p.dst !in n.table then r == Result(n, [])
      else if n.table[p.dst].hops.Finite? && n.table[p.dst].hops.n < p.forwards then
        var e := n.table[p.dst];
        && UnderRepair(r.node, p.dst) && r.node.table[p.dst].Freshness() == e.Freshness()
        && r.node.table[p.dst].nexthop == e.nexthop
        && (e.reqTimeout > now || e.reqCnt <= RREQ_RETRIES ==> p in Held(r.node.buffer, p.dst))
        && (e.reqTimeout <= now && e.reqCnt <= RREQ_RETRIES ==> |r.sent| == 1 && AsksFor(r.sent[0], n, p.dst))
        && (e.reqTimeout > now ==> r.sent == [])
      else r == HandleLinkFailure(n.(seqno := n.seqno + 2), id)
  {
    EnqueuedIsHeld(n.buffer, p, now);
  }

  // ---------- errors along the path ----------

  /** No route to `d`. */
  predicate Dead(n: Node, d: Addr) {
    d in n.table && n.table[d].flags == Down
  }

  /** The error of node `i` names the destination. */
  ghost predicate Warned(net: Net, path: seq<Addr>, d: Addr, s: nat, i: nat)
    requires i < |path|
  {
    exists u :: Rerr(path[i], u) in net.msgs && d in u && u[d] == s
  }

  /** From node `i` on to the break at node `b` the routes to the destination are dead, and before it they are live,
  used, and older than the error that node `i` has sent. */
  ghost predicate Retreat(net: Net, path: seq<Addr>, d: Addr, s: nat, i: nat, b: nat) {
    && i <= b < |path| && OnPath(net, path) && Warned(net, path, d, s, i)
    && (forall j: nat :: i <= j <= b ==> Dead(net.nodes[path[j]], d))
    && forall j: nat :: j < i ==> Leading(net, path, d, s, j)
  }

  ghost predicate Leading(net: Net, path: seq<Addr>, d: Addr, s: nat, j: nat)
    requires OnPath(net, path) && j + 1 < |path|
  {
    var n := net.nodes[path[j]];
    && Through(n, d, path[j + 1]) && n.table[d].flags == Up && n.table[d].seqno <= s && (j > 0 ==> Serves(n, d))
  }

  predicate AllApart(path: seq<Addr>) {
    forall i, j :: 0 <= i < j < |path| ==> path[i] != path[j]
  }

  lemma HappenedAt(net: Net, ev: Event)
    requires Enabled(net, ev)
    ensures var r := Handle(net.nodes[ev.at], ev);
      && Apply(net, ev).nodes == net.nodes[ev.at := r.node]
      && (forall m :: m in net.msgs || m in r.sent ==> m in Apply(net, ev).msgs)
  {
    hide Handle;
  }

  lemma BreakAt(n: Node, d: Addr, id: Addr, p: Packet, now: real, perHop: Addr -> real)
    requires Through(n, d, id) && n.table[d].flags == Up && p.dst == d && p.forwards <= n.table[d].hops.n
    ensures var r := LinkLayerFailed(n, p, id, now, perHop);
      && r.node.index == n.index && Dead(r.node, d)
      && exists u :: Rerr(n.index, u) in r.sent && d in u && u[d] == n.table[d].seqno + 1
  {
    LostPacketIsRepairedOrReported(n, p, id, now, perHop);
    var n1 := n.(seqno := n.seqno + 2);
    LostNeighbourIsReported(n1, id);
    hide HandleLinkFailure, LinkLayerFailed;
    assert Through(n1, d, id);
    var r := HandleLinkFailure(n1, id);
    assert Severed(r.node, d, n.table[d].seqno + 1);
    assert r.sent[0] in r.sent;
    assert Rerr(n.index, r.sent[0].unreachable) in r.sent;
  }

  lemma RetreatAt(n: Node, d: Addr, from: Addr, u: map<Addr, nat>, last: bool)
    requires Through(n, d, from) && n.table[d].flags == Up && d in u && n.table[d].seqno <= u[d]
    requires !last ==> Serves(n, d)
    ensures var r := RecvError(n, from, u);
      && r.node.index == n.index && Dead(r.node, d)
      && (!last ==> exists u' :: Rerr(n.index, u') in r.sent && d in u' && u'[d] == u[d])
  {
    ErrorIsPassedOn(n, from, u);
    hide RecvError;
    var r := RecvError(n, from, u);
    assert Severed(r.node, d, u[d]);
    if !last {
      assert r.sent[0] in r.sent;
      assert Rerr(n.index, r.sent[0].unreachable) in r.sent;
    }
  }

  lemma ConnectedLeads(net: Net, path: seq<Addr>, rq: Request, s: nat, base: nat, j: nat)
    requires Connected(net, path, rq, s, base) && j < |path| - 1
    ensures OnPath(net, path) && Leading(net, path, rq.dst, s + 1, j)
    ensures net.nodes[path[j]].table[rq.dst].seqno == s
    ensures net.nodes[path[j]].table[rq.dst].hops == Finite(base + |path| - 1 - j)
  {
    ConnectedAt(net, path, rq, s, base, j);
  }

  /** Node `k` has lost its route too and sent its error; the others are as they were. */
  lemma RetreatTo(net: Net, net': Net, path: seq<Addr>, d: Addr, s: nat, k: nat, b: nat)
    requires AllApart(path) && OnPath(net, path) && k <= b < |path|
    requires path[k] in net'.nodes && net'.nodes == net.nodes[path[k] := net'.nodes[path[k]]]
    requires net'.nodes[path[k]].index == path[k] && Dead(net'.nodes[path[k]], d) && Warned(net', path, d, s, k)
    requires forall j: nat :: j < k ==> Leading(net, path, d, s, j)
    requires forall j: nat :: k < j <= b ==> Dead(net.nodes[path[j]], d)
    ensures Retreat(net', path, d, s, k, b)
  {
    hide Warned, Dead, Through, Serves;
    forall j: nat | j < k
      ensures OnPath(net', path) && Leading(net', path, d, s, j)
    {
      assert Leading(net, path, d, s, j);
      assert net'.nodes[path[j]] == net.nodes[path[j]];
    }
  }

  /** A link of the path breaks under a packet that is not worth a repair. */
  lemma BreakStep(net: Net, path: seq<Addr>, rq: Request, s: nat, base: nat, b: nat, p: Packet, now: real,
                  perHop: Addr -> real)
    requires Leaves(path, rq) && Connected(net, path, rq, s, base) && b < |path| - 1
    requires p.dst == rq.dst && p.forwards <= base + |path| - 1 - b
    ensures var ev := LinkFailure(path[b], p, path[b + 1], now, perHop);
      Enabled(net, ev) && Retreat(Apply(net, ev), path, rq.dst, s + 1, b, b)
  {
    hide LinkLayerFailed, Handle, Serves, Connected, Dead, Through, Apply, Retreat;
    var s' := s + 1;
    ConnectedLeads(net, path, rq, s, base, b);
    forall j: nat | j < |path| - 1
      ensures Leading(net, path, rq.dst, s', j)
    {
      ConnectedLeads(net, path, rq, s, base, j);
    }
    LeadingIs(net, path, rq.dst, s', b);
    var ev, n := LinkFailure(path[b], p, path[b + 1], now, perHop), net.nodes[path[b]];
    BreakAt(n, rq.dst, path[b + 1], p, now, perHop);
    HappenedAt(net, ev);
    IsFailure(n, ev);
    var net' := Apply(net, ev);
    hide Leading;
    assert Warned(net', path, rq.dst, s', b);
    hide Warned;
    RetreatTo(net, net', path, rq.dst, s', b, b);
  }

  lemma IsFailure(n: Node, ev: Event)
    requires ev.LinkFailure?
    ensures Handle(n, ev) == LinkLayerFailed(n, ev.packet, ev.neighbour, ev.now, ev.perHop)
  {
  }

  lemma IsError(n: Node, ev: Event)
    requires ev.Deliver? && ev.msg.Rerr?
    ensures Handle(n, ev) == RecvError(n, ev.msg.sender, ev.msg.unreachable)
  {
  }

  /** The error of node `i` comes to the node before it. */
  lemma RetreatStep(net: Net, path: seq<Addr>, d: Addr, s: nat, i: nat, b: nat, now: real, perHop: Addr -> real)
    returns (ev: Event)
    requires AllApart(path) && Retreat(net, path, d, s, i, b) && i > 1
    ensures ev.Deliver? && Enabled(net, ev) && Retreat(Apply(net, ev), path, d, s, i - 1, b)
  {
    hide RecvError, Handle, Serves, Through, Dead, Apply;
    var u :| Rerr(path[i], u) in net.msgs && d in u && u[d] == s;
    var n := net.nodes[path[i - 1]];
    ev := Deliver(path[i - 1], Rerr(path[i], u), now, perHop);
    assert Leading(net, path, d, s, i - 1);
    LeadingIs(net, path, d, s, i - 1);
    RetreatAt(n, d, path[i], u, false);
    HappenedAt(net, ev);
    IsError(n, ev);
    var net' := Apply(net, ev);
    hide Leading;
    assert Warned(net', path, d, s, i - 1);
    hide Warned;
    RetreatTo(net, net', path, d, s, i - 1, b);
  }

  /** The last of them comes to the source. */
  lemma RetreatEnds(net: Net, path: seq<Addr>, d: Addr, s: nat, b: nat, now: real, perHop: Addr -> real)
    returns (ev: Event)
    requires AllApart(path) && Retreat(net, path, d, s, 1, b)
    ensures ev.Deliver? && Enabled(net, ev)
    ensures forall j: nat :: j <= b && j < |path| ==> path[j] in Apply(net, ev).nodes && Dead(Apply(net, ev).nodes[path[j]], d)
  {
    hide RecvError, Handle, Serves, Through, Dead, Apply;
    var u :| Rerr(path[1], u) in net.msgs && d in u && u[d] == s;
    var n := net.nodes[path[0]];
    ev := Deliver(path[0], Rerr(path[1], u), now, perHop);
    assert Leading(net, path, d, s, 0);
    LeadingIs(net, path, d, s, 0);
    RetreatAt(n, d, path[1], u, true);
    HappenedAt(net, ev);
    IsError(n, ev);
  }

  /** Back from node `i`, one delivery of each error. */
  lemma {:induction false} ErrorsReachTheSource(net: Net, path: seq<Addr>, d: Addr, s: nat, i: nat, b: nat, now: real,
                                                perHop: Addr -> real)
    returns (nets: seq<Net>, evs: seq<Event>)
    requires AllApart(path) && Retreat(net, path, d, s, i, b) && i <= b < |path|
    ensures Steps(nets, evs) && |nets| == |evs| + 1 && nets[0] == net && |evs| == i
    ensures forall k :: 0 <= k < |evs| ==> evs[k].Deliver?
    ensures forall j: nat :: j <= b ==> path[j] in nets[|evs|].nodes && Dead(nets[|evs|].nodes[path[j]], d)
    decreases i
  {
    hide *;
    if i == 0 {
      RetreatDone(net, path, d, s, b);
      nets, evs := [net], [];
      StepsNone(net);
    } else if i == 1 {
      var ev := RetreatEnds(net, path, d, s, b, now, perHop);
      nets, evs := [net, Apply(net, ev)], [ev];
      StepsOne(net, ev);
    } else {
      var ev := RetreatStep(net, path, d, s, i, b, now, perHop);
      nets, evs := ErrorsReachTheSource(Apply(net, ev), path, d, s, i - 1, b, now, perHop);
      StepsCons(net, ev, nets, evs);
      nets, evs := [net] + nets, [ev] + evs;
    }
  }

  lemma RetreatDone(net: Net, path: seq<Addr>, d: Addr, s: nat, b: nat)
    requires Retreat(net, path, d, s, 0, b)
    ensures forall j: nat :: j <= b && j < |path| ==> path[j] in net.nodes && Dead(net.nodes[path[j]], d)
  {
  }

  /** On a connected path, whichever link breaks, under a packet that is not worth a repair: the break and one delivery
  of each error leave no node before it with a route to the destination. */
  lemma BreakIsKnownUpstream(net: Net, path: seq<Addr>, rq: Request, s: nat, base: nat, b: nat, p: Packet, now: real,
                             perHop: Addr -> real)
    returns (nets: seq<Net>, evs: seq<Event>)
    requires Leaves(path, rq) && Connected(net, path, rq, s, base) && b < |path| - 1
    requires p.dst == rq.dst && p.forwards <= base + |path| - 1 - b
    ensures Steps(nets, evs) && |nets| == |evs| + 1 && nets[0] == net && |evs| == b + 1
    ensures evs[0] == LinkFailure(path[b], p, path[b + 1], now, perHop) && forall k :: 0 < k < |evs| ==> evs[k].Deliver?
    ensures forall j: nat :: j <= b ==> path[j] in nets[|evs|].nodes && Dead(nets[|evs|].nodes[path[j]], rq.dst)
  {
    BreakStep(net, path, rq, s, base, b, p, now, perHop);
    assert AllApart(path);
    hide *;
    var ev := LinkFailure(path[b], p, path[b + 1], now, perHop);
    nets, evs := ErrorsReachTheSource(Apply(net, ev), path, rq.dst, s + 1, b, b, now, perHop);
    StepsCons(net, ev, nets, evs);
    nets, evs := [net] + nets, [ev] + evs;
  }

  lemma LeadingIs(net: Net, path: seq<Addr>, d: Addr, s: nat, j: nat)
    requires OnPath(net, path) && j + 1 < |path| && Leading(net, path, d, s, j)
    ensures var n := net.nodes[path[j]];
      Through(n, d, path[j + 1]) && d in n.table && n.table[d].flags == Up && n.table[d].seqno <= s && (j > 0 ==> Serves(n, d))
  {
  }
}
