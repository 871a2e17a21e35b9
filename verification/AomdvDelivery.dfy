/** What the paths are good for: packets travel along them to their end, a lost neighbour costs only the paths through
it, and what waited for it goes by another path; when the last path is gone, errors tell the nodes before. */
module AomdvDelivery {
  import opened Routing
  import opened BufferSpec
  import opened RingSearch
  import opened AomdvPaths
  import opened AomdvSpec
  import opened AomdvNetwork
  import opened AomdvMultipath
  import opened AomdvSetup
  import opened AomdvTwoPaths

  // ---------- data packets at one node ----------

  /** A route that is up, with a first path to use. */
  predicate Live(n: Node, d: Addr) {
    d in n.table && n.table[d].flags == Up && n.table[d].paths != []
  }

  predicate NoRoute(n: Node, d: Addr) {
    d !in n.table || n.table[d].flags == Down
  }

  /** The entry after its first path has been used for a packet, which is noted if the packet came from elsewhere. */
  function Used(e: Entry, foreign: bool, now: real): Entry
    requires e.paths != []
  {
    var first := e.paths[0].(expire := now + ACTIVE_ROUTE_TIMEOUT);
    e.(paths := [first] + e.paths[1..], error := e.error || foreign)
  }

  lemma ReleasedOne(e: Entry, index: Addr, p: Packet, now: real)
    requires e.paths != [] && p.dst != index
    ensures Released(e, index, [p], now) ==
            if p.ttl == 0 then (e, []) else (Used(e, p.src != index, now), [Data(e.paths[0].nexthop, p)])
  {
    var e1 := FirstExpires(e, now + ACTIVE_ROUTE_TIMEOUT);
    var e2 := if p.src != index then e1.(error := true) else e1;
    assert [p][1..] == [];
    assert Released(e, index, [], now) == (e, []) && Released(e2, index, [], now) == (e2, []);
    assert e1.paths == [e.paths[0].(expire := now + ACTIVE_ROUTE_TIMEOUT)] + e.paths[1..];
    assert e2 == Used(e, p.src != index, now);
    assert [Data(FirstPath(e).nexthop, p)] + [] == [Data(e.paths[0].nexthop, p)];
  }

  /** A packet on its way goes along the first path, with one hop less to go; the path lives on, and its loss is worth
  an error from now on. */
  lemma RelayForwards(n: Node, from: Addr, p: Packet, now: real, perHop: Addr -> real)
    requires Live(n, p.dst) && p.src != n.index && p.dst != n.index && p.ttl > 1
    ensures var r := Recv(n, Data(from, p), now, perHop);
      && r.sent == [Data(n.table[p.dst].paths[0].nexthop, p.(ttl := p.ttl - 1))]
      && r.node == n.(table := n.table[p.dst := Used(n.table[p.dst], true, now)])
  {
    ReleasedOne(n.table[p.dst], n.index, p.(ttl := p.ttl - 1), now);
    hide Released;
    var e' := Used(n.table[p.dst], true, now);
    assert n.table[p.dst := n.table[p.dst]][p.dst := e'] == n.table[p.dst := e'];
  }

  /** Without a route it is reported lost, under the last number known for its destination. */
  lemma StrandedIsReported(n: Node, from: Addr, p: Packet, now: real, perHop: Addr -> real)
    requires NoRoute(n, p.dst) && p.src != n.index && p.ttl > 1
    ensures var r := Recv(n, Data(from, p), now, perHop);
      && r.sent == [Rerr(n.index, map[p.dst := if p.dst in n.table then n.table[p.dst].seqno else 0])]
      && r.node == n.(table := r.node.table)
      && forall d :: d in n.table ==> d in r.node.table && r.node.table[d] == n.table[d]
  {
  }

  /** With its hops used up, or back at its source, it is dropped. */
  lemma SpentIsDropped(n: Node, from: Addr, p: Packet, now: real, perHop: Addr -> real)
    requires if p.src == n.index then p.forwards > 0 else p.ttl == 1
    ensures Recv(n, Data(from, p), now, perHop) == Result(n, [])
  {
  }

  /** A new request of the node's own: under the next id and a number not used before, for at least the number known. */
  predicate AsksFor(m: Msg, n: Node, d: Addr) {
    && m.Rreq? && m.rq.sender == m.rq.src == n.index && m.rq.dst == d && m.rq.dstSeqno == EntryOf(n, d).seqno
    && m.rq.hopCount == 0 && m.rq.bcastId == n.bid && m.rq.srcSeqno > n.seqno
  }

  /** A packet of the node's own leaves along the first path of a live route, and otherwise waits, with a request for its
  destination out, if none is due later or given up. */
  lemma OwnPacketLeaves(n: Node, p: Packet, now: real, perHop: Addr -> real)
    requires p.src == n.index && p.forwards == 0 && p.dst != n.index
    ensures var r, q, e := RecvData(n, p, now, perHop), p.(ttl := NETWORK_DIAMETER), EntryOf(n, p.dst);
      && (Live(n, p.dst) ==> r.sent == [Data(e.paths[0].nexthop, q)] && r.node.buffer == n.buffer)
      && (e.flags == Down && (e.reqTimeout > now || e.reqCnt <= RREQ_RETRIES) ==> q in Held(r.node.buffer, p.dst))
      && (e.flags == Down && e.reqTimeout <= now && e.reqCnt <= RREQ_RETRIES ==>
            |r.sent| == 1 && AsksFor(r.sent[0], n, p.dst))
      && (e.flags == Down && e.reqTimeout > now ==> r.sent == [])
  {
    var q := p.(ttl := NETWORK_DIAMETER);
    if Live(n, p.dst) {
      ReleasedOne(n.table[p.dst], n.index, q, now);
    }
    EnqueuedIsHeld(n.buffer, q, now);
    hide Released, Held, Enqueued, Purged, Others;
  }

  // ---------- a packet along a path ----------

  /** The packet as it is sent to node `i` of the path. */
  function OnTheWay(q: Packet, i: nat): Packet
    requires i > 0
  {
    q.(ttl := q.ttl - (i - 1))
  }

  /** The inner nodes have live paths, and the packet, from the source and with hops enough, has been sent to node `i`. */
  ghost predicate Underway(net: Net, path: seq<Addr>, q: Packet, i: nat) {
    && Inner(net, path) && 0 < i < |path| && q.src == path[0] && q.dst == path[|path| - 1] && q.ttl >= |path| - 1
    && Data(path[i], OnTheWay(q, i)) in net.msgs
  }

  lemma UseKeepsPassed(n: Node, path: seq<Addr>, i: nat, now: real)
    requires IsPath(path) && 0 < i < |path| - 1 && Passed(n, path, i)
    ensures Live(n, path[|path| - 1]) && n.table[path[|path| - 1]].paths[0].nexthop == path[i + 1]
    ensures var d := path[|path| - 1]; Passed(n.(table := n.table[d := Used(n.table[d], true, now)]), path, i)
  {
  }

  lemma InnerMoved(net: Net, net': Net, path: seq<Addr>, i: nat)
    requires Inner(net, path) && 0 < i < |path| - 1 && path[i] in net'.nodes
    requires net'.nodes == net.nodes[path[i] := net'.nodes[path[i]]]
    requires net'.nodes[path[i]].index == path[i] && Passed(net'.nodes[path[i]], path, i)
    ensures Inner(net', path)
  {
    hide Passed;
  }

  lemma HopOn(net: Net, path: seq<Addr>, q: Packet, i: nat, now: real, perHop: Addr -> real) returns (ev: Event)
    requires Underway(net, path, q, i) && i < |path| - 1
    ensures ev.Deliver? && Enabled(net, ev) && Underway(Apply(net, ev), path, q, i + 1)
  {
    hide Passed, Recv, Used, Live, Apply, Enabled;
    var n, p := net.nodes[path[i]], OnTheWay(q, i);
    UseKeepsPassed(n, path, i, now);
    RelayForwards(n, path[i], p, now, perHop);
    Delivered(net, path[i], Data(path[i], p), now, perHop);
    ev := Deliver(path[i], Data(path[i], p), now, perHop);
    InnerMoved(net, Apply(net, ev), path, i);
    assert OnTheWay(q, i + 1) == p.(ttl := p.ttl - 1);
  }

  /** Over the nodes in between, one delivery each, to the end of the path. */
  lemma {:induction false} PacketArrives(net: Net, path: seq<Addr>, q: Packet, i: nat, now: real, perHop: Addr -> real)
    returns (nets: seq<Net>, evs: seq<Event>)
    requires Underway(net, path, q, i) && i < |path|
    ensures |nets| == |evs| + 1 && nets[0] == net && |evs| == |path| - 1 - i
    ensures |path| >= 2 && Underway(nets[|evs|], path, q, |path| - 1)
    ensures Steps(nets, evs)
    decreases |path| - i
  {
    hide *;
    if i == |path| - 1 {
      UnderwayIs(net, path, q, i);
      nets, evs := [net], [];
      StepsNone(net);
    } else {
      var ev := HopOn(net, path, q, i, now, perHop);
      nets, evs := PacketArrives(Apply(net, ev), path, q, i + 1, now, perHop);
      StepsCons(net, ev, nets, evs);
      nets, evs := [net] + nets, [ev] + evs;
    }
  }

  lemma UnderwayIs(net: Net, path: seq<Addr>, q: Packet, i: nat)
    requires Underway(net, path, q, i)
    ensures 2 <= |path| && Data(path[i], OnTheWay(q, i)) in net.msgs
  {
  }

  lemma SetsOut(net: Net, path: seq<Addr>, q: Packet)
    requires Inner(net, path) && q.src == path[0] && q.dst == path[|path| - 1] && q.ttl >= |path| - 1
    requires Data(path[1], q) in net.msgs
    ensures Underway(net, path, q, 1)
  {
    assert OnTheWay(q, 1) == q;
  }

  /** In a network where nobody knows anything, the first packet from one end of any path of up to NETWORK_DIAMETER hops
  to the other can get there, in one step per hop for the request, for the reply and for the packet itself. */
  lemma FirstPacketArrives(net: Net, path: seq<Addr>, p: Packet, now: real, perHop: Addr -> real)
    returns (nets: seq<Net>, evs: seq<Event>)
    requires Init(net) && IsPath(path) && now >= 0.0 && forall i :: 0 <= i < |path| ==> path[i] in net.nodes
    requires p.src == path[0] && p.dst == path[|path| - 1] && p.forwards == 0
    ensures |nets| == |evs| + 1 && |evs| == 3 * |path| - 3 && nets[0] == net
    ensures Data(p.dst, p.(ttl := NETWORK_DIAMETER - (|path| - 2))) in nets[|evs|].msgs
    ensures Run(nets, evs)
  {
    hide *;
    PathIs(path);
    var q := p.(ttl := NETWORK_DIAMETER);
    nets, evs := FirstPacketFindsRoute(net, path, p, now, perHop);
    ConnectedIsInner(nets[|evs|], path);
    SetsOut(nets[|evs|], path, q);
    var nets2, evs2 := PacketArrives(nets[|evs|], path, q, 1, now, perHop);
    UnderwayIs(nets2[|evs2|], path, q, |path| - 1);
    LastLeg(q, |path|);
    RunIsSteps(nets, evs);
    StepsAppend(nets, evs, nets2, evs2);
    nets, evs := nets[..|evs|] + nets2, evs + evs2;
    StepsAreRun(nets, evs);
  }

  lemma LastLeg(q: Packet, n: nat)
    requires n >= 2
    ensures OnTheWay(q, n - 1) == q.(ttl := q.ttl - (n - 2))
  {
  }

  lemma PathIs(path: seq<Addr>)
    requires IsPath(path)
    ensures 2 <= |path| <= NETWORK_DIAMETER + 1
  {
  }

  lemma ConnectedIsInner(net: Net, path: seq<Addr>)
    requires Connected(net, path)
    ensures Inner(net, path)
  {
  }

  lemma RunIsSteps(nets: seq<Net>, evs: seq<Event>)
    requires Run(nets, evs)
    ensures Steps(nets, evs) && Init(nets[0])
  {
    hide Init, Enabled, Apply;
  }

  // ---------- errors at one node ----------

  /** Some path of the route goes through `id`. */
  predicate Through(n: Node, d: Addr, id: Addr) {
    d in n.table && n.table[d].flags == Up && exists p :: p in n.table[d].paths && p.nexthop == id
  }

  /** And no other is left. */
  predicate OnlyThrough(n: Node, d: Addr, id: Addr) {
    Through(n, d, id) && forall p :: p in n.table[d].paths ==> p.nexthop == id
  }

  ghost predicate TidyTable(n: Node) {
    forall d :: d in n.table ==> Disjoint(n.table[d].paths)
  }

  /** A route without paths, with a number past the one it had and with its loss reported. */
  predicate Severed(n: Node, d: Addr, s: nat) {
    && d in n.table && n.table[d].flags == Down && n.table[d].paths == [] && n.table[d].advertised == Infinity
    && n.table[d].seqno == s && !n.table[d].error
  }

  /** The other paths, in their order, and nothing else of it changed. */
  ghost predicate Spared(was: Entry, now: Entry, id: Addr) {
    && now == was.(paths := now.paths, highestHeard := now.highestHeard) && |now.paths| == |was.paths| - 1
    && (forall p :: p in now.paths <==> p in was.paths && p.nexthop != id)
    && exists k: nat :: k < |was.paths| && now.paths == was.paths[..k] + was.paths[k + 1..]
  }

  lemma WithoutOne(e: Entry, id: Addr)
    requires Disjoint(e.paths) && Via(e.paths, id) < |e.paths|
    ensures exists p :: p in e.paths && p.nexthop == id
    ensures Without(e.paths, id) == [] <==> forall p :: p in e.paths ==> p.nexthop == id
  {
    assert e.paths[Via(e.paths, id)] in e.paths;
    WithoutRemovesAll(e.paths, id);
    hide Disjoint, Without, Via;
    var left := Without(e.paths, id);
    if left != [] {
      assert left[0] in left;
    }
    assert AllGone(e.paths, id, left);
  }

  lemma WithoutSpares(e: Entry, id: Addr, h: nat)
    requires Disjoint(e.paths) && Via(e.paths, id) < |e.paths|
    ensures Spared(e, e.(paths := Without(e.paths, id), highestHeard := h), id)
  {
    var k := Via(e.paths, id);
    WithoutRemovesAll(e.paths, id);
    assert Without(e.paths, id) == e.paths[..k] + e.paths[k + 1..];
    hide Disjoint, Without, Via;
  }

  lemma NoneThrough(e: Entry, id: Addr)
    requires Via(e.paths, id) == |e.paths|
    ensures !exists p :: p in e.paths && p.nexthop == id
  {
  }

  lemma ThroughIs(n: Node, d: Addr, id: Addr)
    requires d in n.table && Disjoint(n.table[d].paths)
    ensures Through(n, d, id) <==> Uses(n.table[d], id)
    ensures OnlyThrough(n, d, id) <==> Uses(n.table[d], id) && Without(n.table[d].paths, id) == []
    ensures Through(n, d, id) ==> forall h: nat ::
              Spared(n.table[d], n.table[d].(paths := Without(n.table[d].paths, id), highestHeard := h), id)
  {
    hide Spared;
    if Via(n.table[d].paths, id) < |n.table[d].paths| {
      WithoutOne(n.table[d], id);
      forall h: nat
        ensures Spared(n.table[d], n.table[d].(paths := Without(n.table[d].paths, id), highestHeard := h), id)
      {
        WithoutSpares(n.table[d], id, h);
      }
    } else {
      NoneThrough(n.table[d], id);
    }
  }

  /** The number under which a lost route is reported: past its own, and none older than has been heard. */
  function LossNumber(e: Entry): nat {
    Max(e.seqno + 1, e.highestHeard)
  }

  /** What the loss of a neighbour does to one route. */
  ghost predicate LossAt(n: Node, n': Node, d: Addr, id: Addr)
    requires d in n.table && d in n'.table
  {
    if OnlyThrough(n, d, id) then Severed(n', d, LossNumber(n.table[d]))
    else if Through(n, d, id) then Spared(n.table[d], n'.table[d], id) && n'.table[d].highestHeard == n.table[d].highestHeard
    else n'.table[d] == n.table[d]
  }

  /** A lost neighbour: every route loses exactly its path through it. Where that was the last one, the route is severed,
  and one error lists exactly those whose loss is worth it, with their numbers. */
  lemma LostNeighbourIsReported(n: Node, id: Addr)
    requires TidyTable(n)
    ensures var r := HandleLinkFailure(n, id);
      && r.node == n.(table := r.node.table) && r.node.table.Keys == n.table.Keys
      && (forall d :: d in n.table ==> LossAt(n, r.node, d, id))
      && |r.sent| == (if exists d :: OnlyThrough(n, d, id) && Noted(n, d) then 1 else 0)
      && forall m :: m in r.sent ==>
           && m.Rerr? && m.from == n.index
           && (forall d :: d in m.unreachable <==> OnlyThrough(n, d, id) && Noted(n, d))
           && (forall d :: d in m.unreachable ==> m.unreachable[d] == LossNumber(n.table[d]))
  {
    hide Through, OnlyThrough, Without, Spared, Uses, Disjoint;
    forall d | d in n.table
      ensures LossAt(n, HandleLinkFailure(n, id).node, d, id)
      ensures Through(n, d, id) <==> Uses(n.table[d], id)
      ensures ReportsLoss(n.table[d], id) <==> OnlyThrough(n, d, id) && Noted(n, d)
    {
      ThroughIs(n, d, id);
      LossAtIs(n, d, id);
    }
    assert forall d :: OnlyThrough(n, d, id) ==> d in n.table by {
      OnlyKnown(n, id);
    }
    if d :| OnlyThrough(n, d, id) && Noted(n, d) {
      assert d in LossReport(n.table, id);
    } else {
      assert LossReport(n.table, id) == map[];
    }
  }

  lemma OnlyKnown(n: Node, id: Addr)
    ensures forall d :: OnlyThrough(n, d, id) ==> d in n.table
  {
  }

  lemma LossAtIs(n: Node, d: Addr, id: Addr)
    requires d in n.table && Disjoint(n.table[d].paths)
    ensures LossAt(n, HandleLinkFailure(n, id).node, d, id)
    ensures OnlyThrough(n, d, id) ==> Lost(n.table[d], id).seqno == LossNumber(n.table[d])
  {
    ThroughIs(n, d, id);
    hide Through, OnlyThrough, Without, Spared, Uses, Disjoint;
  }

  /** Whether an error concerns a route: it goes through the sender and its number is not past the one named. */
  predicate Concerns(n: Node, from: Addr, u: map<Addr, nat>, d: Addr) {
    d in u && Through(n, d, from) && n.table[d].seqno <= u[d]
  }

  /** What an error does to one route. */
  ghost predicate ErrorAt(n: Node, n': Node, from: Addr, u: map<Addr, nat>, d: Addr)
    requires d in n.table && d in n'.table
  {
    if !Concerns(n, from, u, d) then n'.table[d] == n.table[d]
    else if OnlyThrough(n, d, from) then Severed(n', d, Max(n.table[d].highestHeard, u[d]))
    else Spared(n.table[d], n'.table[d], from) && n'.table[d].highestHeard == Max(n.table[d].highestHeard, u[d])
  }

  lemma ErrorAtIs(n: Node, from: Addr, u: map<Addr, nat>, d: Addr)
    requires d in n.table && Disjoint(n.table[d].paths)
    ensures ErrorAt(n, RecvError(n, from, u).node, from, u, d)
    ensures d in u && OnlyThrough(n, d, from) && n.table[d].seqno <= u[d] ==>
              Errored(n.table[d], from, u[d]).seqno == Max(n.table[d].highestHeard, u[d])
  {
    ThroughIs(n, d, from);
    hide Through, OnlyThrough, Without, Spared, Uses, Disjoint;
  }

  /** An error takes from exactly the routes it concerns the path through its sender. Where that was the last one, the
  route is severed, and the error is passed on for exactly those whose loss is worth it, with the highest number heard. */
  lemma ErrorIsPassedOn(n: Node, from: Addr, u: map<Addr, nat>)
    requires TidyTable(n)
    ensures var r := RecvError(n, from, u);
      && r.node == n.(table := r.node.table) && r.node.table.Keys == n.table.Keys
      && (forall d :: d in n.table ==> ErrorAt(n, r.node, from, u, d))
      && |r.sent| == (if exists d :: Concerns(n, from, u, d) && OnlyThrough(n, d, from) && Noted(n, d) then 1 else 0)
      && forall m :: m in r.sent ==>
           && m.Rerr? && m.from == n.index
           && (forall d :: d in m.unreachable <==> Concerns(n, from, u, d) && OnlyThrough(n, d, from) && Noted(n, d))
           && (forall d :: d in m.unreachable ==> m.unreachable[d] == Max(n.table[d].highestHeard, u[d]))
  {
    hide Through, OnlyThrough, Without, Spared, Uses, Disjoint;
    forall d | d in n.table
      ensures ErrorAt(n, RecvError(n, from, u).node, from, u, d)
      ensures d in u ==> (ReportsError(n.table[d], from, u[d]) <==>
                            Concerns(n, from, u, d) && OnlyThrough(n, d, from) && Noted(n, d))
    {
      ThroughIs(n, d, from);
      ErrorAtIs(n, from, u, d);
    }
    assert forall d :: OnlyThrough(n, d, from) ==> d in n.table by {
      OnlyKnown(n, from);
    }
    if d :| Concerns(n, from, u, d) && OnlyThrough(n, d, from) && Noted(n, d) {
      assert d in ErrorReport(n.table, from, u);
    } else {
      assert ErrorReport(n.table, from, u) == map[];
    }
  }

  // ---------- a neighbour gone silent ----------

  /** What a stuck packet is sent as: along the first path left, if it has not been salvaged too often. */
  predicate Rescued(n: Node, s: Stuck, m: Msg) {
    && Live(n, s.packet.dst) && s.salvaged < MAX_SALVAGE_COUNT && s.packet.ttl != 0 && s.packet.dst != n.index
    && m == Data(n.table[s.packet.dst].paths[0].nexthop, s.packet)
  }

  ghost predicate SameStanding(e: Entry, e': Entry) {
    e'.flags == e.flags && e'.seqno == e.seqno && e'.advertised == e.advertised && SamePaths(e.paths, e'.paths)
  }

  /** Routes with the same next hops. */
  ghost predicate SameHops(n: Node, n': Node) {
    && n'.index == n.index && n'.table.Keys == n.table.Keys
    && forall d :: d in n.table ==> SameStanding(n.table[d], n'.table[d])
  }

  lemma SalvageOneIs(n: Node, s: Stuck, now: real)
    requires s.packet.dst in n.table && n.table[s.packet.dst].flags == Up ==> n.table[s.packet.dst].paths != []
    ensures var r := SalvageOne(n, s, now);
      && SameHops(n, r.node) && (forall m :: m in r.sent <==> Rescued(n, s, m)) && |r.sent| <= 1
      && r.node == n.(table := r.node.table)
  {
    if Salvageable(n, s) {
      var e := n.table[s.packet.dst];
      ReleasedKeeps(e, n.index, [s.packet], now);
      ReleasedPaths(e, n.index, [s.packet], now);
      if s.packet.dst != n.index {
        ReleasedOne(e, n.index, s.packet, now);
      }
      assert Released(e, n.index, [], now) == (e, []);
    }
    hide Released, Used;
  }

  ghost predicate UpHasPaths(n: Node) {
    forall d :: d in n.table && n.table[d].flags == Up ==> n.table[d].paths != []
  }

  lemma SameHopsTrans(n: Node, n1: Node, n2: Node)
    requires SameHops(n, n1) && SameHops(n1, n2)
    ensures SameHops(n, n2)
  {
  }

  lemma SameHopsRescue(n: Node, n1: Node, s: Stuck, m: Msg)
    requires SameHops(n, n1)
    ensures Rescued(n, s, m) <==> Rescued(n1, s, m)
    ensures UpHasPaths(n) ==> UpHasPaths(n1)
  {
    if s.packet.dst in n.table {
      assert SameStanding(n.table[s.packet.dst], n1.table[s.packet.dst]);
    }
  }

  /** What is sent is what of the stuck packets is rescued, each at most once. */
  lemma {:induction false} SalvageIs(n: Node, stuck: seq<Stuck>, now: real)
    requires UpHasPaths(n)
    ensures var r := Salvage(n, stuck, now);
      && SameHops(n, r.node) && r.node == n.(table := r.node.table) && |r.sent| <= |stuck|
      && (forall s, m :: s in stuck && Rescued(n, s, m) ==> m in r.sent)
      && (forall m :: m in r.sent ==> m.Data? && exists s :: s in stuck && Rescued(n, s, m))
    decreases |stuck|
  {
    if stuck == [] {
      SameHopsRefl(n);
    } else {
      hide SalvageOne, SameHops, Rescued, UpHasPaths;
      SalvageFirst(n, stuck[0], now);
      var r1 := SalvageOne(n, stuck[0], now);
      SalvageIs(r1.node, stuck[1..], now);
      var r2 := Salvage(r1.node, stuck[1..], now);
      SameHopsTrans(n, r1.node, r2.node);
      forall s, m
        ensures Rescued(n, s, m) <==> Rescued(r1.node, s, m)
      {
        SameHopsRescue(n, r1.node, s, m);
      }
      assert stuck == [stuck[0]] + stuck[1..];
      hide Salvage;
      assert forall m :: m in r1.sent ==> Rescued(n, stuck[0], m) && stuck[0] in stuck;
    }
  }

  lemma SameHopsRefl(n: Node)
    ensures SameHops(n, n)
  {
  }

  lemma SalvageFirst(n: Node, s: Stuck, now: real)
    requires UpHasPaths(n)
    ensures var r := SalvageOne(n, s, now);
      && SameHops(n, r.node) && UpHasPaths(r.node) && r.node == n.(table := r.node.table) && |r.sent| <= 1
      && (forall m :: m in r.sent <==> Rescued(n, s, m)) && (forall m :: m in r.sent ==> m.Data?)
  {
    SalvageOneIs(n, s, now);
    hide SalvageOne, SameHops;
    SameHopsRescue(n, SalvageOne(n, s, now).node, s, Data(0, s.packet));
  }
}
