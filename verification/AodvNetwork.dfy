/** AODV as a distributed system: any number of nodes over a medium that may lose, delay, duplicate,
reorder and misdeliver messages. Every message ever sent stays available for delivery to any node. */
module AodvNetwork {
  import opened Routing
  import opened BufferSpec
  import opened RingSearch
  import opened AodvSpec
  import opened AodvSafety

  datatype Net = Net(nodes: map<Addr, Node>, msgs: set<Msg>)

  /** What can happen next, and at which node. Clock readings and per-hop latencies are arbitrary. */
  datatype Event =
    | Deliver(at: Addr, msg: Msg, now: real, perHop: Addr -> real)
    | Originate(at: Addr, packet: Packet, now: real, perHop: Addr -> real)
    | LinkFailure(at: Addr, packet: Packet, neighbour: Addr, now: real, perHop: Addr -> real)
    | PurgeRoutes(at: Addr, order: seq<Addr>, now: real, perHop: Addr -> real)
    | PurgeIds(at: Addr, now: real)
    | RepairTimer(at: Addr, dst: Addr)

  ghost predicate Enabled(net: Net, ev: Event) {
    && ev.at in net.nodes
    && (ev.Deliver? ==> ev.msg in net.msgs)
    && (ev.PurgeRoutes? ==> forall d :: d in ev.order ==> d in net.nodes[ev.at].table)
  }

  function Handle(n: Node, ev: Event): Result
    requires ev.PurgeRoutes? ==> forall d :: d in ev.order ==> d in n.table
  {
    match ev
    case Deliver(_, m, now, perHop) => Recv(n, m, now, perHop)
    case Originate(_, p, now, perHop) => RecvData(n, p, now, perHop)
    case LinkFailure(_, p, neighbour, now, perHop) => LinkLayerFailed(n, p, neighbour, now, perHop)
    case PurgeRoutes(_, order, now, perHop) => RtPurge(n, order, now, perHop)
    case PurgeIds(_, now) => Result(IdPurge(n, now), [])
    case RepairTimer(_, d) => RepairTimeout(n, d)
  }

  ghost function Apply(net: Net, ev: Event): Net
    requires Enabled(net, ev)
  {
    var r := Handle(net.nodes[ev.at], ev);
    Net(net.nodes[ev.at := r.node], net.msgs + set m | m in r.sent)
  }

  ghost predicate Init(net: Net) {
    net.msgs == {} && forall x :: x in net.nodes ==> net.nodes[x] == NewNode(x)
  }

  /** A finite run: states `nets[0], nets[1], ...` linked by the events `evs[0], evs[1], ...`. */
  ghost predicate Run(nets: seq<Net>, evs: seq<Event>) {
    && |nets| == |evs| + 1
    && Init(nets[0])
    && forall i :: 0 <= i < |evs| ==> Enabled(nets[i], evs[i]) && nets[i + 1] == Apply(nets[i], evs[i])
  }

  /** The repair timer does not find the route it guards still under repair. */
  predicate Careful(net: Net, ev: Event)
    requires ev.at in net.nodes
  {
    ev.RepairTimer? ==> EntryOf(net.nodes[ev.at], ev.dst).flags != InRepair
  }

  ghost predicate CarefulRun(nets: seq<Net>, evs: seq<Event>) {
    Run(nets, evs) && forall i :: 0 <= i < |evs| ==> Careful(nets[i], evs[i])
  }

  // ---------- the invariant ----------

  predicate Backing(net: Net, a: Advert) {
    a.sender in net.nodes && Backed(net.nodes[a.sender], a)
  }

  predicate RouteBacked(net: Net, x: Addr, d: Addr)
    requires x in net.nodes && d in net.nodes[x].table
  {
    var e := net.nodes[x].table[d];
    e.hops.Finite? ==> Backing(net, Advert(d, e.nexthop, e.Freshness()))
  }

  ghost predicate MessageBacked(net: Net, m: Msg) {
    Credible(m) && forall a :: a in Adverts(m) ==> Backing(net, a)
  }

  /** All tables and all messages in flight together. */
  ghost predicate Inv(net: Net) {
    && (forall x :: x in net.nodes ==> net.nodes[x].index == x && NodeOk(net.nodes[x]))
    && (forall x, d :: x in net.nodes && d in net.nodes[x].table ==> RouteBacked(net, x, d))
    && (forall m :: m in net.msgs ==> MessageBacked(net, m))
  }

  lemma HandleAdvances(net: Net, ev: Event)
    requires Inv(net) && Enabled(net, ev) && Careful(net, ev)
    ensures var n := net.nodes[ev.at];
            var r := Handle(n, ev);
            Advances(n, r.node, if ev.Deliver? then Adverts(ev.msg) else {}, r.sent)
  {
    hide Advances, Recv, RecvData, LinkLayerFailed, RtPurge, RepairTimeout;
    var n := net.nodes[ev.at];
    match ev
    case Deliver(_, m, now, perHop) =>
      assert MessageBacked(net, m);
      RecvAdvances(n, m, now, perHop);
    case Originate(_, p, now, perHop) => RecvDataAdvances(n, p, now, perHop);
    case LinkFailure(_, p, neighbour, now, perHop) => LinkLayerFailedAdvances(n, p, neighbour, now, perHop);
    case PurgeRoutes(_, order, now, perHop) => RtPurgeAdvances(n, order, now, perHop);
    case PurgeIds(_, now) => IdPurgeAdvances(n, now);
    case RepairTimer(_, d) => RepairTimeoutAdvances(n, d);
  }

  lemma IdPurgeAdvances(n: Node, now: real)
    requires NodeOk(n)
    ensures Advances(n, IdPurge(n, now), {}, [])
  {
  }

  lemma BackingPersists(net: Net, net': Net, at: Addr, known: set<Advert>, sent: seq<Msg>, a: Advert)
    requires at in net.nodes && at in net'.nodes && net'.nodes == net.nodes[at := net'.nodes[at]]
    requires Advances(net.nodes[at], net'.nodes[at], known, sent)
    requires Backing(net, a)
    ensures Backing(net', a)
  {
    if a.sender == at && a.dst != net.nodes[at].index {
      assert net'.nodes[at].table[a.dst].Freshness().NotStaler(net.nodes[at].table[a.dst].Freshness());
    }
  }

  lemma RouteStaysBacked(net: Net, net': Net, at: Addr, known: set<Advert>, sent: seq<Msg>, x: Addr, d: Addr)
    requires at in net.nodes && at in net'.nodes && net'.nodes == net.nodes[at := net'.nodes[at]]
    requires Advances(net.nodes[at], net'.nodes[at], known, sent)
    requires forall y, d :: y in net.nodes && d in net.nodes[y].table ==> RouteBacked(net, y, d)
    requires forall a :: a in known ==> Backing(net, a)
    requires x in net'.nodes && d in net'.nodes[x].table
    ensures RouteBacked(net', x, d)
  {
    var e := net'.nodes[x].table[d];
    if e.hops.Finite? {
      var a := Advert(d, e.nexthop, e.Freshness());
      if x == at && a !in known {
        assert Inherited(net.nodes[at], d, e);
      }
      assert a in known || RouteBacked(net, x, d);
      BackingPersists(net, net', at, known, sent, a);
    }
  }

  /** Every step keeps the invariant. */
  lemma StepKeepsInv(net: Net, ev: Event)
    requires Inv(net) && Enabled(net, ev) && Careful(net, ev)
    ensures Inv(Apply(net, ev))
  {
    var net' := Apply(net, ev);
    var n, r := net.nodes[ev.at], Handle(net.nodes[ev.at], ev);
    var known := if ev.Deliver? then Adverts(ev.msg) else {};
    HandleAdvances(net, ev);
    hide Handle;
    assert forall a :: a in known ==> Backing(net, a) by {
      if ev.Deliver? {
        assert MessageBacked(net, ev.msg);
      }
    }
    forall x, d | x in net'.nodes && d in net'.nodes[x].table
      ensures RouteBacked(net', x, d)
    {
      RouteStaysBacked(net, net', ev.at, known, r.sent, x, d);
    }
    forall m | m in net'.msgs
      ensures MessageBacked(net', m)
    {
      if m in net.msgs {
        assert MessageBacked(net, m);
        forall a | a in Adverts(m)
          ensures Backing(net', a)
        {
          BackingPersists(net, net', ev.at, known, r.sent, a);
        }
      } else {
        SentIsBacked(net', r.node, m);
      }
    }
  }

  lemma SentIsBacked(net: Net, n: Node, m: Msg)
    requires n.index in net.nodes && net.nodes[n.index] == n && Sound(n, m)
    ensures MessageBacked(net, m)
  {
    match m
    case Rreq(rq) => assert Advert(rq.src, rq.sender, Rank(rq.srcSeqno, Finite(rq.hopCount))) in Adverts(m);
    case Rrep(rp) => assert Advert(rp.dst, rp.sender, Rank(rp.dstSeqno, Finite(rp.hopCount))) in Adverts(m);
    case _ =>
  }

  /** The invariant holds in every state of every careful run. */
  lemma {:induction false} RunKeepsInv(nets: seq<Net>, evs: seq<Event>, i: nat)
    requires CarefulRun(nets, evs) && i < |nets|
    ensures Inv(nets[i])
  {
    if i > 0 {
      RunKeepsInv(nets, evs, i - 1);
      assert Careful(nets[i - 1], evs[i - 1]);
      StepKeepsInv(nets[i - 1], evs[i - 1]);
    }
  }

  // ---------- loop freedom ----------

  predicate HopTowards(net: Net, d: Addr, x: Addr, y: Addr) {
    x in net.nodes && d in net.nodes[x].table && net.nodes[x].table[d].flags == Up
    && net.nodes[x].table[d].nexthop == y
  }

  /** A sequence of nodes, each using the next as its live next hop towards `d`, that stops on reaching `d`. */
  ghost predicate Walk(net: Net, d: Addr, walk: seq<Addr>) {
    && |walk| > 0 && walk[0] in net.nodes
    && forall i :: 0 <= i < |walk| - 1 ==> walk[i] != d && HopTowards(net, d, walk[i], walk[i + 1])
  }

  ghost predicate LoopFree(net: Net) {
    forall d: Addr, walk: seq<Addr> :: Walk(net, d, walk) ==> Distinct(walk) && |walk| <= |net.nodes|
  }

  lemma InvIsLoopFree(net: Net)
    requires Inv(net)
    ensures LoopFree(net)
  {
    forall d: Addr, walk: seq<Addr> | Walk(net, d, walk)
      ensures Distinct(walk) && |walk| <= |net.nodes|
    {
      WalkIsDistinct(net, d, walk);
    }
  }

  lemma WalkIsDistinct(net: Net, d: Addr, walk: seq<Addr>)
    requires Inv(net) && Walk(net, d, walk)
    ensures Distinct(walk) && |walk| <= |net.nodes|
  {
    var rank := map x | x in net.nodes :: EntryOf(net.nodes[x], d).Freshness();
    forall i | 0 < i < |walk|
      ensures walk[i] in net.nodes
      ensures walk[i] != d ==> rank[walk[i]].Fresher(rank[walk[i - 1]])
    {
      assert HopTowards(net, d, walk[i - 1], walk[i - 1 + 1]);
      assert RouteBacked(net, walk[i - 1], d);
    }
    RisingWalkIsDistinct(walk, d, rank);
    DistinctBound(walk, net.nodes.Keys);
  }

  /** AODV loop freedom: in every state of every careful run, for every destination, following live next hops
  never visits a node twice. */
  lemma LoopFreedom(nets: seq<Net>, evs: seq<Event>, i: nat)
    requires CarefulRun(nets, evs) && i < |nets|
    ensures LoopFree(nets[i])
  {
    RunKeepsInv(nets, evs, i);
    InvIsLoopFree(nets[i]);
  }

  // ---------- freshness ----------

  predicate NoStaler(net: Net, net': Net, x: Addr, d: Addr) {
    x in net.nodes && d in net.nodes[x].table ==>
      && x in net'.nodes && d in net'.nodes[x].table
      && net'.nodes[x].table[d].Freshness().NotStaler(net.nodes[x].table[d].Freshness())
  }

  lemma StepKeepsFreshness(net: Net, ev: Event, x: Addr, d: Addr)
    requires Inv(net) && Enabled(net, ev) && Careful(net, ev)
    ensures NoStaler(net, Apply(net, ev), x, d)
  {
    HandleAdvances(net, ev);
    hide Handle, Inv, NodeOk, Sound;
  }

  lemma NoStalerTrans(net0: Net, net1: Net, net2: Net, x: Addr, d: Addr)
    requires NoStaler(net0, net1, x, d) && NoStaler(net1, net2, x, d)
    ensures NoStaler(net0, net2, x, d)
  {
  }

  /** What a node knows about a destination never gets staler between any two moments of a careful run. */
  lemma {:induction false} FreshnessIsMonotone(nets: seq<Net>, evs: seq<Event>, i: nat, j: nat, x: Addr, d: Addr)
    requires CarefulRun(nets, evs) && i <= j < |nets|
    ensures NoStaler(nets[i], nets[j], x, d)
    decreases j - i
  {
    if i < j {
      FreshnessIsMonotone(nets, evs, i, j - 1, x, d);
      RunKeepsInv(nets, evs, j - 1);
      hide Inv, NoStaler, Apply;
      assert Careful(nets[j - 1], evs[j - 1]);
      StepKeepsFreshness(nets[j - 1], evs[j - 1], x, d);
      NoStalerTrans(nets[i], nets[j - 1], nets[j], x, d);
    }
  }
}
