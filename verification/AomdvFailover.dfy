/** What happens when a neighbour falls silent: with a second path the route and what waits for it go on along that one,
and with none the errors that travel back leave no node before the break with a route into it. */
module AomdvFailover {
  import opened Routing
  import opened BufferSpec
  import opened RingSearch
  import opened AomdvPaths
  import opened AomdvSpec
  import opened AomdvSafety
  import opened AomdvNetwork
  import opened AomdvMultipath
  import opened AomdvSetup
  import opened AomdvTwoPaths
  import opened AomdvDelivery

  /** In every state of a run the paths of a route are disjoint, and a route that is up has one. */
  lemma InvTidy(net: Net, x: Addr)
    requires Inv(net) && x in net.nodes
    ensures TidyTable(net.nodes[x]) && UpHasPaths(net.nodes[x]) && net.nodes[x].index == x
  {
    var n := net.nodes[x];
    forall d | d in n.table
      ensures Disjoint(n.table[d].paths) && (n.table[d].flags == Up ==> n.table[d].paths != [])
    {
      assert EntryOk(n.table[d], n.maxPaths);
    }
  }

  // ---------- one node ----------

  lemma RemovedKeepsRoutes(n: Node, id: Addr)
    ensures var n0 := NeighbourRemoved(n, id);
      n0.table == n.table && n0.index == n.index && n0.buffer == n.buffer && n0.seqno == n.seqno + 2
  {
  }

  lemma LossIsTidy(n: Node, id: Addr)
    requires TidyTable(n) && UpHasPaths(n)
    ensures UpHasPaths(HandleLinkFailure(n, id).node) && HandleLinkFailure(n, id).node.index == n.index
  {
    LostNeighbourIsReported(n, id);
    hide HandleLinkFailure;
    var n' := HandleLinkFailure(n, id).node;
    forall d | d in n'.table && n'.table[d].flags == Up
      ensures n'.table[d].paths != []
    {
      assert LossAt(n, n', d, id);
    }
  }

  /** A route and what a lost neighbour leaves of it, whatever else was waiting for that neighbour. */
  lemma NeighbourLostIs(n: Node, id: Addr, stuck: seq<Stuck>, now: real)
    requires TidyTable(n) && UpHasPaths(n)
    ensures var n1, r := HandleLinkFailure(NeighbourRemoved(n, id), id).node, NeighbourLost(n, id, stuck, now);
      && SameHops(n1, r.node) && r.node.index == n.index
      && (forall s, m :: s in stuck && Rescued(n1, s, m) ==> m in r.sent)
      && (forall m :: m in HandleLinkFailure(NeighbourRemoved(n, id), id).sent ==> m in r.sent)
      && (forall m :: m in r.sent && !m.Data? ==> m in HandleLinkFailure(NeighbourRemoved(n, id), id).sent)
  {
    RemovedKeepsRoutes(n, id);
    hide HandleLinkFailure, NeighbourRemoved, SameHops, Rescued, Salvage;
    var n0 := NeighbourRemoved(n, id);
    assert TidyTable(n0) && UpHasPaths(n0);
    LossIsTidy(n0, id);
    SalvageIs(HandleLinkFailure(n0, id).node, stuck, now);
    SameHopsIndex(HandleLinkFailure(n0, id).node, NeighbourLost(n, id, stuck, now).node);
  }

  lemma SameHopsIndex(n: Node, n': Node)
    requires SameHops(n, n')
    ensures n'.index == n.index
  {
  }

  lemma SecondIsLeft(e: Entry, e': Entry, id: Addr)
    requires |e.paths| == 2 && e.paths[0].nexthop == id && e.paths[1].nexthop != id && Spared(e, e', id)
    ensures e'.paths == [e.paths[1]]
  {
    assert e'.paths[0] in e'.paths;
    assert forall p :: p in e.paths ==> p == e.paths[0] || p == e.paths[1];
  }

  lemma StillLeads(n: Node, n': Node, d: Addr, q: nat, nexthop: Addr, hops: nat, lasthop: Addr)
    requires SameHops(n, n') && Leads(n, d, q, nexthop, hops, lasthop)
    ensures Leads(n', d, q, nexthop, hops, lasthop)
  {
    assert SameStanding(n.table[d], n'.table[d]);
  }

  /** With two paths, the neighbour of the first lost: the route goes on along the second, and so does what waited. */
  lemma SecondPathTakesOver(n: Node, d: Addr, q: nat, next1: Addr, hops1: nat, last1: Addr, next2: Addr, hops2: nat, last2: Addr,
                            stuck: seq<Stuck>, now: real)
    requires TidyTable(n) && UpHasPaths(n) && next1 != next2 && d != n.index
    requires LeadsBoth(n, d, q, next1, hops1, last1, next2, hops2, last2)
    ensures var r := NeighbourLost(n, next1, stuck, now);
      && r.node.index == n.index && Leads(r.node, d, q, next2, hops2, last2)
      && (forall s :: s in stuck && s.packet.dst == d && s.packet.ttl != 0 && s.salvaged < MAX_SALVAGE_COUNT ==>
            Data(next2, s.packet) in r.sent)
      && forall m :: m in r.sent && m.Rerr? ==> d !in m.unreachable
  {
    var n0 := NeighbourRemoved(n, next1);
    var r1 := HandleLinkFailure(n0, next1);
    FirstIsLost(n, d, q, next1, hops1, last1, next2, hops2, last2);
    NeighbourLostIs(n, next1, stuck, now);
    hide HandleLinkFailure, NeighbourRemoved, SameHops, NeighbourLost;
    StillLeads(r1.node, NeighbourLost(n, next1, stuck, now).node, d, q, next2, hops2, last2);
    forall s | s in stuck && s.packet.dst == d && s.packet.ttl != 0 && s.salvaged < MAX_SALVAGE_COUNT
      ensures Rescued(r1.node, s, Data(next2, s.packet))
    {
    }
  }

  lemma FirstIsLost(n: Node, d: Addr, q: nat, next1: Addr, hops1: nat, last1: Addr, next2: Addr, hops2: nat, last2: Addr)
    requires TidyTable(n) && next1 != next2
    requires LeadsBoth(n, d, q, next1, hops1, last1, next2, hops2, last2)
    ensures var r := HandleLinkFailure(NeighbourRemoved(n, next1), next1);
      && r.node.index == n.index && Leads(r.node, d, q, next2, hops2, last2)
      && forall m :: m in r.sent && m.Rerr? ==> d !in m.unreachable
  {
    RemovedKeepsRoutes(n, next1);
    var n0 := NeighbourRemoved(n, next1);
    assert TidyTable(n0);
    LostNeighbourIsReported(n0, next1);
    hide HandleLinkFailure, NeighbourRemoved, Spared;
    var r := HandleLinkFailure(n0, next1);
    var e := n0.table[d];
    assert e.paths[0] in e.paths && e.paths[1] in e.paths;
    assert Through(n0, d, next1) && !OnlyThrough(n0, d, next1);
    assert LossAt(n0, r.node, d, next1);
    SecondIsLeft(e, r.node.table[d], next1);
    SparedStanding(e, r.node.table[d], next1);
  }

  lemma SparedStanding(e: Entry, e': Entry, id: Addr)
    requires Spared(e, e', id)
    ensures e'.flags == e.flags && e'.seqno == e.seqno && e'.advertised == e.advertised
  {
  }

  /** No route to `d`. */
  predicate Dead(n: Node, d: Addr) {
    d in n.table && n.table[d].flags == Down
  }

  /** With a single path, its neighbour lost: no route, and an error if the loss is worth one. */
  lemma BreakAt(n: Node, d: Addr, q: nat, id: Addr, hops: nat, lasthop: Addr, stuck: seq<Stuck>, now: real)
    requires TidyTable(n) && UpHasPaths(n) && Leads(n, d, q, id, hops, lasthop)
    ensures var r := NeighbourLost(n, id, stuck, now);
      && r.node.index == n.index && Dead(r.node, d)
      && (Noted(n, d) ==> exists u :: Rerr(n.index, u) in r.sent && d in u && u[d] >= q)
  {
    var n0 := NeighbourRemoved(n, id);
    var r1 := HandleLinkFailure(n0, id);
    OnlyIsLost(n, d, q, id, hops, lasthop);
    NeighbourLostIs(n, id, stuck, now);
    hide HandleLinkFailure, NeighbourRemoved, NeighbourLost;
    var n' := NeighbourLost(n, id, stuck, now).node;
    assert SameStanding(r1.node.table[d], n'.table[d]);
  }

  lemma OnlyIsLost(n: Node, d: Addr, q: nat, id: Addr, hops: nat, lasthop: Addr)
    requires TidyTable(n) && Leads(n, d, q, id, hops, lasthop)
    ensures var r := HandleLinkFailure(NeighbourRemoved(n, id), id);
      && r.node.index == n.index && Dead(r.node, d)
      && (Noted(n, d) ==> exists u :: Rerr(n.index, u) in r.sent && d in u && u[d] >= q)
  {
    RemovedKeepsRoutes(n, id);
    var n0 := NeighbourRemoved(n, id);
    assert TidyTable(n0);
    LostNeighbourIsReported(n0, id);
    hide HandleLinkFailure, NeighbourRemoved, Spared;
    var r := HandleLinkFailure(n0, id);
    var e := n0.table[d];
    assert e.paths[0] in e.paths;
    assert OnlyThrough(n0, d, id);
    assert LossAt(n0, r.node, d, id);
    if Noted(n, d) {
      assert Noted(n0, d);
      assert r.sent[0] in r.sent;
      assert Rerr(n.index, r.sent[0].unreachable) in r.sent;
    }
  }

  /** The same for a single path through the sender of an error. */
  lemma RetreatAt(n: Node, d: Addr, q: nat, from: Addr, hops: nat, lasthop: Addr, u: map<Addr, nat>)
    requires TidyTable(n) && Leads(n, d, q, from, hops, lasthop) && d in u && u[d] >= q
    ensures var r := RecvError(n, from, u);
      && r.node.index == n.index && Dead(r.node, d)
      && (Noted(n, d) ==> exists u' :: Rerr(n.index, u') in r.sent && d in u' && u'[d] >= q)
  {
    ErrorIsPassedOn(n, from, u);
    hide RecvError, Spared;
    var r := RecvError(n, from, u);
    var e := n.table[d];
    assert e.paths[0] in e.paths;
    assert Concerns(n, from, u, d) && OnlyThrough(n, d, from);
    assert ErrorAt(n, r.node, from, u, d);
    if Noted(n, d) {
      assert r.sent[0] in r.sent;
      assert Rerr(n.index, r.sent[0].unreachable) in r.sent;
    }
  }

  // ---------- one neighbour silent ----------

  lemma OneLost(n: Node, id: Addr, stuck: Addr -> seq<Stuck>, now: real)
    ensures NeighboursLost(n, [id], stuck, now) == NeighbourLost(n, id, stuck(id), now)
  {
    hide NeighbourLost;
    var r := NeighbourLost(n, id, stuck(id), now);
    assert [id][1..] == [] && NeighboursLost(r.node, [], stuck, now) == Result(r.node, []);
    assert r.sent + [] == r.sent;
  }

  /** One neighbour has not been heard from in time. */
  predicate Silent(n: Node, id: Addr, now: real) {
    Expired(n.neighbours, now) == [id]
  }

  lemma SilentIsLost(net: Net, at: Addr, id: Addr, stuck: Addr -> seq<Stuck>, now: real)
    requires at in net.nodes && Silent(net.nodes[at], id, now)
    ensures var ev := PurgeNeighbours(at, now, stuck); var r := NeighbourLost(net.nodes[at], id, stuck(id), now);
      && Enabled(net, ev) && Apply(net, ev).nodes == net.nodes[at := r.node] && net.msgs <= Apply(net, ev).msgs
      && forall m :: m in r.sent ==> m in Apply(net, ev).msgs
  {
    OneLost(net.nodes[at], id, stuck, now);
    hide NeighboursLost, NeighbourLost;
  }

  // ---------- on along the second path ----------

  lemma EndKeepsInner(net: Net, net': Net, path: seq<Addr>)
    requires Inner(net, path) && path[0] in net'.nodes && net'.nodes == net.nodes[path[0] := net'.nodes[path[0]]]
    requires net'.nodes[path[0]].index == path[0]
    ensures Inner(net', path)
  {
    hide Passed;
  }

  lemma TakeOver(net: Net, a: seq<Addr>, b: seq<Addr>, s: Stuck, stuck: Addr -> seq<Stuck>, now: real) returns (ev: Event)
    requires Inv(net) && DoublyConnected(net, a, b) && Silent(net.nodes[a[0]], a[1], now) && s in stuck(a[1])
    requires s.packet.src == b[0] && s.packet.dst == b[|b| - 1] && s.packet.ttl >= |b| - 1 && s.salvaged < MAX_SALVAGE_COUNT
    ensures ev.PurgeNeighbours? && ev.at == a[0] && Enabled(net, ev)
    ensures |b| >= 2 && Underway(Apply(net, ev), b, s.packet, 1) && LeadsOn(Apply(net, ev).nodes[b[0]], b, 0)
  {
    var n := net.nodes[a[0]];
    InvTidy(net, a[0]);
    EndsDiffer(a, b);
    hide Inv, Apply, Enabled, NeighbourLost, Inner, TidyTable, UpHasPaths, Silent, LeadsBoth, Leads;
    ev := PurgeNeighbours(a[0], now, stuck);
    InnerEnds(net, a);
    SecondPathTakesOver(n, a[|a| - 1], ANSWERING, a[1], |a| - 1, a[|a| - 2], b[1], |b| - 1, b[|b| - 2], stuck(a[1]), now);
    SilentIsLost(net, a[0], a[1], stuck, now);
    EndKeepsInner(net, Apply(net, ev), b);
    SetsOut(Apply(net, ev), b, s.packet);
  }

  lemma InnerEnds(net: Net, path: seq<Addr>)
    requires Inner(net, path)
    ensures IsPath(path) && path[0] in net.nodes && net.nodes[path[0]].index == path[0] && path[0] != path[|path| - 1]
  {
  }

  /** Where two paths are known and the neighbour that the first goes through falls silent, a packet that waited for it
  gets to the destination all the same, over the second path, in one step per hop. */
  lemma PacketArrivesAnyway(net: Net, a: seq<Addr>, b: seq<Addr>, s: Stuck, stuck: Addr -> seq<Stuck>, now: real,
                            perHop: Addr -> real)
    returns (nets: seq<Net>, evs: seq<Event>)
    requires Inv(net) && DoublyConnected(net, a, b) && Silent(net.nodes[a[0]], a[1], now) && s in stuck(a[1])
    requires s.packet.src == b[0] && s.packet.dst == b[|b| - 1] && s.packet.ttl >= |b| - 1 && s.salvaged < MAX_SALVAGE_COUNT
    ensures |nets| == |evs| + 1 && nets[0] == net && |evs| == |b| - 1
    ensures evs[0].PurgeNeighbours? && evs[0].at == a[0]
    ensures Data(s.packet.dst, s.packet.(ttl := s.packet.ttl - (|b| - 2))) in nets[|evs|].msgs
    ensures Steps(nets, evs)
  {
    hide *;
    var ev := TakeOver(net, a, b, s, stuck, now);
    nets, evs := PacketArrives(Apply(net, ev), b, s.packet, 1, now, perHop);
    UnderwayIs(nets[|evs|], b, s.packet, |b| - 1);
    LastLeg(s.packet, |b|);
    StepsCons(net, ev, nets, evs);
    nets, evs := [net] + nets, [ev] + evs;
  }

  // ---------- errors back along the path ----------

  /** The error of node `i` names the destination. */
  ghost predicate Warned(net: Net, path: seq<Addr>, i: nat)
    requires IsPath(path) && i < |path|
  {
    exists u :: Rerr(path[i], u) in net.msgs && path[|path| - 1] in u && u[path[|path| - 1]] >= ANSWERING
  }

  ghost predicate Leading(net: Net, path: seq<Addr>, j: nat)
    requires IsPath(path) && j < |path| - 1 && OnPath(net, path)
  {
    TidyTable(net.nodes[path[j]]) && LeadsOn(net.nodes[path[j]], path, j)
  }

  /** From node `i` on to the break at node `b` the routes to the destination are dead, and before it they are live; node
  `i` has sent its error, if anybody is before it. */
  ghost predicate Retreat(net: Net, path: seq<Addr>, i: nat, b: nat) {
    && IsPath(path) && i <= b < |path| - 1 && OnPath(net, path) && (i > 0 ==> Warned(net, path, i))
    && (forall j: nat :: i <= j <= b ==> Dead(net.nodes[path[j]], path[|path| - 1]))
    && forall j: nat :: j < i ==> Leading(net, path, j)
  }

  lemma RetreatTo(net: Net, net': Net, path: seq<Addr>, k: nat, b: nat)
    requires IsPath(path) && OnPath(net, path) && k <= b < |path| - 1
    requires path[k] in net'.nodes && net'.nodes == net.nodes[path[k] := net'.nodes[path[k]]]
    requires net'.nodes[path[k]].index == path[k] && Dead(net'.nodes[path[k]], path[|path| - 1])
    requires k > 0 ==> Warned(net', path, k)
    requires forall j: nat :: j < k ==> Leading(net, path, j)
    requires forall j: nat :: k < j <= b ==> Dead(net.nodes[path[j]], path[|path| - 1])
    ensures Retreat(net', path, k, b)
  {
    hide Warned, Dead, TidyTable, LeadsOn;
    forall j: nat | j < k
      ensures OnPath(net', path) && Leading(net', path, j)
    {
      assert Leading(net, path, j);
      assert net'.nodes[path[j]] == net.nodes[path[j]];
    }
  }

  lemma ConnectedLeads(net: Net, path: seq<Addr>, j: nat)
    requires Inv(net) && Connected(net, path) && j < |path| - 1
    ensures IsPath(path) && OnPath(net, path) && Leading(net, path, j) && UpHasPaths(net.nodes[path[j]])
  {
    InvTidy(net, path[j]);
    hide Inv;
  }

  lemma BreakStep(net: Net, path: seq<Addr>, b: nat, stuck: Addr -> seq<Stuck>, now: real) returns (ev: Event)
    requires Inv(net) && Connected(net, path) && b < |path| - 1 && Silent(net.nodes[path[b]], path[b + 1], now)
    ensures ev.PurgeNeighbours? && ev.at == path[b] && Enabled(net, ev) && Retreat(Apply(net, ev), path, b, b)
  {
    hide Inv, Apply, Enabled, NeighbourLost, TidyTable, UpHasPaths, Silent, Leads, Noted, Dead, Connected, Inner, Retreat;
    ConnectedLeads(net, path, b);
    forall j: nat | j < |path| - 1
      ensures Leading(net, path, j)
    {
      ConnectedLeads(net, path, j);
    }
    var n := net.nodes[path[b]];
    ev := PurgeNeighbours(path[b], now, stuck);
    BreakAt(n, path[|path| - 1], ANSWERING, path[b + 1], |path| - 1 - b, path[|path| - 2], stuck(path[b + 1]), now);
    SilentIsLost(net, path[b], path[b + 1], stuck, now);
    RetreatTo(net, Apply(net, ev), path, b, b);
  }

  lemma ErrorReceived(n: Node, from: Addr, u: map<Addr, nat>, now: real, perHop: Addr -> real)
    ensures Recv(n, Rerr(from, u), now, perHop) == RecvError(n, from, u)
  {
  }

  /** The error of node `i` comes to the node before it. */
  lemma RetreatStep(net: Net, path: seq<Addr>, i: nat, b: nat, now: real, perHop: Addr -> real) returns (ev: Event)
    requires Retreat(net, path, i, b) && i > 0
    ensures ev.Deliver? && Enabled(net, ev) && Retreat(Apply(net, ev), path, i - 1, b)
  {
    hide Apply, Enabled, Recv, RecvError, TidyTable, Leads, Noted, Dead;
    var d := path[|path| - 1];
    var u :| Rerr(path[i], u) in net.msgs && d in u && u[d] >= ANSWERING;
    var k := i - 1;
    var n := net.nodes[path[k]];
    assert Leading(net, path, k);
    RetreatAt(n, d, ANSWERING, path[i], |path| - 1 - k, path[|path| - 2], u);
    ErrorReceived(n, path[i], u, now, perHop);
    Delivered(net, path[k], Rerr(path[i], u), now, perHop);
    ev := Deliver(path[k], Rerr(path[i], u), now, perHop);
    assert k > 0 ==> Warned(Apply(net, ev), path, k);
    hide Warned;
    RetreatTo(net, Apply(net, ev), path, k, b);
  }

  /** Back from node `i`, one delivery of each error. */
  lemma {:induction false} ErrorsReachTheSource(net: Net, path: seq<Addr>, i: nat, b: nat, now: real, perHop: Addr -> real)
    returns (nets: seq<Net>, evs: seq<Event>)
    requires Retreat(net, path, i, b)
    ensures |nets| == |evs| + 1 && nets[0] == net && |evs| == i
    ensures Retreat(nets[|evs|], path, 0, b)
    ensures (forall k :: 0 <= k < |evs| ==> evs[k].Deliver?) && Steps(nets, evs)
    decreases i
  {
    hide *;
    if i == 0 {
      nets, evs := [net], [];
      StepsNone(net);
    } else {
      var ev := RetreatStep(net, path, i, b, now, perHop);
      nets, evs := ErrorsReachTheSource(Apply(net, ev), path, i - 1, b, now, perHop);
      StepsCons(net, ev, nets, evs);
      nets, evs := [net] + nets, [ev] + evs;
    }
  }

  /** On a path that a discovery has connected, whichever node's next hop falls silent: its purge of neighbours and one
  delivery of each error leave no node before the break with a route to the destination. */
  lemma BreakIsKnownUpstream(net: Net, path: seq<Addr>, b: nat, stuck: Addr -> seq<Stuck>, now: real, perHop: Addr -> real)
    returns (nets: seq<Net>, evs: seq<Event>)
    requires Inv(net) && Connected(net, path) && b < |path| - 1 && Silent(net.nodes[path[b]], path[b + 1], now)
    ensures |nets| == |evs| + 1 && nets[0] == net && |evs| == b + 1
    ensures evs[0].PurgeNeighbours? && evs[0].at == path[b] && forall k :: 0 < k < |evs| ==> evs[k].Deliver?
    ensures forall j: nat :: j <= b ==> path[j] in nets[|evs|].nodes && Dead(nets[|evs|].nodes[path[j]], path[|path| - 1])
    ensures Steps(nets, evs)
  {
    hide *;
    var ev := BreakStep(net, path, b, stuck, now);
    nets, evs := ErrorsReachTheSource(Apply(net, ev), path, b, b, now, perHop);
    RetreatDone(nets[|evs|], path, b);
    StepsCons(net, ev, nets, evs);
    nets, evs := [net] + nets, [ev] + evs;
  }

  lemma RetreatDone(net: Net, path: seq<Addr>, b: nat)
    requires Retreat(net, path, 0, b)
    ensures |path| > 0 && b < |path| - 1
    ensures forall j: nat :: j <= b ==> path[j] in net.nodes && Dead(net.nodes[path[j]], path[|path| - 1])
  {
    hide Warned;
  }
}
