/** The assertions the AODV handlers make about route state, and when they can fail. */
module AodvAsserts {
  import opened Routing
  import opened BufferSpec
  import opened RingSearch
  import opened AodvSpec
  import opened AodvSafety
  import opened AodvNetwork
  import opened AodvRepair

  /** What the handlers assert of a route they treat as live. */
  predicate UpAndEven(e: Entry) {
    e.flags == Up && e.seqno % 2 == 0
  }

  predicate UpIsFinite(e: Entry) {
    e.flags == Up ==> e.hops.Finite?
  }

  /** The assertions along one pass of rt_purge, entry by entry at its turn. */
  ghost predicate PurgeAsserts(n: Node, order: seq<Addr>, now: real, perHop: Addr -> real)
    requires forall d :: d in order ==> d in n.table
    decreases |order|
  {
    order != [] ==>
      && UpIsFinite(n.table[order[0]])
      && (n.table[order[0]].flags == Up && n.table[order[0]].expire < now ==> (n.table[order[0]].seqno + 1) % 2 == 1)
      && PurgeAsserts(PurgeEntry(n, order[0], now, perHop).node, order[1..], now, perHop)
  }

  /** recvReply: the route back to the asker, if it has a hop count, is up. */
  ghost predicate ReplyAsserts(n: Node, rp: Reply, now: real) {
    Rank(rp.dstSeqno, Finite(rp.hopCount)).Fresher(EntryOf(n, rp.dst).Freshness()) && rp.to != n.index ==>
      var n1 := ForwardRoute(n, rp, now).node;
      rp.to in n1.table && n1.table[rp.to].hops.Finite? ==> n1.table[rp.to].flags == Up
  }

  ghost predicate ErrorAsserts(n: Node, from: Addr, unreachable: map<Addr, nat>) {
    forall d :: Hit(n, from, unreachable, d) ==> UpAndEven(n.table[d])
  }

  ghost predicate FailureAsserts(n: Node, id: Addr) {
    forall d :: d in n.table && Breaks(n.table[d], id) ==> UpAndEven(n.table[d])
  }

  /** rt_resolve and the sendRequest it may call; the node's own number stays even. */
  predicate ResolveAsserts(n: Node, p: Packet) {
    UpIsFinite(EntryOf(n, p.dst)) && (n.seqno + 2) % 2 == 0
  }

  predicate StartsRepair(n: Node, ev: Event) {
    ev.LinkFailure? && ev.packet.dst in n.table && n.table[ev.packet.dst].hops.Finite?
    && ev.packet.forwards > n.table[ev.packet.dst].hops.n
  }

  /** Every assertion met while node `n` handles `ev` holds. */
  ghost predicate AssertsHold(n: Node, ev: Event)
    requires ev.PurgeRoutes? ==> forall d :: d in ev.order ==> d in n.table
  {
    match ev
    case Deliver(_, Rrep(rp), now, _) => ReplyAsserts(n, rp.(ttl := rp.ttl - 1), now)
    case Deliver(_, Rerr(from, unreachable), _, _) => ErrorAsserts(n, from, unreachable)
    case Deliver(_, Data(_, p), _, _) => ResolveAsserts(n, p)
    case Originate(_, p, _, _) => ResolveAsserts(n, p)
    case LinkFailure(_, p, neighbour, _, _) =>
      if p.dst !in n.table then true
      else if StartsRepair(n, ev) then (n.seqno + 2) % 2 == 0
      else FailureAsserts(n, neighbour) && (n.seqno + 2) % 2 == 0
    case PurgeRoutes(_, order, now, perHop) => PurgeAsserts(n, order, now, perHop)
    case _ => true
  }

  ghost predicate NoRepair(n: Node) {
    forall d :: d in n.table ==> n.table[d].flags != InRepair
  }

  /** A run in which no link failure leads to a local repair. */
  ghost predicate RepairFreeRun(nets: seq<Net>, evs: seq<Event>) {
    Run(nets, evs) && forall i :: 0 <= i < |evs| ==> !StartsRepair(nets[i].nodes[evs[i].at], evs[i])
  }

  // ---------- routes under repair arise only from local repair ----------

  lemma PurgeEntryNoRepair(n: Node, d: Addr, now: real, perHop: Addr -> real)
    requires NoRepair(n) && d in n.table
    ensures NoRepair(PurgeEntry(n, d, now, perHop).node)
  {
  }

  lemma {:induction false} RtPurgeNoRepair(n: Node, order: seq<Addr>, now: real, perHop: Addr -> real)
    requires NoRepair(n)
    requires forall d :: d in order ==> d in n.table
    ensures NoRepair(RtPurge(n, order, now, perHop).node)
    decreases |order|
  {
    if order != [] {
      PurgeEntryNoRepair(n, order[0], now, perHop);
      RtPurgeNoRepair(PurgeEntry(n, order[0], now, perHop).node, order[1..], now, perHop);
    }
  }

  lemma AnswerNoRepair(n: Node, rq: Request, now: real)
    requires NoRepair(n) && rq.src in n.table
    ensures NoRepair(Answer(n, rq, now).node)
  {
  }

  lemma ReverseRouteNoRepair(n: Node, rq: Request, now: real)
    requires NoRepair(n)
    ensures NoRepair(ReverseRoute(n, rq, now).node)
  {
  }

  lemma ForwardRouteNoRepair(n: Node, rp: Reply, now: real)
    requires NoRepair(n)
    ensures NoRepair(ForwardRoute(n, rp, now).node)
  {
  }

  lemma PassReplyNoRepair(n: Node, rp: Reply, now: real)
    requires NoRepair(n) && rp.dst in n.table
    ensures NoRepair(PassReply(n, rp, now).node)
  {
  }

  lemma ResolveNoRepair(n: Node, p: Packet, now: real, perHop: Addr -> real)
    requires NoRepair(n)
    ensures NoRepair(RecvData(n, p, now, perHop).node)
  {
  }

  lemma RecvNoRepair(n: Node, m: Msg, now: real, perHop: Addr -> real)
    requires NoRepair(n)
    ensures NoRepair(Recv(n, m, now, perHop).node)
  {
    hide ReverseRoute, Answer, ForwardRoute, PassReply, RecvData;
    match m
    case Rreq(rq) =>
      var rq' := rq.(ttl := rq.ttl - 1);
      ReverseRouteNoRepair(n, rq', now);
      if rq'.src != n.index && !Heard(n, rq'.src, rq'.bcastId) {
        ReverseRouteKeepsSource(n, rq', now);
        AnswerNoRepair(ReverseRoute(n, rq', now).node, rq', now);
      }
    case Rrep(rp) =>
      var rp' := rp.(ttl := rp.ttl - 1);
      ForwardRouteNoRepair(n, rp', now);
      ForwardRouteKeepsDestination(n, rp', now);
      PassReplyNoRepair(ForwardRoute(n, rp', now).node, rp', now);
    case Rerr(from, unreachable) =>
    case Data(_, p) => ResolveNoRepair(n, p, now, perHop);
  }

  lemma ReverseRouteKeepsSource(n: Node, rq: Request, now: real)
    ensures rq.src in ReverseRoute(n, rq, now).node.table
  {
  }

  lemma ForwardRouteKeepsDestination(n: Node, rp: Reply, now: real)
    ensures rp.dst in ForwardRoute(n, rp, now).node.table
  {
  }

  lemma HandleNoRepair(n: Node, ev: Event)
    requires NoRepair(n) && !StartsRepair(n, ev)
    requires ev.PurgeRoutes? ==> forall d :: d in ev.order ==> d in n.table
    ensures NoRepair(Handle(n, ev).node)
  {
    hide Recv, RecvData, RtPurge;
    match ev
    case Deliver(_, m, now, perHop) => RecvNoRepair(n, m, now, perHop);
    case Originate(_, p, now, perHop) => ResolveNoRepair(n, p, now, perHop);
    case PurgeRoutes(_, order, now, perHop) => RtPurgeNoRepair(n, order, now, perHop);
    case _ =>
  }

  lemma {:induction false} NoRepairInRun(nets: seq<Net>, evs: seq<Event>, i: nat)
    requires RepairFreeRun(nets, evs) && i < |nets|
    ensures Inv(nets[i])
    ensures forall x :: x in nets[i].nodes ==> NoRepair(nets[i].nodes[x])
    decreases i
  {
    if i > 0 {
      NoRepairInRun(nets, evs, i - 1);
      var net, ev := nets[i - 1], evs[i - 1];
      assert Careful(net, ev);
      StepKeepsInv(net, ev);
      HandleNoRepair(net.nodes[ev.at], ev);
      hide Handle, Inv;
    }
  }

  // ---------- the assertions ----------

  lemma HandlerAssertsHold(n: Node, ev: Event)
    requires NodeOk(n) && NoRepair(n)
    requires ev.PurgeRoutes? ==> forall d :: d in ev.order ==> d in n.table
    requires ev.Deliver? ==> Credible(ev.msg)
    ensures AssertsHold(n, ev)
  {
    hide AssertsHold;
    AssertsHoldIff(n, ev);
  }

  /** In every run without local repair, none of the route-state assertions can fail. */
  lemma AssertsNeverFail(nets: seq<Net>, evs: seq<Event>, i: nat)
    requires RepairFreeRun(nets, evs) && i < |evs|
    ensures AssertsHold(nets[i].nodes[evs[i].at], evs[i])
  {
    NoRepairInRun(nets, evs, i);
    hide AssertsHold;
    if evs[i].Deliver? {
      assert MessageBacked(nets[i], evs[i].msg);
    }
    HandlerAssertsHold(nets[i].nodes[evs[i].at], evs[i]);
  }

  /** The state discipline: up exactly with a hop count and an even number; otherwise odd, or never learned. */
  lemma StateDiscipline(nets: seq<Net>, evs: seq<Event>, i: nat, x: Addr, d: Addr)
    requires RepairFreeRun(nets, evs) && i < |nets|
    requires x in nets[i].nodes && d in nets[i].nodes[x].table
    ensures var e := nets[i].nodes[x].table[d];
            && (e.flags == Up <==> e.hops.Finite?)
            && (e.flags == Up ==> e.seqno % 2 == 0 && e.seqno > 0)
            && (e.flags == Down <==> e.hops.Infinity?)
            && (e.flags == Down ==> e.seqno % 2 == 1 || e.seqno == 0)
  {
    NoRepairInRun(nets, evs, i);
    assert NodeOk(nets[i].nodes[x]) && NoRepair(nets[i].nodes[x]);
  }

  predicate UnderRepair(n: Node, d: Addr) {
    d in n.table && n.table[d].flags == InRepair
  }

  /** The handler takes a route under repair for a live one: the route back along which a reply is passed, one that an
  error reports, or one through a lost neighbour. */
  ghost predicate MeetsRepair(n: Node, ev: Event) {
    match ev
    case Deliver(_, Rrep(rp), _, _) =>
      Rank(rp.dstSeqno, Finite(rp.hopCount)).Fresher(EntryOf(n, rp.dst).Freshness())
      && rp.to != n.index && rp.to != rp.dst && UnderRepair(n, rp.to)
    case Deliver(_, Rerr(from, unreachable), _, _) => exists d :: Hit(n, from, unreachable, d) && UnderRepair(n, d)
    case LinkFailure(_, p, neighbour, _, _) =>
      p.dst in n.table && !StartsRepair(n, ev)
      && exists d :: d in n.table && Breaks(n.table[d], neighbour) && UnderRepair(n, d)
    case _ => false
  }

  /** The pass of rt_purge treats as live only what is up, whether or not other routes are under repair. */
  lemma {:induction false} PurgeAssertsHold(n: Node, order: seq<Addr>, now: real, perHop: Addr -> real)
    requires NodeOk(n)
    requires forall d :: d in order ==> d in n.table
    ensures PurgeAsserts(n, order, now, perHop)
    decreases |order|
  {
    if order != [] {
      PurgeEntryAdvances(n, order[0], now, perHop);
      PurgeAssertsHold(PurgeEntry(n, order[0], now, perHop).node, order[1..], now, perHop);
    }
  }

  lemma ForwardRouteLeavesOthers(n: Node, rp: Reply, now: real, d: Addr)
    ensures var n' := ForwardRoute(n, rp, now).node;
      && (d != rp.dst ==> (d in n'.table <==> d in n.table) && (d in n.table ==> n'.table[d] == n.table[d]))
      && rp.dst in n'.table && n'.table[rp.dst].flags == Up
  {
  }

  /** With or without local repair: the assertions of a handler hold if and only if it meets no route under repair. */
  lemma AssertsHoldIff(n: Node, ev: Event)
    requires NodeOk(n)
    requires ev.PurgeRoutes? ==> forall d :: d in ev.order ==> d in n.table
    requires ev.Deliver? ==> Credible(ev.msg)
    ensures AssertsHold(n, ev) <==> !MeetsRepair(n, ev)
  {
    hide PurgeAsserts, ForwardRoute;
    match ev
    case Deliver(_, Rrep(rp), now, _) =>
      ForwardRouteLeavesOthers(n, rp.(ttl := rp.ttl - 1), now, rp.to);
      assert rp.to in n.table ==> EntryOk(n.table[rp.to]);
    case Deliver(_, Rerr(from, unreachable), _, _) =>
      forall d | Hit(n, from, unreachable, d)
        ensures UpAndEven(n.table[d]) <==> !UnderRepair(n, d)
      {
        assert EntryOk(n.table[d]);
      }
    case LinkFailure(_, p, neighbour, _, _) =>
      forall d | d in n.table && Breaks(n.table[d], neighbour)
        ensures UpAndEven(n.table[d]) <==> !UnderRepair(n, d)
      {
        assert EntryOk(n.table[d]);
      }
    case PurgeRoutes(_, order, now, perHop) => PurgeAssertsHold(n, order, now, perHop);
    case _ =>
  }

  /** In every run in which the repair timer is careful, so also in those with local repair, this is when an assertion
  fails. */
  lemma AssertsInRuns(nets: seq<Net>, evs: seq<Event>, i: nat)
    requires CarefulRun(nets, evs) && i < |evs|
    ensures AssertsHold(nets[i].nodes[evs[i].at], evs[i]) <==> !MeetsRepair(nets[i].nodes[evs[i].at], evs[i])
  {
    RunKeepsInv(nets, evs, i);
    hide AssertsHold, MeetsRepair;
    if evs[i].Deliver? {
      assert MessageBacked(nets[i], evs[i].msg);
    }
    AssertsHoldIff(nets[i].nodes[evs[i].at], evs[i]);
  }

  /** With local repair, the assertion of handle_link_failure holds exactly when no route under repair uses the
  lost neighbour. */
  lemma FailureAssertsIff(n: Node, id: Addr)
    requires NodeOk(n)
    ensures FailureAsserts(n, id) <==>
            forall d :: d in n.table && n.table[d].flags == InRepair ==> n.table[d].nexthop != id
  {
    forall d | d in n.table
      ensures Breaks(n.table[d], id) ==>
                (UpAndEven(n.table[d]) <==> !(n.table[d].flags == InRepair && n.table[d].nexthop == id))
      ensures n.table[d].flags == InRepair && n.table[d].nexthop == id ==> Breaks(n.table[d], id)
    {
      assert EntryOk(n.table[d]);
    }
  }

  /** The condition can be violated: after a careful run, losing the same neighbour again trips the assertion. */
  lemma RepairTripsAssertion() returns (nets: seq<Net>, evs: seq<Event>, ev: Event)
    ensures CarefulRun(nets, evs) && Enabled(nets[|evs|], ev)
    ensures ev.LinkFailure? && ev.at == A
    ensures !AssertsHold(nets[|evs|].nodes[ev.at], ev)
  {
    nets, evs := RoutesBecomeKnown();
    var net3 := nets[3];
    ARepairs(net3.nodes[A]);
    hide LinkLayerFailed;
    var ev3 := LinkFailure(A, LOST, D, 0.0, NoLatency());
    var net4 := Apply(net3, ev3);
    RunExtends(nets, evs, ev3);
    hide Run, RoutesKnown, Apply;
    nets, evs := nets + [net4], evs + [ev3];
    ev := LinkFailure(A, LOST_TOO, D, 0.0, NoLatency());
    var a := net4.nodes[A];
    assert Breaks(a.table[D], D) && !UpAndEven(a.table[D]);
    assert !FailureAsserts(a, D);
  }
}
