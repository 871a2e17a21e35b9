/** Route discovery of AOMDV in whole runs of the network: how many requests a node can put on the medium while no
answer comes. */
module AomdvSearch {
  import opened Routing
  import opened BufferSpec
  import opened RingSearch
  import opened AomdvPaths
  import opened AomdvSpec
  import opened AomdvSafety
  import opened AomdvNetwork

  /** A request for `d` of the node's own. */
  predicate Original(m: Msg, x: Addr, d: Addr) {
    m.Rreq? && m.rq.src == x && m.rq.sender == x && m.rq.dst == d
  }

  function OriginalsOf(sent: seq<Msg>, x: Addr, d: Addr): set<Msg> {
    set m | m in sent && Original(m, x, d)
  }

  lemma UnionBound<T>(a: set<T>, b: set<T>, c: set<T>)
    requires a <= b + c
    ensures |a| <= |b| + |c|
  {
    assert b + c == a + ((b + c) - a);
    assert b + c == b + (c - b) && c == (c - b) + (c * b);
  }

  /** What the search may still cost. */
  function Left(e: Entry): (r: nat)
    ensures r <= 7
  {
    RequestsLeft(e.reqCnt, e.reqLastTtl)
  }

  predicate IsDue(e: Entry, now: real) {
    e.flags != Up && e.reqTimeout <= now
  }

  /** Due, but out of retries. */
  predicate GivesUp(e: Entry, now: real) {
    IsDue(e, now) && e.reqCnt > RREQ_RETRIES
  }

  // ---------- what one call and one event cost ----------

  /** A call that is due either asks or gives up, and no other call does either. Asking uses up at least one of what is
  left; giving up drops everything held and starts again. */
  lemma CallCosts(n: Node, d: Addr, now: real, perHop: Addr -> real)
    requires d in n.table
    ensures var e, r := n.table[d], SendRequest(n, d, now, perHop);
      && d in r.node.table
      && (IsDue(e, now) <==> r.sent != [] || GivesUp(e, now)) && !(r.sent != [] && GivesUp(e, now))
      && (!IsDue(e, now) ==> r.node == n)
      && (r.sent != [] ==> |r.sent| == 1 && Original(r.sent[0], n.index, d) && Left(r.node.table[d]) + 1 <= Left(e))
      && (GivesUp(e, now) ==> Held(r.node.buffer, d) == [] && r.node.table[d].reqCnt == 0
                              && r.node.table[d].reqTimeout == now + MAX_RREQ_TIMEOUT)
  {
    OthersHoldNone(Purged(n.buffer, now), d);
  }

  /** The requests for `d` that went out, and what is left, are within what there was and what giving up restored. */
  ghost predicate Spends(n: Node, giveUps: nat, r: Result, d: Addr) {
    && r.node.index == n.index
    && |OriginalsOf(r.sent, n.index, d)| + Left(EntryOf(r.node, d)) <= Left(EntryOf(n, d)) + 7 * giveUps
  }

  lemma SpendsThen(n: Node, g1: nat, r1: Result, g2: nat, r2: Result, d: Addr)
    requires Spends(n, g1, r1, d) && Spends(r1.node, g2, r2, d)
    ensures Spends(n, g1 + g2, Result(r2.node, r1.sent + r2.sent), d)
  {
    hide Left, EntryOf, Original;
    UnionBound(OriginalsOf(r1.sent + r2.sent, n.index, d), OriginalsOf(r1.sent, n.index, d),
               OriginalsOf(r2.sent, n.index, d));
  }

  /** Nothing of the search moves. */
  predicate Rests(e: Entry, e': Entry) {
    e'.reqCnt == e.reqCnt && e'.reqLastTtl == e.reqLastTtl && e'.reqTimeout == e.reqTimeout
  }

  ghost predicate Quiet(n: Node, r: Result, d: Addr) {
    && r.node.index == n.index && Rests(EntryOf(n, d), EntryOf(r.node, d))
    && forall m :: m in r.sent ==> !Original(m, n.index, d)
  }

  lemma QuietSpendsNothing(n: Node, r: Result, d: Addr)
    requires Quiet(n, r, d)
    ensures Spends(n, 0, r, d)
  {
    hide Original;
    assert OriginalsOf(r.sent, n.index, d) == {};
  }

  function CallGiveUps(n: Node, d: Addr, now: real): nat {
    if GivesUp(EntryOf(n, d), now) then 1 else 0
  }

  lemma CallSpends(n: Node, x: Addr, now: real, perHop: Addr -> real, d: Addr)
    requires x in n.table
    ensures Spends(n, if x == d then CallGiveUps(n, d, now) else 0, SendRequest(n, x, now, perHop), d)
  {
    var r := SendRequest(n, x, now, perHop);
    CallCosts(n, x, now, perHop);
    hide Left, Requested;
    if x == d && r.sent != [] {
      assert OriginalsOf(r.sent, n.index, d) == {r.sent[0]};
    } else {
      assert OriginalsOf(r.sent, n.index, d) == {};
    }
  }

  // ---------- the events ----------

  ghost predicate NotUp(n: Node, d: Addr) {
    EntryOf(n, d).flags != Up
  }

  lemma ReleaseRests(n: Node, x: Addr, now: real, d: Addr)
    requires x in n.table
    ensures var r := Release(n, x, now);
      && r.node.index == n.index && r.node.table.Keys == n.table.Keys
      && EntryOf(r.node, d).flags == EntryOf(n, d).flags && Rests(EntryOf(n, d), EntryOf(r.node, d))
      && (forall m :: m in r.sent ==> m.Data?)
  {
    ReleasedRests(n.table[x], n.index, Held(Purged(n.buffer, now), x), now);
  }

  lemma {:induction false} ReleasedRests(e: Entry, index: Addr, pkts: seq<Packet>, now: real)
    ensures var e' := Released(e, index, pkts, now).0; e'.flags == e.flags && Rests(e, e')
    decreases |pkts|
  {
    if pkts != [] {
      ReleasedRests(e, index, pkts[1..], now);
      var e1 := FirstExpires(e, now + ACTIVE_ROUTE_TIMEOUT);
      ReleasedRests(if pkts[0].src != index then e1.(error := true) else e1, index, pkts[1..], now);
    }
  }

  /** Only a route that is up has its search reset. */
  lemma RefreshRests(n: Node, x: Addr, now: real, d: Addr)
    requires x in n.table
    ensures var r := Refresh(n, x, now);
      && r.node.index == n.index && r.node.table.Keys == n.table.Keys
      && EntryOf(r.node, d).flags == EntryOf(n, d).flags
      && (NotUp(r.node, d) ==> Rests(EntryOf(n, d), EntryOf(r.node, d)))
      && (forall m :: m in r.sent ==> m.Data?)
  {
    hide Release;
    if n.table[x].flags == Up {
      ReleaseRests(SetEntry(n, x, Settled(n.table[x])), x, now, d);
    }
  }

  lemma TakeRequestRests(n: Node, rq: Request, now: real, d: Addr)
    ensures var r := TakeRequest(n, rq, now).0;
      && r.node.index == n.index && (forall m :: m in r.sent ==> m.Data?)
      && (NotUp(r.node, d) ==> Rests(EntryOf(n, d), EntryOf(r.node, d)))
  {
    hide Refresh, MaxHops, MinHops, Between, EndingAt, NewDisjoint;
    var rq1 := Stamped(n, rq);
    var n1 := CacheRequest(n, rq1, now);
    var rr := ReverseRoute(n1, EntryOf(n1, rq1.src), rq1, now);
    var n2 := SetEntry(n1, rq1.src, rr.0);
    assert rr.0.flags != Up ==> Rests(EntryOf(n, rq1.src), rr.0);
    if rr.1.Go? {
      RefreshRests(n2, rq1.src, now, d);
    }
  }

  lemma AnswerRests(n: Node, rq: Request, reversePath: bool, seen: bool, now: real, d: Addr)
    requires rq.src in n.table && rq.src != n.index
    ensures var r := Answer(n, rq, reversePath, seen, now);
      && EntryOf(r.node, d).flags == EntryOf(n, d).flags && Quiet(n, r, d)
  {
    hide MaxHops, FirstPath, CacheIndex;
  }

  /** A reverse route that does not come up leaves the search alone. */
  lemma RequestIsQuiet(n: Node, rq: Request, now: real, d: Addr)
    requires NotUp(RecvRequest(n, rq, now).node, d)
    ensures Quiet(n, RecvRequest(n, rq, now), d)
  {
    hide TakeRequest, Answer;
    if rq.src != n.index {
      TakeRequestRests(n, rq, now, d);
      var (r1, go) := TakeRequest(n, rq, now);
      if go.Go? {
        AnswerRests(r1.node, Stamped(n, rq), go.reversePath, Cached(n, rq.src, rq.bcastId), now, d);
      }
    }
  }

  lemma PassReplyRests(n: Node, rp: Reply, now: real, d: Addr)
    requires rp.dst in n.table
    ensures var r := PassReply(n, rp, now);
      && r.node.index == n.index && EntryOf(r.node, d).flags == EntryOf(n, d).flags
      && Rests(EntryOf(n, d), EntryOf(r.node, d)) && (forall m :: m in r.sent ==> m.Rrep?)
  {
    hide MaxHops, CacheIndex;
  }

  lemma ReplyIsQuiet(n: Node, rp: Reply, now: real, d: Addr)
    requires NotUp(RecvReply(n, rp, now).node, d)
    ensures Quiet(n, RecvReply(n, rp, now), d)
  {
    hide Refresh, PassReply, MaxHops, MinHops, Between, NewDisjoint;
    if rp.dst != n.index {
      var fr := ForwardRoute(n, EntryOf(n, rp.dst), rp, now);
      var n1 := SetEntry(n, rp.dst, fr.0);
      assert fr.0.flags != Up ==> Rests(EntryOf(n, rp.dst), fr.0);
      if fr.1.Go? {
        RefreshRests(n1, rp.dst, now, d);
        PassReplyRests(Refresh(n1, rp.dst, now).node, rp, now, d);
      }
    }
  }

  lemma ErrorIsQuiet(n: Node, from: Addr, unreachable: map<Addr, nat>, d: Addr)
    ensures Quiet(n, RecvError(n, from, unreachable), d)
  {
    hide Hit, Without, ReportsError;
  }

  /** The calls of a data packet that give up. */
  function DataGiveUps(n: Node, p: Packet, now: real, d: Addr): nat {
    if p.dst == d && p.src == n.index && p.forwards == 0 && EntryOf(n, d).flags != Up then CallGiveUps(n, d, now) else 0
  }

  lemma ResolveSpends(n: Node, p: Packet, now: real, perHop: Addr -> real, d: Addr)
    ensures var asks := p.src == n.index && EntryOf(n, p.dst).flags != Up;
      Spends(n, if asks && p.dst == d then CallGiveUps(n, d, now) else 0, RtResolve(n, p, now, perHop), d)
  {
    var r := RtResolve(n, p, now, perHop);
    var n1 := SetEntry(n, p.dst, EntryOf(n, p.dst));
    if n1.table[p.dst].flags != Up && p.src == n.index {
      var n2 := n1.(buffer := Enqueued(n.buffer, p, now));
      assert EntryOf(n2, d) == EntryOf(n, d);
      hide SendRequest, EntryOf, Enqueued, Left;
      CallSpends(n2, p.dst, now, perHop, d);
    } else {
      ReleasedRests(n1.table[p.dst], n.index, [p], now);
      hide Released;
      QuietSpendsNothing(n, r, d);
    }
  }

  lemma DataSpends(n: Node, p: Packet, now: real, perHop: Addr -> real, d: Addr)
    ensures Spends(n, DataGiveUps(n, p, now, d), RecvData(n, p, now, perHop), d)
  {
    hide RtResolve, Spends, CallGiveUps;
    QuietSpendsNothing(n, Result(n, []), d);
    if p.src == n.index && p.forwards == 0 {
      ResolveSpends(n, p.(ttl := NETWORK_DIAMETER), now, perHop, d);
    } else if p.src != n.index && p.ttl - 1 != 0 {
      ResolveSpends(n, p.(ttl := p.ttl - 1), now, perHop, d);
    }
  }

  function PurgeGiveUps(n: Node, order: seq<Addr>, now: real, perHop: Addr -> real, d: Addr): nat
    requires forall x :: x in order ==> x in n.table
    decreases |order|
  {
    if order == [] then 0
    else (if order[0] == d && EntryOf(n, d).flags != Up && Holds(n.buffer, d) then CallGiveUps(n, d, now) else 0)
         + PurgeGiveUps(PurgeEntry(n, order[0], now, perHop).node, order[1..], now, perHop, d)
  }

  lemma PurgeEntrySpends(n: Node, x: Addr, now: real, perHop: Addr -> real, d: Addr)
    requires x in n.table && NotUp(n, d)
    ensures var r := PurgeEntry(n, x, now, perHop);
      && NotUp(r.node, d) && r.node.table.Keys == n.table.Keys
      && Spends(n, if x == d && Holds(n.buffer, d) then CallGiveUps(n, d, now) else 0, r, d)
  {
    var r := PurgeEntry(n, x, now, perHop);
    var e := n.table[x];
    if e.flags != Up && Holds(n.buffer, x) {
      CallSpends(n, x, now, perHop, d);
    } else if e.flags == Up && e.expire >= now {
      ReleaseRests(n, x, now, d);
      QuietSpendsNothing(n, r, d);
    } else {
      hide LivePaths, Purged, Others;
      QuietSpendsNothing(n, r, d);
    }
  }

  lemma {:induction false} PurgeSpends(n: Node, order: seq<Addr>, now: real, perHop: Addr -> real, d: Addr)
    requires forall x :: x in order ==> x in n.table
    requires NotUp(n, d)
    ensures Spends(n, PurgeGiveUps(n, order, now, perHop, d), RtPurge(n, order, now, perHop), d)
    decreases |order|
  {
    hide Spends, PurgeEntry, CallGiveUps;
    if order == [] {
      QuietSpendsNothing(n, Result(n, []), d);
    } else {
      PurgeEntrySpends(n, order[0], now, perHop, d);
      var r := PurgeEntry(n, order[0], now, perHop);
      PurgeSpends(r.node, order[1..], now, perHop, d);
      SpendsThen(n, if order[0] == d && Holds(n.buffer, d) then CallGiveUps(n, d, now) else 0, r,
                 PurgeGiveUps(r.node, order[1..], now, perHop, d), RtPurge(r.node, order[1..], now, perHop), d);
    }
  }

  lemma {:induction false} SalvageIsQuiet(n: Node, stuck: seq<Stuck>, now: real, d: Addr)
    ensures Quiet(n, Salvage(n, stuck, now), d)
    decreases |stuck|
  {
    if stuck != [] {
      var s := stuck[0];
      if Salvageable(n, s) {
        ReleasedRests(n.table[s.packet.dst], n.index, [s.packet], now);
      }
      SalvageIsQuiet(SalvageOne(n, s, now).node, stuck[1..], now, d);
    }
  }

  lemma FailureIsQuiet(n: Node, id: Addr, d: Addr)
    ensures Quiet(n, HandleLinkFailure(n, id), d)
  {
    hide Uses, Without, ReportsLoss;
  }

  lemma {:induction false} LossIsQuiet(n: Node, ids: seq<Addr>, stuck: Addr -> seq<Stuck>, now: real, d: Addr)
    ensures Quiet(n, NeighboursLost(n, ids, stuck, now), d)
    decreases |ids|
  {
    hide HandleLinkFailure, Salvage, NeighbourIndex, Original;
    if ids != [] {
      var n1 := NeighbourRemoved(n, ids[0]);
      FailureIsQuiet(n1, ids[0], d);
      SalvageIsQuiet(HandleLinkFailure(n1, ids[0]).node, stuck(ids[0]), now, d);
      LossIsQuiet(NeighbourLost(n, ids[0], stuck(ids[0]), now).node, ids[1..], stuck, now, d);
    }
  }

  /** How often the handling of an event gives up on `d`. */
  ghost function GiveUps(n: Node, ev: Event, d: Addr): nat
    requires ev.PurgeRoutes? ==> forall x :: x in ev.order ==> x in n.table
  {
    match ev
    case Deliver(_, Data(_, p), now, _) => DataGiveUps(n, p, now, d)
    case Originate(_, p, now, _) => DataGiveUps(n, p, now, d)
    case PurgeRoutes(_, order, now, perHop) => PurgeGiveUps(n, order, now, perHop, d)
    case _ => 0
  }

  /** Whatever the event, unless the route comes up. */
  lemma EventSpends(n: Node, ev: Event, d: Addr)
    requires ev.PurgeRoutes? ==> forall x :: x in ev.order ==> x in n.table
    requires NotUp(n, d) && NotUp(Handle(n, ev).node, d)
    ensures Spends(n, GiveUps(n, ev, d), Handle(n, ev), d)
  {
    hide Spends, Quiet, RecvRequest, RecvReply, RecvError, RecvData, NeighboursLost, RtPurge, DataGiveUps, PurgeGiveUps;
    var r := Handle(n, ev);
    match ev
    case Deliver(_, Data(_, p), now, perHop) => DataSpends(n, p, now, perHop, d);
    case Originate(_, p, now, perHop) => DataSpends(n, p, now, perHop, d);
    case PurgeRoutes(_, order, now, perHop) => PurgeSpends(n, order, now, perHop, d);
    case Deliver(_, Rreq(rq), now, _) =>
      RequestIsQuiet(n, rq.(ttl := rq.ttl - 1), now, d);
      QuietSpendsNothing(n, r, d);
    case Deliver(_, Rrep(rp), now, _) =>
      ReplyIsQuiet(n, rp.(ttl := rp.ttl - 1), now, d);
      QuietSpendsNothing(n, r, d);
    case Deliver(_, Hello(sender, seqno), now, _) =>
      HelloIsQuiet(n, sender, seqno, now, d);
      QuietSpendsNothing(n, r, d);
    case Deliver(_, Rerr(from, unreachable), _, _) =>
      ErrorIsQuiet(n, from, unreachable, d);
      QuietSpendsNothing(n, r, d);
    case PurgeNeighbours(_, now, stuck) =>
      LossIsQuiet(n, Expired(n.neighbours, now), stuck, now, d);
      QuietSpendsNothing(n, r, d);
    case SayHello(_) =>
      SameTableIsQuiet(n, r, d);
      QuietSpendsNothing(n, r, d);
    case PurgeIds(_, _) =>
      SameTableIsQuiet(n, r, d);
      QuietSpendsNothing(n, r, d);
  }

  lemma SameTableIsQuiet(n: Node, r: Result, d: Addr)
    requires r.node.index == n.index && r.node.table == n.table && forall m :: m in r.sent ==> !m.Rreq?
    ensures Quiet(n, r, d)
  {
  }

  lemma HelloIsQuiet(n: Node, sender: Addr, seqno: nat, now: real, d: Addr)
    requires NotUp(RecvHello(n, sender, seqno, now).node, d)
    ensures Quiet(n, RecvHello(n, sender, seqno, now), d)
  {
    hide RecvReply, NeighbourIndex;
    ReplyIsQuiet(HeardNeighbour(n, sender, now), HelloReply(n, sender, seqno), now, d);
  }

  // ---------- runs ----------

  /** From state `a` to state `b`, node `x` has no live route to `d`. */
  ghost predicate NeverUp(nets: seq<Net>, a: nat, b: nat, x: Addr, d: Addr) {
    a <= b < |nets| && forall k :: a <= k <= b ==> x in nets[k].nodes && NotUp(nets[k].nodes[x], d)
  }

  /** How often node `x` gives up on `d` from state `a` to state `b`. */
  ghost function GiveUpsIn(nets: seq<Net>, evs: seq<Event>, a: nat, b: nat, x: Addr, d: Addr): nat
    requires Run(nets, evs) && a <= b <= |evs|
  {
    if a == b then 0
    else GiveUpsIn(nets, evs, a, b - 1, x, d)
         + if evs[b - 1].at == x then GiveUps(nets[b - 1].nodes[x], evs[b - 1], d) else 0
  }

  /** The requests for `d` of node `x` itself that have come on the medium since state `a`. */
  ghost function NewOriginals(nets: seq<Net>, a: nat, b: nat, x: Addr, d: Addr): set<Msg>
    requires a <= b < |nets|
  {
    set m | m in nets[b].msgs && m !in nets[a].msgs && Original(m, x, d)
  }

  /** A node signs the requests it sends. */
  lemma RequestsAreSigned(net: Net, ev: Event)
    requires Inv(net) && Enabled(net, ev)
    ensures forall m :: m in Handle(net.nodes[ev.at], ev).sent && m.Rreq? ==> m.rq.sender == ev.at
  {
    HandleAdvances(net, ev);
    hide Handle, Enabled, EntryStep;
    var r := Handle(net.nodes[ev.at], ev);
    forall m | m in r.sent && m.Rreq?
      ensures m.rq.sender == ev.at
    {
      var a := Advert(m.rq.src, m.rq.sender, m.rq.srcSeqno, m.rq.hopCount);
      assert a in Adverts(m) && Sound(r.node, m);
      assert Exact(r.node, a);
    }
  }

  /** One step: what comes on the medium under the name of `x` is what `x` paid for. */
  lemma StepSpends(nets: seq<Net>, evs: seq<Event>, a: nat, b: nat, x: Addr, d: Addr)
    requires Run(nets, evs) && NeverUp(nets, a, b, x, d) && a < b
    ensures |nets| == |evs| + 1
    ensures var e, e' := EntryOf(nets[b - 1].nodes[x], d), EntryOf(nets[b].nodes[x], d);
            |NewOriginals(nets, a, b, x, d)| + Left(e')
            <= |NewOriginals(nets, a, b - 1, x, d)| + Left(e)
               + 7 * (GiveUpsIn(nets, evs, a, b, x, d) - GiveUpsIn(nets, evs, a, b - 1, x, d))
  {
    RunStep(nets, evs, b - 1);
    RunKeepsInv(nets, evs, b - 1);
    var ev, net := evs[b - 1], nets[b - 1];
    RequestsAreSigned(net, ev);
    var sent := Handle(net.nodes[ev.at], ev).sent;
    var added := if ev.at == x then OriginalsOf(sent, x, d) else {};
    if ev.at == x {
      EventSpends(net.nodes[x], ev, d);
    }
    hide Handle, GiveUps, Left, EntryOf;
    assert NewOriginals(nets, a, b, x, d) <= NewOriginals(nets, a, b - 1, x, d) + added;
    UnionBound(NewOriginals(nets, a, b, x, d), NewOriginals(nets, a, b - 1, x, d), added);
  }

  lemma {:induction false} RunSpends(nets: seq<Net>, evs: seq<Event>, a: nat, b: nat, x: Addr, d: Addr)
    requires Run(nets, evs) && NeverUp(nets, a, b, x, d)
    ensures |nets| == |evs| + 1
    ensures |NewOriginals(nets, a, b, x, d)| + Left(EntryOf(nets[b].nodes[x], d))
            <= Left(EntryOf(nets[a].nodes[x], d)) + 7 * GiveUpsIn(nets, evs, a, b, x, d)
    decreases b
  {
    hide Run, Left, EntryOf;
    if a == b {
      RunLength(nets, evs);
      assert NewOriginals(nets, a, b, x, d) == {};
    } else {
      StepSpends(nets, evs, a, b, x, d);
      hide NewOriginals;
      RunSpends(nets, evs, a, b - 1, x, d);
    }
  }

  lemma RunLength(nets: seq<Net>, evs: seq<Event>)
    requires Run(nets, evs)
    ensures |nets| == |evs| + 1
  {
  }

  /** The bound: while `x` has no live route to `d`, at most seven of its requests for `d` come on the medium for each
  time that it gives up, and seven more; so without giving up at most seven. */
  lemma MediumSeesSeven(nets: seq<Net>, evs: seq<Event>, a: nat, b: nat, x: Addr, d: Addr)
    requires Run(nets, evs) && NeverUp(nets, a, b, x, d)
    ensures |nets| == |evs| + 1
    ensures |NewOriginals(nets, a, b, x, d)| <= 7 + 7 * GiveUpsIn(nets, evs, a, b, x, d)
    ensures GiveUpsIn(nets, evs, a, b, x, d) == 0 ==> |NewOriginals(nets, a, b, x, d)| <= 7
  {
    hide *;
    RunSpends(nets, evs, a, b, x, d);
  }
}
