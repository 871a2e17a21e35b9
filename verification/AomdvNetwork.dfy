/** AOMDV as a distributed system over a medium that may lose, delay, duplicate, reorder and misdeliver. */
module AomdvNetwork {
  import opened Routing
  import opened BufferSpec
  import opened AomdvPaths
  import opened AomdvSpec
  import opened AomdvSafety

  datatype Net = Net(nodes: map<Addr, Node>, msgs: set<Msg>)

  datatype Event =
    | Deliver(at: Addr, msg: Msg, now: real, perHop: Addr -> real)
    | Originate(at: Addr, packet: Packet, now: real, perHop: Addr -> real)
    | SayHello(at: Addr)
    | PurgeNeighbours(at: Addr, now: real, stuck: Addr -> seq<Stuck>)
    | PurgeRoutes(at: Addr, order: seq<Addr>, now: real, perHop: Addr -> real)
    | PurgeIds(at: Addr, now: real)

  ghost predicate Enabled(net: Net, ev: Event) {
    && ev.at in net.nodes
    && (ev.Deliver? ==> ev.msg in net.msgs)
    && (ev.PurgeRoutes? ==> forall d :: d in ev.order ==> d in net.nodes[ev.at].table)
  }

  ghost function Handle(n: Node, ev: Event): Result
    requires ev.PurgeRoutes? ==> forall d :: d in ev.order ==> d in n.table
  {
    match ev
    case Deliver(_, m, now, perHop) => Recv(n, m, now, perHop)
    case Originate(_, p, now, perHop) => RecvData(n, p, now, perHop)
    case SayHello(_) => Result(n, SendHello(n))
    case PurgeNeighbours(_, now, stuck) => NeighboursLost(n, Expired(n.neighbours, now), stuck, now)
    case PurgeRoutes(_, order, now, perHop) => RtPurge(n, order, now, perHop)
    case PurgeIds(_, now) => Result(IdPurge(n, now), [])
  }

  ghost function Apply(net: Net, ev: Event): Net
    requires Enabled(net, ev)
  {
    var r := Handle(net.nodes[ev.at], ev);
    Net(net.nodes[ev.at := r.node], net.msgs + set m | m in r.sent)
  }

  ghost predicate Init(net: Net) {
    net.msgs == {} && forall x :: x in net.nodes ==> exists k, diff :: net.nodes[x] == NewNode(x, k, diff)
  }

  ghost predicate Run(nets: seq<Net>, evs: seq<Event>) {
    && |nets| == |evs| + 1
    && Init(nets[0])
    && forall i :: 0 <= i < |evs| ==> Enabled(nets[i], evs[i]) && nets[i + 1] == Apply(nets[i], evs[i])
  }

  // ---------- the invariant ----------

  /** Everything ever advertised. */
  ghost function Known(msgs: set<Msg>): set<Advert> {
    set m, a | m in msgs && a in Adverts(m) :: a
  }

  /** The sender has said so, and has since moved on to a later number or stuck to the same hop count. */
  predicate Behind(n: Node, a: Advert) {
    if a.dst == n.index then a.hop == 0
    else a.dst in n.table
         && (n.table[a.dst].seqno > a.seqno
             || (n.table[a.dst].seqno == a.seqno && n.table[a.dst].advertised == Finite(a.hop)))
  }

  predicate Backed(nodes: map<Addr, Node>, a: Advert) {
    a.sender in nodes && Behind(nodes[a.sender], a)
  }

  /** Every stored path repeats an advertisement its next hop made under the entry's number. */
  ghost predicate RoutesHeard(n: Node, known: set<Advert>) {
    forall d :: d in n.table ==> PathsHeard(d, n.table[d], known)
  }

  ghost predicate PathsHeard(d: Addr, e: Entry, known: set<Advert>) {
    forall p :: p in e.paths ==> p.hopcount >= 1 && Advert(d, p.nexthop, e.seqno, p.hopcount - 1) in known
  }

  /** About one destination and number, a node only ever advertises one hop count. */
  ghost predicate Consistent(known: set<Advert>) {
    forall a, b :: a in known && b in known && a.dst == b.dst && a.sender == b.sender && a.seqno == b.seqno ==> a.hop == b.hop
  }

  ghost predicate Inv(net: Net) {
    && (forall x :: x in net.nodes ==>
          net.nodes[x].index == x && NodeOk(net.nodes[x]) && RoutesHeard(net.nodes[x], Known(net.msgs)))
    && (forall m :: m in net.msgs ==> Credible(m))
    && (forall a :: a in Known(net.msgs) ==> Backed(net.nodes, a))
    && Consistent(Known(net.msgs))
  }

  lemma InitInv(net: Net)
    requires Init(net)
    ensures Inv(net)
  {
    assert Known(net.msgs) == {};
  }

  lemma HandleAdvances(net: Net, ev: Event)
    requires Inv(net) && Enabled(net, ev)
    ensures var n := net.nodes[ev.at];
            var r := Handle(n, ev);
            Advances(n, r.node, if ev.Deliver? then Adverts(ev.msg) else {}, r.sent)
  {
    hide Advances, Recv, RecvData, NeighboursLost, RtPurge, Sound;
    var n := net.nodes[ev.at];
    match ev
    case Deliver(_, m, now, perHop) => RecvAdvances(n, m, now, perHop);
    case Originate(_, p, now, perHop) => RecvDataAdvances(n, p, now, perHop);
    case SayHello(_) =>
      AdvancesRefl(n, {});
      HelloIsSound(n);
      SentAdvances(n, n, {}, SendHello(n));
    case PurgeNeighbours(_, now, stuck) => NeighboursLostAdvances(n, Expired(n.neighbours, now), stuck, now);
    case PurgeRoutes(_, order, now, perHop) => RtPurgeAdvances(n, order, now, perHop);
    case PurgeIds(_, now) => SameTableAdvances(n, IdPurge(n, now), {});
  }

  lemma HelloIsSound(n: Node)
    requires NodeOk(n)
    ensures forall m :: m in SendHello(n) ==> Sound(n, m)
  {
  }

  // ---------- one step ----------

  lemma BackedPersists(nodes: map<Addr, Node>, at: Addr, n': Node, known: set<Advert>, sent: seq<Msg>, a: Advert)
    requires at in nodes && Advances(nodes[at], n', known, sent) && Backed(nodes, a)
    ensures Backed(nodes[at := n'], a)
  {
    if a.sender == at && a.dst != n'.index {
      assert EntryStep(nodes[at], a.dst, n'.table[a.dst], known);
    }
  }

  lemma RoutesStayHeard(n: Node, n': Node, known: set<Advert>, sent: seq<Msg>, earlier: set<Advert>, later: set<Advert>)
    requires Advances(n, n', known, sent) && RoutesHeard(n, earlier) && known <= later && earlier <= later
    ensures RoutesHeard(n', later)
  {
    forall d | d in n'.table
      ensures PathsHeard(d, n'.table[d], later)
    {
      assert EntryStep(n, d, n'.table[d], known);
      var e, e' := EntryOf(n, d), n'.table[d];
      assert PathsHeard(d, e, earlier);
      forall p | p in e'.paths
        ensures p.hopcount >= 1 && Advert(d, p.nexthop, e'.seqno, p.hopcount - 1) in later
      {
        if e.seqno == e'.seqno && (p.nexthop, p.hopcount) in Links(e) {
          var q :| q in e.paths && q.nexthop == p.nexthop && q.hopcount == p.hopcount;
        }
      }
    }
  }

  /** Two exact advertisements of one node, or an exact one and one still backed, cannot differ. */
  lemma SentIsConsistent(nodes: map<Addr, Node>, n: Node, earlier: set<Advert>, later: set<Advert>)
    requires n.index in nodes && nodes[n.index] == n
    requires Consistent(earlier) && (forall a :: a in earlier ==> Backed(nodes, a))
    requires forall a :: a in later ==> a in earlier || Exact(n, a)
    ensures Consistent(later)
  {
    forall a, b | a in later && b in later && a.dst == b.dst && a.sender == b.sender && a.seqno == b.seqno
      ensures a.hop == b.hop
    {
      if a in earlier && b in earlier {
      } else if a in earlier {
        assert Exact(n, b) && Backed(nodes, a);
      } else if b in earlier {
        assert Exact(n, a) && Backed(nodes, b);
      } else {
        assert Exact(n, a) && Exact(n, b);
      }
    }
  }

  lemma SentIsCredible(n: Node, m: Msg)
    requires Sound(n, m)
    ensures Credible(m)
    ensures forall a :: a in Adverts(m) ==> Exact(n, a)
  {
    match m
    case Rreq(rq) => assert Advert(rq.src, rq.sender, rq.srcSeqno, rq.hopCount) in Adverts(m);
    case Rrep(rp) => assert Advert(rp.dst, rp.sender, rp.dstSeqno, rp.hopCount) in Adverts(m);
    case Hello(sender, seqno) => assert Advert(sender, sender, seqno, 0) in Adverts(m);
    case _ =>
  }

  lemma KnownGrows(msgs: set<Msg>, sent: seq<Msg>, n: Node)
    requires forall m :: m in sent ==> Sound(n, m)
    ensures Known(msgs) <= Known(msgs + set m | m in sent)
    ensures forall a :: a in Known(msgs + set m | m in sent) ==> a in Known(msgs) || Exact(n, a)
    ensures forall m :: m in msgs + (set m | m in sent) ==> m in msgs || Credible(m)
  {
    forall m | m in sent
      ensures Credible(m) && forall a :: a in Adverts(m) ==> Exact(n, a)
    {
      SentIsCredible(n, m);
    }
  }

  lemma AdvancesSends(n: Node, n': Node, known: set<Advert>, sent: seq<Msg>)
    requires Advances(n, n', known, sent)
    ensures n'.index == n.index && NodeOk(n') && forall m :: m in sent ==> Sound(n', m)
  {
    NodeOkAfter(n, n', known, sent);
  }

  /** Every step keeps the invariant. */
  lemma StepKeepsInv(net: Net, ev: Event)
    requires Inv(net) && Enabled(net, ev)
    ensures Inv(Apply(net, ev))
  {
    var net' := Apply(net, ev);
    var n, r := net.nodes[ev.at], Handle(net.nodes[ev.at], ev);
    var heard := if ev.Deliver? then Adverts(ev.msg) else {};
    var earlier, later := Known(net.msgs), Known(net'.msgs);
    HandleAdvances(net, ev);
    assert heard <= earlier;
    hide Handle, Advances, NodeOk, RoutesHeard, Consistent, Backed, Exact, Sound, Known, Credible;
    AdvancesSends(n, r.node, heard, r.sent);
    KnownGrows(net.msgs, r.sent, r.node);
    forall a | a in later
      ensures Backed(net'.nodes, a)
    {
      if a in earlier {
        BackedPersists(net.nodes, ev.at, r.node, heard, r.sent, a);
      } else {
        ExactIsBacked(net'.nodes, r.node, a);
      }
    }
    forall x | x in net'.nodes
      ensures RoutesHeard(net'.nodes[x], later)
    {
      if x == ev.at {
        RoutesStayHeard(n, r.node, heard, r.sent, earlier, later);
      } else {
        RoutesHeardMore(net.nodes[x], earlier, later);
      }
    }
    SentIsConsistent(net'.nodes, r.node, earlier, later);
  }

  lemma ExactIsBacked(nodes: map<Addr, Node>, n: Node, a: Advert)
    requires n.index in nodes && nodes[n.index] == n && Exact(n, a)
    ensures Backed(nodes, a)
  {
  }

  lemma RoutesHeardMore(n: Node, earlier: set<Advert>, later: set<Advert>)
    requires RoutesHeard(n, earlier) && earlier <= later
    ensures RoutesHeard(n, later)
  {
    forall d | d in n.table
      ensures PathsHeard(d, n.table[d], later)
    {
      assert PathsHeard(d, n.table[d], earlier);
    }
  }

  lemma {:induction false} RunKeepsInv(nets: seq<Net>, evs: seq<Event>, i: nat)
    requires Run(nets, evs) && i < |nets|
    ensures Inv(nets[i])
  {
    if i == 0 {
      InitInv(nets[0]);
    } else {
      RunKeepsInv(nets, evs, i - 1);
      StepKeepsInv(nets[i - 1], evs[i - 1]);
    }
  }

  // ---------- what follows in every run ----------

  /** Some stored path of `x` towards `d` goes through `y`. */
  ghost predicate HopTowards(net: Net, d: Addr, x: Addr, y: Addr) {
    x in net.nodes && d in net.nodes[x].table && exists p :: p in net.nodes[x].table[d].paths && p.nexthop == y
  }

  ghost predicate Walk(net: Net, d: Addr, walk: seq<Addr>) {
    && |walk| > 0 && walk[0] in net.nodes
    && forall i :: 0 <= i < |walk| - 1 ==> walk[i] != d && HopTowards(net, d, walk[i], walk[i + 1])
  }

  /** Whichever stored paths are chosen along the way, a walk never visits a node twice. */
  ghost predicate LoopFree(net: Net) {
    forall d: Addr, walk: seq<Addr> :: Walk(net, d, walk) ==> Distinct(walk) && |walk| <= |net.nodes|
  }

  /** A stored path through a node other than the destination leads to a strictly fresher entry. */
  lemma NextHopIsFresher(net: Net, d: Addr, x: Addr, y: Addr)
    requires Inv(net) && HopTowards(net, d, x, y)
    ensures y in net.nodes
    ensures y != d ==> d in net.nodes[y].table
                       && net.nodes[y].table[d].Freshness().Fresher(net.nodes[x].table[d].Freshness())
  {
    var e := net.nodes[x].table[d];
    assert EntryOk(e, net.nodes[x].maxPaths);
    var p :| p in e.paths && p.nexthop == y;
    assert RoutesHeard(net.nodes[x], Known(net.msgs));
    assert PathsHeard(d, e, Known(net.msgs));
    var a := Advert(d, y, e.seqno, p.hopcount - 1);
    assert a in Known(net.msgs);
    hide Known;
    assert Backed(net.nodes, a);
  }

  lemma WalkIsDistinct(net: Net, d: Addr, walk: seq<Addr>)
    requires Inv(net) && Walk(net, d, walk)
    ensures Distinct(walk) && |walk| <= |net.nodes|
  {
    var rank := map x | x in net.nodes :: EntryOf(net.nodes[x], d).Freshness();
    forall i | 0 < i < |walk|
      ensures walk[i] in net.nodes
      ensures walk[i] != d ==> rank[walk[i]].Fresher(rank[walk[i - 1]])
    {
      assert HopTowards(net, d, walk[i - 1], walk[i - 1 + 1]);
      NextHopIsFresher(net, d, walk[i - 1], walk[i]);
    }
    hide Inv, HopTowards;
    RisingWalkIsDistinct(walk, d, rank);
    DistinctBound(walk, net.nodes.Keys);
  }

  /** AOMDV multipath loop freedom. */
  lemma LoopFreedom(nets: seq<Net>, evs: seq<Event>, i: nat)
    requires Run(nets, evs) && i < |nets|
    ensures LoopFree(nets[i])
  {
    RunKeepsInv(nets, evs, i);
    forall d: Addr, walk: seq<Addr> | Walk(nets[i], d, walk)
      ensures Distinct(walk) && |walk| <= |nets[i].nodes|
    {
      WalkIsDistinct(nets[i], d, walk);
    }
  }

  /** The path sets in every reachable state; deleting by next hop then removes every path through it. */
  lemma PathSets(nets: seq<Net>, evs: seq<Event>, i: nat, x: Addr, d: Addr, id: Addr)
    requires Run(nets, evs) && i < |nets|
    requires x in nets[i].nodes && d in nets[i].nodes[x].table
    ensures var n := nets[i].nodes[x];
            var e := n.table[d];
            && Disjoint(e.paths)
            && |e.paths| <= Max(1, n.maxPaths)
            && (e.flags == Up <==> e.paths != [])
            && (forall p :: p in e.paths ==> Finite(p.hopcount).AtMost(e.advertised))
            && (forall p :: p in Without(e.paths, id) <==> p in e.paths && p.nexthop != id)
  {
    RunKeepsInv(nets, evs, i);
    var n := nets[i].nodes[x];
    assert EntryOk(n.table[d], n.maxPaths);
    WithoutRemovesAll(n.table[d].paths, id);
  }

  /** The parity discipline: up exactly with an even positive number and some path, otherwise an odd number or none. */
  lemma StateDiscipline(nets: seq<Net>, evs: seq<Event>, i: nat, x: Addr, d: Addr)
    requires Run(nets, evs) && i < |nets|
    requires x in nets[i].nodes && d in nets[i].nodes[x].table
    ensures var e := nets[i].nodes[x].table[d];
            && (e.flags == Up <==> e.seqno % 2 == 0 && e.seqno > 0)
            && (e.flags == Down <==> e.seqno % 2 == 1 || e.seqno == 0)
            && (e.flags == Down ==> e.advertised == Infinity)
  {
    RunKeepsInv(nets, evs, i);
    assert EntryOk(nets[i].nodes[x].table[d], nets[i].nodes[x].maxPaths);
  }

  predicate NoneGoesBack(net: Net, net': Net, x: Addr, d: Addr) {
    x in net.nodes ==> x in net'.nodes && Evolves(EntryOf(net.nodes[x], d), EntryOf(net'.nodes[x], d))
  }

  lemma StepGoesOn(net: Net, ev: Event, x: Addr, d: Addr)
    requires Inv(net) && Enabled(net, ev)
    ensures NoneGoesBack(net, Apply(net, ev), x, d)
  {
    HandleAdvances(net, ev);
    var n, n' := net.nodes[ev.at], Handle(net.nodes[ev.at], ev).node;
    hide Handle, Inv, NodeOk, Sound, LinksKnown;
    if x == ev.at && d in n'.table {
      assert EntryStep(n, d, n'.table[d], if ev.Deliver? then Adverts(ev.msg) else {});
    }
  }

  lemma GoesOnTrans(net0: Net, net1: Net, net2: Net, x: Addr, d: Addr)
    requires NoneGoesBack(net0, net1, x, d) && NoneGoesBack(net1, net2, x, d)
    ensures NoneGoesBack(net0, net2, x, d)
  {
  }

  /** Between any two moments of a run, a node's number for a destination never goes back, and the hop count it
  advertises under one number, once fixed, never changes. */
  lemma {:induction false} AdvertisedIsFixed(nets: seq<Net>, evs: seq<Event>, i: nat, j: nat, x: Addr, d: Addr)
    requires Run(nets, evs) && i <= j < |nets|
    ensures NoneGoesBack(nets[i], nets[j], x, d)
    decreases j - i
  {
    hide Inv, NoneGoesBack, Apply;
    if i < j {
      RunStep(nets, evs, j - 1);
      RunKeepsInv(nets, evs, j - 1);
      hide Run, Enabled;
      AdvertisedIsFixed(nets, evs, i, j - 1, x, d);
      StepGoesOn(nets[j - 1], evs[j - 1], x, d);
      GoesOnTrans(nets[i], nets[j - 1], nets[j], x, d);
    } else {
      NoneGoesBackRefl(nets[i], x, d);
    }
  }

  lemma RunStep(nets: seq<Net>, evs: seq<Event>, i: nat)
    requires Run(nets, evs) && i < |evs|
    ensures |nets| == |evs| + 1 && Enabled(nets[i], evs[i]) && nets[i + 1] == Apply(nets[i], evs[i])
  {
    hide Enabled, Apply;
  }

  lemma NoneGoesBackRefl(net: Net, x: Addr, d: Addr)
    ensures NoneGoesBack(net, net, x, d)
  {
  }

  // ---------- assertions ----------

  /** recvRequest and recvReply: the entry is up, and a path already stored has the length just heard. */
  ghost predicate MeetsStored(e: Entry, sender: Addr, lasthop: Addr, seqno: nat, hopCount: nat) {
    e.seqno == seqno && Finite(hopCount).Below(e.advertised) ==>
      && e.flags == Up
      && var i := Between(e.paths, sender, lasthop); i < |e.paths| ==> e.paths[i].hopcount == hopCount + 1
  }

  /** recvRequest: the route from which a reply is made has an even number. */
  predicate EvenBeforeReply(n: Node, rq: Request) {
    rq.dst in n.table && n.table[rq.dst].flags == Up && n.table[rq.dst].seqno >= rq.dstSeqno ==>
      n.table[rq.dst].seqno % 2 == 0
  }

  /** forward, as recvReply calls it: the route along which the reply is sent on is up. */
  ghost predicate PassesOnUp(n: Node, rp: Reply, now: real) {
    rp.dst in n.table && PassReply(n, rp, now).sent != [] ==>
      rp.to in PassReply(n, rp, now).node.table && PassReply(n, rp, now).node.table[rp.to].flags == Up
  }

  /** recvReply, also when a hello is taken for one. */
  ghost predicate ReplyAsserts(n: Node, rp: Reply, now: real) {
    rp.dst != n.index ==>
      && MeetsStored(EntryOf(n, rp.dst), rp.sender, rp.firstHop, rp.dstSeqno, rp.hopCount)
      && PassesOnUp(Refresh(SetEntry(n, rp.dst, ForwardRoute(n, EntryOf(n, rp.dst), rp, now).0), rp.dst, now).node, rp, now)
  }

  /** handle_link_failure: every route that loses a path has an even number. */
  ghost predicate FailureAsserts(n: Node, id: Addr) {
    forall d :: d in n.table && Uses(n.table[d], id) ==> n.table[d].seqno % 2 == 0
  }

  /** The same for each neighbour lost in turn, and its own even number. */
  ghost predicate LossAsserts(n: Node, ids: seq<Addr>, stuck: Addr -> seq<Stuck>, now: real)
    decreases |ids|
  {
    ids != [] ==>
      && NeighbourRemoved(n, ids[0]).seqno % 2 == 0
      && FailureAsserts(NeighbourRemoved(n, ids[0]), ids[0])
      && LossAsserts(NeighbourLost(n, ids[0], stuck(ids[0]), now).node, ids[1..], stuck, now)
  }

  ghost predicate ReceiptAsserts(n: Node, m: Msg, now: real) {
    match m
    case Rreq(rq) => rq.src != n.index ==>
                       && MeetsStored(EntryOf(n, rq.src), rq.sender, Stamped(n, rq).firstHop, rq.srcSeqno, rq.hopCount)
                       && EvenBeforeReply(TakeRequest(n, rq.(ttl := rq.ttl - 1), now).0.node, rq)
    case Rrep(rp) => ReplyAsserts(n, rp.(ttl := rp.ttl - 1), now)
    case Hello(sender, seqno) => ReplyAsserts(HeardNeighbour(n, sender, now), HelloReply(n, sender, seqno), now)
    case Rerr(from, unreachable) =>
      forall d :: d in n.table && d in unreachable && Hit(n.table[d], from, unreachable[d]) ==> n.table[d].seqno % 2 == 0
    case Data(_, _) => true
  }

  /** Every assertion about stored paths, numbers and live routes that node `n` meets while it handles `ev`. */
  ghost predicate AssertsHold(n: Node, ev: Event) {
    match ev
    case Deliver(_, m, now, _) => ReceiptAsserts(n, m, now)
    case PurgeNeighbours(_, now, stuck) => LossAsserts(n, Expired(n.neighbours, now), stuck, now)
    case _ => true
  }

  lemma StoredPathsAgree(net: Net, x: Addr, a: Advert, lasthop: Addr)
    requires Inv(net) && x in net.nodes && a in Known(net.msgs) && LiveSeqno(a.seqno)
    ensures MeetsStored(EntryOf(net.nodes[x], a.dst), a.sender, lasthop, a.seqno, a.hop)
  {
    var e := EntryOf(net.nodes[x], a.dst);
    if e.seqno == a.seqno && Finite(a.hop).Below(e.advertised) {
      assert a.dst in net.nodes[x].table;
      assert EntryOk(e, net.nodes[x].maxPaths);
      var i := Between(e.paths, a.sender, lasthop);
      if i < |e.paths| {
        assert e.paths[i] in e.paths;
        assert PathsHeard(a.dst, e, Known(net.msgs));
        var b := Advert(a.dst, a.sender, e.seqno, e.paths[i].hopcount - 1);
        assert b in Known(net.msgs);
        hide Known;
        assert a.hop == b.hop;
      }
    }
  }

  lemma PassReplyStaysUp(n: Node, rp: Reply, now: real)
    ensures PassesOnUp(n, rp, now)
  {
  }

  lemma {:induction false} LossAssertsHold(n: Node, ids: seq<Addr>, stuck: Addr -> seq<Stuck>, now: real)
    requires NodeOk(n)
    ensures LossAsserts(n, ids, stuck, now)
    decreases |ids|
  {
    if ids != [] {
      NeighbourRemovedAdvances(n, ids[0]);
      NeighbourLostAdvances(n, ids[0], stuck(ids[0]), now);
      FailureAssertsHold(NeighbourRemoved(n, ids[0]), ids[0]);
      hide NeighbourLost, Advances;
      LossAssertsHold(NeighbourLost(n, ids[0], stuck(ids[0]), now).node, ids[1..], stuck, now);
    }
  }

  lemma FailureAssertsHold(n: Node, id: Addr)
    requires NodeOk(n)
    ensures FailureAsserts(n, id)
  {
    forall d | d in n.table && Uses(n.table[d], id)
      ensures n.table[d].seqno % 2 == 0
    {
      assert EntryOk(n.table[d], n.maxPaths);
    }
  }

  lemma MessageFacts(net: Net, x: Addr, m: Msg)
    requires Inv(net) && x in net.nodes && m in net.msgs
    ensures NodeOk(net.nodes[x]) && Credible(m) && forall a :: a in Adverts(m) ==> a in Known(net.msgs)
  {
  }

  lemma RequestAssertsHold(net: Net, x: Addr, rq: Request, now: real)
    requires Inv(net) && x in net.nodes && Rreq(rq) in net.msgs
    ensures ReceiptAsserts(net.nodes[x], Rreq(rq), now)
  {
    hide TakeRequest, MeetsStored, Known, Advances, Inv, NodeOk, EvenBeforeReply;
    var n := net.nodes[x];
    MessageFacts(net, x, Rreq(rq));
    var a := Advert(rq.src, rq.sender, rq.srcSeqno, rq.hopCount);
    assert a in Adverts(Rreq(rq));
    hide Adverts;
    StoredPathsAgree(net, x, a, Stamped(n, rq).firstHop);
    if rq.src != n.index {
      var rq' := rq.(ttl := rq.ttl - 1);
      TakeRequestAdvances(n, rq', now);
      EvenWhenOk(TakeRequest(n, rq', now).0.node, rq);
    }
  }

  lemma EvenWhenOk(n: Node, rq: Request)
    requires NodeOk(n)
    ensures EvenBeforeReply(n, rq)
  {
    if rq.dst in n.table {
      assert EntryOk(n.table[rq.dst], n.maxPaths);
    }
  }

  lemma ReplyAssertsHold(net: Net, x: Addr, n: Node, rp: Reply, now: real)
    requires Inv(net) && x in net.nodes && n.index == net.nodes[x].index && n.table == net.nodes[x].table
    requires Advert(rp.dst, rp.sender, rp.dstSeqno, rp.hopCount) in Known(net.msgs) && LiveSeqno(rp.dstSeqno)
    ensures ReplyAsserts(n, rp, now)
  {
    hide MeetsStored, Known, PassesOnUp, Inv, Refresh, ForwardRoute;
    StoredPathsAgree(net, x, Advert(rp.dst, rp.sender, rp.dstSeqno, rp.hopCount), rp.firstHop);
    PassReplyStaysUp(Refresh(SetEntry(n, rp.dst, ForwardRoute(n, EntryOf(n, rp.dst), rp, now).0), rp.dst, now).node, rp, now);
  }

  lemma ReceiptAssertsHold(net: Net, x: Addr, m: Msg, now: real)
    requires Inv(net) && x in net.nodes && m in net.msgs
    ensures ReceiptAsserts(net.nodes[x], m, now)
  {
    hide ReplyAsserts, Known, Inv, MeetsStored, EvenBeforeReply, TakeRequest;
    var n := net.nodes[x];
    MessageFacts(net, x, m);
    match m
    case Rreq(rq) => RequestAssertsHold(net, x, rq, now);
    case Rrep(rp) =>
      assert Advert(rp.dst, rp.sender, rp.dstSeqno, rp.hopCount) in Adverts(m);
      ReplyAssertsHold(net, x, n, rp.(ttl := rp.ttl - 1), now);
    case Hello(sender, seqno) =>
      assert Advert(sender, sender, seqno, 0) in Adverts(m);
      ReplyAssertsHold(net, x, HeardNeighbour(n, sender, now), HelloReply(n, sender, seqno), now);
    case Rerr(from, unreachable) =>
      forall d | d in n.table && d in unreachable && Hit(n.table[d], from, unreachable[d])
        ensures n.table[d].seqno % 2 == 0
      {
        assert EntryOk(n.table[d], n.maxPaths);
      }
    case Data(_, _) =>
  }

  /** In every run, whatever the event, none of the assertions can fail. */
  lemma AssertsNeverFail(nets: seq<Net>, evs: seq<Event>, i: nat)
    requires Run(nets, evs) && i < |evs|
    ensures AssertsHold(nets[i].nodes[evs[i].at], evs[i])
  {
    RunKeepsInv(nets, evs, i);
    RunStep(nets, evs, i);
    var net, x := nets[i], evs[i].at;
    assert NodeOk(net.nodes[x]);
    hide Run, ReceiptAsserts, LossAsserts, NodeOk, Inv;
    match evs[i]
    case Deliver(_, m, now, _) => ReceiptAssertsHold(net, x, m, now);
    case PurgeNeighbours(_, now, stuck) => LossAssertsHold(net.nodes[x], Expired(net.nodes[x].neighbours, now), stuck, now);
    case _ =>
  }
}
