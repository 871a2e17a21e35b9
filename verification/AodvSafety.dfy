/** What one AODV handler keeps: freshness never drops, routes are only ever learned from
advertisements heard, and whatever a node sends about a destination is backed by its own fresher route. */
module AodvSafety {
  import opened Routing
  import opened BufferSpec
  import opened RingSearch
  import opened AodvSpec

  /** What a request or a reply says about a route: `sender` reaches `dst` at this rank less one hop. */
  datatype Advert = Advert(dst: Addr, sender: Addr, rank: Rank)

  /** A request advertises its source, a reply its destination. */
  function Adverts(m: Msg): set<Advert> {
    match m
    case Rreq(rq) => {Advert(rq.src, rq.sender, Rank(rq.srcSeqno, Finite(rq.hopCount)))}
    case Rrep(rp) => {Advert(rp.dst, rp.sender, Rank(rp.dstSeqno, Finite(rp.hopCount)))}
    case _ => {}
  }

  /** The parity discipline of a table entry. */
  predicate EntryOk(e: Entry) {
    && (e.flags == Down <==> e.hops.Infinity?)
    && (e.hops.Finite? ==> LiveSeqno(e.seqno))
    && (e.hops.Infinity? ==> DeadSeqno(e.seqno))
  }

  ghost predicate NodeOk(n: Node) {
    && LiveSeqno(n.seqno)
    && forall d :: d in n.table ==> EntryOk(n.table[d])
  }

  /** The node's own table stands behind an advertisement it makes. */
  predicate Backed(n: Node, a: Advert) {
    a.dst == n.index || (a.dst in n.table && n.table[a.dst].Freshness().Fresher(a.rank))
  }

  /** A message as node `n` may send it. */
  ghost predicate Sound(n: Node, m: Msg) {
    && (forall a :: a in Adverts(m) ==> a.sender == n.index && Backed(n, a) && LiveSeqno(a.rank.seqno))
    && (m.Rerr? ==> forall d :: d in m.unreachable ==> DeadSeqno(m.unreachable[d]))
  }

  predicate Inherited(n: Node, d: Addr, e: Entry) {
    d in n.table && n.table[d].Freshness() == e.Freshness() && n.table[d].nexthop == e.nexthop
  }

  /** The common shape of every handler: from `n` to `n'`, having heard `known` and sent `sent`. */
  ghost predicate Advances(n: Node, n': Node, known: set<Advert>, sent: seq<Msg>) {
    && n'.index == n.index
    && NodeOk(n')
    && (forall d :: d in n.table ==> d in n'.table && n'.table[d].Freshness().NotStaler(n.table[d].Freshness()))
    && (forall d :: d in n'.table && n'.table[d].hops.Finite? ==>
          Inherited(n, d, n'.table[d]) || Advert(d, n'.table[d].nexthop, n'.table[d].Freshness()) in known)
    && (forall i :: 0 <= i < |sent| ==> Sound(n', sent[i]))
  }

  lemma AdvancesRefl(n: Node, known: set<Advert>)
    requires NodeOk(n)
    ensures Advances(n, n, known, [])
  {
  }

  lemma AdvancesTrans(n: Node, n1: Node, n2: Node, known: set<Advert>, sent1: seq<Msg>, sent2: seq<Msg>)
    requires Advances(n, n1, known, sent1) && Advances(n1, n2, known, sent2)
    ensures Advances(n, n2, known, sent1 + sent2)
  {
    forall d | d in n.table
      ensures d in n2.table && n2.table[d].Freshness().NotStaler(n.table[d].Freshness())
    {
      assert n1.table[d].Freshness().NotStaler(n.table[d].Freshness());
      assert n2.table[d].Freshness().NotStaler(n1.table[d].Freshness());
    }
    forall d | d in n2.table && n2.table[d].hops.Finite?
      ensures Inherited(n, d, n2.table[d]) || Advert(d, n2.table[d].nexthop, n2.table[d].Freshness()) in known
    {
      if Inherited(n1, d, n2.table[d]) {
        assert n1.table[d].hops.Finite?;
      }
    }
    forall i | 0 <= i < |sent1|
      ensures Sound(n2, sent1[i])
    {
      SoundPersists(n1, n2, known, sent2, sent1[i]);
    }
    forall i | 0 <= i < |sent1 + sent2|
      ensures Sound(n2, (sent1 + sent2)[i])
    {
      if i >= |sent1| {
        assert (sent1 + sent2)[i] == sent2[i - |sent1|];
      }
    }
  }

  /** What a node has said stays backed as its table moves on. */
  lemma SoundPersists(n: Node, n': Node, known: set<Advert>, sent: seq<Msg>, m: Msg)
    requires Advances(n, n', known, sent) && Sound(n, m)
    ensures Sound(n', m)
  {
    forall a | a in Adverts(m)
      ensures Backed(n', a)
    {
      assert Backed(n, a);
      if a.dst != n.index {
        assert n'.table[a.dst].Freshness().NotStaler(n.table[a.dst].Freshness());
      }
    }
  }

  /** Rewriting one entry is an advance when the entry gets no staler and a live route is inherited or heard of. */
  lemma OneEntryAdvances(n: Node, n': Node, d: Addr, e: Entry, known: set<Advert>)
    requires NodeOk(n) && EntryOk(e) && LiveSeqno(n'.seqno)
    requires n'.index == n.index && n'.table == n.table[d := e]
    requires d in n.table ==> e.Freshness().NotStaler(n.table[d].Freshness())
    requires e.hops.Finite? ==> Inherited(n, d, e) || Advert(d, e.nexthop, e.Freshness()) in known
    ensures Advances(n, n', known, [])
  {
  }

  /** Rewriting every entry, each on its own, is an advance when each gets no staler and keeps or loses its route. */
  lemma EveryEntryAdvances(n: Node, n': Node, known: set<Advert>)
    requires NodeOk(n') && n'.index == n.index && n'.table.Keys == n.table.Keys
    requires forall d :: d in n.table ==> n'.table[d].Freshness().NotStaler(n.table[d].Freshness())
    requires forall d :: d in n.table && n'.table[d].hops.Finite? ==> Inherited(n, d, n'.table[d])
    ensures Advances(n, n', known, [])
  {
  }

  lemma SentAdvances(n: Node, n': Node, known: set<Advert>, sent: seq<Msg>)
    requires Advances(n, n', known, [])
    requires forall m :: m in sent ==> Sound(n', m)
    ensures Advances(n, n', known, sent)
  {
  }

  lemma {:induction false} HeldAreFor(q: seq<Buffered>, d: Addr)
    ensures forall p :: p in Held(q, d) ==> p.dst == d
  {
    if q != [] {
      HeldAreFor(q[1..], d);
    }
  }

  lemma ReleaseAdvances(n: Node, d: Addr, now: real, known: set<Advert>)
    requires NodeOk(n) && d in n.table
    ensures Advances(n, Release(n, d, now).node, known, Release(n, d, now).sent)
  {
    var r := Release(n, d, now);
    var e := Released(n.table[d], n.index, Held(Purged(n.buffer, now), d), now).0;
    OneEntryAdvances(n, r.node, d, e, known);
    SentAdvances(n, r.node, known, r.sent);
  }

  lemma SendRequestAdvances(n: Node, d: Addr, now: real, perHop: Addr -> real, known: set<Advert>)
    requires NodeOk(n) && d in n.table
    ensures Advances(n, SendRequest(n, d, now, perHop).node, known, SendRequest(n, d, now, perHop).sent)
  {
    var r := SendRequest(n, d, now, perHop);
    OneEntryAdvances(n, r.node, d, r.node.table[d], known);
    SentAdvances(n, r.node, known, r.sent);
  }

  lemma ReverseRouteAdvances(n: Node, rq: Request, now: real)
    requires NodeOk(n) && LiveSeqno(rq.srcSeqno)
    ensures Advances(n, ReverseRoute(n, rq, now).node, Adverts(Rreq(rq)), ReverseRoute(n, rq, now).sent)
    ensures rq.src in ReverseRoute(n, rq, now).node.table
    ensures rq.src != n.index ==>
              ReverseRoute(n, rq, now).node.table[rq.src].Freshness().NotStaler(Rank(rq.srcSeqno, Finite(rq.hopCount)))
  {
    var known := Adverts(Rreq(rq));
    var n1 := n.(heard := [Broadcast(rq.src, rq.bcastId, now + BCAST_ID_SAVE)] + n.heard);
    var e := EntryOf(n, rq.src);
    var e1 := e.(expire := MaxReal(e.expire, now + REV_ROUTE_LIFE));
    if Rank(rq.srcSeqno, Finite(rq.hopCount)).Fresher(e1.Freshness()) {
      var e2 := Updated(e1, rq.srcSeqno, rq.hopCount, rq.sender, e1.expire);
      var e3 := if e2.reqTimeout > 0.0
                then e2.(reqCnt := 0, reqTimeout := 0.0, reqLastTtl := rq.hopCount, expire := now + ACTIVE_ROUTE_TIMEOUT)
                else e2;
      var n2 := SetEntry(n1, rq.src, e3);
      OneEntryAdvances(n, n2, rq.src, e3, known);
      ReleaseAdvances(n2, rq.src, now, known);
      AdvancesTrans(n, n2, Release(n2, rq.src, now).node, known, [], Release(n2, rq.src, now).sent);
      assert [] + Release(n2, rq.src, now).sent == Release(n2, rq.src, now).sent;
    } else {
      OneEntryAdvances(n, SetEntry(n1, rq.src, e1), rq.src, e1, known);
    }
  }

  /** Adding a precursor changes nothing a route decision looks at. */
  lemma AddPrecursorAdvances(n: Node, d: Addr, id: Addr, known: set<Advert>)
    requires NodeOk(n) && d in n.table
    ensures Advances(n, AddPrecursor(n, d, id), known, [])
  {
    OneEntryAdvances(n, AddPrecursor(n, d, id), d, AddPrecursor(n, d, id).table[d], known);
  }

  lemma AnswerAdvances(n: Node, rq: Request, now: real, known: set<Advert>)
    requires NodeOk(n) && rq.src in n.table && LiveSeqno(rq.srcSeqno)
    requires rq.src != n.index
    requires n.table[rq.src].Freshness().NotStaler(Rank(rq.srcSeqno, Finite(rq.hopCount)))
    ensures Advances(n, Answer(n, rq, now).node, known, Answer(n, rq, now).sent)
  {
    var r := Answer(n, rq, now);
    if rq.dst != n.index && CanReply(n, rq) {
      var e := n.table[rq.dst];
      var reply := ReplyTo(n, rq, e.hops.n + 1, e.seqno, Seconds(e.expire - now));
      var n1 := AddPrecursor(n, rq.dst, n.table[rq.src].nexthop);
      AddPrecursorAdvances(n, rq.dst, n.table[rq.src].nexthop, known);
      AddPrecursorAdvances(n1, rq.src, n1.table[rq.dst].nexthop, known);
      assert Sound(n1, reply);
      SentAdvances(n, n1, known, [reply]);
      AdvancesTrans(n, n1, r.node, known, [reply], []);
      assert [reply] + [] == [reply];
    } else {
      assert Advances(n, r.node, known, []);
      assert forall i :: 0 <= i < |r.sent| ==> Sound(r.node, r.sent[i]);
    }
  }

  lemma RecvRequestAdvances(n: Node, rq: Request, now: real)
    requires NodeOk(n) && LiveSeqno(rq.srcSeqno)
    ensures Advances(n, RecvRequest(n, rq, now).node, Adverts(Rreq(rq)), RecvRequest(n, rq, now).sent)
  {
    if rq.src != n.index && !Heard(n, rq.src, rq.bcastId) {
      var r1 := ReverseRoute(n, rq, now);
      ReverseRouteAdvances(n, rq, now);
      AnswerAdvances(r1.node, rq, now, Adverts(Rreq(rq)));
      var r2 := Answer(r1.node, rq, now);
      AdvancesTrans(n, r1.node, r2.node, Adverts(Rreq(rq)), r1.sent, r2.sent);
    }
  }

  lemma ForwardRouteAdvances(n: Node, rp: Reply, now: real)
    requires NodeOk(n) && LiveSeqno(rp.dstSeqno)
    requires Rank(rp.dstSeqno, Finite(rp.hopCount)).Fresher(EntryOf(n, rp.dst).Freshness())
    ensures Advances(n, ForwardRoute(n, rp, now).node, Adverts(Rrep(rp)), ForwardRoute(n, rp, now).sent)
    ensures rp.dst in ForwardRoute(n, rp, now).node.table
    ensures ForwardRoute(n, rp, now).node.table[rp.dst].Freshness() == Rank(rp.dstSeqno, Finite(rp.hopCount))
  {
    var known := Adverts(Rrep(rp));
    var e := Updated(EntryOf(n, rp.dst), rp.dstSeqno, rp.hopCount, rp.sender, now + (rp.lifetime as real));
    var e1 := e.(reqCnt := 0, reqTimeout := 0.0, reqLastTtl := rp.hopCount);
    var n1 := SetEntry(n, rp.dst, e1);
    OneEntryAdvances(n, n1, rp.dst, e1, known);
    ReleaseAdvances(n1, rp.dst, now, known);
    AdvancesTrans(n, n1, Release(n1, rp.dst, now).node, known, [], Release(n1, rp.dst, now).sent);
    assert [] + Release(n1, rp.dst, now).sent == Release(n1, rp.dst, now).sent;
  }

  lemma PassReplyAdvances(n: Node, rp: Reply, now: real, known: set<Advert>)
    requires NodeOk(n) && rp.dst in n.table && LiveSeqno(rp.dstSeqno)
    requires n.table[rp.dst].Freshness() == Rank(rp.dstSeqno, Finite(rp.hopCount))
    ensures Advances(n, PassReply(n, rp, now).node, known, PassReply(n, rp, now).sent)
  {
    if rp.to in n.table && n.table[rp.to].hops.Finite? {
      var hop := n.table[rp.to].nexthop;
      var n1 := if rp.ttl == 0 then n
                else SetEntry(n, rp.to, n.table[rp.to].(expire := now + ACTIVE_ROUTE_TIMEOUT));
      OneEntryAdvances(n, n1, rp.to, n1.table[rp.to], known);
      AddPrecursorAdvances(n1, rp.dst, hop, known);
      AdvancesTrans(n, n1, AddPrecursor(n1, rp.dst, hop), known, [], []);
      SentAdvances(n, PassReply(n, rp, now).node, known, PassReply(n, rp, now).sent);
    }
  }

  lemma RecvReplyAdvances(n: Node, rp: Reply, now: real)
    requires NodeOk(n) && LiveSeqno(rp.dstSeqno)
    ensures Advances(n, RecvReply(n, rp, now).node, Adverts(Rrep(rp)), RecvReply(n, rp, now).sent)
  {
    if Rank(rp.dstSeqno, Finite(rp.hopCount)).Fresher(EntryOf(n, rp.dst).Freshness()) {
      var r1 := ForwardRoute(n, rp, now);
      ForwardRouteAdvances(n, rp, now);
      if rp.to != n.index {
        PassReplyAdvances(r1.node, rp, now, Adverts(Rrep(rp)));
        var r2 := PassReply(r1.node, rp, now);
        AdvancesTrans(n, r1.node, r2.node, Adverts(Rrep(rp)), r1.sent, r2.sent);
      }
    } else {
      OneEntryAdvances(n, SetEntry(n, rp.dst, EntryOf(n, rp.dst)), rp.dst, EntryOf(n, rp.dst), Adverts(Rrep(rp)));
    }
  }

  lemma ErroredIsFresher(n: Node, from: Addr, unreachable: map<Addr, nat>, d: Addr)
    requires d in n.table && EntryOk(n.table[d])
    requires d in unreachable ==> DeadSeqno(unreachable[d])
    ensures EntryOk(Errored(n, from, unreachable, d))
    ensures Errored(n, from, unreachable, d).Freshness().NotStaler(n.table[d].Freshness())
    ensures Errored(n, from, unreachable, d).hops.Finite? ==> Inherited(n, d, Errored(n, from, unreachable, d))
  {
  }

  lemma RecvErrorAdvances(n: Node, from: Addr, unreachable: map<Addr, nat>)
    requires NodeOk(n) && forall d :: d in unreachable ==> DeadSeqno(unreachable[d])
    ensures Advances(n, RecvError(n, from, unreachable).node, {}, RecvError(n, from, unreachable).sent)
  {
    var r := RecvError(n, from, unreachable);
    forall d | d in n.table
      ensures EntryOk(r.node.table[d])
      ensures r.node.table[d].Freshness().NotStaler(n.table[d].Freshness())
      ensures r.node.table[d].hops.Finite? ==> Inherited(n, d, r.node.table[d])
    {
      ErroredIsFresher(n, from, unreachable, d);
    }
    EveryEntryAdvances(n, r.node, {});
    assert forall m :: m in r.sent ==> Sound(r.node, m);
    SentAdvances(n, r.node, {}, r.sent);
  }

  lemma BrokenIsFresher(n: Node, d: Addr, id: Addr)
    requires d in n.table && EntryOk(n.table[d])
    ensures EntryOk(Broken(n.table[d], id))
    ensures Broken(n.table[d], id).Freshness().NotStaler(n.table[d].Freshness())
    ensures Broken(n.table[d], id).hops.Finite? ==> Inherited(n, d, Broken(n.table[d], id))
    ensures Breaks(n.table[d], id) ==> DeadSeqno(n.table[d].seqno + 1)
  {
  }

  lemma HandleLinkFailureAdvances(n: Node, id: Addr, known: set<Advert>)
    requires NodeOk(n)
    ensures Advances(n, HandleLinkFailure(n, id).node, known, HandleLinkFailure(n, id).sent)
  {
    var r := HandleLinkFailure(n, id);
    forall d | d in n.table
      ensures EntryOk(r.node.table[d])
      ensures r.node.table[d].Freshness().NotStaler(n.table[d].Freshness())
      ensures r.node.table[d].hops.Finite? ==> Inherited(n, d, r.node.table[d])
      ensures Breaks(n.table[d], id) ==> DeadSeqno(n.table[d].seqno + 1)
    {
      BrokenIsFresher(n, d, id);
    }
    EveryEntryAdvances(n, r.node, known);
    assert forall m :: m in r.sent ==> Sound(r.node, m);
    SentAdvances(n, r.node, known, r.sent);
  }

  lemma LinkLayerFailedAdvances(n: Node, p: Packet, neighbour: Addr, now: real, perHop: Addr -> real)
    requires NodeOk(n)
    ensures Advances(n, LinkLayerFailed(n, p, neighbour, now, perHop).node, {},
                     LinkLayerFailed(n, p, neighbour, now, perHop).sent)
  {
    var r := LinkLayerFailed(n, p, neighbour, now, perHop);
    hide SendRequest, HandleLinkFailure;
    AdvancesRefl(n, {});
    if p.dst !in n.table {
    } else if n.table[p.dst].hops.Finite? && p.forwards > n.table[p.dst].hops.n {
      var n1 := SetEntry(n, p.dst, n.table[p.dst].(flags := InRepair)).(buffer := Enqueued(n.buffer, p, now));
      OneEntryAdvances(n, n1, p.dst, n1.table[p.dst], {});
      SendRequestAdvances(n1, p.dst, now, perHop, {});
      AdvancesTrans(n, n1, r.node, {}, [], r.sent);
      assert [] + r.sent == r.sent;
    } else {
      var n1 := n.(seqno := n.seqno + 2);
      HandleLinkFailureAdvances(n1, neighbour, {});
    }
  }

  lemma PurgeEntryAdvances(n: Node, d: Addr, now: real, perHop: Addr -> real)
    requires NodeOk(n) && d in n.table
    ensures Advances(n, PurgeEntry(n, d, now, perHop).node, {}, PurgeEntry(n, d, now, perHop).sent)
  {
    var e := n.table[d];
    if e.flags == Up && e.expire < now {
      OneEntryAdvances(n, PurgeEntry(n, d, now, perHop).node, d, Downed(e.(seqno := e.seqno + 1)), {});
    } else if e.flags == Up {
      ReleaseAdvances(n, d, now, {});
    } else if Holds(n.buffer, d) {
      SendRequestAdvances(n, d, now, perHop, {});
    }
  }

  lemma {:induction false} RtPurgeAdvances(n: Node, order: seq<Addr>, now: real, perHop: Addr -> real)
    requires NodeOk(n)
    requires forall d :: d in order ==> d in n.table
    ensures Advances(n, RtPurge(n, order, now, perHop).node, {}, RtPurge(n, order, now, perHop).sent)
    decreases |order|
  {
    if order != [] {
      var r1 := PurgeEntry(n, order[0], now, perHop);
      PurgeEntryAdvances(n, order[0], now, perHop);
      RtPurgeAdvances(r1.node, order[1..], now, perHop);
      var r2 := RtPurge(r1.node, order[1..], now, perHop);
      AdvancesTrans(n, r1.node, r2.node, {}, r1.sent, r2.sent);
    }
  }

  lemma RtResolveAdvances(n: Node, p: Packet, now: real, perHop: Addr -> real)
    requires NodeOk(n)
    ensures Advances(n, RtResolve(n, p, now, perHop).node, {}, RtResolve(n, p, now, perHop).sent)
  {
    var r := RtResolve(n, p, now, perHop);
    var n1 := SetEntry(n, p.dst, EntryOf(n, p.dst));
    var e := n1.table[p.dst];
    if e.flags == Up {
      OneEntryAdvances(n, r.node, p.dst, Released(e, n.index, [p], now).0, {});
      SentAdvances(n, r.node, {}, r.sent);
    } else if p.src == n.index {
      var n2 := n1.(buffer := Enqueued(n.buffer, p, now));
      OneEntryAdvances(n, n2, p.dst, e, {});
      SendRequestAdvances(n2, p.dst, now, perHop, {});
      AdvancesTrans(n, n2, r.node, {}, [], r.sent);
      assert [] + r.sent == r.sent;
    } else {
      OneEntryAdvances(n, r.node, p.dst, e, {});
      if e.flags == Down {
        SentAdvances(n, r.node, {}, r.sent);
      }
    }
  }

  lemma RecvDataAdvances(n: Node, p: Packet, now: real, perHop: Addr -> real)
    requires NodeOk(n)
    ensures Advances(n, RecvData(n, p, now, perHop).node, {}, RecvData(n, p, now, perHop).sent)
  {
    hide RtResolve, Advances, NodeOk;
    AdvancesRefl(n, {});
    if p.src == n.index && p.forwards == 0 {
      RtResolveAdvances(n, p.(ttl := NETWORK_DIAMETER), now, perHop);
    } else if !(p.src == n.index || p.ttl - 1 == 0) {
      RtResolveAdvances(n, p.(ttl := p.ttl - 1), now, perHop);
    }
  }

  /** A message that its sender could soundly send. */
  ghost predicate Credible(m: Msg) {
    match m
    case Rreq(rq) => LiveSeqno(rq.srcSeqno)
    case Rrep(rp) => LiveSeqno(rp.dstSeqno)
    case Rerr(_, unreachable) => forall d :: d in unreachable ==> DeadSeqno(unreachable[d])
    case Data(_, _) => true
  }

  lemma RecvAdvances(n: Node, m: Msg, now: real, perHop: Addr -> real)
    requires NodeOk(n) && Credible(m)
    ensures Advances(n, Recv(n, m, now, perHop).node, Adverts(m), Recv(n, m, now, perHop).sent)
  {
    hide RecvRequest, RecvReply, RecvError, RecvData, Advances;
    match m
    case Rreq(rq) =>
      var rq' := rq.(ttl := rq.ttl - 1);
      RecvRequestAdvances(n, rq', now);
      assert Adverts(Rreq(rq')) == Adverts(m);
    case Rrep(rp) =>
      var rp' := rp.(ttl := rp.ttl - 1);
      RecvReplyAdvances(n, rp', now);
      assert Adverts(Rrep(rp')) == Adverts(m);
    case Rerr(from, unreachable) => RecvErrorAdvances(n, from, unreachable);
    case Data(_, p) => RecvDataAdvances(n, p, now, perHop);
  }

  /** The repair timer keeps freshness unless it finds the route still under repair. */
  lemma RepairTimeoutAdvances(n: Node, d: Addr)
    requires NodeOk(n)
    requires d in n.table ==> n.table[d].flags != InRepair
    ensures Advances(n, RepairTimeout(n, d).node, {}, RepairTimeout(n, d).sent)
  {
    if d in n.table && n.table[d].flags != Up {
      OneEntryAdvances(n, RepairTimeout(n, d).node, d, n.table[d], {});
    }
  }

  /** ... and exactly then: on a route under repair the timer always loses freshness. */
  lemma RepairTimeoutLosesFreshness(n: Node, d: Addr)
    requires NodeOk(n) && d in n.table
    ensures RepairTimeout(n, d).node.table[d].Freshness().NotStaler(n.table[d].Freshness())
            <==> n.table[d].flags != InRepair
  {
  }
}
