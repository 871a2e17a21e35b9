/** How long things last: routes until they expire, request ids until they are forgotten, and the state of a search until
its route is found. */
module AodvLifetimes {
  import opened Routing
  import opened BufferSpec
  import opened RingSearch
  import opened AodvSpec
  import opened AodvSetup
  import opened AodvDelivery

  // ---------- routes ----------

  /** A route that has expired goes down under the next number, and nothing is held for it any longer. */
  lemma ExpiredGoesDown(n: Node, d: Addr, now: real, perHop: Addr -> real)
    requires d in n.table && n.table[d].flags == Up && n.table[d].expire < now
    ensures var r := PurgeEntry(n, d, now, perHop);
      && r.sent == [] && Severed(r.node, d, n.table[d].seqno + 1) && Held(r.node.buffer, d) == []
      && r.node == n.(table := r.node.table, buffer := r.node.buffer)
      && forall x :: x in n.table && x != d ==> x in r.node.table && r.node.table[x] == n.table[x]
  {
    OthersHoldNone(Purged(n.buffer, now), d);
  }

  /** A live route stays, and every live packet that waits for it leaves along it. */
  lemma LiveIsUsed(n: Node, d: Addr, now: real, perHop: Addr -> real)
    requires d in n.table && n.table[d].flags == Up && n.table[d].expire >= now
    ensures var r, e := PurgeEntry(n, d, now, perHop), n.table[d];
      && Routes(r.node, d, e.Freshness(), e.nexthop) && Held(r.node.buffer, d) == []
      && r.node == n.(table := r.node.table, buffer := r.node.buffer)
      && (forall x :: x in n.table && x != d ==> x in r.node.table && r.node.table[x] == n.table[x])
      && (forall p :: p in Held(Purged(n.buffer, now), d) && p.ttl != 0 && p.dst != n.index ==>
            Data(e.nexthop, p) in r.sent)
      && forall m :: m in r.sent ==> m.Data? && m.via == e.nexthop
  {
    var live := Held(Purged(n.buffer, now), d);
    OthersHoldNone(Purged(n.buffer, now), d);
    forall p | p in live && p.ttl != 0 && p.dst != n.index
      ensures Data(n.table[d].nexthop, p) in Released(n.table[d], n.index, live, now).1
    {
      ReleasedAll(n.table[d], n.index, live, now, p);
    }
    ReleasedVia(n.table[d], n.index, live, now);
    hide Released, Held, Others, Purged;
  }

  lemma {:induction false} ReleasedVia(e: Entry, index: Addr, pkts: seq<Packet>, now: real)
    ensures forall m :: m in Released(e, index, pkts, now).1 ==> m.Data? && m.via == e.nexthop
    ensures Released(e, index, pkts, now).0.expire == e.expire || Released(e, index, pkts, now).0.expire == now + ACTIVE_ROUTE_TIMEOUT
    decreases |pkts|
  {
    if pkts != [] {
      ReleasedVia(e, index, pkts[1..], now);
      ReleasedVia(e.(expire := now + ACTIVE_ROUTE_TIMEOUT), index, pkts[1..], now);
    }
  }

  /** Where there is no route but somebody waits for one, it is asked for, if an answer is not still due. */
  lemma WantedIsAskedFor(n: Node, d: Addr, now: real, perHop: Addr -> real)
    requires d in n.table && n.table[d].flags != Up
    ensures var r, e := PurgeEntry(n, d, now, perHop), n.table[d];
      && (Holds(n.buffer, d) && e.reqTimeout <= now && e.reqCnt <= RREQ_RETRIES ==>
            |r.sent| == 1 && AsksFor(r.sent[0], n, d) && r.node.buffer == n.buffer)
      && (!Holds(n.buffer, d) || e.reqTimeout > now ==> r == Result(n, []))
  {
  }

  /** One pass over the table leaves no expired route up. */
  lemma {:induction false} PurgeLeavesNoneExpired(n: Node, order: seq<Addr>, now: real, perHop: Addr -> real, d: Addr)
    requires forall x :: x in order ==> x in n.table
    requires d in order || (d in n.table ==> n.table[d].flags != Up || n.table[d].expire >= now)
    ensures var n' := RtPurge(n, order, now, perHop).node;
      && n'.table.Keys == n.table.Keys
      && (d in n'.table ==> n'.table[d].flags != Up || n'.table[d].expire >= now)
    decreases |order|
  {
    if order != [] {
      var r := PurgeEntry(n, order[0], now, perHop);
      PurgeEntryIsSelective(n, order[0], now, perHop, d);
      hide PurgeEntry;
      PurgeLeavesNoneExpired(r.node, order[1..], now, perHop, d);
    }
  }

  lemma PurgeEntryIsSelective(n: Node, x: Addr, now: real, perHop: Addr -> real, d: Addr)
    requires x in n.table
    ensures var n' := PurgeEntry(n, x, now, perHop).node;
      && n'.table.Keys == n.table.Keys && (x != d && d in n.table ==> n'.table[d] == n.table[d])
      && (n'.table[x].flags == Up ==> n.table[x].flags == Up && n'.table[x].expire >= now)
  {
    ReleasedVia(n.table[x], n.index, Held(Purged(n.buffer, now), x), now);
  }

  /** A reverse route lives for REV_ROUTE_LIFE at least from the request on, whether or not it is a new one. */
  lemma ReverseRouteLives(n: Node, rq: Request, now: real)
    requires rq.src != n.index && !Heard(n, rq.src, rq.bcastId)
    ensures var n' := RecvRequest(n, rq, now).node; rq.src in n'.table && n'.table[rq.src].expire >= now + REV_ROUTE_LIFE
  {
    var e := EntryOf(n, rq.src);
    var e1 := e.(expire := MaxReal(e.expire, now + REV_ROUTE_LIFE));
    var n1 := ReverseRoute(n, rq, now).node;
    assert n1.table[rq.src].expire >= now + REV_ROUTE_LIFE by {
      var e2 := Updated(e1, rq.srcSeqno, rq.hopCount, rq.sender, e1.expire);
      var e3 := e2.(reqCnt := 0, reqTimeout := 0.0, reqLastTtl := rq.hopCount, expire := now + ACTIVE_ROUTE_TIMEOUT);
      var pkts := Held(Purged(n.buffer, now), rq.src);
      ReleasedVia(e2, n.index, pkts, now);
      ReleasedVia(e3, n.index, pkts, now);
    }
    hide ReverseRoute;
  }

  /** A route back that is news ends a search that was on for it. */
  lemma NewsEndsSearch(n: Node, rq: Request, now: real)
    requires rq.src != n.index && !Heard(n, rq.src, rq.bcastId) && rq.src != rq.dst
    requires Rank(rq.srcSeqno, Finite(rq.hopCount)).Fresher(EntryOf(n, rq.src).Freshness())
    requires EntryOf(n, rq.src).reqTimeout > 0.0
    ensures var n' := RecvRequest(n, rq, now).node;
      && rq.src in n'.table && n'.table[rq.src].reqTimeout == 0.0 && n'.table[rq.src].reqCnt == 0
      && n'.table[rq.src].flags == Up && n'.table[rq.src].reqLastTtl == rq.hopCount
  {
    var r1 := ReverseRoute(n, rq, now);
    assert r1.node.table[rq.src].reqTimeout == 0.0 && r1.node.table[rq.src].reqCnt == 0
           && r1.node.table[rq.src].flags == Up && r1.node.table[rq.src].reqLastTtl == rq.hopCount;
    hide ReverseRoute, Released, Held, Others, Purged;
  }

  /** A forward route lives as long as the reply says, or as a route in use does; its search is over. */
  lemma ForwardRouteLives(n: Node, rp: Reply, now: real)
    requires Learns(n, rp)
    ensures var n' := RecvReply(n, rp, now).node;
      && rp.dst in n'.table && n'.table[rp.dst].reqCnt == 0 && n'.table[rp.dst].reqTimeout == 0.0
      && (n'.table[rp.dst].expire == now + (rp.lifetime as real) || n'.table[rp.dst].expire == now + ACTIVE_ROUTE_TIMEOUT)
  {
    var e := Updated(EntryOf(n, rp.dst), rp.dstSeqno, rp.hopCount, rp.sender, now + (rp.lifetime as real))
             .(reqCnt := 0, reqTimeout := 0.0, reqLastTtl := rp.hopCount);
    ReleasedVia(e, n.index, Held(Purged(n.buffer, now), rp.dst), now);
  }

  /** A reply that is no news leaves the routes as they are, and goes no further. */
  lemma StaleReplyIsIgnored(n: Node, rp: Reply, now: real)
    requires !Learns(n, rp)
    ensures var r := RecvReply(n, rp, now);
      && r.sent == [] && r.node == n.(table := r.node.table)
      && forall d :: EntryOf(r.node, d) == EntryOf(n, d)
  {
  }

  /** A request that is no news about its source leaves that route alone but for its lifetime. */
  lemma StaleRequestOnlyProlongs(n: Node, rq: Request, now: real)
    requires !Rank(rq.srcSeqno, Finite(rq.hopCount)).Fresher(EntryOf(n, rq.src).Freshness())
    ensures var e' := EntryOf(ReverseRoute(n, rq, now).node, rq.src);
      e' == EntryOf(n, rq.src).(expire := e'.expire) && e'.expire >= EntryOf(n, rq.src).expire
  {
  }

  /** The lifetime that a reply states: the constant of the destination, or what is left of the route that is told of. */
  lemma ReplyStatesLifetime(n: Node, rq: Request, now: real, m: Msg)
    requires rq.src in n.table && m in Answer(n, rq, now).sent && m.Rrep?
    ensures n.index == rq.dst ==> m.rp.lifetime == MY_ROUTE_TIMEOUT
    ensures n.index != rq.dst ==>
              && rq.dst in n.table && n.table[rq.dst].hops.Finite? && n.table[rq.dst].seqno >= rq.dstSeqno
              && (n.table[rq.dst].expire > now ==>
                    m.rp.lifetime as real <= n.table[rq.dst].expire - now < m.rp.lifetime as real + 1.0)
              && (n.table[rq.dst].expire <= now ==> m.rp.lifetime == 0)
  {
  }

  /** A destination answers under the next even number past its own and past the one asked for. */
  lemma ReplySeqnoIsNext(own: nat, asked: nat)
    ensures var s := ReplySeqno(own, asked);
      s % 2 == 0 && own < s && asked < s && forall k: nat :: k % 2 == 0 && own < k && asked < k ==> s <= k
  {
  }

  /** Whatever brings a better route, at whichever node: every live packet held for it, and no other, leaves along it. */
  ghost predicate Leave(n: Node, d: Addr, via: Addr, now: real, sent: seq<Msg>) {
    forall m :: m in sent && m.Data? <==>
      m.Data? && m.via == via && m.packet in Held(Purged(n.buffer, now), d) && m.packet.ttl != 0 && m.packet.dst != n.index
  }

  lemma {:induction false} ReleasedAre(e: Entry, index: Addr, pkts: seq<Packet>, now: real)
    ensures forall m :: m in Released(e, index, pkts, now).1 <==>
              m.Data? && m.via == e.nexthop && m.packet in pkts && m.packet.ttl != 0 && m.packet.dst != index
    decreases |pkts|
  {
    if pkts != [] {
      ReleasedAre(e, index, pkts[1..], now);
      ReleasedAre(e.(expire := now + ACTIVE_ROUTE_TIMEOUT), index, pkts[1..], now);
      assert pkts == [pkts[0]] + pkts[1..];
    }
  }

  lemma ReplyReleases(n: Node, rp: Reply, now: real)
    requires Learns(n, rp)
    ensures var r := RecvReply(n, rp, now);
      Leave(n, rp.dst, rp.sender, now, r.sent) && Held(r.node.buffer, rp.dst) == []
  {
    var e := Updated(EntryOf(n, rp.dst), rp.dstSeqno, rp.hopCount, rp.sender, now + (rp.lifetime as real))
             .(reqCnt := 0, reqTimeout := 0.0, reqLastTtl := rp.hopCount);
    ReleasedAre(e, n.index, Held(Purged(n.buffer, now), rp.dst), now);
    OthersHoldNone(Purged(n.buffer, now), rp.dst);
    hide Released, Held, Others, Purged;
  }

  lemma RequestReleases(n: Node, rq: Request, now: real)
    requires rq.src != n.index && !Heard(n, rq.src, rq.bcastId)
    requires Rank(rq.srcSeqno, Finite(rq.hopCount)).Fresher(EntryOf(n, rq.src).Freshness())
    ensures var r := RecvRequest(n, rq, now);
      Leave(n, rq.src, rq.sender, now, r.sent) && Held(r.node.buffer, rq.src) == []
  {
    var e := EntryOf(n, rq.src);
    var e1 := e.(expire := MaxReal(e.expire, now + REV_ROUTE_LIFE));
    var e2 := Updated(e1, rq.srcSeqno, rq.hopCount, rq.sender, e1.expire);
    var pkts := Held(Purged(n.buffer, now), rq.src);
    ReleasedAre(e2, n.index, pkts, now);
    ReleasedAre(e2.(reqCnt := 0, reqTimeout := 0.0, reqLastTtl := rq.hopCount, expire := now + ACTIVE_ROUTE_TIMEOUT),
                n.index, pkts, now);
    OthersHoldNone(Purged(n.buffer, now), rq.src);
    var r1 := ReverseRoute(n, rq, now);
    assert forall m :: m in r1.sent <==>
        m.Data? && m.via == rq.sender && m.packet in pkts && m.packet.ttl != 0 && m.packet.dst != n.index;
    hide ReverseRoute, Released, Held, Others, Purged;
  }

  // ---------- searches ----------

  /** A request is due: no route, no answer still awaited, and not too many tries. */
  predicate Due(n: Node, d: Addr, now: real) {
    d in n.table && n.table[d].flags != Up && n.table[d].reqTimeout <= now && n.table[d].reqCnt <= RREQ_RETRIES
  }

  /** How long a request is waited for. */
  function Patience(ttl: nat, cnt: nat, perHop: real): real {
    if RoundTrips(ttl, cnt, perHop) >= MAX_RREQ_TIMEOUT then MAX_RREQ_TIMEOUT else RoundTrips(ttl, cnt, perHop)
  }

  lemma PatienceIs(ttl: nat, cnt: nat, perHop: real, now: real)
    ensures RequestTimeout(ttl, cnt, perHop, now, MAX_RREQ_TIMEOUT) == now + Patience(ttl, cnt, perHop)
  {
    if RoundTrips(ttl, cnt, perHop) <= MAX_RREQ_TIMEOUT {
      DeadlineIsRoundTrips(ttl, cnt, perHop, now, MAX_RREQ_TIMEOUT);
    } else if cnt > 0 {
      assert RoundTrips(ttl, cnt, perHop) == 2.0 * (ttl as real) * perHop * (cnt as real);
    } else {
      assert RoundTrips(ttl, cnt, perHop) == 2.0 * (ttl as real) * perHop;
    }
  }

  /** A request that is due goes out, past the reach of the last and past the length of the last route, or into the whole
  network; it is not repeated before the round trips over its reach, or the cap, and after them it is, or the node gives
  up. */
  lemma RequestIsAwaited(n: Node, d: Addr, now: real, perHop: Addr -> real, later: real)
    requires Due(n, d, now)
    ensures var r, e := SendRequest(n, d, now, perHop), n.table[d];
      && |r.sent| == 1 && AsksFor(r.sent[0], n, d) && d in r.node.table
      && r.node.bid == n.bid + 1 && r.node.seqno == r.sent[0].rq.srcSeqno == n.seqno + 2
      && var ttl, cnt, last := r.sent[0].rq.ttl, r.node.table[d].reqCnt, Max(e.reqLastTtl, e.lastHopCount);
         && 0 < ttl <= NETWORK_DIAMETER && r.node.table[d].reqLastTtl == ttl
         && (if last == 0 then ttl == TTL_START else if last < TTL_THRESHOLD then ttl == last + TTL_INCREMENT
             else ttl == NETWORK_DIAMETER)
         && cnt == e.reqCnt + (if last < TTL_THRESHOLD then 0 else 1)
         && (SendRequest(r.node, d, later, perHop) == Result(r.node, []) <==> later < now + Patience(ttl, cnt, perHop(d)))
  {
    var e := n.table[d];
    var e' := Requested(e, now, perHop(d));
    PatienceIs(e'.reqLastTtl, e'.reqCnt, perHop(d), now);
    hide RequestTimeout, Patience, Held, Others, Purged;
    var n' := SendRequest(n, d, now, perHop).node;
    assert n'.table[d] == e';
    if later >= e'.reqTimeout && e'.reqCnt > RREQ_RETRIES {
      assert SendRequest(n', d, later, perHop).node.table[d].reqTimeout == later + MAX_RREQ_TIMEOUT;
    }
  }

  /** A node that gives up drops what waits for that destination, and nothing else, and starts its count again after the
  cap. */
  lemma GivingUpSparesOthers(n: Node, d: Addr, now: real, perHop: Addr -> real, x: Addr)
    requires d in n.table && n.table[d].flags != Up && n.table[d].reqTimeout <= now && n.table[d].reqCnt > RREQ_RETRIES
    ensures var r := SendRequest(n, d, now, perHop);
      && r.sent == [] && Held(r.node.buffer, x) == (if x == d then [] else Held(Purged(n.buffer, now), x))
      && r.node.table == n.table[d := n.table[d].(reqTimeout := now + MAX_RREQ_TIMEOUT, reqCnt := 0)]
  {
    OthersHoldNone(Purged(n.buffer, now), d);
    if x != d {
      OthersStay(Purged(n.buffer, now), d, x);
    }
  }

  /** The length of a lost route counts: the next request for it reaches further, or everywhere. */
  lemma LostLengthCounts(n: Node, d: Addr, id: Addr, h: nat, now: real, perHop: Addr -> real)
    requires Through(n, d, id) && n.table[d].flags == Up && n.table[d].hops == Finite(h)
    ensures HandleLinkFailure(n, id).node.table.Keys == n.table.Keys
    ensures HandleLinkFailure(n, id).node.table[d].lastHopCount == h
    ensures n.table[d].expire < now ==> PurgeEntry(n, d, now, perHop).node.table.Keys == n.table.Keys
                                        && PurgeEntry(n, d, now, perHop).node.table[d].lastHopCount == h
  {
  }

  // ---------- users ----------

  /** A node that answers from its table notes, for either route, the next hop of the other as a user. */
  lemma AnswerNotesUsers(n: Node, rq: Request, now: real)
    requires rq.src in n.table && rq.dst in n.table && rq.src != rq.dst && rq.dst != n.index
    requires n.table[rq.dst].hops.Finite? && n.table[rq.dst].seqno >= rq.dstSeqno
    ensures var n', src, dst := Answer(n, rq, now).node, n.table[rq.src], n.table[rq.dst];
      && n'.table == n.table[rq.dst := dst.(precursors := dst.precursors + {src.nexthop})]
                            [rq.src := src.(precursors := src.precursors + {dst.nexthop})]
  {
  }

  /** A node that passes a reply on notes the next hop back as a user of the route to the destination, and the route back
  lives on. */
  lemma PassingNotesUsers(n: Node, rp: Reply, now: real)
    requires Learns(n, rp) && rp.to != n.index && rp.to != rp.dst && rp.ttl != 0
    requires rp.to in n.table && n.table[rp.to].hops.Finite?
    ensures var n', back := RecvReply(n, rp, now).node, n.table[rp.to];
      && rp.to in n'.table && n'.table[rp.to] == back.(expire := now + ACTIVE_ROUTE_TIMEOUT)
      && rp.dst in n'.table && n'.table[rp.dst].precursors == EntryOf(n, rp.dst).precursors + {back.nexthop}
  {
    hide Released, Held, Others, Purged;
  }

  /** A destination answers every request under a number that it has not used before, and keeps. */
  lemma AnswersUnderNewNumber(n: Node, rq: Request, now: real)
    requires rq.src in n.table && rq.dst == n.index
    ensures var r := Answer(n, rq, now);
      && |r.sent| == 1 && r.sent[0].Rrep? && n.seqno < r.sent[0].rp.dstSeqno == r.node.seqno
      && rq.dstSeqno < r.node.seqno && r.node == n.(seqno := r.node.seqno)
  {
    ReplySeqnoIsNext(n.seqno, rq.dstSeqno);
  }

  // ---------- ids ----------

  /** Forgetting goes by the clock alone. */
  lemma {:induction false} ForgottenAre(heard: seq<Broadcast>, now: real, b: Broadcast)
    ensures b in HeardKept(heard, now) <==> b in heard && b.expire > now
    ensures multiset(HeardKept(heard, now))[b] == if b.expire > now then multiset(heard)[b] else 0
  {
    if heard != [] {
      ForgottenAre(heard[1..], now, b);
      assert heard == [heard[0]] + heard[1..];
    }
  }

  /** A request is handled once: its copies are dropped, until its id is forgotten, which no purge does before
  BCAST_ID_SAVE has passed. */
  lemma CopiesAreDropped(n: Node, rq: Request, now: real, later: real, copy: Request, t: real)
    requires rq.src != n.index && later < now + BCAST_ID_SAVE
    requires copy.src == rq.src && copy.bcastId == rq.bcastId && !Heard(n, rq.src, rq.bcastId)
    ensures var n' := RecvRequest(n, rq, now).node;
      && RecvRequest(n', copy, t) == Result(n', [])
      && RecvRequest(IdPurge(n', later), copy, t) == Result(IdPurge(n', later), [])
  {
    var b := Broadcast(rq.src, rq.bcastId, now + BCAST_ID_SAVE);
    RequestKeepsIndex(n, rq, now);
    var n' := RecvRequest(n, rq, now).node;
    assert n'.heard[0] == b;
    ForgottenAre(n'.heard, later, b);
    var kept := IdPurge(n', later).heard;
    var i :| 0 <= i < |kept| && kept[i] == b;
    hide RecvRequest, HeardKept;
    assert Heard(n', rq.src, rq.bcastId) && Heard(IdPurge(n', later), rq.src, rq.bcastId);
    HeardIsDropped(n', copy, t);
    HeardIsDropped(IdPurge(n', later), copy, t);
  }

  lemma RequestKeepsIndex(n: Node, rq: Request, now: real)
    requires !Heard(n, rq.src, rq.bcastId) && rq.src != n.index
    ensures RecvRequest(n, rq, now).node.index == n.index
    ensures RecvRequest(n, rq, now).node.heard == [Broadcast(rq.src, rq.bcastId, now + BCAST_ID_SAVE)] + n.heard
  {
  }

  lemma HeardIsDropped(n: Node, rq: Request, now: real)
    requires Heard(n, rq.src, rq.bcastId)
    ensures RecvRequest(n, rq, now) == Result(n, [])
  {
  }
}
