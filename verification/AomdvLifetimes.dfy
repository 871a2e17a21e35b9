/** How long things last in AOMDV: paths until they expire, neighbours until they have been silent too long, requests
until they are forgotten; and how often one request is relayed and answered. */
module AomdvLifetimes {
  import opened Routing
  import opened BufferSpec
  import opened RingSearch
  import opened AomdvPaths
  import opened AomdvSpec
  import opened AomdvMultipath
  import opened AomdvSetup
  import opened AomdvDelivery

  // ---------- routes ----------

  predicate PathLeft(e: Entry, now: real) {
    exists p :: p in e.paths && p.expire >= now
  }

  /** A route that has expired with all its paths goes down under the next odd number past its own, or past the highest
  heard if that is greater, and nothing is held for it any longer. */
  lemma ExpiredGoesDown(n: Node, d: Addr, now: real, perHop: Addr -> real)
    requires d in n.table && n.table[d].flags == Up && n.table[d].expire < now && !PathLeft(n.table[d], now)
    ensures var r, e, s := PurgeEntry(n, d, now, perHop), n.table[d], PastNumber(n.table[d]);
      && r.sent == [] && Dead(r.node, d) && r.node.table[d].paths == [] && r.node.table[d].seqno == s
      && r.node.table[d].advertised == Infinity && Held(r.node.buffer, d) == []
      && s % 2 == 1 && s > e.seqno && s >= e.highestHeard
      && (forall k: nat :: k % 2 == 1 && k > e.seqno && k >= e.highestHeard ==> s <= k)
      && OthersAlone(n, r.node, d)
  {
    hide LivePaths, Others, Held, Purged;
    NoneLeft(n.table[d].paths, now);
    OthersHoldNone(Purged(n.buffer, now), d);
    PastIsOdd(n.table[d]);
    hide PastNumber;
  }

  lemma PastIsOdd(e: Entry)
    ensures var s := PastNumber(e);
      && s % 2 == 1 && s > e.seqno && s >= e.highestHeard
      && forall k: nat :: k % 2 == 1 && k > e.seqno && k >= e.highestHeard ==> s <= k
  {
  }

  lemma {:induction false} NoneLeft(paths: seq<Path>, now: real)
    requires forall p :: p in paths ==> p.expire < now
    ensures LivePaths(paths, now) == []
  {
    if paths != [] {
      NoneLeft(paths[1..], now);
    }
  }

  predicate Dead(n: Node, d: Addr) {
    d in n.table && n.table[d].flags == Down
  }

  ghost predicate OthersAlone(n: Node, n': Node, d: Addr) {
    && n' == n.(table := n'.table, buffer := n'.buffer) && n'.table.Keys == n.table.Keys
    && forall x :: x in n.table && x != d ==> n'.table[x] == n.table[x]
  }

  /** If some have not, those stay, and the rest go. */
  lemma ExpiredPathsGo(n: Node, d: Addr, now: real, perHop: Addr -> real)
    requires d in n.table && n.table[d].flags == Up && n.table[d].expire < now && PathLeft(n.table[d], now)
    ensures var r, e := PurgeEntry(n, d, now, perHop), n.table[d];
      && r.sent == [] && d in r.node.table && r.node.table[d] == e.(paths := r.node.table[d].paths)
      && (forall p :: p in r.node.table[d].paths <==> p in e.paths && p.expire >= now)
      && OthersAlone(n, r.node, d) && r.node.buffer == n.buffer
  {
    LivePathsAre(n.table[d].paths, now);
    var p :| p in n.table[d].paths && p.expire >= now;
    assert p in LivePaths(n.table[d].paths, now);
    hide LivePaths;
  }

  /** A live route stays, and every live packet that waits for it leaves along its first path. */
  lemma LiveIsUsed(n: Node, d: Addr, now: real, perHop: Addr -> real)
    requires Live(n, d) && n.table[d].expire >= now
    ensures var r := PurgeEntry(n, d, now, perHop);
      && Live(r.node, d) && Held(r.node.buffer, d) == [] && OthersAlone(n, r.node, d)
      && SamePaths(n.table[d].paths, r.node.table[d].paths) && r.node.table[d].seqno == n.table[d].seqno
      && Leave(n, d, now, r.sent)
  {
    ReleaseLeaves(n, d, now);
    OthersHoldNone(Purged(n.buffer, now), d);
    var pkts := Held(Purged(n.buffer, now), d);
    ReleasedKeeps(n.table[d], n.index, pkts, now);
    ReleasedPaths(n.table[d], n.index, pkts, now);
    hide Released, Held, Others, Purged;
  }

  /** Every live packet held for `d`, and no other, goes along the first path. */
  ghost predicate Leave(n: Node, d: Addr, now: real, sent: seq<Msg>)
    requires Live(n, d)
  {
    forall m :: m in sent <==>
      m.Data? && m.via == n.table[d].paths[0].nexthop && m.packet in Held(Purged(n.buffer, now), d) && m.packet.ttl != 0
      && m.packet.dst != n.index
  }

  lemma ReleaseLeaves(n: Node, d: Addr, now: real)
    requires Live(n, d)
    ensures Leave(n, d, now, Release(n, d, now).sent)
  {
    ReleasedAre(n.table[d], n.index, Held(Purged(n.buffer, now), d), now);
    hide Released, Held, Purged;
  }

  lemma {:induction false} ReleasedAre(e: Entry, index: Addr, pkts: seq<Packet>, now: real)
    requires e.paths != []
    ensures forall m :: m in Released(e, index, pkts, now).1 <==>
              m.Data? && m.via == e.paths[0].nexthop && m.packet in pkts && m.packet.ttl != 0 && m.packet.dst != index
    decreases |pkts|
  {
    if pkts != [] {
      var e1 := FirstExpires(e, now + ACTIVE_ROUTE_TIMEOUT);
      ReleasedAre(e, index, pkts[1..], now);
      ReleasedAre(if pkts[0].src != index then e1.(error := true) else e1, index, pkts[1..], now);
      assert pkts == [pkts[0]] + pkts[1..];
    }
  }

  /** Where there is no route but somebody waits for one, it is asked for, if an answer is not still due. */
  lemma WantedIsAskedFor(n: Node, d: Addr, now: real, perHop: Addr -> real)
    requires Dead(n, d)
    ensures var r, e := PurgeEntry(n, d, now, perHop), n.table[d];
      && (Holds(n.buffer, d) && e.reqTimeout <= now && e.reqCnt <= RREQ_RETRIES ==>
            |r.sent| == 1 && AsksFor(r.sent[0], n, d) && r.node.buffer == n.buffer)
      && (!Holds(n.buffer, d) || e.reqTimeout > now ==> r == Result(n, []))
  {
  }

  // ---------- neighbours ----------

  lemma {:induction false} ExpiredAre(nbs: seq<Neighbour>, now: real, id: Addr)
    ensures id in Expired(nbs, now) <==> exists nb :: nb in nbs && nb.addr == id && nb.expire <= now
    ensures |Expired(nbs, now)| <= |nbs|
  {
    if nbs != [] {
      ExpiredAre(nbs[1..], now, id);
      assert nbs == [nbs[0]] + nbs[1..];
      if id in Expired(nbs, now) {
        if id in Expired(nbs[1..], now) {
          var nb :| nb in nbs[1..] && nb.addr == id && nb.expire <= now;
          assert nb in nbs;
        } else {
          assert nbs[0] in nbs;
        }
      }
    }
  }

  ghost predicate OnceEach(nbs: seq<Neighbour>) {
    forall i, j :: 0 <= i < j < |nbs| ==> nbs[i].addr != nbs[j].addr
  }

  /** A neighbour heard from is listed once, and not lost before ALLOWED_HELLO_LOSS intervals have passed, half as many
  again if it was known; the others are as they were. */
  lemma HeardIsKept(n: Node, id: Addr, now: real, later: real)
    requires OnceEach(n.neighbours)
    ensures var n' := HeardNeighbour(n, id, now);
      && OnceEach(n'.neighbours) && n' == n.(neighbours := n'.neighbours)
      && (forall nb :: nb in n.neighbours && nb.addr != id ==> nb in n'.neighbours)
      && (forall nb :: nb in n'.neighbours && nb.addr != id ==> nb in n.neighbours)
      && exists nb :: nb in n'.neighbours && nb.addr == id &&
           nb.expire == now + (if exists b :: b in n.neighbours && b.addr == id then 1.5 * ALLOWED_HELLO_LOSS else ALLOWED_HELLO_LOSS) * HELLO_INTERVAL
  {
    IndexIsFirst(n.neighbours, id);
    var i, nbs := NeighbourIndex(n.neighbours, id), HeardNeighbour(n, id, now).neighbours;
    if i < |n.neighbours| {
      assert n.neighbours[i] in n.neighbours && nbs[i] in nbs;
      forall nb | nb in n.neighbours && nb.addr != id
        ensures nb in nbs
      {
        var j :| 0 <= j < |n.neighbours| && n.neighbours[j] == nb;
        assert nbs[j] == nb;
      }
    } else {
      assert nbs[0] in nbs;
      assert nbs[1..] == n.neighbours;
    }
  }

  lemma {:induction false} IndexIsFirst(nbs: seq<Neighbour>, id: Addr)
    ensures NeighbourIndex(nbs, id) == |nbs| ==> forall nb :: nb in nbs ==> nb.addr != id
  {
    if nbs != [] && nbs[0].addr != id {
      IndexIsFirst(nbs[1..], id);
      assert nbs == [nbs[0]] + nbs[1..];
    }
  }

  /** A lost neighbour is taken off the list. */
  lemma LostIsDelisted(n: Node, id: Addr)
    requires OnceEach(n.neighbours)
    ensures var n' := NeighbourRemoved(n, id);
      && (forall nb :: nb in n'.neighbours <==> nb in n.neighbours && nb.addr != id) && OnceEach(n'.neighbours)
      && n' == n.(neighbours := n'.neighbours, seqno := n.seqno + 2)
  {
    IndexIsFirst(n.neighbours, id);
    var i, nbs := NeighbourIndex(n.neighbours, id), NeighbourRemoved(n, id).neighbours;
    if i < |n.neighbours| {
      assert forall k :: 0 <= k < |nbs| ==> nbs[k] == n.neighbours[if k < i then k else k + 1];
      forall nb | nb in n.neighbours && nb.addr != id
        ensures nb in nbs
      {
        var j :| 0 <= j < |n.neighbours| && n.neighbours[j] == nb;
        assert nbs[if j < i then j else j - 1] == nb;
      }
    }
  }

  // ---------- searches ----------

  /** A request is due: no route, no answer still awaited, and not too many tries. */
  predicate Due(n: Node, d: Addr, now: real) {
    d in n.table && n.table[d].flags != Up && n.table[d].reqTimeout <= now && n.table[d].reqCnt <= RREQ_RETRIES
  }

  /** How long a request is waited for. */
  function Patience(ttl: nat, cnt: nat, perHop: real): real {
    if RoundTrips(ttl, cnt, perHop) >= MAX_RREQ_TIMEOUT then MAX_RREQ_TIMEOUT else RoundTrips(ttl, cnt, perHop)
  }

  lemma PatienceIs(ttl: nat, cnt: nat, perHop: real, now: real)
    ensures RequestTimeout(ttl, cnt, perHop, now, MAX_RREQ_TIMEOUT) == now + Patience(ttl, cnt, perHop)
  {
    if RoundTrips(ttl, cnt, perHop) <= MAX_RREQ_TIMEOUT {
      DeadlineIsRoundTrips(ttl, cnt, perHop, now, MAX_RREQ_TIMEOUT);
    } else if cnt > 0 {
      assert RoundTrips(ttl, cnt, perHop) == 2.0 * (ttl as real) * perHop * (cnt as real);
    } else {
      assert RoundTrips(ttl, cnt, perHop) == 2.0 * (ttl as real) * perHop;
    }
  }

  /** A request that is due goes out, past the reach of the last and past the length of the last route, or into the whole
  network; it is not repeated before the round trips over its reach, or the cap, and after them it is, or the node gives
  up. */
  lemma RequestIsAwaited(n: Node, d: Addr, now: real, perHop: Addr -> real, later: real)
    requires Due(n, d, now)
    ensures var r, e := SendRequest(n, d, now, perHop), n.table[d];
      && |r.sent| == 1 && AsksFor(r.sent[0], n, d) && d in r.node.table
      && r.node.bid == n.bid + 1 && r.node.seqno == r.sent[0].rq.srcSeqno == n.seqno + 2
      && var ttl, cnt, last := r.sent[0].rq.ttl, r.node.table[d].reqCnt, Max(e.reqLastTtl, e.lastHopCount);
         && 0 < ttl <= NETWORK_DIAMETER && r.node.table[d].reqLastTtl == ttl
         && (if last == 0 then ttl == TTL_START else if last < TTL_THRESHOLD then ttl == last + TTL_INCREMENT
             else ttl == NETWORK_DIAMETER)
         && cnt == e.reqCnt + (if last < TTL_THRESHOLD then 0 else 1)
         && (SendRequest(r.node, d, later, perHop) == Result(r.node, []) <==> later < now + Patience(ttl, cnt, perHop(d)))
  {
    var e := n.table[d];
    var e' := Requested(e, now, perHop(d));
    PatienceIs(e'.reqLastTtl, e'.reqCnt, perHop(d), now);
    hide RequestTimeout, Patience, Held, Others, Purged;
    var n' := SendRequest(n, d, now, perHop).node;
    assert n'.table[d] == e';
    if later >= e'.reqTimeout && e'.reqCnt > RREQ_RETRIES {
      assert SendRequest(n', d, later, perHop).node.table[d].reqTimeout == later + MAX_RREQ_TIMEOUT;
    }
  }

  /** A node that gives up drops what waits for that destination, and nothing else, and starts its count again after the
  cap. */
  lemma GivingUpSparesOthers(n: Node, d: Addr, now: real, perHop: Addr -> real, x: Addr)
    requires d in n.table && n.table[d].flags != Up && n.table[d].reqTimeout <= now && n.table[d].reqCnt > RREQ_RETRIES
    ensures var r := SendRequest(n, d, now, perHop);
      && r.sent == [] && Held(r.node.buffer, x) == (if x == d then [] else Held(Purged(n.buffer, now), x))
      && r.node.table == n.table[d := n.table[d].(reqTimeout := now + MAX_RREQ_TIMEOUT, reqCnt := 0)]
  {
    OthersHoldNone(Purged(n.buffer, now), d);
    if x != d {
      OthersStay(Purged(n.buffer, now), d, x);
    }
  }

  // ---------- requests ----------

  /** Forgetting goes by the clock alone. */
  lemma {:induction false} ForgottenAre(cache: seq<Broadcast>, now: real, b: Broadcast)
    ensures b in CacheKept(cache, now) <==> b in cache && b.expire > now
    ensures multiset(CacheKept(cache, now))[b] == if b.expire > now then multiset(cache)[b] else 0
  {
    if cache != [] {
      ForgottenAre(cache[1..], now, b);
      assert cache == [cache[0]] + cache[1..];
    }
  }

  /** News of the source: a number not heard before. */
  predicate News(n: Node, d: Addr, seqno: nat) {
    EntryOf(n, d).seqno < seqno
  }

  /** A route good enough to answer with. */
  predicate Knows(n: Node, rq: Request) {
    rq.dst in n.table && n.table[rq.dst].flags == Up && n.table[rq.dst].seqno >= rq.dstSeqno
  }

  /** No search is on. */
  predicate Found(e: Entry) {
    e.reqTimeout == 0.0 && e.reqCnt == 0 && e.reqLastTtl == 0
  }

  predicate Silent(sent: seq<Msg>) {
    forall m :: m in sent ==> m.Data?
  }

  /** Refreshing the route to the source leaves the one to the destination alone. */
  lemma TakenLeaves(n: Node, rq: Request, now: real)
    requires rq.src != rq.dst && News(n, rq.src, rq.srcSeqno)
    ensures var r := TakeRequest(n, rq, now);
      && r.1 == Go(true) && r.0.node.index == n.index && r.0.node.seqno == n.seqno && Silent(r.0.sent)
      && EntryOf(r.0.node, rq.dst) == EntryOf(n, rq.dst) && (rq.dst in r.0.node.table <==> rq.dst in n.table)
      && (forall id :: Replied(r.0.node, rq.src, id) <==> Replied(n, rq.src, id)) && Cached(r.0.node, rq.src, rq.bcastId)
      && r.0.node.table[rq.src].advertised == Infinity && |r.0.node.table[rq.src].paths| == 1
      && SamePath(r.0.node.table[rq.src].paths[0], Path(rq.sender, rq.hopCount + 1, now, Stamped(n, rq).firstHop))
      && r.0.node.table[rq.src].lastHopCount == rq.hopCount + 1 && Found(r.0.node.table[rq.src])
  {
    OnePath(Path(rq.sender, rq.hopCount + 1, now + REV_ROUTE_LIFE, Stamped(n, rq).firstHop));
    var rq1 := Stamped(n, rq);
    var n1 := CacheRequest(n, rq1, now);
    CachedKeepsReplied(n, rq1, now);
    var p := Path(rq1.sender, rq1.hopCount + 1, now + REV_ROUTE_LIFE, rq1.firstHop);
    var e := Restarted(EntryOf(n1, rq1.src), rq1.srcSeqno, p);
    hide MaxHops, CacheIndex, Replied, Cached;
    var n2 := SetEntry(n1, rq1.src, e);
    var pkts := Held(Purged(n.buffer, now), rq.src);
    ReleasedKeeps(Settled(e), n.index, pkts, now);
    ReleasedPaths(Settled(e), n.index, pkts, now);
    hide Released, Held, Purged, Others;
    SameCache(Refresh(n2, rq.src, now).node, n1, rq.src);
  }

  lemma SameCache(n: Node, n1: Node, src: Addr)
    requires n.cache == n1.cache
    ensures forall id :: (Replied(n, src, id) <==> Replied(n1, src, id)) && (Cached(n, src, id) <==> Cached(n1, src, id))
  {
  }

  lemma CachedKeepsReplied(n: Node, rq: Request, now: real)
    ensures var n1 := CacheRequest(n, rq, now);
      Cached(n1, rq.src, rq.bcastId) && forall id :: Replied(n1, rq.src, id) <==> Replied(n, rq.src, id)
  {
    var n1 := CacheRequest(n, rq, now);
    if !Cached(n, rq.src, rq.bcastId) {
      var b := Broadcast(rq.src, rq.bcastId, now + BCAST_ID_SAVE, false);
      assert n1.cache == [b] + n.cache && n1.cache[1..] == n.cache;
      forall id
        ensures Replied(n1, rq.src, id) <==> Replied(n, rq.src, id)
      {
        if id == rq.bcastId {
          assert CacheIndex(n1.cache, rq.src, id) == 0;
        } else {
          assert CacheIndex(n1.cache, rq.src, id) == 1 + CacheIndex(n.cache, rq.src, id);
        }
      }
    }
  }

  /** A request with news of its source, seen for the first time, is passed on by a node that cannot answer it: one hop
  longer, and asking for at least the number that the node knows. */
  lemma NewRequestIsRelayed(n: Node, rq: Request, now: real)
    requires rq.src != n.index && rq.dst != n.index && rq.src != rq.dst && News(n, rq.src, rq.srcSeqno)
    requires !Cached(n, rq.src, rq.bcastId) && !Knows(n, rq) && rq.ttl > 0
    ensures var r := RecvRequest(n, rq, now);
      && Rreq(rq.(sender := n.index, hopCount := rq.hopCount + 1, dstSeqno := Max(EntryOf(n, rq.dst).seqno, rq.dstSeqno),
                  firstHop := Stamped(n, rq).firstHop)) in r.sent
      && (forall m :: m in r.sent ==> !m.Rrep?) && r.node.table[rq.src].lastHopCount == rq.hopCount + 1
      && Found(r.node.table[rq.src])
  {
    TakenLeaves(n, rq, now);
    hide TakeRequest, CacheIndex, Replied, Cached, MaxHops;
    var n1 := TakeRequest(n, rq, now).0.node;
    assert n1.table[rq.src].paths == [n1.table[rq.src].paths[0]];
    OnePath(n1.table[rq.src].paths[0]);
  }

  /** The hop count that a node vouches for: the one it has vouched for before, or that of its longest path. */
  predicate VouchedFor(e: Entry, hops: nat) {
    if e.advertised.Finite? then hops == e.advertised.n
    else (forall p :: p in e.paths ==> p.hopcount <= hops) && exists p :: p in e.paths && p.hopcount == hops
  }

  lemma VouchedForIs(e: Entry)
    requires e.paths != [] && forall p :: p in e.paths ==> p.hopcount > 0
    ensures VouchedFor(e, HopNumber(Advertised(e).advertised))
  {
    LongestBounds(e.paths);
    assert e.paths[0] in e.paths;
  }

  /** The answer of a node that has a route: how far it vouches to be from the destination, under the route's number, for
  as long as its first path lives, and through the last hop of that. */
  predicate Tells(n: Node, rq: Request, now: real, rp: Reply)
    requires Live(n, rq.dst)
  {
    var e := n.table[rq.dst];
    && rp.sender == n.index && rp.to == rq.src && rp.via == rq.sender && rp.dst == rq.dst && rp.dstSeqno == e.seqno
    && VouchedFor(e, rp.hopCount) && rp.lifetime == e.paths[0].expire - now && rp.firstHop == e.paths[0].lasthop
    && rp.bcastId == rq.bcastId && rp.timestamp == rq.timestamp && rp.ttl == NETWORK_DIAMETER
  }

  lemma AnswerTells(n: Node, rq: Request, seen: bool, now: real)
    requires rq.src in n.table && rq.dst != n.index && Live(n, rq.dst) && n.table[rq.dst].seqno >= rq.dstSeqno
    requires forall p :: p in n.table[rq.dst].paths ==> p.hopcount > 0
    requires Cached(n, rq.src, rq.bcastId) && !Replied(n, rq.src, rq.bcastId)
    ensures var r := Answer(n, rq, true, seen, now);
      && |r.sent| == 1 && r.sent[0].Rrep? && Tells(n, rq, now, r.sent[0].rp) && Noted(r.node, rq.dst)
      && Replied(r.node, rq.src, rq.bcastId)
  {
    VouchedForIs(n.table[rq.dst]);
    MarkedIsReplied(n, rq.src, rq.bcastId);
    hide Replied, MarkReplied, MaxHops, VouchedFor;
    SameCache(Answer(n, rq, true, seen, now).node, MarkReplied(n, rq.src, rq.bcastId), rq.src);
  }

  lemma {:induction false} MarkedIndex(cache: seq<Broadcast>, src: Addr, id: nat)
    requires CacheIndex(cache, src, id) < |cache|
    ensures var i := CacheIndex(cache, src, id); CacheIndex(cache[i := cache[i].(replied := true)], src, id) == i
  {
    var i := CacheIndex(cache, src, id);
    var cache' := cache[i := cache[i].(replied := true)];
    if i > 0 {
      MarkedIndex(cache[1..], src, id);
      assert cache'[1..] == cache[1..][i - 1 := cache[i].(replied := true)];
    }
  }

  lemma MarkedIsReplied(n: Node, src: Addr, id: nat)
    requires Cached(n, src, id)
    ensures var n' := MarkReplied(n, src, id); Replied(n', src, id) && n'.table == n.table && n'.index == n.index
  {
    MarkedIndex(n.cache, src, id);
  }

  /** A request with news of its source is answered by a node that knows a route, and only once. */
  lemma NewRequestIsAnswered(n: Node, rq: Request, now: real)
    requires rq.src != n.index && rq.dst != n.index && rq.src != rq.dst && News(n, rq.src, rq.srcSeqno)
    requires Knows(n, rq) && Live(n, rq.dst) && (forall p :: p in n.table[rq.dst].paths ==> p.hopcount > 0)
    requires !Replied(n, rq.src, rq.bcastId)
    ensures var r := RecvRequest(n, rq, now);
      && (exists rp :: Rrep(rp) in r.sent && Tells(n, rq, now, rp)) && (forall m :: m in r.sent ==> !m.Rreq?)
      && Noted(r.node, rq.dst) && Replied(r.node, rq.src, rq.bcastId)
  {
    TakenLeaves(n, rq, now);
    hide TakeRequest, Replied, Cached, VouchedFor, Answer;
    var n1 := TakeRequest(n, rq, now).0.node;
    var r2 := Answer(n1, Stamped(n, rq), true, Cached(n, rq.src, rq.bcastId), now);
    AnswerTells(n1, Stamped(n, rq), Cached(n, rq.src, rq.bcastId), now);
    assert r2.sent[0] in RecvRequest(n, rq, now).sent;
    assert Rrep(r2.sent[0].rp) in RecvRequest(n, rq, now).sent;
  }

  /** A copy is not passed on, and not answered from the table a second time. */
  lemma CopyIsNotRelayed(n: Node, rq: Request, now: real)
    requires Cached(n, rq.src, rq.bcastId)
    ensures var r := RecvRequest(n, rq, now);
      && (forall m :: m in r.sent ==> !m.Rreq?)
      && (Replied(n, rq.src, rq.bcastId) && rq.dst != n.index ==> forall m :: m in r.sent ==> m.Data?)
  {
    hide CacheIndex, MaxHops, Released, Held, Purged, Others;
  }

  /** Old news is ignored. */
  lemma StaleRequestIsIgnored(n: Node, rq: Request, now: real)
    requires var e := EntryOf(n, rq.src); e.seqno > rq.srcSeqno || (e.seqno == rq.srcSeqno && !Finite(rq.hopCount).Below(e.advertised))
    ensures var r := RecvRequest(n, rq, now); r.sent == [] && forall d :: EntryOf(r.node, d) == EntryOf(n, d)
  {
  }

  /** Which further copies a destination answers: those over a path it has, over a disjoint one that is not too much
  longer, or over one that shares its last hop with a stored path and is no longer than that. */
  ghost predicate WorthAnswering(n: Node, e: Entry, sender: Addr, hops: nat, first: Addr) {
    || (exists p :: p in e.paths && p.nexthop == sender && p.lasthop == first)
    || (Apart(e, sender, first) && forall p :: p in e.paths ==> hops - p.hopcount <= n.lengthDiff)
    || (!Apart(e, sender, first) && exists p :: p in e.paths && p.lasthop == first && hops <= p.hopcount)
  }

  lemma VerdictIs(n: Node, e: Entry, rq: Request, now: real)
    requires rq.dst == n.index && n.lengthDiff >= 0 && Disjoint(e.paths)
    requires e.seqno == rq.srcSeqno && Finite(rq.hopCount).Below(e.advertised) && e.paths != []
    requires forall p :: p in e.paths ==> p.hopcount <= INFINITY2
    ensures ReverseRoute(n, e, rq, now).1.Go? <==> WorthAnswering(n, e, rq.sender, rq.hopCount + 1, rq.firstHop)
  {
    if Apart(e, rq.sender, rq.firstHop) {
      ApartVerdict(n, e, rq, now);
      hide ReverseRoute;
    } else {
      hide MinHops, MaxHops;
      SharedVerdict(n, e, rq, now);
    }
  }

  lemma ApartVerdict(n: Node, e: Entry, rq: Request, now: real)
    requires rq.dst == n.index && n.lengthDiff >= 0 && Disjoint(e.paths)
    requires e.seqno == rq.srcSeqno && Finite(rq.hopCount).Below(e.advertised) && e.paths != []
    requires forall p :: p in e.paths ==> p.hopcount <= INFINITY2
    requires Apart(e, rq.sender, rq.firstHop)
    ensures ReverseRoute(n, e, rq, now).1.Go? <==> forall p :: p in e.paths ==> rq.hopCount + 1 - p.hopcount <= n.lengthDiff
  {
    var p := Path(rq.sender, rq.hopCount + 1, now + REV_ROUTE_LIFE, rq.firstHop);
    BetweenIsShared(e, rq.sender, rq.firstHop);
    ShortestIsStored(e.paths);
    ShorterWithMore(e.paths, p);
    hide MinHops, MaxHops, Between, NewDisjoint, Apart, Disjoint;
  }

  lemma SharedVerdict(n: Node, e: Entry, rq: Request, now: real)
    requires rq.dst == n.index && n.lengthDiff >= 0 && Disjoint(e.paths)
    requires e.seqno == rq.srcSeqno && Finite(rq.hopCount).Below(e.advertised) && e.paths != []
    requires forall p :: p in e.paths ==> p.hopcount <= INFINITY2
    requires !Apart(e, rq.sender, rq.firstHop)
    ensures ReverseRoute(n, e, rq, now).1.Go? <==>
              || (exists p :: p in e.paths && p.nexthop == rq.sender && p.lasthop == rq.firstHop)
              || (exists p :: p in e.paths && p.lasthop == rq.firstHop && rq.hopCount + 1 <= p.hopcount)
  {
    hide MinHops, MaxHops;
    var i := Between(e.paths, rq.sender, rq.firstHop);
    BetweenIsShared(e, rq.sender, rq.firstHop);
    if i < |e.paths| {
      assert e.paths[i] in e.paths;
    } else {
      var k := EndingAt(e.paths, rq.firstHop);
      if k < |e.paths| {
        assert e.paths[k] in e.paths;
        OnlyOneEnds(e.paths, k);
      }
      hide Apart, NewDisjoint, Disjoint;
    }
  }

  lemma OnlyOneEnds(paths: seq<Path>, k: nat)
    requires Disjoint(paths) && k < |paths|
    ensures forall p :: p in paths && p.lasthop == paths[k].lasthop ==> p == paths[k]
  {
  }

  lemma GoesOnIff(n: Node, rq: Request, now: real)
    requires rq.dst == n.index && rq.src != n.index && n.lengthDiff >= 0
    requires TellsMore(n, rq.src, rq.srcSeqno, rq.hopCount) && Disjoint(n.table[rq.src].paths)
    ensures var r := TakeRequest(n, rq, now);
      && (r.1.Go? <==> WorthAnswering(n, n.table[rq.src], rq.sender, rq.hopCount + 1, Stamped(n, rq).firstHop))
      && r.0.node.index == n.index && r.0.node.seqno == n.seqno && Silent(r.0.sent)
  {
    var rq1 := Stamped(n, rq);
    var n1 := CacheRequest(n, rq1, now);
    VerdictIs(n1, n.table[rq.src], rq1, now);
    hide ReverseRoute, CacheIndex, Released, Held, Purged, Others;
  }

  /** The destination answers a further copy of a request if and only if it is worth answering. */
  lemma TargetAnswersIff(n: Node, rq: Request, now: real)
    requires rq.dst == n.index && rq.src != n.index && n.lengthDiff >= 0
    requires TellsMore(n, rq.src, rq.srcSeqno, rq.hopCount) && Disjoint(n.table[rq.src].paths)
    ensures var r := RecvRequest(n, rq, now);
      && (Rrep(Reply0(n, rq)) in r.sent <==>
            WorthAnswering(n, n.table[rq.src], rq.sender, rq.hopCount + 1, Stamped(n, rq).firstHop))
      && forall m :: m in r.sent && m.Rrep? ==> m.rp == Reply0(n, rq)
  {
    GoesOnIff(n, rq, now);
    hide TakeRequest, WorthAnswering, CacheIndex, TellsMore, Disjoint;
    var t := TakeRequest(n, rq, now);
    if t.1.Go? {
      var r2 := Answer(t.0.node, Stamped(n, rq), t.1.reversePath, Cached(n, rq.src, rq.bcastId), now);
      assert r2.sent == [Rrep(Reply0(n, rq))];
    }
  }

  /** A copy that brings no further path, and is not heard over one that is stored, gets no answer from the table. */
  lemma SpareCopyIsNotAnswered(n: Node, rq: Request, now: real)
    requires rq.dst != n.index && TellsMore(n, rq.src, rq.srcSeqno, rq.hopCount)
    requires var first := Stamped(n, rq).firstHop; var e := n.table[rq.src];
      && (forall p :: p in e.paths ==> !(p.nexthop == rq.sender && p.lasthop == first))
      && !(Apart(e, rq.sender, first) && HasRoom(n, e, rq.hopCount + 1))
    ensures forall m :: m in RecvRequest(n, rq, now).sent ==> !m.Rrep?
  {
    var rq1 := Stamped(n, rq);
    var e, n1 := n.table[rq.src], CacheRequest(n, rq1, now);
    SpareVerdict(n1, e, rq1, now);
    hide ReverseRoute, CacheIndex, MaxHops, Released, Held, Purged, Others, HasRoom, Apart;
  }

  lemma SpareVerdict(n: Node, e: Entry, rq: Request, now: real)
    requires e.seqno == rq.srcSeqno && Finite(rq.hopCount).Below(e.advertised) && e.paths != []
    requires forall p :: p in e.paths ==> p.hopcount <= INFINITY2 && !(p.nexthop == rq.sender && p.lasthop == rq.firstHop)
    requires !(Apart(e, rq.sender, rq.firstHop) && HasRoom(n, e, rq.hopCount + 1))
    ensures ReverseRoute(n, e, rq, now).1 != Go(true)
  {
    RoomIs(n, e, rq.hopCount + 1);
    BetweenIsShared(e, rq.sender, rq.firstHop);
    hide HasRoom, Apart, NewDisjoint, MinHops, MaxHops;
  }

  /** A destination answers under its own number, raised past the one asked for if that was greater, and made even. */
  lemma AnswersUnderOwnNumber(n: Node, rq: Request, reversePath: bool, seen: bool, now: real)
    requires rq.src in n.table && rq.dst == n.index
    ensures var r := Answer(n, rq, reversePath, seen, now);
      && r.sent == [Rrep(Reply0(n, rq))] && r.node == n.(seqno := r.sent[0].rp.dstSeqno)
      && (var s := r.node.seqno;
          && s % 2 == 0 && s >= n.seqno && s >= rq.dstSeqno
          && (n.seqno >= rq.dstSeqno && n.seqno % 2 == 0 ==> s == n.seqno)
          && s <= Max(n.seqno, rq.dstSeqno + 1) + 1)
  {
  }

  // ---------- replies ----------

  /** A node that can take a reply back: it has a route to the source, and has seen the request but not answered it. */
  predicate OnTheWayBack(n: Node, rp: Reply) {
    n.index != rp.to && n.index != rp.dst && rp.to != rp.dst && Live(n, rp.to) && Cached(n, rp.to, rp.bcastId)
    && !Replied(n, rp.to, rp.bcastId)
  }

  /** A reply with news of the destination becomes the only path there, and is passed on along the first path back, one
  hop longer; what waited for the destination goes along the new path. */
  lemma NewReplyIsPassedOn(n: Node, rp: Reply, now: real)
    requires OnTheWayBack(n, rp) && News(n, rp.dst, rp.dstSeqno) && rp.ttl > 0
    ensures var r := RecvReply(n, rp, now);
      && Leads(r.node, rp.dst, rp.dstSeqno, rp.sender, rp.hopCount + 1, rp.firstHop) && Noted(r.node, rp.dst)
      && Rrep(rp.(sender := n.index, via := n.table[rp.to].paths[0].nexthop, hopCount := rp.hopCount + 1)) in r.sent
      && (forall p :: p in Held(Purged(n.buffer, now), rp.dst) && p.ttl != 0 && p.dst != n.index ==>
            Data(rp.sender, p) in r.sent)
      && SamePaths(n.table[rp.to].paths, r.node.table[rp.to].paths)
      && r.node.table[rp.to].paths[0].expire == now + ACTIVE_ROUTE_TIMEOUT
      && r.node.table[rp.dst].lastHopCount == rp.hopCount + 1 && Found(r.node.table[rp.dst])
  {
    ReplyTaken(n, rp, now);
    hide Refresh, Leads, Held, Purged, CacheIndex, Replied, Cached, PassReply, SamePath;
    var n2 := Taken(n, rp, now).node;
    PassedOn(n2, rp, now, n.table[rp.to].paths[0].nexthop);
  }

  /** The node once it has taken the path that a reply tells of, and what it then sends of what waited. */
  function Taken(n: Node, rp: Reply, now: real): Result {
    var p := Path(rp.sender, rp.hopCount + 1, now + rp.lifetime, rp.firstHop);
    Refresh(SetEntry(n, rp.dst, Restarted(EntryOf(n, rp.dst), rp.dstSeqno, p)), rp.dst, now)
  }

  lemma ReplyTaken(n: Node, rp: Reply, now: real)
    requires OnTheWayBack(n, rp) && News(n, rp.dst, rp.dstSeqno)
    ensures rp.dst in Taken(n, rp, now).node.table
    ensures var r1 := Taken(n, rp, now); var r2 := PassReply(r1.node, rp, now);
      && RecvReply(n, rp, now) == Result(r2.node, r1.sent + r2.sent)
      && OnTheWayBack(r1.node, rp) && r1.node.index == n.index && r1.node.table[rp.to] == n.table[rp.to]
      && Leads(r1.node, rp.dst, rp.dstSeqno, rp.sender, rp.hopCount + 1, rp.firstHop)
      && r1.node.table[rp.dst].advertised == Infinity && r1.node.table[rp.dst].lastHopCount == rp.hopCount + 1
      && Found(r1.node.table[rp.dst])
      && forall p :: p in Held(Purged(n.buffer, now), rp.dst) && p.ttl != 0 && p.dst != n.index ==> Data(rp.sender, p) in r1.sent
  {
    hide MaxHops, CacheIndex, Replied, Cached, PassReply;
    var p := Path(rp.sender, rp.hopCount + 1, now + rp.lifetime, rp.firstHop);
    var e := Restarted(EntryOf(n, rp.dst), rp.dstSeqno, p);
    var pkts := Held(Purged(n.buffer, now), rp.dst);
    OnePath(p);
    ReleasedKeeps(Settled(e), n.index, pkts, now);
    ReleasedSame(Settled(e), n.index, pkts, now);
    ReleasedAre(Settled(e), n.index, pkts, now);
    hide Released, Held, Purged, Others;
    SameCache(Taken(n, rp, now).node, n, rp.to);
  }

  lemma PassedOn(n: Node, rp: Reply, now: real, back: Addr)
    requires OnTheWayBack(n, rp) && Leads(n, rp.dst, rp.dstSeqno, rp.sender, rp.hopCount + 1, rp.firstHop) && rp.ttl > 0
    requires n.table[rp.dst].advertised == Infinity && n.table[rp.to].paths[0].nexthop == back
    ensures var r := PassReply(n, rp, now);
      && Leads(r.node, rp.dst, rp.dstSeqno, rp.sender, rp.hopCount + 1, rp.firstHop) && Noted(r.node, rp.dst)
      && r.sent == [Rrep(rp.(sender := n.index, via := back, hopCount := rp.hopCount + 1))]
      && r.node.table[rp.dst].lastHopCount == n.table[rp.dst].lastHopCount
      && (Found(n.table[rp.dst]) ==> Found(r.node.table[rp.dst]))
      && r.node.table[rp.to].paths[0].expire == now + ACTIVE_ROUTE_TIMEOUT
      && rp.to in r.node.table && SamePaths(n.table[rp.to].paths, r.node.table[rp.to].paths)
      && Replied(r.node, rp.to, rp.bcastId)
  {
    var e := n.table[rp.dst];
    OnePath(e.paths[0]);
    assert e.paths == [e.paths[0]];
    MarkedIsReplied(n, rp.to, rp.bcastId);
    hide MaxHops, CacheIndex, Replied, Cached, MarkReplied;
    SameCache(PassReply(n, rp, now).node, MarkReplied(n, rp.to, rp.bcastId), rp.to);
  }

  /** One reply to a request is passed on, however many come. */
  lemma RepliedIsNotPassedOn(n: Node, rp: Reply, now: real)
    requires Replied(n, rp.to, rp.bcastId) || !Cached(n, rp.to, rp.bcastId)
    ensures forall m :: m in RecvReply(n, rp, now).sent ==> m.Data?
  {
    hide CacheIndex, MaxHops, Released, Held, Purged, Others;
  }

  /** Old news is ignored. */
  lemma StaleReplyIsIgnored(n: Node, rp: Reply, now: real)
    requires var e := EntryOf(n, rp.dst); e.seqno > rp.dstSeqno || (e.seqno == rp.dstSeqno && !Finite(rp.hopCount).Below(e.advertised))
    ensures var r := RecvReply(n, rp, now); r.sent == [] && forall d :: EntryOf(r.node, d) == EntryOf(n, d)
  {
  }

  /** A hello makes its sender a neighbour, and a destination one hop away. */
  lemma HelloMakesNeighbour(n: Node, sender: Addr, seqno: nat, now: real, perHop: Addr -> real)
    requires sender != n.index
    ensures var n' := Recv(n, Hello(sender, seqno), now, perHop).node;
      && n'.neighbours == HeardNeighbour(n, sender, now).neighbours
      && (News(n, sender, seqno) ==> Leads(n', sender, seqno, sender, 1, n.index))
  {
    var n1 := HeardNeighbour(n, sender, now);
    var rp := HelloReply(n, sender, seqno);
    assert n1.table == n.table && n1.index == n.index;
    hide HeardNeighbour;
    if News(n, sender, seqno) {
      SourceSends(n1, rp, now);
    }
    NeighboursStay(n1, rp, now);
  }

  lemma NeighboursStay(n: Node, rp: Reply, now: real)
    ensures RecvReply(n, rp, now).node.neighbours == n.neighbours
  {
    hide CacheIndex, MaxHops, Released, Held, Purged, Others;
  }

  /** A node says hello, under its own number, while it has a route that is up, and not otherwise. */
  lemma SaysHelloIff(n: Node)
    ensures (exists d :: Usable(n, d)) ==> SendHello(n) == [Hello(n.index, n.seqno)]
    ensures SendHello(n) != [] ==> exists d :: Usable(n, d)
  {
    if d :| Usable(n, d) {
      assert d in n.table && n.table[d].flags == Up;
    } else if d :| d in n.table && n.table[d].flags == Up {
      assert Usable(n, d);
    }
  }

  predicate Usable(n: Node, d: Addr) {
    d in n.table && n.table[d].flags == Up
  }
}
