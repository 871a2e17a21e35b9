/** The AOMDV agent, in its node-disjoint configuration, as a function of its state. */
module AomdvSpec {
  import opened Routing
  import opened BufferSpec
  import opened RingSearch
  import opened AomdvPaths

  datatype Flags = Down | Up

  /** A route table entry (aomdv_rt_entry); `advertised` is the hop count the node vouches for. */
  datatype Entry = Entry(
    seqno: nat,
    advertised: Hops,
    paths: seq<Path>,
    highestHeard: nat,
    error: bool,
    lastHopCount: nat,
    flags: Flags,
    expire: real,
    reqTimeout: real,
    reqCnt: nat,
    reqLastTtl: nat)
  {
    function Freshness(): Rank {
      Rank(seqno, advertised)
    }
  }

  /** A request already seen; `replied` is the count that limits answers to one. */
  datatype Broadcast = Broadcast(src: Addr, id: nat, expire: real, replied: bool)

  datatype Neighbour = Neighbour(addr: Addr, expire: real)

  datatype Request = Request(sender: Addr, hopCount: nat, bcastId: nat, dst: Addr, dstSeqno: nat,
                             src: Addr, srcSeqno: nat, firstHop: Addr, timestamp: real, ttl: int)

  datatype Reply = Reply(sender: Addr, to: Addr, via: Addr, hopCount: nat, dst: Addr, dstSeqno: nat,
                         lifetime: real, timestamp: real, bcastId: nat, firstHop: Addr, ttl: int)

  datatype Msg =
    | Rreq(rq: Request)
    | Rrep(rp: Reply)
    | Hello(sender: Addr, seqno: nat)
    | Rerr(from: Addr, unreachable: map<Addr, nat>)
    | Data(via: Addr, packet: Packet)

  datatype Node = Node(
    index: Addr,
    seqno: nat,
    bid: nat,
    table: map<Addr, Entry>,
    cache: seq<Broadcast>,
    neighbours: seq<Neighbour>,
    buffer: seq<Buffered>,
    maxPaths: int,
    lengthDiff: int)

  datatype Result = Result(node: Node, sent: seq<Msg>)

  const MAX_RREQ_TIMEOUT: real := 1.0
  const MY_ROUTE_TIMEOUT: real := 10.0
  const ACTIVE_ROUTE_TIMEOUT: real := 10.0
  const REV_ROUTE_LIFE: real := 6.0
  const BCAST_ID_SAVE: real := 6.0
  const HELLO_INTERVAL: real := 1.0
  const ALLOWED_HELLO_LOSS: real := 3.0

  const NewEntry := Entry(0, Infinity, [], 0, false, INFINITY2, Down, 0.0, 0.0, 0, 0)

  function NewNode(index: Addr, maxPaths: int, lengthDiff: int): Node {
    Node(index, 2, 1, map[], [], [], [], maxPaths, lengthDiff)
  }

  function HopNumber(h: Hops): nat {
    if h.Finite? then h.n else INFINITY2
  }

  function EntryOf(n: Node, d: Addr): Entry {
    if d in n.table then n.table[d] else NewEntry
  }

  function SetEntry(n: Node, d: Addr, e: Entry): Node {
    n.(table := n.table[d := e])
  }

  /** path_find: the oldest path. An entry that is up has one; the value for an empty list is never used. */
  function FirstPath(e: Entry): Path {
    if e.paths == [] then Path(0, 0, 0.0, 0) else e.paths[0]
  }

  function FirstExpires(e: Entry, t: real): Entry {
    if e.paths == [] then e else e.(paths := e.paths[0 := e.paths[0].(expire := t)])
  }

  /** A newer sequence number: forget every path and start again from `p`. */
  function Restarted(e: Entry, seqno: nat, p: Path): Entry {
    e.(seqno := seqno, advertised := Infinity, paths := [p], flags := Up, lastHopCount := HopNumber(MaxHops([p])))
  }

  function Extended(e: Entry, p: Path): Entry {
    e.(paths := e.paths + [p], lastHopCount := HopNumber(MaxHops(e.paths + [p])))
  }

  function Prolonged(e: Entry, i: nat, t: real): Entry
    requires i < |e.paths|
  {
    e.(paths := e.paths[i := e.paths[i].(expire := MaxReal(e.paths[i].expire, t))])
  }

  /** The advertised hop count is fixed the first time the route is advertised. */
  function Advertised(e: Entry): Entry {
    if e.advertised == Infinity then e.(advertised := MaxHops(e.paths)) else e
  }

  /** rt_down */
  function Downed(e: Entry): Entry {
    if e.flags == Down then e else e.(flags := Down, advertised := Infinity, paths := [], expire := 0.0)
  }

  function Settled(e: Entry): Entry {
    e.(reqTimeout := 0.0, reqLastTtl := 0, reqCnt := 0)
  }

  // ---------- broadcast ids and neighbours ----------

  /** Position of a request in the cache, or the length of the cache. */
  function CacheIndex(cache: seq<Broadcast>, src: Addr, id: nat): (i: nat)
    ensures i <= |cache|
    ensures i < |cache| ==> cache[i].src == src && cache[i].id == id
  {
    if cache == [] || (cache[0].src == src && cache[0].id == id) then 0 else 1 + CacheIndex(cache[1..], src, id)
  }

  predicate Cached(n: Node, src: Addr, id: nat) {
    CacheIndex(n.cache, src, id) < |n.cache|
  }

  /** Known and already answered once. */
  predicate Replied(n: Node, src: Addr, id: nat) {
    Cached(n, src, id) && n.cache[CacheIndex(n.cache, src, id)].replied
  }

  function MarkReplied(n: Node, src: Addr, id: nat): Node {
    var i := CacheIndex(n.cache, src, id);
    if i < |n.cache| then n.(cache := n.cache[i := n.cache[i].(replied := true)]) else n
  }

  function CacheKept(cache: seq<Broadcast>, now: real): seq<Broadcast> {
    if cache == [] then []
    else (if cache[0].expire <= now then [] else [cache[0]]) + CacheKept(cache[1..], now)
  }

  function IdPurge(n: Node, now: real): Node {
    n.(cache := CacheKept(n.cache, now))
  }

  function NeighbourIndex(nbs: seq<Neighbour>, id: Addr): (i: nat)
    ensures i <= |nbs|
    ensures i < |nbs| ==> nbs[i].addr == id
  {
    if nbs == [] || nbs[0].addr == id then 0 else 1 + NeighbourIndex(nbs[1..], id)
  }

  function HeardNeighbour(n: Node, id: Addr, now: real): Node {
    var i := NeighbourIndex(n.neighbours, id);
    if i < |n.neighbours| then
      var until := now + 1.5 * ALLOWED_HELLO_LOSS * HELLO_INTERVAL;
      n.(neighbours := n.neighbours[i := n.neighbours[i].(expire := until)])
    else n.(neighbours := [Neighbour(id, now + HELLO_INTERVAL * ALLOWED_HELLO_LOSS)] + n.neighbours)
  }

  // ---------- sending ----------

  /** forward() applied to each buffered packet. */
  function Released(e: Entry, index: Addr, pkts: seq<Packet>, now: real): (r: (Entry, seq<Msg>))
    ensures |r.0.paths| == |e.paths|
    ensures forall m :: m in r.1 ==> m.Data?
    decreases |pkts|
  {
    if pkts == [] then (e, [])
    else if pkts[0].ttl == 0 || pkts[0].dst == index then Released(e, index, pkts[1..], now)
    else
      var e1 := FirstExpires(e, now + ACTIVE_ROUTE_TIMEOUT);
      var e2 := if pkts[0].src != index then e1.(error := true) else e1;
      var rest := Released(e2, index, pkts[1..], now);
      (rest.0, [Data(FirstPath(e).nexthop, pkts[0])] + rest.1)
  }

  function Release(n: Node, d: Addr, now: real): Result
    requires d in n.table
  {
    var live := Purged(n.buffer, now);
    var r := Released(n.table[d], n.index, Held(live, d), now);
    Result(SetEntry(n, d, r.0).(buffer := Others(live, d)), r.1)
  }

  function Requested(e: Entry, now: real, perHop: real): Entry {
    var lastTtl := Max(e.reqLastTtl, e.lastHopCount);
    var ttl := NextTtl(lastTtl);
    var cnt := if lastTtl < TTL_THRESHOLD then e.reqCnt else e.reqCnt + 1;
    e.(reqLastTtl := ttl, reqCnt := cnt, reqTimeout := RequestTimeout(ttl, cnt, perHop, now, MAX_RREQ_TIMEOUT),
       expire := 0.0)
  }

  function SendRequest(n: Node, d: Addr, now: real, perHop: Addr -> real): Result
    requires d in n.table
  {
    var e := n.table[d];
    if e.flags == Up || e.reqTimeout > now then Result(n, [])
    else if e.reqCnt > RREQ_RETRIES then
      Result(SetEntry(n, d, e.(reqTimeout := now + MAX_RREQ_TIMEOUT, reqCnt := 0))
             .(buffer := Others(Purged(n.buffer, now), d)), [])
    else
      var e' := Requested(e, now, perHop(d));
      Result(SetEntry(n, d, e').(seqno := n.seqno + 2, bid := n.bid + 1),
             [Rreq(Request(n.index, 0, n.bid, d, e.seqno, n.index, n.seqno + 2, 0, now, e'.reqLastTtl))])
  }

  // ---------- receiving requests ----------

  /** What becomes of a request once the reverse route has been looked at. */
  datatype Verdict = Stop | Go(reversePath: bool)

  /** The reverse-route half of recvRequest, on the entry for the source. */
  function ReverseRoute(n: Node, e: Entry, rq: Request, now: real): (Entry, Verdict) {
    var p := Path(rq.sender, rq.hopCount + 1, now + REV_ROUTE_LIFE, rq.firstHop);
    if e.seqno < rq.srcSeqno then (Restarted(e, rq.srcSeqno, p), Go(true))
    else if e.seqno == rq.srcSeqno && Finite(rq.hopCount).Below(e.advertised) then
      var i := Between(e.paths, rq.sender, rq.firstHop);
      if i < |e.paths| then (Prolonged(e, i, now + REV_ROUTE_LIFE), Go(true))
      else if NewDisjoint(e.paths, rq.sender, rq.firstHop) then
        var room := |e.paths| < n.maxPaths && p.hopcount - MinHops(e.paths) <= n.lengthDiff;
        var e1 := if room then Extended(e, p) else e;
        (e1, if p.hopcount - MinHops(e1.paths) > n.lengthDiff then Stop else Go(room))
      else
        var k := EndingAt(e.paths, rq.firstHop);
        (e, if rq.dst == n.index && (k == |e.paths| || p.hopcount > e.paths[k].hopcount) then Stop else Go(false))
    else (e, Stop)
  }

  /** Reset the request state of a route that is up and send what was waiting for it. */
  function Refresh(n: Node, d: Addr, now: real): Result
    requires d in n.table
  {
    if n.table[d].flags == Up then Release(SetEntry(n, d, Settled(n.table[d])), d, now) else Result(n, [])
  }

  function ReplySeqno(own: nat, asked: nat): nat {
    var s := if own < asked then asked + 1 else own;
    if s % 2 == 1 then s + 1 else s
  }

  /** The second half of recvRequest. */
  function Answer(n: Node, rq: Request, reversePath: bool, seen: bool, now: real): Result
    requires rq.src in n.table
  {
    if rq.dst == n.index then
      var s := ReplySeqno(n.seqno, rq.dstSeqno);
      Result(n.(seqno := s), [Rrep(Reply(n.index, rq.src, rq.sender, 0, n.index, s, MY_ROUTE_TIMEOUT, rq.timestamp,
                                         rq.bcastId, rq.sender, NETWORK_DIAMETER))])
    else if rq.dst in n.table && n.table[rq.dst].flags == Up && n.table[rq.dst].seqno >= rq.dstSeqno then
      if reversePath && !Replied(n, rq.src, rq.bcastId) then
        var e := Advertised(n.table[rq.dst]).(error := true);
        Result(SetEntry(MarkReplied(n, rq.src, rq.bcastId), rq.dst, e),
               [Rrep(Reply(n.index, rq.src, rq.sender, HopNumber(e.advertised), rq.dst, e.seqno,
                           FirstPath(e).expire - now, rq.timestamp, rq.bcastId, FirstPath(e).lasthop,
                           NETWORK_DIAMETER))])
      else Result(n, [])
    else if seen then Result(n, [])
    else
      var asked := if rq.dst in n.table then Max(n.table[rq.dst].seqno, rq.dstSeqno) else rq.dstSeqno;
      var e := Advertised(n.table[rq.src]);
      Result(SetEntry(n, rq.src, e),
             if rq.ttl == 0 then []
             else [Rreq(rq.(sender := n.index, hopCount := HopNumber(e.advertised), dstSeqno := asked,
                            firstHop := FirstPath(e).lasthop))])
  }

  /** The node stamps itself as first hop on a request straight from its source. */
  function Stamped(n: Node, rq: Request): Request {
    if rq.hopCount == 0 then rq.(firstHop := n.index) else rq
  }

  function CacheRequest(n: Node, rq: Request, now: real): Node {
    if Cached(n, rq.src, rq.bcastId) then n
    else n.(cache := [Broadcast(rq.src, rq.bcastId, now + BCAST_ID_SAVE, false)] + n.cache)
  }

  /** recvRequest up to the point where the reverse route is in place, and whether it goes on from there. */
  function TakeRequest(n: Node, rq0: Request, now: real): (r: (Result, Verdict))
    ensures rq0.src in r.0.node.table
  {
    var rq := Stamped(n, rq0);
    var n1 := CacheRequest(n, rq, now);
    var rr := ReverseRoute(n1, EntryOf(n1, rq.src), rq, now);
    var n2 := SetEntry(n1, rq.src, rr.0);
    if rr.1.Stop? then (Result(n2, []), Stop) else (Refresh(n2, rq.src, now), rr.1)
  }

  function RecvRequest(n: Node, rq: Request, now: real): Result {
    if rq.src == n.index then Result(n, [])
    else
      var (r1, go) := TakeRequest(n, rq, now);
      if go.Stop? then r1
      else
        var r2 := Answer(r1.node, Stamped(n, rq), go.reversePath, Cached(n, rq.src, rq.bcastId), now);
        Result(r2.node, r1.sent + r2.sent)
  }

  // ---------- receiving replies ----------

  /** The forward-route half of recvReply, on the entry for the destination. */
  function ForwardRoute(n: Node, e: Entry, rp: Reply, now: real): (Entry, Verdict) {
    var p := Path(rp.sender, rp.hopCount + 1, now + rp.lifetime, rp.firstHop);
    if e.seqno < rp.dstSeqno then (Restarted(e, rp.dstSeqno, p), Go(true))
    else if e.seqno == rp.dstSeqno && Finite(rp.hopCount).Below(e.advertised) then
      var i := Between(e.paths, rp.sender, rp.firstHop);
      if i < |e.paths| then (Prolonged(e, i, now + rp.lifetime), Go(true))
      else if NewDisjoint(e.paths, rp.sender, rp.firstHop) && |e.paths| < n.maxPaths
              && p.hopcount - MinHops(e.paths) <= n.lengthDiff then (Extended(e, p), Go(true))
      else (e, Stop)
    else (e, Stop)
  }

  function PassReply(n: Node, rp: Reply, now: real): Result
    requires rp.dst in n.table
  {
    if rp.to !in n.table || n.table[rp.to].flags != Up || !Cached(n, rp.to, rp.bcastId) || Replied(n, rp.to, rp.bcastId)
    then Result(n, [])
    else
      var e := Advertised(n.table[rp.dst]);
      var n1 := SetEntry(MarkReplied(n, rp.to, rp.bcastId), rp.dst, e);
      var back := FirstPath(n1.table[rp.to]).nexthop;
      var n2 := SetEntry(n1, rp.to, FirstExpires(n1.table[rp.to], now + ACTIVE_ROUTE_TIMEOUT));
      Result(SetEntry(n2, rp.dst, n2.table[rp.dst].(error := true)),
             if rp.ttl == 0 then []
             else [Rrep(rp.(sender := n.index, via := back, hopCount := HopNumber(e.advertised),
                            firstHop := FirstPath(e).lasthop))])
  }

  function RecvReply(n: Node, rp: Reply, now: real): Result {
    if rp.dst == n.index then Result(n, [])
    else
      var fr := ForwardRoute(n, EntryOf(n, rp.dst), rp, now);
      var n1 := SetEntry(n, rp.dst, fr.0);
      if fr.1.Stop? then Result(n1, [])
      else
        var r1 := Refresh(n1, rp.dst, now);
        if rp.to == n.index then r1
        else
          var r2 := PassReply(r1.node, rp, now);
          Result(r2.node, r1.sent + r2.sent)
  }

  /** A hello is a zero-hop reply about its sender, addressed to whoever hears it. */
  function HelloReply(n: Node, sender: Addr, seqno: nat): Reply {
    Reply(sender, n.index, n.index, 0, sender, seqno, (1.0 + ALLOWED_HELLO_LOSS) * HELLO_INTERVAL, 0.0, 0, n.index, 0)
  }

  function RecvHello(n: Node, sender: Addr, seqno: nat, now: real): Result {
    RecvReply(HeardNeighbour(n, sender, now), HelloReply(n, sender, seqno), now)
  }

  function SendHello(n: Node): seq<Msg> {
    if exists d :: d in n.table && n.table[d].flags == Up then [Hello(n.index, n.seqno)] else []
  }

  // ---------- errors and failures ----------

  function SendError(index: Addr, unreachable: map<Addr, nat>): seq<Msg> {
    if unreachable == map[] then [] else [Rerr(index, unreachable)]
  }

  predicate Uses(e: Entry, id: Addr) {
    e.flags == Up && Via(e.paths, id) < |e.paths|
  }

  /** An entry after losing its path through `id`: down, past every number heard, when that was the last one. */
  function Lost(e: Entry, id: Addr): Entry {
    if !Uses(e, id) then e
    else
      var left := Without(e.paths, id);
      if left != [] then e.(paths := left)
      else Downed(e.(paths := left, seqno := Max(e.seqno + 1, e.highestHeard), error := false))
  }

  predicate ReportsLoss(e: Entry, id: Addr) {
    Uses(e, id) && Without(e.paths, id) == [] && e.error
  }

  function LostTable(table: map<Addr, Entry>, id: Addr): map<Addr, Entry> {
    map d | d in table :: Lost(table[d], id)
  }

  function LossReport(table: map<Addr, Entry>, id: Addr): map<Addr, nat> {
    map d | d in table && ReportsLoss(table[d], id) :: Lost(table[d], id).seqno
  }

  function HandleLinkFailure(n: Node, id: Addr): Result {
    Result(n.(table := LostTable(n.table, id)), SendError(n.index, LossReport(n.table, id)))
  }

  predicate Hit(e: Entry, from: Addr, q: nat) {
    Uses(e, from) && e.seqno <= q
  }

  function Errored(e: Entry, from: Addr, q: nat): Entry {
    if !Hit(e, from, q) then e
    else
      var left := Without(e.paths, from);
      var heard := Max(e.highestHeard, q);
      if left != [] then e.(paths := left, highestHeard := heard)
      else Downed(e.(paths := left, highestHeard := heard, seqno := heard)).(error := false)
  }

  predicate ReportsError(e: Entry, from: Addr, q: nat) {
    Hit(e, from, q) && Without(e.paths, from) == [] && e.error
  }

  function ErroredTable(table: map<Addr, Entry>, from: Addr, unreachable: map<Addr, nat>): map<Addr, Entry> {
    map d | d in table :: if d in unreachable then Errored(table[d], from, unreachable[d]) else table[d]
  }

  function ErrorReport(table: map<Addr, Entry>, from: Addr, unreachable: map<Addr, nat>): map<Addr, nat> {
    map d | d in table && d in unreachable && ReportsError(table[d], from, unreachable[d])
      :: Errored(table[d], from, unreachable[d]).seqno
  }

  function RecvError(n: Node, from: Addr, unreachable: map<Addr, nat>): Result {
    Result(n.(table := ErroredTable(n.table, from, unreachable)),
           SendError(n.index, ErrorReport(n.table, from, unreachable)))
  }

  /** A data packet that waits in the interface queue for a neighbour, and how often it has been salvaged. */
  datatype Stuck = Stuck(packet: Packet, salvaged: nat)

  const MAX_SALVAGE_COUNT: nat := 10

  /** Another path for a stuck packet, if its destination still has one. */
  predicate Salvageable(n: Node, s: Stuck) {
    s.packet.dst in n.table && n.table[s.packet.dst].flags == Up && s.salvaged < MAX_SALVAGE_COUNT
  }

  function SalvageOne(n: Node, s: Stuck, now: real): Result {
    if Salvageable(n, s) then
      var r := Released(n.table[s.packet.dst], n.index, [s.packet], now);
      Result(SetEntry(n, s.packet.dst, r.0), r.1)
    else Result(n, [])
  }

  /** The salvaging loop of nb_delete, over what the interface queue gives up; the rest is dropped. */
  function Salvage(n: Node, stuck: seq<Stuck>, now: real): Result
    decreases |stuck|
  {
    if stuck == [] then Result(n, [])
    else
      var r1 := SalvageOne(n, stuck[0], now);
      var r2 := Salvage(r1.node, stuck[1..], now);
      Result(r2.node, r1.sent + r2.sent)
  }

  /** nb_delete up to its handle_link_failure */
  function NeighbourRemoved(n: Node, id: Addr): Node {
    var i := NeighbourIndex(n.neighbours, id);
    n.(seqno := n.seqno + 2,
       neighbours := if i < |n.neighbours| then n.neighbours[..i] + n.neighbours[i + 1..] else n.neighbours)
  }

  /** nb_delete */
  function NeighbourLost(n: Node, id: Addr, stuck: seq<Stuck>, now: real): Result {
    var r1 := HandleLinkFailure(NeighbourRemoved(n, id), id);
    var r2 := Salvage(r1.node, stuck, now);
    Result(r2.node, r1.sent + r2.sent)
  }

  /** nb_purge over the neighbours found expired, in order. */
  function NeighboursLost(n: Node, ids: seq<Addr>, stuck: Addr -> seq<Stuck>, now: real): Result
    decreases |ids|
  {
    if ids == [] then Result(n, [])
    else
      var r1 := NeighbourLost(n, ids[0], stuck(ids[0]), now);
      var r2 := NeighboursLost(r1.node, ids[1..], stuck, now);
      Result(r2.node, r1.sent + r2.sent)
  }

  function Expired(nbs: seq<Neighbour>, now: real): seq<Addr> {
    if nbs == [] then []
    else (if nbs[0].expire <= now then [nbs[0].addr] else []) + Expired(nbs[1..], now)
  }

  /** The number a route takes when its last path has expired. */
  function PastNumber(e: Entry): nat {
    var s := Max(e.seqno + 1, e.highestHeard);
    if s % 2 == 0 then s + 1 else s
  }

  function PurgeEntry(n: Node, d: Addr, now: real, perHop: Addr -> real): Result
    requires d in n.table
  {
    var e := n.table[d];
    if e.flags == Up && e.expire < now then
      var live := LivePaths(e.paths, now);
      if live == [] then
        Result(SetEntry(n, d, Downed(e.(paths := live, seqno := PastNumber(e))))
               .(buffer := Others(Purged(n.buffer, now), d)), [])
      else Result(SetEntry(n, d, e.(paths := live)), [])
    else if e.flags == Up then Release(n, d, now)
    else if Holds(n.buffer, d) then SendRequest(n, d, now, perHop)
    else Result(n, [])
  }

  function RtPurge(n: Node, order: seq<Addr>, now: real, perHop: Addr -> real): Result
    requires forall d :: d in order ==> d in n.table
    decreases |order|
  {
    if order == [] then Result(n, [])
    else
      var r1 := PurgeEntry(n, order[0], now, perHop);
      var r2 := RtPurge(r1.node, order[1..], now, perHop);
      Result(r2.node, r1.sent + r2.sent)
  }

  // ---------- data packets ----------

  function RtResolve(n: Node, p: Packet, now: real, perHop: Addr -> real): Result {
    var n1 := SetEntry(n, p.dst, EntryOf(n, p.dst));
    var e := n1.table[p.dst];
    if e.flags == Up then
      var r := Released(e, n.index, [p], now);
      Result(SetEntry(n1, p.dst, r.0), r.1)
    else if p.src == n.index then
      SendRequest(n1.(buffer := Enqueued(n.buffer, p, now)), p.dst, now, perHop)
    else Result(n1, [Rerr(n.index, map[p.dst := e.seqno])])
  }

  function RecvData(n: Node, p: Packet, now: real, perHop: Addr -> real): Result {
    if p.src == n.index && p.forwards == 0 then RtResolve(n, p.(ttl := NETWORK_DIAMETER), now, perHop)
    else if p.src == n.index || p.ttl - 1 == 0 then Result(n, [])
    else RtResolve(n, p.(ttl := p.ttl - 1), now, perHop)
  }

  function Recv(n: Node, m: Msg, now: real, perHop: Addr -> real): Result {
    match m
    case Rreq(rq) => RecvRequest(n, rq.(ttl := rq.ttl - 1), now)
    case Rrep(rp) => RecvReply(n, rp.(ttl := rp.ttl - 1), now)
    case Hello(sender, seqno) => RecvHello(n, sender, seqno, now)
    case Rerr(from, unreachable) => RecvError(n, from, unreachable)
    case Data(_, p) => RecvData(n, p, now, perHop)
  }
}
