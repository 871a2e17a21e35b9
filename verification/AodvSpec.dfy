/** The AODV agent as a function of its state: what each handler changes and what it sends. */
module AodvSpec {
  import opened Routing
  import opened BufferSpec
  import opened RingSearch

  datatype Flags = Down | Up | InRepair

  /** A route table entry (aodv_rt_entry). */
  datatype Entry = Entry(
    seqno: nat,
    hops: Hops,
    lastHopCount: nat,
    nexthop: Addr,
    flags: Flags,
    precursors: set<Addr>,
    expire: real,
    reqTimeout: real,
    reqCnt: nat,
    reqLastTtl: nat)
  {
    function Freshness(): Rank {
      Rank(seqno, hops)
    }
  }

  datatype Broadcast = Broadcast(src: Addr, id: nat, expire: real)

  /** A route request in flight; `sender` is the node that last broadcast it. */
  datatype Request = Request(sender: Addr, hopCount: nat, bcastId: nat, dst: Addr, dstSeqno: nat,
                             src: Addr, srcSeqno: nat, timestamp: real, ttl: int)

  /** A route reply travelling to `to`, last sent by `sender` to its neighbour `via`. */
  datatype Reply = Reply(sender: Addr, to: Addr, via: Addr, hopCount: nat, dst: Addr, dstSeqno: nat,
                         lifetime: nat, timestamp: real, ttl: int)

  datatype Msg =
    | Rreq(rq: Request)
    | Rrep(rp: Reply)
    | Rerr(sender: Addr, unreachable: map<Addr, nat>)
    | Data(via: Addr, packet: Packet)

  datatype Node = Node(
    index: Addr,
    seqno: nat,
    bid: nat,
    table: map<Addr, Entry>,
    heard: seq<Broadcast>,
    buffer: seq<Buffered>)

  /** The state a handler leaves and the messages it hands to the link layer, in order. */
  datatype Result = Result(node: Node, sent: seq<Msg>)

  const INFINITY2: nat := 0xff
  const MAX_RREQ_TIMEOUT: real := 10.0
  const MY_ROUTE_TIMEOUT: nat := 10
  const ACTIVE_ROUTE_TIMEOUT: real := 10.0
  const REV_ROUTE_LIFE: real := 6.0
  const BCAST_ID_SAVE: real := 6.0

  const NewEntry := Entry(0, Infinity, INFINITY2, 0, Down, {}, 0.0, 0.0, 0, 0)

  function NewNode(index: Addr): Node {
    Node(index, 2, 1, map[], [], [])
  }

  function HopNumber(h: Hops): nat {
    if h.Finite? then h.n else INFINITY2
  }

  /** Conversion of a remaining lifetime to the unsigned field of a reply. */
  function Seconds(t: real): nat {
    if t <= 0.0 then 0 else t.Floor
  }

  // ---------- single entries ----------

  function EntryOf(n: Node, d: Addr): Entry {
    if d in n.table then n.table[d] else NewEntry
  }

  function SetEntry(n: Node, d: Addr, e: Entry): Node {
    n.(table := n.table[d := e])
  }

  /** rt_update */
  function Updated(e: Entry, seqno: nat, hops: nat, nexthop: Addr, expire: real): Entry {
    e.(seqno := seqno, hops := Finite(hops), flags := Up, nexthop := nexthop, expire := expire)
  }

  /** rt_down: a route is brought down once only. */
  function Downed(e: Entry): Entry {
    if e.flags == Down then e
    else e.(lastHopCount := HopNumber(e.hops), hops := Infinity, flags := Down, nexthop := 0, expire := 0.0)
  }

  predicate Heard(n: Node, src: Addr, id: nat) {
    exists i :: 0 <= i < |n.heard| && n.heard[i].src == src && n.heard[i].id == id
  }

  function HeardKept(heard: seq<Broadcast>, now: real): seq<Broadcast> {
    if heard == [] then []
    else (if heard[0].expire <= now then [] else [heard[0]]) + HeardKept(heard[1..], now)
  }

  /** id_purge */
  function IdPurge(n: Node, now: real): Node {
    n.(heard := HeardKept(n.heard, now))
  }

  // ---------- sending ----------

  /** forward() applied to each buffered packet of a destination whose route is up. */
  function Released(e: Entry, index: Addr, pkts: seq<Packet>, now: real): (r: (Entry, seq<Msg>))
    ensures r.0 == e.(expire := r.0.expire)
    ensures forall m :: m in r.1 ==> m.Data?
    decreases |pkts|
  {
    if pkts == [] then (e, [])
    else if pkts[0].ttl == 0 || pkts[0].dst == index then Released(e, index, pkts[1..], now)
    else
      var rest := Released(e.(expire := now + ACTIVE_ROUTE_TIMEOUT), index, pkts[1..], now);
      (rest.0, [Data(e.nexthop, pkts[0])] + rest.1)
  }

  /** Forward everything buffered for `d` along its entry. */
  function Release(n: Node, d: Addr, now: real): Result
    requires d in n.table
  {
    var live := Purged(n.buffer, now);
    var r := Released(n.table[d], n.index, Held(live, d), now);
    Result(SetEntry(n, d, r.0).(buffer := Others(live, d)), r.1)
  }

  lemma ReleaseKeepsKeys(n: Node, d: Addr, now: real)
    requires d in n.table
    ensures Release(n, d, now).node.table.Keys == n.table.Keys
  {
  }

  /** The entry after a request for it has gone out. */
  function Requested(e: Entry, now: real, perHop: real): Entry {
    var lastTtl := Max(e.reqLastTtl, e.lastHopCount);
    var ttl := NextTtl(lastTtl);
    var cnt := if lastTtl < TTL_THRESHOLD then e.reqCnt else e.reqCnt + 1;
    e.(reqLastTtl := ttl, reqCnt := cnt, reqTimeout := RequestTimeout(ttl, cnt, perHop, now, MAX_RREQ_TIMEOUT), expire := 0.0)
  }

  /** sendRequest; the caller has made sure there is an entry. `perHop` is PerHopTime. */
  function SendRequest(n: Node, d: Addr, now: real, perHop: Addr -> real): Result
    requires d in n.table
  {
    var e := n.table[d];
    if e.flags == Up || e.reqTimeout > now then Result(n, [])
    else if e.reqCnt > RREQ_RETRIES then
      Result(SetEntry(n, d, e.(reqTimeout := now + MAX_RREQ_TIMEOUT, reqCnt := 0))
             .(buffer := Others(Purged(n.buffer, now), d)), [])
    else
      var e' := Requested(e, now, perHop(d));
      Result(SetEntry(n, d, e').(seqno := n.seqno + 2, bid := n.bid + 1),
             [Rreq(Request(n.index, 1, n.bid, d, e.seqno, n.index, n.seqno + 2, now, e'.reqLastTtl))])
  }

  // ---------- receiving requests ----------

  /** The reverse-route half of recvRequest. */
  function ReverseRoute(n: Node, rq: Request, now: real): Result
  {
    var n1 := n.(heard := [Broadcast(rq.src, rq.bcastId, now + BCAST_ID_SAVE)] + n.heard);
    var e := EntryOf(n, rq.src);
    var e1 := e.(expire := MaxReal(e.expire, now + REV_ROUTE_LIFE));
    if Rank(rq.srcSeqno, Finite(rq.hopCount)).Fresher(e1.Freshness()) then
      var e2 := Updated(e1, rq.srcSeqno, rq.hopCount, rq.sender, e1.expire);
      var e3 := if e2.reqTimeout > 0.0
                then e2.(reqCnt := 0, reqTimeout := 0.0, reqLastTtl := rq.hopCount, expire := now + ACTIVE_ROUTE_TIMEOUT)
                else e2;
      Release(SetEntry(n1, rq.src, e3), rq.src, now)
    else Result(SetEntry(n1, rq.src, e1), [])
  }

  /** The destination's own number in a reply: past everything it is known to have used, and even. */
  function ReplySeqno(own: nat, asked: nat): nat {
    var s := Max(own, asked) + 1;
    if s % 2 == 1 then s + 1 else s
  }

  predicate CanReply(n: Node, rq: Request)
  {
    rq.dst in n.table && n.table[rq.dst].hops.Finite? && n.table[rq.dst].seqno >= rq.dstSeqno
  }

  function AddPrecursor(n: Node, d: Addr, id: Addr): Node
    requires d in n.table
  {
    SetEntry(n, d, n.table[d].(precursors := n.table[d].precursors + {id}))
  }

  function ReplyTo(n: Node, rq: Request, hopCount: nat, seqno: nat, lifetime: nat): Msg
    requires rq.src in n.table
  {
    Rrep(Reply(n.index, rq.src, n.table[rq.src].nexthop, hopCount, rq.dst, seqno, lifetime, rq.timestamp,
               NETWORK_DIAMETER))
  }

  /** The second half of recvRequest: answer as destination, answer from the table, or pass on. */
  function Answer(n: Node, rq: Request, now: real): Result
    requires rq.src in n.table
  {
    if rq.dst == n.index then
      var s := ReplySeqno(n.seqno, rq.dstSeqno);
      Result(n.(seqno := s), [ReplyTo(n, rq, 1, s, MY_ROUTE_TIMEOUT)])
    else if CanReply(n, rq) then
      var e := n.table[rq.dst];
      var reply := ReplyTo(n, rq, e.hops.n + 1, e.seqno, Seconds(e.expire - now));
      var n1 := AddPrecursor(n, rq.dst, n.table[rq.src].nexthop);
      Result(AddPrecursor(n1, rq.src, n1.table[rq.dst].nexthop), [reply])
    else
      var asked := if rq.dst in n.table then Max(n.table[rq.dst].seqno, rq.dstSeqno) else rq.dstSeqno;
      Result(n, if rq.ttl == 0 then []
                else [Rreq(rq.(sender := n.index, hopCount := rq.hopCount + 1, dstSeqno := asked))])
  }

  function RecvRequest(n: Node, rq: Request, now: real): Result
  {
    if rq.src == n.index || Heard(n, rq.src, rq.bcastId) then Result(n, [])
    else
      var r1 := ReverseRoute(n, rq, now);
      var r2 := Answer(r1.node, rq, now);
      Result(r2.node, r1.sent + r2.sent)
  }

  // ---------- receiving replies ----------

  /** The table half of recvReply, when the reply is fresher than the entry. */
  function ForwardRoute(n: Node, rp: Reply, now: real): Result
  {
    var e := Updated(EntryOf(n, rp.dst), rp.dstSeqno, rp.hopCount, rp.sender, now + (rp.lifetime as real));
    Release(SetEntry(n, rp.dst, e.(reqCnt := 0, reqTimeout := 0.0, reqLastTtl := rp.hopCount)), rp.dst, now)
  }

  /** Passing a reply on towards the node that asked. */
  function PassReply(n: Node, rp: Reply, now: real): Result
    requires rp.dst in n.table
  {
    if rp.to in n.table && n.table[rp.to].hops.Finite? then
      var hop := n.table[rp.to].nexthop;
      var n1 := if rp.ttl == 0 then n
                else SetEntry(n, rp.to, n.table[rp.to].(expire := now + ACTIVE_ROUTE_TIMEOUT));
      Result(AddPrecursor(n1, rp.dst, hop),
             if rp.ttl == 0 then []
             else [Rrep(rp.(sender := n.index, via := hop, hopCount := rp.hopCount + 1))])
    else Result(n, [])
  }

  function RecvReply(n: Node, rp: Reply, now: real): Result
  {
    if Rank(rp.dstSeqno, Finite(rp.hopCount)).Fresher(EntryOf(n, rp.dst).Freshness()) then
      var r1 := ForwardRoute(n, rp, now);
      if rp.to == n.index then r1
      else
        var r2 := PassReply(r1.node, rp, now);
        Result(r2.node, r1.sent + r2.sent)
    else Result(SetEntry(n, rp.dst, EntryOf(n, rp.dst)), [])
  }

  // ---------- errors and failures ----------

  /** An error from `from` takes the route to `d` down: the route is live, runs through the sender and is no newer. */
  predicate Hit(n: Node, from: Addr, unreachable: map<Addr, nat>, d: Addr) {
    d in n.table && d in unreachable && n.table[d].hops.Finite? && n.table[d].nexthop == from
    && n.table[d].seqno <= unreachable[d]
  }

  function Errored(n: Node, from: Addr, unreachable: map<Addr, nat>, d: Addr): Entry
    requires d in n.table
  {
    if Hit(n, from, unreachable, d)
    then Downed(n.table[d].(seqno := unreachable[d])).(precursors := {})
    else n.table[d]
  }

  function SendError(index: Addr, unreachable: map<Addr, nat>): seq<Msg> {
    if unreachable == map[] then [] else [Rerr(index, unreachable)]
  }

  function ErroredTable(n: Node, from: Addr, unreachable: map<Addr, nat>): map<Addr, Entry> {
    map d | d in n.table :: Errored(n, from, unreachable, d)
  }

  /** What an error passed on reports: the routes taken down that someone was using. */
  function Reported(n: Node, from: Addr, unreachable: map<Addr, nat>): map<Addr, nat> {
    map d | d in n.table && Hit(n, from, unreachable, d) && n.table[d].precursors != {} :: unreachable[d]
  }

  function RecvError(n: Node, from: Addr, unreachable: map<Addr, nat>): Result {
    Result(n.(table := ErroredTable(n, from, unreachable)), SendError(n.index, Reported(n, from, unreachable)))
  }

  predicate Breaks(e: Entry, id: Addr) {
    e.hops.Finite? && e.nexthop == id
  }

  function Broken(e: Entry, id: Addr): Entry {
    var e' := if Breaks(e, id) then Downed(e.(seqno := e.seqno + 1)) else e;
    e'.(precursors := e'.precursors - {id})
  }

  function BrokenTable(table: map<Addr, Entry>, id: Addr): map<Addr, Entry> {
    map d | d in table :: Broken(table[d], id)
  }

  /** The routes a lost neighbour takes down, each with the number it is left with. */
  function LostRoutes(table: map<Addr, Entry>, id: Addr): map<Addr, nat> {
    map d | d in table && Breaks(table[d], id) :: table[d].seqno + 1
  }

  function HandleLinkFailure(n: Node, id: Addr): Result {
    Result(n.(table := BrokenTable(n.table, id)), SendError(n.index, LostRoutes(n.table, id)))
  }

  /** local_rt_repair */
  function LocalRepair(n: Node, p: Packet, now: real, perHop: Addr -> real): Result
    requires p.dst in n.table
  {
    var n1 := SetEntry(n, p.dst, n.table[p.dst].(flags := InRepair)).(buffer := Enqueued(n.buffer, p, now));
    SendRequest(n1, p.dst, now, perHop)
  }

  /** rt_ll_failed: the link layer could not deliver data packet `p` to `neighbour`. */
  function LinkLayerFailed(n: Node, p: Packet, neighbour: Addr, now: real, perHop: Addr -> real): Result {
    if p.dst !in n.table then Result(n, [])
    else if n.table[p.dst].hops.Finite? && p.forwards > n.table[p.dst].hops.n then LocalRepair(n, p, now, perHop)
    else HandleLinkFailure(n.(seqno := n.seqno + 2), neighbour)
  }

  /** The local repair timer: a route still not up goes down, its sequence number unchanged. */
  function RepairTimeout(n: Node, d: Addr): Result {
    if d in n.table && n.table[d].flags != Up then Result(SetEntry(n, d, Downed(n.table[d])), [])
    else Result(n, [])
  }

  /** The body of the rt_purge loop for one entry. */
  function PurgeEntry(n: Node, d: Addr, now: real, perHop: Addr -> real): Result
    requires d in n.table
  {
    var e := n.table[d];
    if e.flags == Up && e.expire < now then
      Result(SetEntry(n, d, Downed(e.(seqno := e.seqno + 1))).(buffer := Others(Purged(n.buffer, now), d)), [])
    else if e.flags == Up then Release(n, d, now)
    else if Holds(n.buffer, d) then SendRequest(n, d, now, perHop)
    else Result(n, [])
  }

  /** rt_purge over the destinations in list order. */
  function RtPurge(n: Node, order: seq<Addr>, now: real, perHop: Addr -> real): Result
    requires forall d :: d in order ==> d in n.table
    decreases |order|
  {
    if order == [] then Result(n, [])
    else
      var r1 := PurgeEntry(n, order[0], now, perHop);
      var r2 := RtPurge(r1.node, order[1..], now, perHop);
      Result(r2.node, r1.sent + r2.sent)
  }

  // ---------- data packets ----------

  function RtResolve(n: Node, p: Packet, now: real, perHop: Addr -> real): Result {
    var n1 := SetEntry(n, p.dst, EntryOf(n, p.dst));
    var e := n1.table[p.dst];
    if e.flags == Up then
      var r := Released(e, n.index, [p], now);
      Result(SetEntry(n1, p.dst, r.0), r.1)
    else if p.src == n.index then
      SendRequest(n1.(buffer := Enqueued(n.buffer, p, now)), p.dst, now, perHop)
    else if e.flags == InRepair then Result(n1.(buffer := Enqueued(n.buffer, p, now)), [])
    else Result(n1, [Rerr(n.index, map[p.dst := e.seqno])])
  }

  /** recv for a unicast data packet: originate, drop as a loop, drop on TTL, or resolve. */
  function RecvData(n: Node, p: Packet, now: real, perHop: Addr -> real): Result {
    if p.src == n.index && p.forwards == 0 then RtResolve(n, p.(ttl := NETWORK_DIAMETER), now, perHop)
    else if p.src == n.index || p.ttl - 1 == 0 then Result(n, [])
    else RtResolve(n, p.(ttl := p.ttl - 1), now, perHop)
  }

  /** recv and recvAODV: the TTL of a control packet is taken down before its handler runs. */
  function Recv(n: Node, m: Msg, now: real, perHop: Addr -> real): Result {
    match m
    case Rreq(rq) => RecvRequest(n, rq.(ttl := rq.ttl - 1), now)
    case Rrep(rp) => RecvReply(n, rp.(ttl := rp.ttl - 1), now)
    case Rerr(from, unreachable) => RecvError(n, from, unreachable)
    case Data(_, p) => RecvData(n, p, now, perHop)
  }
}
