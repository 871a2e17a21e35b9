/** Route discovery of AOMDV works: from a network where nobody knows anything, the first packet along a path of nodes
leaves single live paths in both directions, of the right lengths and ends, and is sent; and along two disjoint paths it
leaves both at each end. */
module AomdvSetup {
  import opened Routing
  import opened BufferSpec
  import opened RingSearch
  import opened AomdvPaths
  import opened AomdvSpec
  import opened AomdvNetwork
  import opened AomdvMultipath

  /** A live route to `d` under the number `q` with a single path. */
  predicate Leads(n: Node, d: Addr, q: nat, nexthop: Addr, hops: nat, lasthop: Addr) {
    && d in n.table && n.table[d].flags == Up && n.table[d].seqno == q && |n.table[d].paths| == 1
    && n.table[d].paths[0].nexthop == nexthop && n.table[d].paths[0].hopcount == hops
    && n.table[d].paths[0].lasthop == lasthop
  }

  /** Of its route to `d` the node has not vouched for any length yet, so that further paths are welcome. */
  predicate Open(was: Node, n: Node, d: Addr) {
    && d in n.table && n.table[d].advertised == Infinity
    && n.index == was.index && n.maxPaths == was.maxPaths && n.lengthDiff == was.lengthDiff
  }

  /** Using the route to `d` is worth an error when it is lost. */
  predicate Noted(n: Node, d: Addr) {
    d in n.table && n.table[d].error
  }

  // ---------- one node ----------

  /** Nothing is known of the source, nothing of the destination, and nothing waits. */
  predicate Unaware(n: Node, rq: Request) {
    && n.index != rq.src && rq.src != rq.dst && rq.src !in n.table && rq.dst !in n.table && n.buffer == []
    && !Cached(n, rq.src, rq.bcastId)
  }

  /** The reverse route is in place, and no reply has gone along it. */
  predicate Reached(n: Node, src: Addr, dst: Addr, bid: nat, q: nat, nexthop: Addr, hops: nat, lasthop: Addr) {
    && Leads(n, src, q, nexthop, hops, lasthop) && dst !in n.table && n.buffer == []
    && Cached(n, src, bid) && !Replied(n, src, bid)
  }

  lemma ReleaseNothing(n: Node, d: Addr, now: real)
    requires d in n.table && n.buffer == []
    ensures Release(n, d, now) == Result(n, [])
  {
    assert Purged([], now) == [] && Held([], d) == [] && Others([], d) == [];
    assert n.table[d := n.table[d]] == n.table;
  }

  lemma OnePath(p: Path)
    requires p.hopcount > 0
    ensures MaxHops([p]) == Finite(p.hopcount)
  {
    var paths := [p];
    assert paths[..|paths| - 1] == [] && Longest([]) == 0;
    assert Longest(paths) == p.hopcount;
  }

  lemma RequestTaken(n: Node, rq: Request, now: real)
    requires Unaware(n, rq) && rq.srcSeqno > 0
    ensures var r := TakeRequest(n, rq, now);
      && r.1 == Go(true) && r.0.sent == [] && r.0.node.index == n.index && r.0.node.seqno == n.seqno
      && Reached(r.0.node, rq.src, rq.dst, rq.bcastId, rq.srcSeqno, rq.sender, rq.hopCount + 1, Stamped(n, rq).firstHop)
      && r.0.node.table[rq.src].advertised == Infinity && r.0.node.table[rq.src].paths[0].expire == now + REV_ROUTE_LIFE
      && r.0.node.maxPaths == n.maxPaths && r.0.node.lengthDiff == n.lengthDiff
  {
    var rq1 := Stamped(n, rq);
    var n1 := CacheRequest(n, rq1, now);
    assert n1.cache[0] == Broadcast(rq.src, rq.bcastId, now + BCAST_ID_SAVE, false);
    assert CacheIndex(n1.cache, rq.src, rq.bcastId) == 0;
    var p := Path(rq1.sender, rq1.hopCount + 1, now + REV_ROUTE_LIFE, rq1.firstHop);
    var e := Restarted(NewEntry, rq1.srcSeqno, p);
    hide MaxHops, CacheIndex;
    assert EntryOf(n1, rq1.src) == NewEntry && ReverseRoute(n1, NewEntry, rq1, now) == (e, Go(true));
    var n2 := SetEntry(n1, rq1.src, e);
    var n3 := SetEntry(n2, rq.src, Settled(e));
    ReleaseNothing(n3, rq.src, now);
    assert TakeRequest(n, rq, now) == (Result(n3, []), Go(true));
  }

  /** A node that knows nothing passes the request on, one hop longer. */
  lemma RelayPasses(n: Node, rq: Request, now: real)
    requires Unaware(n, rq) && rq.srcSeqno > 0 && n.index != rq.dst && rq.ttl > 0
    ensures var r, first := RecvRequest(n, rq, now), Stamped(n, rq).firstHop;
      && r.node.index == n.index
      && Reached(r.node, rq.src, rq.dst, rq.bcastId, rq.srcSeqno, rq.sender, rq.hopCount + 1, first)
      && Rreq(rq.(sender := n.index, hopCount := rq.hopCount + 1, firstHop := first)) in r.sent
  {
    RequestTaken(n, rq, now);
    hide TakeRequest, CacheIndex;
    var n1 := TakeRequest(n, rq, now).0.node;
    OnePath(n1.table[rq.src].paths[0]);
    assert n1.table[rq.src].paths == [n1.table[rq.src].paths[0]];
    hide MaxHops;
  }

  function Reply0(n: Node, rq: Request): Reply {
    Reply(n.index, rq.src, rq.sender, 0, n.index, ReplySeqno(n.seqno, rq.dstSeqno), MY_ROUTE_TIMEOUT, rq.timestamp,
          rq.bcastId, rq.sender, NETWORK_DIAMETER)
  }

  /** The destination replies to the node it heard the request from. */
  lemma TargetAnswers(n: Node, rq: Request, now: real)
    requires Unaware(n, rq) && rq.srcSeqno > 0 && n.index == rq.dst
    ensures var r := RecvRequest(n, rq, now);
      && r.node.index == n.index && Rrep(Reply0(n, rq)) in r.sent
      && Leads(r.node, rq.src, rq.srcSeqno, rq.sender, rq.hopCount + 1, Stamped(n, rq).firstHop)
      && Open(n, r.node, rq.src) && r.node.seqno == ReplySeqno(n.seqno, rq.dstSeqno)
  {
    RequestTaken(n, rq, now);
    hide TakeRequest;
  }

  /** A node on the way back takes the path to the destination and passes the reply along the reverse route. */
  lemma RelayReturns(n: Node, rp: Reply, now: real, q: nat, back: Addr, hops: nat, last: Addr)
    requires Reached(n, rp.to, rp.dst, rp.bcastId, q, back, hops, last)
    requires n.index != rp.to && n.index != rp.dst && rp.to != rp.dst && rp.dstSeqno > 0 && rp.ttl > 0
    ensures var r := RecvReply(n, rp, now);
      && r.node.index == n.index
      && Leads(r.node, rp.dst, rp.dstSeqno, rp.sender, rp.hopCount + 1, rp.firstHop)
      && Leads(r.node, rp.to, q, back, hops, last) && Noted(r.node, rp.dst)
      && r.node.table[rp.dst].paths[0].expire == now + rp.lifetime
      && Rrep(rp.(sender := n.index, via := back, hopCount := rp.hopCount + 1)) in r.sent
  {
    var p := Path(rp.sender, rp.hopCount + 1, now + rp.lifetime, rp.firstHop);
    var e := Restarted(NewEntry, rp.dstSeqno, p);
    var n1 := SetEntry(n, rp.dst, e);
    ReleaseNothing(SetEntry(n1, rp.dst, Settled(e)), rp.dst, now);
    OnePath(p);
    hide MaxHops, CacheIndex;
  }

  lemma {:induction false} ReleasedAll(e: Entry, index: Addr, pkts: seq<Packet>, now: real, p: Packet)
    requires |e.paths| == 1 && p in pkts && p.ttl != 0 && p.dst != index
    ensures Data(e.paths[0].nexthop, p) in Released(e, index, pkts, now).1
    decreases |pkts|
  {
    var e1 := FirstExpires(e, now + ACTIVE_ROUTE_TIMEOUT);
    if pkts[0].ttl == 0 || pkts[0].dst == index {
      ReleasedAll(e, index, pkts[1..], now, p);
    } else if pkts[0] != p {
      ReleasedAll(if pkts[0].src != index then e1.(error := true) else e1, index, pkts[1..], now, p);
    }
  }

  lemma {:induction false} ReleasedSame(e: Entry, index: Addr, pkts: seq<Packet>, now: real)
    requires |e.paths| == 1
    ensures var e' := Released(e, index, pkts, now).0;
      && e'.flags == e.flags && e'.seqno == e.seqno && e'.advertised == e.advertised && |e'.paths| == 1 && e'.paths[0].nexthop == e.paths[0].nexthop
      && e'.paths[0].hopcount == e.paths[0].hopcount && e'.paths[0].lasthop == e.paths[0].lasthop
    decreases |pkts|
  {
    if pkts != [] {
      var e1 := FirstExpires(e, now + ACTIVE_ROUTE_TIMEOUT);
      ReleasedSame(e, index, pkts[1..], now);
      ReleasedSame(if pkts[0].src != index then e1.(error := true) else e1, index, pkts[1..], now);
    }
  }

  /** Back at the source, every live packet that waited leaves along the new path. */
  lemma SourceSends(n: Node, rp: Reply, now: real)
    requires n.index == rp.to && rp.to != rp.dst && EntryOf(n, rp.dst).seqno < rp.dstSeqno
    ensures var r := RecvReply(n, rp, now);
      && r.node.index == n.index
      && Leads(r.node, rp.dst, rp.dstSeqno, rp.sender, rp.hopCount + 1, rp.firstHop) && Open(n, r.node, rp.dst)
      && forall p :: p in Held(Purged(n.buffer, now), rp.dst) && p.ttl != 0 && p.dst != n.index ==>
           Data(rp.sender, p) in r.sent
  {
    hide Purged, MaxHops;
    var e := Settled(Restarted(EntryOf(n, rp.dst), rp.dstSeqno,
                               Path(rp.sender, rp.hopCount + 1, now + rp.lifetime, rp.firstHop)));
    var pkts := Held(Purged(n.buffer, now), rp.dst);
    ReleasedSame(e, n.index, pkts, now);
    forall p | p in pkts && p.ttl != 0 && p.dst != n.index
      ensures Data(rp.sender, p) in Released(e, n.index, pkts, now).1
    {
      ReleasedAll(e, n.index, pkts, now, p);
    }
    hide Released, Held;
  }

  /** The first packet of a fresh node makes it ask the whole network. */
  lemma FreshNodeAsks(n: Node, p: Packet, now: real, perHop: Addr -> real)
    requires n == NewNode(n.index, n.maxPaths, n.lengthDiff)
    requires p.src == n.index && p.forwards == 0 && p.dst != n.index && now >= 0.0
    ensures var r := RecvData(n, p, now, perHop);
      && r.node.index == n.index && EntryOf(r.node, p.dst).seqno == 0
      && r.node.maxPaths == n.maxPaths && r.node.lengthDiff == n.lengthDiff
      && r.sent == [Rreq(Request(n.index, 0, 1, p.dst, 0, n.index, 4, 0, now, NETWORK_DIAMETER))]
      && p.(ttl := NETWORK_DIAMETER) in Held(Purged(r.node.buffer, now), p.dst)
  {
    var q := p.(ttl := NETWORK_DIAMETER);
    var n1 := SetEntry(n, p.dst, NewEntry);
    var n2 := n1.(buffer := Enqueued(n.buffer, q, now));
    assert RecvData(n, p, now, perHop) == SendRequest(n2, p.dst, now, perHop);
    assert n2.buffer == [Buffered(q, now + BUFFER_TIMEOUT)] by {
      assert Purged(n.buffer, now) == [];
    }
    assert Purged(n2.buffer, now) == n2.buffer by {
      PurgedFixpoint(n2.buffer, now);
    }
    assert Held(n2.buffer, p.dst) == [q];
  }

  // ---------- the path ----------

  /** The numbers that fresh nodes begin with. */
  const ASKING: nat := 4
  const ANSWERING: nat := 2

  /** A path of nodes, none met twice. */
  predicate IsPath(path: seq<Addr>) {
    2 <= |path| <= NETWORK_DIAMETER + 1 && forall i, j :: 0 <= i < j < |path| ==> path[i] != path[j]
  }

  ghost predicate OnPath(net: Net, path: seq<Addr>) {
    forall i :: 0 <= i < |path| ==> path[i] in net.nodes && net.nodes[path[i]].index == path[i]
  }

  /** The request as node `i` of the path sends it. */
  function Copy(path: seq<Addr>, i: nat, now: real): Request
    requires IsPath(path) && i < |path|
  {
    Request(path[i], i, 1, path[|path| - 1], 0, path[0], ASKING, if i == 0 then 0 else path[1], now, NETWORK_DIAMETER - i)
  }

  /** The reply as node `i` of the path sends it. */
  function Back(path: seq<Addr>, i: nat, now: real): Reply
    requires IsPath(path) && 0 < i < |path|
  {
    var n := |path| - 1;
    Reply(path[i], path[0], path[i - 1], n - i, path[n], ANSWERING, MY_ROUTE_TIMEOUT, now, 1, path[n - 1],
          NETWORK_DIAMETER - (n - i))
  }

  /** A live path back to the source, of the right length, that left it through the second node. */
  predicate LeadsBack(n: Node, path: seq<Addr>, j: nat)
    requires IsPath(path) && 0 < j < |path|
  {
    Leads(n, path[0], ASKING, path[j - 1], j, path[1])
  }

  /** A live path on to the destination, likewise, that reaches it through the last node but one; worth an error at every
  node but the source. */
  predicate LeadsOn(n: Node, path: seq<Addr>, j: nat)
    requires IsPath(path) && j < |path| - 1
  {
    && Leads(n, path[|path| - 1], ANSWERING, path[j + 1], |path| - 1 - j, path[|path| - 2])
    && (j > 0 ==> Noted(n, path[|path| - 1]))
  }

  predicate Relayed(n: Node, path: seq<Addr>, j: nat)
    requires IsPath(path) && 0 < j < |path|
  {
    Reached(n, path[0], path[|path| - 1], 1, ASKING, path[j - 1], j, path[1])
  }

  /** Live paths to both ends. */
  predicate Passed(n: Node, path: seq<Addr>, j: nat)
    requires IsPath(path) && 0 < j < |path| - 1
  {
    LeadsBack(n, path, j) && LeadsOn(n, path, j)
  }

  predicate Untouched(n: Node) {
    n.table == map[] && n.cache == [] && n.buffer == [] && n.seqno == ANSWERING
  }

  /** The source after it has asked: it knows no number for the destination, and holds the packet. */
  predicate Waits(n: Node, d: Addr, p: Packet, now: real) {
    EntryOf(n, d).seqno == 0 && p in Held(Purged(n.buffer, now), d)
  }

  /** Only inner nodes of the path have changed, and messages have been sent. */
  ghost predicate Inside(net: Net, net': Net, path: seq<Addr>) {
    && net'.nodes.Keys == net.nodes.Keys && net.msgs <= net'.msgs
    && forall x :: x in net.nodes && (forall i :: 0 < i < |path| - 1 ==> path[i] != x) ==> net'.nodes[x] == net.nodes[x]
  }

  lemma InsideRefl(net: Net, path: seq<Addr>)
    ensures Inside(net, net, path)
  {
  }

  /** The request has left node `i`. */
  ghost predicate Outward(net0: Net, net: Net, path: seq<Addr>, now: real, i: nat) {
    && IsPath(path) && i < |path| - 1 && OnPath(net, path) && Rreq(Copy(path, i, now)) in net.msgs
    && (forall j: nat :: 0 < j <= i ==> Relayed(net.nodes[path[j]], path, j))
    && (forall j: nat :: i < j < |path| - 1 ==> Untouched(net.nodes[path[j]]))
    && Inside(net0, net, path)
  }

  /** The reply has left node `i`. */
  ghost predicate Homeward(net0: Net, net: Net, path: seq<Addr>, now: real, i: nat) {
    && IsPath(path) && 0 < i < |path| && OnPath(net, path) && Rrep(Back(path, i, now)) in net.msgs
    && (forall j: nat :: 0 < j < i ==> Relayed(net.nodes[path[j]], path, j))
    && (forall j: nat :: i <= j < |path| - 1 ==> Passed(net.nodes[path[j]], path, j))
    && Inside(net0, net, path)
  }

  /** Live paths from every inner node of the path to both its ends. */
  ghost predicate Inner(net: Net, path: seq<Addr>) {
    && IsPath(path) && OnPath(net, path)
    && forall j: nat :: 0 < j < |path| - 1 ==> Passed(net.nodes[path[j]], path, j)
  }

  /** And from each end to the other. */
  ghost predicate Connected(net: Net, path: seq<Addr>) {
    && Inner(net, path) && LeadsOn(net.nodes[path[0]], path, 0)
    && LeadsBack(net.nodes[path[|path| - 1]], path, |path| - 1)
  }

  /** What a delivery does to the network. */
  lemma Delivered(net: Net, at: Addr, m: Msg, now: real, perHop: Addr -> real)
    requires at in net.nodes && m in net.msgs
    ensures var ev := Deliver(at, m, now, perHop);
      && Enabled(net, ev)
      && Apply(net, ev).nodes == net.nodes[at := Recv(net.nodes[at], m, now, perHop).node]
      && (forall x :: x in net.msgs ==> x in Apply(net, ev).msgs)
      && (forall x :: x in Recv(net.nodes[at], m, now, perHop).sent ==> x in Apply(net, ev).msgs)
  {
    hide Recv;
  }

  lemma RequestReceived(n: Node, rq: Request, now: real, perHop: Addr -> real)
    ensures Recv(n, Rreq(rq), now, perHop) == RecvRequest(n, rq.(ttl := rq.ttl - 1), now)
  {
    hide RecvRequest;
  }

  lemma ReplyReceived(n: Node, rp: Reply, now: real, perHop: Addr -> real)
    ensures Recv(n, Rrep(rp), now, perHop) == RecvReply(n, rp.(ttl := rp.ttl - 1), now)
  {
    hide RecvReply;
  }

  /** One node of the path is a new one, the others are as they were. */
  ghost predicate OneMoved(net: Net, net': Net, path: seq<Addr>, i: nat)
    requires i < |path|
  {
    && path[i] in net.nodes && path[i] in net'.nodes && net'.nodes == net.nodes[path[i] := net'.nodes[path[i]]]
    && net.msgs <= net'.msgs
  }

  lemma OneMovedKeeps(net: Net, net': Net, path: seq<Addr>, i: nat)
    requires IsPath(path) && OnPath(net, path) && i < |path| && OneMoved(net, net', path, i)
    requires net'.nodes[path[i]].index == path[i]
    ensures OnPath(net', path)
    ensures forall j: nat :: j < |path| && j != i ==> net'.nodes[path[j]] == net.nodes[path[j]]
  {
  }

  lemma InsideOn(net0: Net, net: Net, net': Net, path: seq<Addr>, i: nat)
    requires Inside(net0, net, path) && 0 < i < |path| - 1 && OneMoved(net, net', path, i)
    ensures Inside(net0, net', path)
  {
  }

  lemma RelayAt(n: Node, path: seq<Addr>, i: nat, now: real)
    requires IsPath(path) && i + 1 < |path| - 1 && n.index == path[i + 1] && Untouched(n)
    ensures var rq := Copy(path, i, now); var r := RecvRequest(n, rq.(ttl := rq.ttl - 1), now);
      && r.node.index == path[i + 1] && Relayed(r.node, path, i + 1) && Rreq(Copy(path, i + 1, now)) in r.sent
  {
    var rq := Copy(path, i, now);
    assert Unaware(n, rq.(ttl := rq.ttl - 1));
    RelayPasses(n, rq.(ttl := rq.ttl - 1), now);
    hide RecvRequest, Reached;
  }

  lemma OutwardMoves(net0: Net, net: Net, net': Net, path: seq<Addr>, i: nat, now: real)
    requires Outward(net0, net, path, now, i) && i + 1 < |path| - 1 && OneMoved(net, net', path, i + 1)
    requires net'.nodes[path[i + 1]].index == path[i + 1] && Relayed(net'.nodes[path[i + 1]], path, i + 1)
    requires Rreq(Copy(path, i + 1, now)) in net'.msgs
    ensures Outward(net0, net', path, now, i + 1)
  {
    InsideOn(net0, net, net', path, i + 1);
    hide Untouched, Relayed, Copy, Inside;
    OneMovedKeeps(net, net', path, i + 1);
  }

  /** The next node of the path relays the request. */
  lemma RelayStep(net0: Net, net: Net, path: seq<Addr>, i: nat, now: real, perHop: Addr -> real) returns (ev: Event)
    requires Outward(net0, net, path, now, i) && i + 1 < |path| - 1
    ensures ev.Deliver? && Enabled(net, ev) && Outward(net0, Apply(net, ev), path, now, i + 1)
  {
    hide Apply, Enabled, Recv, RecvRequest, Untouched, Relayed, Copy, Inside;
    var rq := Copy(path, i, now);
    ev := Deliver(path[i + 1], Rreq(rq), now, perHop);
    RelayAt(net.nodes[path[i + 1]], path, i, now);
    RequestReceived(net.nodes[path[i + 1]], rq, now, perHop);
    Delivered(net, path[i + 1], Rreq(rq), now, perHop);
    var net' := Apply(net, ev);
    assert OneMoved(net, net', path, i + 1);
    hide Outward;
    OutwardMoves(net0, net, net', path, i, now);
  }

  lemma ReturnAt(n: Node, path: seq<Addr>, i: nat, now: real)
    requires IsPath(path) && 2 <= i < |path| && n.index == path[i - 1] && Relayed(n, path, i - 1)
    ensures var rp := Back(path, i, now); var r := RecvReply(n, rp.(ttl := rp.ttl - 1), now);
      && r.node.index == path[i - 1] && Passed(r.node, path, i - 1)
      && Rrep(Back(path, i - 1, now)) in r.sent
  {
    var rp := Back(path, i, now);
    RelayReturns(n, rp.(ttl := rp.ttl - 1), now, ASKING, path[i - 2], i - 1, path[1]);
    hide RecvReply, Reached;
  }

  lemma HomewardMoves(net0: Net, net: Net, net': Net, path: seq<Addr>, k: nat, now: real)
    requires Homeward(net0, net, path, now, k + 1) && k >= 1 && OneMoved(net, net', path, k)
    requires net'.nodes[path[k]].index == path[k] && Passed(net'.nodes[path[k]], path, k)
    requires Rrep(Back(path, k, now)) in net'.msgs
    ensures Homeward(net0, net', path, now, k)
  {
    InsideOn(net0, net, net', path, k);
    hide Relayed, Passed, Back, Inside;
    OneMovedKeeps(net, net', path, k);
    hide OneMoved, OnPath;
  }

  /** A node on the way back passes the reply. */
  lemma ReturnStep(net0: Net, net: Net, path: seq<Addr>, i: nat, now: real, perHop: Addr -> real) returns (ev: Event)
    requires Homeward(net0, net, path, now, i) && i >= 2
    ensures ev.Deliver? && Enabled(net, ev) && Homeward(net0, Apply(net, ev), path, now, i - 1)
  {
    hide Apply, Enabled, Recv, RecvReply, Relayed, Passed, Back, Inside;
    var rp := Back(path, i, now);
    ev := Deliver(path[i - 1], Rrep(rp), now, perHop);
    assert Relayed(net.nodes[path[i - 1]], path, i - 1);
    ReturnAt(net.nodes[path[i - 1]], path, i, now);
    ReplyReceived(net.nodes[path[i - 1]], rp, now, perHop);
    Delivered(net, path[i - 1], Rrep(rp), now, perHop);
    var net' := Apply(net, ev);
    assert OneMoved(net, net', path, i - 1);
    hide Homeward;
    HomewardMoves(net0, net, net', path, i - 1, now);
  }

  // ---------- runs ----------

  /** Steps of the network, one after the other. */
  ghost predicate Steps(nets: seq<Net>, evs: seq<Event>) {
    && |nets| == |evs| + 1
    && forall i :: 0 <= i < |evs| ==> Enabled(nets[i], evs[i]) && nets[i + 1] == Apply(nets[i], evs[i])
  }

  lemma StepsNone(net: Net)
    ensures Steps([net], [])
  {
  }

  lemma StepsCons(net: Net, ev: Event, nets: seq<Net>, evs: seq<Event>)
    requires Steps(nets, evs) && |nets| > 0 && Enabled(net, ev) && nets[0] == Apply(net, ev)
    ensures Steps([net] + nets, [ev] + evs)
  {
    hide Enabled, Apply;
  }

  lemma StepsSnoc(nets: seq<Net>, evs: seq<Event>, ev: Event)
    requires Steps(nets, evs) && |nets| == |evs| + 1 && Enabled(nets[|evs|], ev)
    ensures Steps(nets + [Apply(nets[|evs|], ev)], evs + [ev])
  {
    hide Enabled, Apply;
  }

  lemma StepsAppend(a: seq<Net>, ea: seq<Event>, b: seq<Net>, eb: seq<Event>)
    requires Steps(a, ea) && Steps(b, eb) && |a| == |ea| + 1 && |b| == |eb| + 1 && a[|ea|] == b[0]
    ensures Steps(a[..|ea|] + b, ea + eb)
    ensures (a[..|ea|] + b)[0] == a[0] && (a[..|ea|] + b)[|ea| + |eb|] == b[|eb|]
  {
    hide Enabled, Apply;
    var nets, evs := a[..|ea|] + b, ea + eb;
    forall i | 0 <= i < |evs|
      ensures Enabled(nets[i], evs[i]) && nets[i + 1] == Apply(nets[i], evs[i])
    {
      if i < |ea| {
        assert nets[i] == a[i] && evs[i] == ea[i] && nets[i + 1] == a[i + 1];
      } else {
        assert nets[i] == b[i - |ea|] && evs[i] == eb[i - |ea|] && nets[i + 1] == b[i + 1 - |ea|];
      }
    }
  }

  /** From the source to the last node but one. */
  lemma {:induction false} CarryOut(net0: Net, net: Net, path: seq<Addr>, i: nat, now: real, perHop: Addr -> real)
    returns (nets: seq<Net>, evs: seq<Event>)
    requires Outward(net0, net, path, now, i) && i < |path| - 1
    ensures |nets| == |evs| + 1 && nets[0] == net && |evs| == |path| - 2 - i
    ensures Outward(net0, nets[|evs|], path, now, |path| - 2)
    ensures Steps(nets, evs)
    decreases |path| - i
  {
    hide *;
    if i == |path| - 2 {
      nets, evs := [net], [];
      StepsNone(net);
    } else {
      var ev := RelayStep(net0, net, path, i, now, perHop);
      nets, evs := CarryOut(net0, Apply(net, ev), path, i + 1, now, perHop);
      StepsCons(net, ev, nets, evs);
      nets, evs := [net] + nets, [ev] + evs;
    }
  }

  /** From the last node back to the second. */
  lemma {:induction false} CarryBack(net0: Net, net: Net, path: seq<Addr>, i: nat, now: real, perHop: Addr -> real)
    returns (nets: seq<Net>, evs: seq<Event>)
    requires Homeward(net0, net, path, now, i) && i >= 1
    ensures |nets| == |evs| + 1 && nets[0] == net && |evs| == i - 1
    ensures Homeward(net0, nets[|evs|], path, now, 1)
    ensures Steps(nets, evs)
    decreases i
  {
    hide *;
    if i == 1 {
      nets, evs := [net], [];
      StepsNone(net);
    } else {
      var ev := ReturnStep(net0, net, path, i, now, perHop);
      nets, evs := CarryBack(net0, Apply(net, ev), path, i - 1, now, perHop);
      StepsCons(net, ev, nets, evs);
      nets, evs := [net] + nets, [ev] + evs;
    }
  }

  lemma OutwardStarts(net: Net, path: seq<Addr>, now: real)
    requires Begun(net, path, now)
    ensures Outward(net, net, path, now, 0)
  {
  }

  lemma HomewardStarts(net: Net, path: seq<Addr>, now: real)
    requires IsPath(path) && OnPath(net, path) && Rrep(Back(path, |path| - 1, now)) in net.msgs
    requires forall j: nat :: 0 < j < |path| - 1 ==> Relayed(net.nodes[path[j]], path, j)
    ensures Homeward(net, net, path, now, |path| - 1)
  {
  }

  // ---------- the ends of a path ----------

  /** The last node answers a first request. */
  lemma TargetAt(n: Node, path: seq<Addr>, now: real)
    requires IsPath(path) && n.index == path[|path| - 1] && Untouched(n)
    ensures var i := |path| - 1; var rq := Copy(path, i - 1, now); var r := RecvRequest(n, rq.(ttl := rq.ttl - 1), now);
      && r.node.index == path[i] && LeadsBack(r.node, path, i) && Rrep(Back(path, i, now)) in r.sent
      && Open(n, r.node, path[0]) && r.node.seqno == ANSWERING
  {
    var rq := Copy(path, |path| - 2, now);
    assert Unaware(n, rq.(ttl := rq.ttl - 1));
    TargetAnswers(n, rq.(ttl := rq.ttl - 1), now);
    hide RecvRequest, Leads;
    assert Reply0(n, rq.(ttl := rq.ttl - 1)) == Back(path, |path| - 1, now);
  }

  /** The source takes a first reply, and sends what waited. */
  lemma SourceAt(n: Node, path: seq<Addr>, p: Packet, now: real)
    requires IsPath(path) && n.index == path[0] && Waits(n, path[|path| - 1], p, now)
    requires p.ttl != 0 && p.dst == path[|path| - 1]
    ensures var rp := Back(path, 1, now); var r := RecvReply(n, rp.(ttl := rp.ttl - 1), now);
      && r.node.index == path[0] && LeadsOn(r.node, path, 0) && Open(n, r.node, path[|path| - 1])
      && Data(path[1], p) in r.sent
  {
    var rp := Back(path, 1, now);
    SourceSends(n, rp.(ttl := rp.ttl - 1), now);
    hide RecvReply, Leads;
  }

  /** The request comes to the last node, over the last node but one. */
  lemma AtTarget(net: Net, path: seq<Addr>, now: real, perHop: Addr -> real) returns (ev: Event)
    requires IsPath(path) && OnPath(net, path) && Rreq(Copy(path, |path| - 2, now)) in net.msgs
    ensures ev.Deliver? && Enabled(net, ev) && ev.at == path[|path| - 1]
    ensures var rq := Copy(path, |path| - 2, now);
      var r := RecvRequest(net.nodes[path[|path| - 1]], rq.(ttl := rq.ttl - 1), now);
      && Apply(net, ev).nodes == net.nodes[path[|path| - 1] := r.node]
      && net.msgs <= Apply(net, ev).msgs && forall m :: m in r.sent ==> m in Apply(net, ev).msgs
  {
    hide Recv, RecvRequest, Copy;
    var rq := Copy(path, |path| - 2, now);
    ev := Deliver(path[|path| - 1], Rreq(rq), now, perHop);
    RequestReceived(net.nodes[path[|path| - 1]], rq, now, perHop);
    Delivered(net, path[|path| - 1], Rreq(rq), now, perHop);
  }

  /** The reply comes to the source, from the second node. */
  lemma AtSource(net: Net, path: seq<Addr>, now: real, perHop: Addr -> real) returns (ev: Event)
    requires IsPath(path) && OnPath(net, path) && Rrep(Back(path, 1, now)) in net.msgs
    ensures ev.Deliver? && Enabled(net, ev) && ev.at == path[0]
    ensures var rp := Back(path, 1, now); var r := RecvReply(net.nodes[path[0]], rp.(ttl := rp.ttl - 1), now);
      && Apply(net, ev).nodes == net.nodes[path[0] := r.node]
      && net.msgs <= Apply(net, ev).msgs && forall m :: m in r.sent ==> m in Apply(net, ev).msgs
  {
    hide Recv, RecvReply, Back;
    var rp := Back(path, 1, now);
    ev := Deliver(path[0], Rrep(rp), now, perHop);
    ReplyReceived(net.nodes[path[0]], rp, now, perHop);
    Delivered(net, path[0], Rrep(rp), now, perHop);
  }

  // ---------- one path ----------

  /** Before: the request is out, and the inner nodes know nothing. */
  ghost predicate Begun(net: Net, path: seq<Addr>, now: real) {
    && IsPath(path) && OnPath(net, path) && Rreq(Copy(path, 0, now)) in net.msgs
    && forall j: nat :: 0 < j < |path| - 1 ==> Untouched(net.nodes[path[j]])
  }

  /** The request has come to the last node but one, the inner nodes have passed it. */
  ghost predicate Halfway(net0: Net, net: Net, path: seq<Addr>, now: real) {
    && IsPath(path) && OnPath(net, path) && Rreq(Copy(path, |path| - 2, now)) in net.msgs
    && (forall j: nat :: 0 < j < |path| - 1 ==> Relayed(net.nodes[path[j]], path, j)) && Inside(net0, net, path)
  }

  lemma GoOut(net: Net, path: seq<Addr>, now: real, perHop: Addr -> real) returns (nets: seq<Net>, evs: seq<Event>)
    requires Begun(net, path, now) && |path| >= 2
    ensures |nets| == |evs| + 1 && nets[0] == net && |evs| == |path| - 2
    ensures Halfway(net, nets[|evs|], path, now)
    ensures Steps(nets, evs)
  {
    hide *;
    OutwardStarts(net, path, now);
    nets, evs := CarryOut(net, net, path, 0, now, perHop);
    OutwardIsHalfway(net, nets[|evs|], path, now);
  }

  lemma OutwardIsHalfway(net0: Net, net: Net, path: seq<Addr>, now: real)
    requires |path| >= 2 && Outward(net0, net, path, now, |path| - 2)
    ensures Halfway(net0, net, path, now)
  {
    hide Copy, Relayed, Inside, Untouched;
  }

  /** The reply has come to the second node, the inner nodes have live paths. */
  ghost predicate NearlyBack(net0: Net, net: Net, path: seq<Addr>, now: real) {
    Inner(net, path) && Rrep(Back(path, 1, now)) in net.msgs && Inside(net0, net, path)
  }

  lemma GoBack(net: Net, path: seq<Addr>, now: real, perHop: Addr -> real) returns (nets: seq<Net>, evs: seq<Event>)
    requires IsPath(path) && |path| >= 2 && OnPath(net, path) && Rrep(Back(path, |path| - 1, now)) in net.msgs
    requires forall j: nat :: 0 < j < |path| - 1 ==> Relayed(net.nodes[path[j]], path, j)
    ensures |nets| == |evs| + 1 && nets[0] == net && |evs| == |path| - 2
    ensures NearlyBack(net, nets[|evs|], path, now)
    ensures Steps(nets, evs)
  {
    hide *;
    HomewardStarts(net, path, now);
    nets, evs := CarryBack(net, net, path, |path| - 1, now, perHop);
    HomewardIsNearlyBack(net, nets[|evs|], path, now);
  }

  lemma HomewardIsNearlyBack(net0: Net, net: Net, path: seq<Addr>, now: real)
    requires Homeward(net0, net, path, now, 1)
    ensures NearlyBack(net0, net, path, now)
  {
    hide Back, Relayed, Inside, Passed;
  }

  /** The ends of a path are left alone by what happens inside. */
  lemma InsideKeepsEnds(net: Net, net': Net, path: seq<Addr>)
    requires IsPath(path) && OnPath(net, path) && Inside(net, net', path)
    ensures path[0] in net'.nodes && net'.nodes[path[0]] == net.nodes[path[0]]
    ensures path[|path| - 1] in net'.nodes && net'.nodes[path[|path| - 1]] == net.nodes[path[|path| - 1]]
    ensures net.msgs <= net'.msgs
  {
  }

  lemma EndMoved(net: Net, net': Net, path: seq<Addr>, i: nat)
    requires IsPath(path) && OnPath(net, path) && (i == 0 || i == |path| - 1)
    requires net'.nodes.Keys == net.nodes.Keys && net'.nodes == net.nodes[path[i] := net'.nodes[path[i]]]
    requires net'.nodes[path[i]].index == path[i]
    ensures OnPath(net', path)
    ensures forall j: nat :: j < |path| && j != i ==> net'.nodes[path[j]] == net.nodes[path[j]]
  {
  }

  /** Only nodes of the path have changed; of its ends the source is waiting for the reply, and the target has answered. */
  ghost predicate Answered(net0: Net, net: Net, path: seq<Addr>, now: real) {
    && Inner(net, path) && Rrep(Back(path, 1, now)) in net.msgs && net.nodes.Keys == net0.nodes.Keys
    && net0.msgs <= net.msgs
    && (forall x :: x in net0.nodes && x !in path ==> net.nodes[x] == net0.nodes[x])
    && path[0] in net0.nodes && net.nodes[path[0]] == net0.nodes[path[0]]
    && path[|path| - 1] in net0.nodes
    && var rq := Copy(path, |path| - 2, now);
       net.nodes[path[|path| - 1]] == RecvRequest(net0.nodes[path[|path| - 1]], rq.(ttl := rq.ttl - 1), now).node
  }

  /** Out, an answer, and back to the second node. */
  lemma OutAndBack(net: Net, path: seq<Addr>, now: real, perHop: Addr -> real) returns (nets: seq<Net>, evs: seq<Event>)
    requires Begun(net, path, now) && |path| >= 2 && path[|path| - 1] in net.nodes
    requires var rq := Copy(path, |path| - 2, now);
      var r := RecvRequest(net.nodes[path[|path| - 1]], rq.(ttl := rq.ttl - 1), now);
      r.node.index == path[|path| - 1] && Rrep(Back(path, |path| - 1, now)) in r.sent
    ensures |nets| == |evs| + 1 && nets[0] == net && |evs| == 2 * |path| - 3
    ensures Answered(net, nets[|evs|], path, now)
    ensures Steps(nets, evs)
  {
    hide RecvRequest, Copy, Back, Relayed, Untouched, Passed, Steps, Enabled, Apply;
    nets, evs := GoOut(net, path, now, perHop);
    var net1 := nets[|evs|];
    InsideKeepsEnds(net, net1, path);
    var ev := AtTarget(net1, path, now, perHop);
    var net2 := Apply(net1, ev);
    EndMoved(net1, net2, path, |path| - 1);
    var nets2, evs2 := GoBack(net2, path, now, perHop);
    var net3 := nets2[|evs2|];
    InsideKeepsEnds(net2, net3, path);
    AnsweredAfter(net, net1, net2, net3, path, now);
    hide *;
    StepsCons(net1, ev, nets2, evs2);
    StepsAppend(nets, evs, [net1] + nets2, [ev] + evs2);
    nets, evs := nets[..|evs|] + ([net1] + nets2), evs + ([ev] + evs2);
  }

  lemma AnsweredAfter(net0: Net, net1: Net, net2: Net, net3: Net, path: seq<Addr>, now: real)
    requires Begun(net0, path, now) && Halfway(net0, net1, path, now) && NearlyBack(net2, net3, path, now)
    requires net2.nodes.Keys == net1.nodes.Keys && net1.msgs <= net2.msgs && OnPath(net2, path)
    requires path[|path| - 1] in net2.nodes && path[|path| - 1] in net0.nodes
    requires net2.nodes == net1.nodes[path[|path| - 1] := net2.nodes[path[|path| - 1]]]
    requires var rq := Copy(path, |path| - 2, now);
      net2.nodes[path[|path| - 1]] == RecvRequest(net0.nodes[path[|path| - 1]], rq.(ttl := rq.ttl - 1), now).node
    ensures Answered(net0, net3, path, now)
  {
    hide RecvRequest, Copy, Back, Relayed, Untouched, Passed;
    InsideKeepsEnds(net0, net1, path);
    InsideKeepsEnds(net2, net3, path);
    forall x | x in net0.nodes && x !in path
      ensures net3.nodes[x] == net0.nodes[x]
    {
      assert forall i :: 0 < i < |path| - 1 ==> path[i] in path;
    }
  }

  // ---------- from the first packet on ----------

  /** The source has just asked, and holds the packet. */
  ghost predicate Asked(net0: Net, net: Net, path: seq<Addr>, p: Packet, now: real) {
    && Begun(net, path, now) && net.nodes.Keys == net0.nodes.Keys && path[0] in net0.nodes
    && net.nodes == net0.nodes[path[0] := net.nodes[path[0]]]
    && Waits(net.nodes[path[0]], path[|path| - 1], p, now)
    && net.nodes[path[0]].maxPaths == net0.nodes[path[0]].maxPaths
    && net.nodes[path[0]].lengthDiff == net0.nodes[path[0]].lengthDiff
    && Untouched(net.nodes[path[|path| - 1]]) && p.ttl != 0 && p.dst == path[|path| - 1]
  }

  lemma FreshStarts(net: Net, path: seq<Addr>, p: Packet, now: real, perHop: Addr -> real) returns (ev: Event)
    requires Init(net) && IsPath(path) && now >= 0.0 && forall i :: 0 <= i < |path| ==> path[i] in net.nodes
    requires p.src == path[0] && p.dst == path[|path| - 1] && p.forwards == 0
    ensures ev == Originate(path[0], p, now, perHop)
    ensures Enabled(net, ev) && Asked(net, Apply(net, ev), path, p.(ttl := NETWORK_DIAMETER), now)
  {
    hide RecvData, Held, Purged;
    assert forall x :: x in net.nodes ==> net.nodes[x].index == x && Untouched(net.nodes[x]);
    var n := net.nodes[path[0]];
    assert n == NewNode(n.index, n.maxPaths, n.lengthDiff);
    FreshNodeAsks(n, p, now, perHop);
    ev := Originate(path[0], p, now, perHop);
  }

  /** Live paths all along the path; only its nodes have changed, and its ends would store further paths. */
  ghost predicate Found(net0: Net, net: Net, path: seq<Addr>) {
    && Connected(net, path) && net.nodes.Keys == net0.nodes.Keys && net0.msgs <= net.msgs
    && (forall x :: x in net0.nodes && x !in path ==> net.nodes[x] == net0.nodes[x])
    && path[0] in net0.nodes && path[|path| - 1] in net0.nodes
    && Open(net0.nodes[path[0]], net.nodes[path[0]], path[|path| - 1])
    && Open(net0.nodes[path[|path| - 1]], net.nodes[path[|path| - 1]], path[0])
    && net.nodes[path[|path| - 1]].seqno == ANSWERING
  }

  lemma FoundAfter(net0: Net, net1: Net, net2: Net, path: seq<Addr>, p: Packet, now: real)
    requires Begun(net0, path, now) && Untouched(net0.nodes[path[|path| - 1]])
    requires Waits(net0.nodes[path[0]], path[|path| - 1], p, now) && p.ttl != 0 && p.dst == path[|path| - 1]
    requires Answered(net0, net1, path, now)
    requires var rp := Back(path, 1, now); var r := RecvReply(net1.nodes[path[0]], rp.(ttl := rp.ttl - 1), now);
      net2.nodes == net1.nodes[path[0] := r.node] && net1.msgs <= net2.msgs && forall m :: m in r.sent ==> m in net2.msgs
    ensures Found(net0, net2, path) && Data(path[1], p) in net2.msgs
  {
    hide RecvRequest, RecvReply, Copy, Back, Relayed, Untouched, Passed, Leads, Waits, Open;
    TargetAt(net0.nodes[path[|path| - 1]], path, now);
    SourceAt(net0.nodes[path[0]], path, p, now);
    assert forall i :: 0 < i < |path| - 1 ==> path[i] in path;
  }

  /** The request goes out, the reply comes back, and what waited is sent. */
  lemma Discover(net0: Net, net: Net, path: seq<Addr>, p: Packet, now: real, perHop: Addr -> real)
    returns (nets: seq<Net>, evs: seq<Event>)
    requires Asked(net0, net, path, p, now)
    ensures |nets| == |evs| + 1 && nets[0] == net && |evs| == 2 * |path| - 2
    ensures Found(net, nets[|evs|], path) && Data(path[1], p) in nets[|evs|].msgs
    ensures Steps(nets, evs)
  {
    hide RecvRequest, RecvReply, Copy, Back, Relayed, Untouched, Passed, Steps, Enabled, Apply, Leads, Waits, Open, Found;
    TargetAt(net.nodes[path[|path| - 1]], path, now);
    nets, evs := OutAndBack(net, path, now, perHop);
    var net1 := nets[|evs|];
    var ev := AtSource(net1, path, now, perHop);
    FoundAfter(net, net1, Apply(net1, ev), path, p, now);
    StepsSnoc(nets, evs, ev);
    nets, evs := nets + [Apply(net1, ev)], evs + [ev];
  }

  lemma StepsAreRun(nets: seq<Net>, evs: seq<Event>)
    requires Steps(nets, evs) && |nets| > 0 && Init(nets[0])
    ensures Run(nets, evs)
  {
    hide Init, Enabled, Apply;
  }

  /** In a network where nobody knows anything, the first packet from one end of any path of up to NETWORK_DIAMETER
  hops to the other can lead, in one step per hop and direction, to live paths along it both ways, each of its length
  and with the hops at its ends as first and last, and leaves along it. */
  lemma FirstPacketFindsRoute(net: Net, path: seq<Addr>, p: Packet, now: real, perHop: Addr -> real)
    returns (nets: seq<Net>, evs: seq<Event>)
    requires Init(net) && IsPath(path) && now >= 0.0 && forall i :: 0 <= i < |path| ==> path[i] in net.nodes
    requires p.src == path[0] && p.dst == path[|path| - 1] && p.forwards == 0
    ensures |nets| == |evs| + 1 && |evs| == 2 * |path| - 1 && nets[0] == net
    ensures Connected(nets[|evs|], path) && Data(path[1], p.(ttl := NETWORK_DIAMETER)) in nets[|evs|].msgs
    ensures Run(nets, evs)
  {
    hide *;
    var ev := FreshStarts(net, path, p, now, perHop);
    nets, evs := Discover(net, Apply(net, ev), path, p.(ttl := NETWORK_DIAMETER), now, perHop);
    StepsCons(net, ev, nets, evs);
    FoundConnects(Apply(net, ev), nets[|evs|], path);
    nets, evs := [net] + nets, [ev] + evs;
    StepsAreRun(nets, evs);
  }

  lemma FoundConnects(net0: Net, net: Net, path: seq<Addr>)
    requires Found(net0, net, path)
    ensures Connected(net, path)
  {
    hide Connected;
  }
}
