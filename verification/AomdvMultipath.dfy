/** Why a route has several paths: a request or a reply that tells of a further disjoint path, short enough and within
the limit, adds exactly that path to those stored. */
module AomdvMultipath {
  import opened Routing
  import opened BufferSpec
  import opened RingSearch
  import opened AomdvPaths
  import opened AomdvSpec

  predicate SamePath(p: Path, q: Path) {
    p.nexthop == q.nexthop && p.hopcount == q.hopcount && p.lasthop == q.lasthop
  }

  /** The same paths, in order; their lifetimes may differ. */
  ghost predicate SamePaths(was: seq<Path>, now: seq<Path>) {
    |now| == |was| && forall i :: 0 <= i < |was| ==> SamePath(was[i], now[i])
  }

  /** The same paths and one more behind them. */
  ghost predicate OneMore(was: seq<Path>, now: seq<Path>, nexthop: Addr, hops: nat, lasthop: Addr) {
    && |now| == |was| + 1 && SamePaths(was, now[..|was|])
    && now[|was|].nexthop == nexthop && now[|was|].hopcount == hops && now[|was|].lasthop == lasthop
  }

  /** No stored path shares the next hop or the last hop. */
  predicate Apart(e: Entry, nexthop: Addr, lasthop: Addr) {
    forall p :: p in e.paths ==> p.nexthop != nexthop && p.lasthop != lasthop
  }

  /** There is room for another path, and it is not too much longer than any stored. */
  predicate HasRoom(n: Node, e: Entry, hops: nat) {
    |e.paths| < n.maxPaths && forall p :: p in e.paths ==> hops - p.hopcount <= n.lengthDiff
  }

  lemma {:induction false} ShortestIsStored(paths: seq<Path>)
    requires paths != [] && forall p :: p in paths ==> p.hopcount <= INFINITY2
    ensures exists p :: p in paths && p.hopcount == MinHops(paths)
    ensures forall p :: p in paths ==> MinHops(paths) <= p.hopcount
  {
    var n := |paths| - 1;
    MinHopsBounds(paths);
    if n > 0 {
      ShortestIsStored(paths[..n]);
      var p :| p in paths[..n] && p.hopcount == MinHops(paths[..n]);
      assert p in paths && paths[n] in paths;
    } else {
      assert paths[..n] == [] && paths[n] in paths;
    }
  }

  lemma RoomIs(n: Node, e: Entry, hops: nat)
    requires e.paths != [] && forall p :: p in e.paths ==> p.hopcount <= INFINITY2
    ensures HasRoom(n, e, hops) <==> |e.paths| < n.maxPaths && hops - MinHops(e.paths) <= n.lengthDiff
  {
    ShortestIsStored(e.paths);
  }

  lemma SamePathsRefl(paths: seq<Path>)
    ensures SamePaths(paths, paths)
  {
  }

  lemma {:induction false} ReleasedPaths(e: Entry, index: Addr, pkts: seq<Packet>, now: real)
    ensures SamePaths(e.paths, Released(e, index, pkts, now).0.paths)
    ensures forall i :: 0 < i < |e.paths| && i < |Released(e, index, pkts, now).0.paths| ==>
              Released(e, index, pkts, now).0.paths[i] == e.paths[i]
    decreases |pkts|
  {
    if pkts != [] {
      var e1 := FirstExpires(e, now + ACTIVE_ROUTE_TIMEOUT);
      ReleasedPaths(e, index, pkts[1..], now);
      ReleasedPaths(if pkts[0].src != index then e1.(error := true) else e1, index, pkts[1..], now);
    }
  }

  /** Refreshing a route, and sending what waits for it, keeps all paths of all routes. */
  lemma RefreshKeepsPaths(n: Node, x: Addr, now: real, d: Addr)
    requires x in n.table && d in n.table
    ensures var r := Refresh(n, x, now);
      && r.node.table.Keys == n.table.Keys && r.node.index == n.index && r.node.maxPaths == n.maxPaths
      && r.node.lengthDiff == n.lengthDiff && SamePaths(n.table[d].paths, r.node.table[d].paths)
      && forall i :: 0 < i < |n.table[d].paths| && i < |r.node.table[d].paths| ==> r.node.table[d].paths[i] == n.table[d].paths[i]
  {
    ReleasedPaths(Settled(n.table[x]), n.index, Held(Purged(n.buffer, now), x), now);
    hide Released, SamePath;
    SamePathsRefl(n.table[d].paths);
  }

  lemma {:induction false} ReleasedKeeps(e: Entry, index: Addr, pkts: seq<Packet>, now: real)
    ensures var e' := Released(e, index, pkts, now).0;
      e' == e.(paths := e'.paths, error := e'.error)
    decreases |pkts|
  {
    if pkts != [] {
      var e1 := FirstExpires(e, now + ACTIVE_ROUTE_TIMEOUT);
      ReleasedKeeps(e, index, pkts[1..], now);
      ReleasedKeeps(if pkts[0].src != index then e1.(error := true) else e1, index, pkts[1..], now);
    }
  }

  /** Nor does it change a route's standing. */
  lemma RefreshKeepsRoute(n: Node, x: Addr, now: real, d: Addr)
    requires x in n.table && d in n.table
    ensures var r := Refresh(n, x, now);
      && d in r.node.table && r.node.table[d].flags == n.table[d].flags && r.node.table[d].seqno == n.table[d].seqno
      && r.node.table[d].advertised == n.table[d].advertised && r.node.seqno == n.seqno
      && r.node.table[d].lastHopCount == n.table[d].lastHopCount
  {
    ReleasedKeeps(Settled(n.table[x]), n.index, Held(Purged(n.buffer, now), x), now);
    hide Released;
  }

  lemma AnswerKeepsPaths(n: Node, rq: Request, reversePath: bool, seen: bool, now: real, d: Addr)
    requires rq.src in n.table && d in n.table
    ensures var n' := Answer(n, rq, reversePath, seen, now).node; d in n'.table && n'.table[d].paths == n.table[d].paths
  {
    hide MaxHops, FirstPath, CacheIndex;
  }

  lemma PassReplyKeepsPaths(n: Node, rp: Reply, now: real, d: Addr)
    requires rp.dst in n.table && d in n.table
    ensures var n' := PassReply(n, rp, now).node; d in n'.table && SamePaths(n.table[d].paths, n'.table[d].paths)
    ensures var n' := PassReply(n, rp, now).node; d != rp.to ==> n'.table[d].paths == n.table[d].paths
  {
    hide MaxHops, CacheIndex;
    SamePathsRefl(n.table[d].paths);
  }

  /** A request under the number already known, over fewer hops than the node has vouched for. */
  predicate TellsMore(n: Node, d: Addr, seqno: nat, hopCount: nat) {
    d in n.table &&
    var e := n.table[d];
    && e.seqno == seqno && Finite(hopCount).Below(e.advertised)
    && e.paths != [] && forall p :: p in e.paths ==> p.hopcount <= INFINITY2
  }

  /** What becomes of the stored paths: one more, exactly if it is disjoint from all and there is room for it. */
  ghost predicate AddsPath(n: Node, e: Entry, now: seq<Path>, nexthop: Addr, hops: nat, lasthop: Addr) {
    if Apart(e, nexthop, lasthop) && HasRoom(n, e, hops) then OneMore(e.paths, now, nexthop, hops, lasthop)
    else SamePaths(e.paths, now)
  }

  lemma TakeRequestAddsPath(n: Node, rq: Request, now: real)
    requires TellsMore(n, rq.src, rq.srcSeqno, rq.hopCount)
    ensures var e, first, n' := n.table[rq.src], Stamped(n, rq).firstHop, TakeRequest(n, rq, now).0.node;
      && AddsPath(n, e, n'.table[rq.src].paths, rq.sender, rq.hopCount + 1, first)
      && (Apart(e, rq.sender, first) && HasRoom(n, e, rq.hopCount + 1) ==>
            n'.table[rq.src].paths[|e.paths|].expire == now + REV_ROUTE_LIFE)
  {
    hide Refresh, MaxHops, MinHops, CacheIndex;
    var e, rq1 := n.table[rq.src], Stamped(n, rq);
    var n1 := CacheRequest(n, rq1, now);
    var rr := ReverseRoute(n1, e, rq1, now);
    RoomIs(n, e, rq.hopCount + 1);
    SamePathsRefl(e.paths);
    BetweenIsShared(e, rq1.sender, rq1.firstHop);
    hide HasRoom, Apart, Between, NewDisjoint;
    if rr.1.Go? {
      RefreshKeepsPaths(SetEntry(n1, rq1.src, rr.0), rq.src, now, rq.src);
    }
  }

  /** A copy of a request under the number already known, over fewer hops than the node has vouched for: a path that is
  disjoint from all stored is added exactly if there is room for it, and otherwise all stay as they are. */
  lemma RequestAddsPath(n: Node, rq: Request, now: real)
    requires rq.src != n.index && TellsMore(n, rq.src, rq.srcSeqno, rq.hopCount)
    ensures var first := if rq.hopCount == 0 then n.index else rq.firstHop;
      var e, n' := n.table[rq.src], RecvRequest(n, rq, now).node;
      && rq.src in n'.table && AddsPath(n, e, n'.table[rq.src].paths, rq.sender, rq.hopCount + 1, first)
      && (Apart(e, rq.sender, first) && HasRoom(n, e, rq.hopCount + 1) ==>
            n'.table[rq.src].paths[|e.paths|].expire == now + REV_ROUTE_LIFE)
  {
    TakeRequestAddsPath(n, rq, now);
    hide TakeRequest, Answer, AddsPath, HasRoom, Apart;
    var (r, go) := TakeRequest(n, rq, now);
    if go.Go? {
      AnswerKeepsPaths(r.node, Stamped(n, rq), go.reversePath, Cached(n, rq.src, rq.bcastId), now, rq.src);
    }
  }

  /** A path heard of again lives for REV_ROUTE_LIFE at least, and loses nothing. */
  lemma HeardAgainLivesLonger(n: Node, rq: Request, now: real, i: nat)
    requires TellsMore(n, rq.src, rq.srcSeqno, rq.hopCount) && Disjoint(n.table[rq.src].paths)
    requires var e := n.table[rq.src];
      i < |e.paths| && e.paths[i].nexthop == rq.sender && e.paths[i].lasthop == Stamped(n, rq).firstHop
    ensures var e, e' := n.table[rq.src], ReverseRoute(n, n.table[rq.src], rq.(firstHop := Stamped(n, rq).firstHop), now).0;
      && SamePaths(e.paths, e'.paths) && e'.paths[i].expire >= now + REV_ROUTE_LIFE && e'.paths[i].expire >= e.paths[i].expire
      && forall j :: 0 <= j < |e.paths| && j != i ==> e'.paths[j] == e.paths[j]
  {
    var e := n.table[rq.src];
    var k := Between(e.paths, rq.sender, Stamped(n, rq).firstHop);
    assert k == i;
  }

  lemma BetweenIsShared(e: Entry, nexthop: Addr, lasthop: Addr)
    ensures Apart(e, nexthop, lasthop) == NewDisjoint(e.paths, nexthop, lasthop)
    ensures Apart(e, nexthop, lasthop) ==> Between(e.paths, nexthop, lasthop) == |e.paths|
  {
    var i := Between(e.paths, nexthop, lasthop);
    if i < |e.paths| {
      assert e.paths[i] in e.paths;
    }
  }

  /** The same of a reply. */
  lemma ReplyAddsPath(n: Node, rp: Reply, now: real)
    requires rp.dst != n.index && TellsMore(n, rp.dst, rp.dstSeqno, rp.hopCount)
    ensures var n' := RecvReply(n, rp, now).node;
      && rp.dst in n'.table
      && AddsPath(n, n.table[rp.dst], n'.table[rp.dst].paths, rp.sender, rp.hopCount + 1, rp.firstHop)
      && (Apart(n.table[rp.dst], rp.sender, rp.firstHop) && HasRoom(n, n.table[rp.dst], rp.hopCount + 1) && rp.to != rp.dst ==>
            n'.table[rp.dst].paths[|n.table[rp.dst].paths|].expire == now + rp.lifetime)
  {
    hide Refresh, PassReply, MaxHops, MinHops, CacheIndex;
    var e := n.table[rp.dst];
    var fr := ForwardRoute(n, e, rp, now);
    RoomIs(n, e, rp.hopCount + 1);
    SamePathsRefl(e.paths);
    BetweenIsShared(e, rp.sender, rp.firstHop);
    var n1 := SetEntry(n, rp.dst, fr.0);
    if fr.1.Go? {
      RefreshKeepsPaths(n1, rp.dst, now, rp.dst);
      PassReplyKeepsPaths(Refresh(n1, rp.dst, now).node, rp, now, rp.dst);
    }
  }

  /** At the destination itself: the route keeps its standing, and a reply goes out for every copy. */
  lemma TargetKeepsRoute(n: Node, rq: Request, now: real)
    requires rq.dst == n.index && rq.src != n.index && TellsMore(n, rq.src, rq.srcSeqno, rq.hopCount) && n.lengthDiff >= 0
    requires var first := if rq.hopCount == 0 then n.index else rq.firstHop;
      Apart(n.table[rq.src], rq.sender, first) && HasRoom(n, n.table[rq.src], rq.hopCount + 1)
    ensures var r := RecvRequest(n, rq, now);
      && r.node.index == n.index && rq.src in r.node.table
      && r.node.table[rq.src].flags == n.table[rq.src].flags && r.node.table[rq.src].seqno == n.table[rq.src].seqno
      && Rrep(Reply(n.index, rq.src, rq.sender, 0, n.index, ReplySeqno(n.seqno, rq.dstSeqno), MY_ROUTE_TIMEOUT,
                    rq.timestamp, rq.bcastId, rq.sender, NETWORK_DIAMETER)) in r.sent
  {
    var e, rq1 := n.table[rq.src], Stamped(n, rq);
    var n1 := CacheRequest(n, rq1, now);
    var rr := ReverseRoute(n1, e, rq1, now);
    var p := Path(rq1.sender, rq1.hopCount + 1, now + REV_ROUTE_LIFE, rq1.firstHop);
    BetweenIsShared(e, rq1.sender, rq1.firstHop);
    RoomIs(n, e, rq.hopCount + 1);
    ShorterWithMore(e.paths, p);
    hide Refresh, MaxHops, MinHops, CacheIndex, HasRoom, Apart, Between, NewDisjoint;
    assert rr == (Extended(e, p), Go(true));
    RefreshKeepsRoute(SetEntry(n1, rq1.src, rr.0), rq.src, now, rq.src);
    RefreshKeepsPaths(SetEntry(n1, rq1.src, rr.0), rq.src, now, rq.src);
  }

  lemma ShorterWithMore(paths: seq<Path>, p: Path)
    ensures MinHops(paths + [p]) == if p.hopcount < MinHops(paths) then p.hopcount else MinHops(paths)
  {
    assert (paths + [p])[..|paths|] == paths;
  }

  lemma ReplyKeepsRoute(n: Node, rp: Reply, now: real)
    requires rp.to == n.index && rp.dst != n.index && TellsMore(n, rp.dst, rp.dstSeqno, rp.hopCount)
    ensures var r := RecvReply(n, rp, now);
      && r.node.index == n.index && rp.dst in r.node.table
      && r.node.table[rp.dst].flags == n.table[rp.dst].flags && r.node.table[rp.dst].seqno == n.table[rp.dst].seqno
  {
    hide Refresh, MaxHops, MinHops, Between, NewDisjoint;
    var fr := ForwardRoute(n, n.table[rp.dst], rp, now);
    if fr.1.Go? {
      RefreshKeepsRoute(SetEntry(n, rp.dst, fr.0), rp.dst, now, rp.dst);
      RefreshKeepsPaths(SetEntry(n, rp.dst, fr.0), rp.dst, now, rp.dst);
    }
  }

  /** The length that a later search starts from is that of the longest path stored. */
  predicate Reaches(e: Entry) {
    (forall p :: p in e.paths ==> p.hopcount <= e.lastHopCount) && exists p :: p in e.paths && p.hopcount == e.lastHopCount
  }

  lemma ExtendedReaches(e: Entry, p: Path)
    requires p.hopcount > 0
    ensures Reaches(Extended(e, p))
  {
    LongestBounds(e.paths + [p]);
    assert p in e.paths + [p];
  }

  lemma SamePathsReach(e: Entry, e': Entry)
    requires Reaches(e) && SamePaths(e.paths, e'.paths) && e'.lastHopCount == e.lastHopCount
    ensures Reaches(e')
  {
    var p :| p in e.paths && p.hopcount == e.lastHopCount;
    var i :| 0 <= i < |e.paths| && e.paths[i] == p;
    assert e'.paths[i] in e'.paths;
    forall q | q in e'.paths
      ensures q.hopcount <= e.lastHopCount
    {
      var k :| 0 <= k < |e'.paths| && e'.paths[k] == q;
      assert e.paths[k] in e.paths;
    }
  }

  /** A path that is added counts for that. */
  lemma AddedPathReaches(n: Node, rq: Request, now: real)
    requires rq.src != n.index && TellsMore(n, rq.src, rq.srcSeqno, rq.hopCount) && n.lengthDiff >= 0
    requires Apart(n.table[rq.src], rq.sender, Stamped(n, rq).firstHop) && HasRoom(n, n.table[rq.src], rq.hopCount + 1)
    ensures var n' := RecvRequest(n, rq, now).node; rq.src in n'.table && Reaches(n'.table[rq.src])
  {
    var e, rq1 := n.table[rq.src], Stamped(n, rq);
    var n1 := CacheRequest(n, rq1, now);
    var rr := ReverseRoute(n1, e, rq1, now);
    var p := Path(rq1.sender, rq1.hopCount + 1, now + REV_ROUTE_LIFE, rq1.firstHop);
    BetweenIsShared(e, rq1.sender, rq1.firstHop);
    RoomIs(n, e, rq.hopCount + 1);
    ExtendedReaches(e, p);
    hide Refresh, MaxHops, MinHops, CacheIndex, HasRoom, Apart, Between, NewDisjoint, Reaches, SamePaths, Extended;
    var n2 := SetEntry(n1, rq1.src, rr.0);
    assert rr.0 == Extended(e, p);
    RefreshKeepsRoute(n2, rq.src, now, rq.src);
    RefreshKeepsPaths(n2, rq.src, now, rq.src);
    SamePathsReach(rr.0, Refresh(n2, rq.src, now).node.table[rq.src]);
    hide ReverseRoute;
    if rr.1.Go? {
      var n3 := TakeRequest(n, rq, now).0.node;
      AnswerKeepsReach(n3, rq1, rr.1.reversePath, Cached(n, rq.src, rq.bcastId), now, rq.src);
    }
  }

  lemma AnswerKeepsReach(n: Node, rq: Request, reversePath: bool, seen: bool, now: real, d: Addr)
    requires rq.src in n.table && d in n.table
    ensures var n' := Answer(n, rq, reversePath, seen, now).node;
      d in n'.table && n'.table[d].lastHopCount == n.table[d].lastHopCount && (Reaches(n.table[d]) ==> Reaches(n'.table[d]))
  {
    hide MaxHops, FirstPath, CacheIndex;
  }

  lemma AddedReplyReaches(n: Node, rp: Reply, now: real)
    requires rp.dst != n.index && TellsMore(n, rp.dst, rp.dstSeqno, rp.hopCount) && rp.to == n.index
    requires Apart(n.table[rp.dst], rp.sender, rp.firstHop) && HasRoom(n, n.table[rp.dst], rp.hopCount + 1)
    ensures var n' := RecvReply(n, rp, now).node; rp.dst in n'.table && Reaches(n'.table[rp.dst])
  {
    var e := n.table[rp.dst];
    var fr := ForwardRoute(n, e, rp, now);
    var p := Path(rp.sender, rp.hopCount + 1, now + rp.lifetime, rp.firstHop);
    BetweenIsShared(e, rp.sender, rp.firstHop);
    RoomIs(n, e, rp.hopCount + 1);
    ExtendedReaches(e, p);
    hide Refresh, MaxHops, MinHops, CacheIndex, HasRoom, Apart, Between, NewDisjoint, Reaches, SamePaths, Extended;
    var n1 := SetEntry(n, rp.dst, fr.0);
    assert fr.0 == Extended(e, p);
    RefreshKeepsRoute(n1, rp.dst, now, rp.dst);
    RefreshKeepsPaths(n1, rp.dst, now, rp.dst);
    SamePathsReach(fr.0, Refresh(n1, rp.dst, now).node.table[rp.dst]);
  }
}
