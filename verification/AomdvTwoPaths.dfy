/** Why AOMDV is multipath: along two disjoint paths, one discovery leaves both at each end. */
module AomdvTwoPaths {
  import opened Routing
  import opened BufferSpec
  import opened RingSearch
  import opened AomdvPaths
  import opened AomdvSpec
  import opened AomdvNetwork
  import opened AomdvMultipath
  import opened AomdvSetup

  /** Two different paths with the same ends and no inner node in common. */
  predicate Disjoined(a: seq<Addr>, b: seq<Addr>) {
    && IsPath(a) && IsPath(b) && a[0] == b[0] && a[|a| - 1] == b[|b| - 1] && |a| + |b| > 4
    && forall i, j :: 0 < i < |a| - 1 && 0 < j < |b| - 1 ==> a[i] != b[j]
  }

  /** A live route to `d` with two paths, the first and the second told of. */
  predicate LeadsBoth(n: Node, d: Addr, q: nat, next1: Addr, hops1: nat, last1: Addr, next2: Addr, hops2: nat, last2: Addr) {
    && d in n.table && n.table[d].flags == Up && n.table[d].seqno == q && |n.table[d].paths| == 2
    && n.table[d].paths[0].nexthop == next1 && n.table[d].paths[0].hopcount == hops1 && n.table[d].paths[0].lasthop == last1
    && n.table[d].paths[1].nexthop == next2 && n.table[d].paths[1].hopcount == hops2 && n.table[d].paths[1].lasthop == last2
  }

  /** A node with a single path, open to a second one. */
  predicate Welcoming(n: Node, d: Addr, q: nat, nexthop: Addr, hops: nat, lasthop: Addr, more: nat) {
    && Leads(n, d, q, nexthop, hops, lasthop) && n.table[d].advertised == Infinity && hops <= INFINITY2
    && n.maxPaths >= 2 && n.lengthDiff >= 0 && more - hops <= n.lengthDiff
  }

  lemma WelcomingHasRoom(n: Node, d: Addr, q: nat, nexthop: Addr, hops: nat, lasthop: Addr, more: nat, next2: Addr, last2: Addr)
    requires Welcoming(n, d, q, nexthop, hops, lasthop, more) && next2 != nexthop && last2 != lasthop && more > 0
    ensures TellsMore(n, d, q, more - 1) && Apart(n.table[d], next2, last2) && HasRoom(n, n.table[d], more)
  {
  }

  lemma BothLead(n: Node, n': Node, d: Addr, q: nat, next1: Addr, hops1: nat, last1: Addr, next2: Addr, hops2: nat, last2: Addr)
    requires Leads(n, d, q, next1, hops1, last1) && d in n'.table && n'.table[d].flags == Up && n'.table[d].seqno == q
    requires OneMore(n.table[d].paths, n'.table[d].paths, next2, hops2, last2)
    ensures LeadsBoth(n', d, q, next1, hops1, last1, next2, hops2, last2)
  {
    assert n'.table[d].paths[..1][0] == n'.table[d].paths[0];
  }

  /** The destination takes the second copy of a request as a second path, and answers it too. */
  lemma TargetTakesBoth(n: Node, rq: Request, now: real, next1: Addr, hops1: nat, last1: Addr)
    requires rq.dst == n.index && rq.src != n.index
    requires Welcoming(n, rq.src, rq.srcSeqno, next1, hops1, last1, rq.hopCount + 1)
    requires rq.sender != next1 && Stamped(n, rq).firstHop != last1
    ensures var r := RecvRequest(n, rq, now);
      && r.node.index == n.index
      && LeadsBoth(r.node, rq.src, rq.srcSeqno, next1, hops1, last1, rq.sender, rq.hopCount + 1, Stamped(n, rq).firstHop)
      && Rrep(Reply0(n, rq)) in r.sent
  {
    WelcomingHasRoom(n, rq.src, rq.srcSeqno, next1, hops1, last1, rq.hopCount + 1, rq.sender, Stamped(n, rq).firstHop);
    hide RecvRequest, HasRoom, Apart, TellsMore, OneMore;
    RequestAddsPath(n, rq, now);
    TargetKeepsRoute(n, rq, now);
    var n' := RecvRequest(n, rq, now).node;
    BothLead(n, n', rq.src, rq.srcSeqno, next1, hops1, last1, rq.sender, rq.hopCount + 1, Stamped(n, rq).firstHop);
  }

  /** And so does the source with the second reply. */
  lemma SourceTakesBoth(n: Node, rp: Reply, now: real, next1: Addr, hops1: nat, last1: Addr)
    requires rp.to == n.index && rp.dst != n.index
    requires Welcoming(n, rp.dst, rp.dstSeqno, next1, hops1, last1, rp.hopCount + 1)
    requires rp.sender != next1 && rp.firstHop != last1
    ensures var r := RecvReply(n, rp, now);
      && r.node.index == n.index
      && LeadsBoth(r.node, rp.dst, rp.dstSeqno, next1, hops1, last1, rp.sender, rp.hopCount + 1, rp.firstHop)
  {
    WelcomingHasRoom(n, rp.dst, rp.dstSeqno, next1, hops1, last1, rp.hopCount + 1, rp.sender, rp.firstHop);
    hide RecvReply, HasRoom, Apart, TellsMore, OneMore;
    ReplyAddsPath(n, rp, now);
    ReplyKeepsRoute(n, rp, now);
    BothLead(n, RecvReply(n, rp, now).node, rp.dst, rp.dstSeqno, next1, hops1, last1, rp.sender, rp.hopCount + 1, rp.firstHop);
  }

  /** Whether a node would store a second path, of a length not too different from the first. */
  predicate Multipath(n: Node, a: seq<Addr>, b: seq<Addr>) {
    n.maxPaths >= 2 && n.lengthDiff >= 0 && |b| - |a| <= n.lengthDiff
  }

  /** Both paths are stored at the source, in the order in which they were found. */
  predicate SourceHasBoth(n: Node, a: seq<Addr>, b: seq<Addr>)
    requires Disjoined(a, b)
  {
    LeadsBoth(n, a[|a| - 1], ANSWERING, a[1], |a| - 1, a[|a| - 2], b[1], |b| - 1, b[|b| - 2])
  }

  predicate TargetHasBoth(n: Node, a: seq<Addr>, b: seq<Addr>)
    requires Disjoined(a, b)
  {
    LeadsBoth(n, a[0], ASKING, a[|a| - 2], |a| - 1, a[1], b[|b| - 2], |b| - 1, b[1])
  }

  lemma EndsDiffer(a: seq<Addr>, b: seq<Addr>)
    requires Disjoined(a, b)
    ensures a[1] != b[1] && a[|a| - 2] != b[|b| - 2]
  {
    if |a| == 2 {
      assert b[1] != b[|b| - 1] && b[|b| - 2] != b[0];
    } else if |b| == 2 {
      assert a[1] != a[|a| - 1] && a[|a| - 2] != a[0];
    }
  }

  lemma TargetAgain(n: Node, a: seq<Addr>, b: seq<Addr>, now: real)
    requires Disjoined(a, b) && n.index == b[|b| - 1] && LeadsBack(n, a, |a| - 1) && n.seqno == ANSWERING
    requires n.table[a[0]].advertised == Infinity && Multipath(n, a, b)
    ensures var rq := Copy(b, |b| - 2, now); var r := RecvRequest(n, rq.(ttl := rq.ttl - 1), now);
      && r.node.index == n.index && TargetHasBoth(r.node, a, b) && Rrep(Back(b, |b| - 1, now)) in r.sent
  {
    hide RecvRequest;
    var rq := Copy(b, |b| - 2, now).(ttl := NETWORK_DIAMETER - |b| + 1);
    EndsDiffer(a, b);
    TargetTakesBoth(n, rq, now, a[|a| - 2], |a| - 1, a[1]);
    assert Reply0(n, rq) == Back(b, |b| - 1, now);
  }

  lemma SourceAgain(n: Node, a: seq<Addr>, b: seq<Addr>, now: real)
    requires Disjoined(a, b) && n.index == b[0] && LeadsOn(n, a, 0)
    requires n.table[a[|a| - 1]].advertised == Infinity && Multipath(n, a, b)
    ensures var rp := Back(b, 1, now); var r := RecvReply(n, rp.(ttl := rp.ttl - 1), now);
      r.node.index == n.index && SourceHasBoth(r.node, a, b)
  {
    hide RecvReply;
    var rp := Back(b, 1, now);
    EndsDiffer(a, b);
    SourceTakesBoth(n, rp.(ttl := rp.ttl - 1), now, a[1], |a| - 1, a[|a| - 2]);
  }

  // ---------- the run ----------

  /** Live paths along both, from every inner node; both stored at each end. */
  ghost predicate DoublyConnected(net: Net, a: seq<Addr>, b: seq<Addr>) {
    && Disjoined(a, b) && Inner(net, a) && Inner(net, b)
    && SourceHasBoth(net.nodes[a[0]], a, b) && TargetHasBoth(net.nodes[a[|a| - 1]], a, b)
  }

  /** One path is found, and nothing else has happened. */
  ghost predicate OneFound(net0: Net, net: Net, a: seq<Addr>, b: seq<Addr>, now: real) {
    && Disjoined(a, b) && Begun(net0, b, now) && Found(net0, net, a)
    && Multipath(net0.nodes[a[0]], a, b) && Multipath(net0.nodes[a[|a| - 1]], a, b)
  }

  lemma StillBegun(net0: Net, net: Net, a: seq<Addr>, b: seq<Addr>, now: real)
    requires OneFound(net0, net, a, b, now)
    ensures Begun(net, b, now) && |b| >= 2 && b[|b| - 1] in net.nodes
    ensures forall x :: x in a && x !in b ==> x in net.nodes
  {
    hide Connected, Inner, LeadsOn, LeadsBack, Untouched, Copy, Multipath, Open;
    ConnectedEnds(net, a);
    forall j: nat | 0 < j < |b| - 1
      ensures b[j] !in a
    {
    }
  }

  lemma ConnectedEnds(net: Net, a: seq<Addr>)
    requires Connected(net, a)
    ensures OnPath(net, a) && IsPath(a)
  {
  }

  /** The second path is found by the second copy of the same request. */
  lemma SecondPath(net0: Net, net: Net, a: seq<Addr>, b: seq<Addr>, now: real, perHop: Addr -> real)
    returns (nets: seq<Net>, evs: seq<Event>)
    requires OneFound(net0, net, a, b, now)
    ensures |nets| == |evs| + 1 && nets[0] == net && |evs| == 2 * |b| - 2
    ensures DoublyConnected(nets[|evs|], a, b)
    ensures Steps(nets, evs)
  {
    hide RecvRequest, RecvReply, Copy, Back, Untouched, Passed, Steps, Enabled, Apply, Leads, Open, Multipath, DoublyConnected;
    TargetIsReady(net0, net, a, b, now);
    StillBegun(net0, net, a, b, now);
    nets, evs := OutAndBack(net, b, now, perHop);
    var net1 := nets[|evs|];
    var ev := AtSource(net1, b, now, perHop);
    BothFound(net0, net, net1, Apply(net1, ev), a, b, now);
    StepsSnoc(nets, evs, ev);
    nets, evs := nets + [Apply(net1, ev)], evs + [ev];
  }

  lemma TargetIsReady(net0: Net, net: Net, a: seq<Addr>, b: seq<Addr>, now: real)
    requires OneFound(net0, net, a, b, now)
    ensures b[|b| - 1] in net.nodes
    ensures var rq := Copy(b, |b| - 2, now); var r := RecvRequest(net.nodes[b[|b| - 1]], rq.(ttl := rq.ttl - 1), now);
      && r.node.index == b[|b| - 1] && TargetHasBoth(r.node, a, b) && Rrep(Back(b, |b| - 1, now)) in r.sent
  {
    hide RecvRequest, Copy, Back, Untouched, Passed;
    TargetAgain(net.nodes[b[|b| - 1]], a, b, now);
  }

  lemma SourceIsReady(net0: Net, net: Net, a: seq<Addr>, b: seq<Addr>, now: real)
    requires OneFound(net0, net, a, b, now)
    ensures b[0] in net.nodes
    ensures var rp := Back(b, 1, now); var r := RecvReply(net.nodes[b[0]], rp.(ttl := rp.ttl - 1), now);
      && r.node.index == b[0] && SourceHasBoth(r.node, a, b)
  {
    hide RecvReply, Copy, Back, Untouched, Passed;
    SourceAgain(net.nodes[b[0]], a, b, now);
  }

  lemma BothFound(net0: Net, net: Net, net1: Net, net2: Net, a: seq<Addr>, b: seq<Addr>, now: real)
    requires OneFound(net0, net, a, b, now) && Answered(net, net1, b, now) && b[0] in net1.nodes
    requires var rp := Back(b, 1, now);
      net2.nodes == net1.nodes[b[0] := RecvReply(net1.nodes[b[0]], rp.(ttl := rp.ttl - 1), now).node]
    ensures DoublyConnected(net2, a, b)
  {
    hide RecvRequest, RecvReply, Copy, Back, Untouched, Passed, Multipath, Open, SourceHasBoth, TargetHasBoth;
    TargetIsReady(net0, net, a, b, now);
    SourceIsReady(net0, net, a, b, now);
    FirstStays(net, net1, net2, a, b);
    hide OneFound;
    SecondStays(net1, net2, b);
  }

  lemma FirstStays(net: Net, net1: Net, net2: Net, a: seq<Addr>, b: seq<Addr>)
    requires Disjoined(a, b) && Inner(net, a) && b[0] in net1.nodes && b[|b| - 1] in net1.nodes && net1.nodes.Keys == net.nodes.Keys
    requires forall x :: x in net.nodes && x !in b ==> net1.nodes[x] == net.nodes[x]
    requires net2.nodes.Keys == net1.nodes.Keys && forall x :: x in net1.nodes && x != b[0] ==> net2.nodes[x] == net1.nodes[x]
    requires net1.nodes[b[|b| - 1]].index == b[|b| - 1] && net2.nodes[b[0]].index == b[0]
    ensures Inner(net2, a)
  {
    hide Passed;
    forall i: nat | 0 < i < |a| - 1
      ensures a[i] !in b
    {
    }
  }

  lemma SecondStays(net1: Net, net2: Net, b: seq<Addr>)
    requires Inner(net1, b) && net2.nodes.Keys == net1.nodes.Keys && b[0] in net1.nodes
    requires forall x :: x in net1.nodes && x != b[0] ==> net2.nodes[x] == net1.nodes[x]
    requires net2.nodes[b[0]].index == b[0]
    ensures Inner(net2, b)
  {
    hide Passed;
  }

  /** In a network where nobody knows anything, the first packet can lead, with one step per hop and direction of either,
  to both of two disjoint paths stored at each end, if the ends store two paths and the second is not too much longer. */
  lemma FirstPacketFindsBoth(net: Net, a: seq<Addr>, b: seq<Addr>, p: Packet, now: real, perHop: Addr -> real)
    returns (nets: seq<Net>, evs: seq<Event>)
    requires Init(net) && Disjoined(a, b) && now >= 0.0
    requires forall x :: x in a || x in b ==> x in net.nodes
    requires p.src == a[0] && p.dst == a[|a| - 1] && p.forwards == 0
    requires Multipath(net.nodes[a[0]], a, b) && Multipath(net.nodes[a[|a| - 1]], a, b)
    ensures |nets| == |evs| + 1 && |evs| == 2 * |a| + 2 * |b| - 3 && nets[0] == net
    ensures DoublyConnected(nets[|evs|], a, b)
    ensures Run(nets, evs)
  {
    hide *;
    DisjoinedIs(a, b);
    var q := p.(ttl := NETWORK_DIAMETER);
    var ev := FreshStarts(net, a, p, now, perHop);
    var ev2 := FreshStarts(net, b, p, now, perHop);
    var net1 := Apply(net, ev);
    var nets1, evs1 := Discover(net, net1, a, q, now, perHop);
    var net2 := nets1[|evs1|];
    IsOneFound(net, net1, net2, a, b, q, now);
    var nets2, evs2 := SecondPath(net1, net2, a, b, now, perHop);
    StepsAppend(nets1, evs1, nets2, evs2);
    nets, evs := nets1[..|evs1|] + nets2, evs1 + evs2;
    StepsCons(net, ev, nets, evs);
    nets, evs := [net] + nets, [ev] + evs;
    StepsAreRun(nets, evs);
  }

  lemma DisjoinedIs(a: seq<Addr>, b: seq<Addr>)
    requires Disjoined(a, b)
    ensures IsPath(a) && IsPath(b) && |a| >= 2 && |b| >= 2 && a[0] == b[0] && a[|a| - 1] == b[|b| - 1]
  {
  }

  lemma IsOneFound(net: Net, net1: Net, net2: Net, a: seq<Addr>, b: seq<Addr>, q: Packet, now: real)
    requires Disjoined(a, b) && Asked(net, net1, a, q, now) && Asked(net, net1, b, q, now) && Found(net1, net2, a)
    requires forall x :: x in a || x in b ==> x in net.nodes
    requires Multipath(net.nodes[a[0]], a, b) && Multipath(net.nodes[a[|a| - 1]], a, b)
    ensures OneFound(net1, net2, a, b, now)
  {
    hide Begun, Found, Waits, Untouched;
  }
}
