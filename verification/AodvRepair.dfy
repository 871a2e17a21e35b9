/** Local repair is compiled in, and its timer takes a route down without raising the sequence number.
This module exhibits a run of the protocol in which that closes a routing loop, and a reachable state in
which the assertion in handle_link_failure fails. */
module AodvRepair {
  import opened Routing
  import opened BufferSpec
  import opened RingSearch
  import opened AodvSpec
  import opened AodvSafety
  import opened AodvNetwork

  const A: Addr := 1
  const B: Addr := 2
  const D: Addr := 3
  const C: Addr := 4

  function NoLatency(): Addr -> real {
    (d: Addr) => 0.0
  }

  /** D asks for some node 7; the request is how A, and through A also B, learn a route to D. */
  const ASK := Packet(0, D, 7, 0, 0)
  const FROM_D := Rreq(Request(D, 1, 1, 7, 0, D, 4, 0.0, 30))
  const FROM_D_BY_A := Rreq(Request(A, 2, 1, 7, 0, D, 4, 0.0, 29))
  /** A fails to hand this packet to D over its one-hop route. It came from C through B, two hops, so A repairs
  locally. */
  const LOST := Packet(1, C, D, 28, 2)
  /** B's own packet, one hop old when it fails in the same way, is not worth a repair. */
  const LOST_TOO := Packet(2, B, D, 29, 1)
  const FROM_A := Rreq(Request(A, 1, 1, D, 4, A, 4, 0.0, 30))

  lemma DAsks(n: Node)
    requires n == NewNode(D)
    ensures FROM_D in RecvData(n, ASK, 0.0, NoLatency()).sent
  {
    var p := ASK.(ttl := NETWORK_DIAMETER);
    var n1 := SetEntry(n, 7, NewEntry);
    var n2 := n1.(buffer := Enqueued(n.buffer, p, 0.0));
    assert RtResolve(n, p, 0.0, NoLatency()) == SendRequest(n2, 7, 0.0, NoLatency());
    assert SendRequest(n2, 7, 0.0, NoLatency()).sent == [FROM_D];
  }

  lemma ALearnsD(n: Node)
    requires n == NewNode(A)
    ensures var r := Recv(n, FROM_D, 0.0, NoLatency());
            && r.node.index == A && r.node.seqno == 2 && r.node.bid == 1
            && D in r.node.table && r.node.table[D] == Updated(NewEntry, 4, 1, D, 6.0) && r.node.buffer == []
            && FROM_D_BY_A in r.sent
  {
    var rq := FROM_D.rq.(ttl := 29);
    var e := Updated(NewEntry.(expire := 6.0), 4, 1, D, 6.0);
    var n1 := SetEntry(n.(heard := [Broadcast(D, 1, 6.0)]), D, e);
    assert n.heard == [];
    assert [Broadcast(D, 1, 6.0)] + n.heard == [Broadcast(D, 1, 6.0)];
    assert Purged([], 0.0) == [] && Held([], D) == [] && Others([], D) == [];
    assert Release(n1, D, 0.0) == Result(n1, []) by {
      assert n1.table[D := e] == n1.table;
    }
    assert ReverseRoute(n, rq, 0.0) == Result(n1, []);
    assert Answer(n1, rq, 0.0) == Result(n1, [FROM_D_BY_A]);
  }

  lemma BLearnsDThroughA(n: Node)
    requires n == NewNode(B)
    ensures var r := Recv(n, FROM_D_BY_A, 0.0, NoLatency());
            && r.node.index == B
            && D in r.node.table && r.node.table[D] == Updated(NewEntry, 4, 2, A, 6.0) && r.node.buffer == []
            && A !in r.node.table && r.node.heard == [Broadcast(D, 1, 6.0)]
  {
    var rq := FROM_D_BY_A.rq.(ttl := 28);
    var e := Updated(NewEntry.(expire := 6.0), 4, 2, A, 6.0);
    var n1 := SetEntry(n.(heard := [Broadcast(D, 1, 6.0)]), D, e);
    assert n.heard == [];
    assert [Broadcast(D, 1, 6.0)] + n.heard == [Broadcast(D, 1, 6.0)];
    assert Purged([], 0.0) == [] && Held([], D) == [] && Others([], D) == [];
    assert Release(n1, D, 0.0) == Result(n1, []) by {
      assert n1.table[D := e] == n1.table;
    }
    assert ReverseRoute(n, rq, 0.0) == Result(n1, []);
  }

  /** A marks the route as under repair and asks for D with the number it already has. */
  lemma ARepairs(n: Node)
    requires n.index == A && n.seqno == 2 && n.bid == 1 && n.buffer == []
    requires D in n.table && n.table[D] == Updated(NewEntry, 4, 1, D, 6.0)
    ensures var r := LinkLayerFailed(n, LOST, D, 0.0, NoLatency());
            && r.node.index == A && D in r.node.table
            && r.node.table[D].flags == InRepair && r.node.table[D].seqno == 4
            && r.node.table[D].hops == Finite(1) && r.node.table[D].nexthop == D
            && FROM_A in r.sent
  {
    var n1 := SetEntry(n, D, n.table[D].(flags := InRepair)).(buffer := Enqueued(n.buffer, LOST, 0.0));
    assert LinkLayerFailed(n, LOST, D, 0.0, NoLatency()) == SendRequest(n1, D, 0.0, NoLatency());
    assert SendRequest(n1, D, 0.0, NoLatency()).sent == [FROM_A];
  }

  /** B answers from its table: its route to D, which runs through A, is still fresh enough. */
  lemma BAnswers(n: Node) returns (reply: Reply)
    requires n.index == B && n.buffer == [] && D in n.table && n.table[D] == Updated(NewEntry, 4, 2, A, 6.0)
    requires A !in n.table && n.heard == [Broadcast(D, 1, 6.0)]
    ensures Rrep(reply) in Recv(n, FROM_A, 0.0, NoLatency()).sent
    ensures reply.sender == B && reply.dst == D && reply.dstSeqno == 4 && reply.hopCount == 3
    ensures var n' := Recv(n, FROM_A, 0.0, NoLatency()).node;
            D in n'.table && n'.table[D].flags == Up && n'.table[D].nexthop == A
  {
    var rq := FROM_A.rq.(ttl := 29);
    var e := Updated(NewEntry.(expire := 6.0), 4, 1, A, 6.0);
    var heard := [Broadcast(A, 1, 6.0)] + n.heard;
    var n1 := SetEntry(n.(heard := heard), A, e);
    assert !Heard(n, A, 1);
    assert Purged([], 0.0) == [] && Held([], A) == [] && Others([], A) == [];
    assert Release(n1, A, 0.0) == Result(n1, []) by {
      assert n1.table[A := e] == n1.table;
    }
    assert ReverseRoute(n, rq, 0.0) == Result(n1, []);
    assert CanReply(n1, rq);
    reply := ReplyTo(n1, rq, 3, 4, Seconds(6.0)).rp;
    assert Answer(n1, rq, 0.0).sent == [Rrep(reply)];
  }

  /** With the number unchanged and the hop count back at infinity, A takes B's longer route. */
  lemma ATurnsToB(n: Node, rp: Reply)
    requires D in n.table && n.table[D].seqno == 4 && n.table[D].hops == Infinity
    requires rp.sender == B && rp.dst == D && rp.dstSeqno == 4 && rp.hopCount == 3
    ensures var n' := Recv(n, Rrep(rp), 0.0, NoLatency()).node;
            D in n'.table && n'.table[D].flags == Up && n'.table[D].nexthop == B
  {
    var rp' := rp.(ttl := rp.ttl - 1);
    var r1 := ForwardRoute(n, rp', 0.0);
    assert r1.node.table[D].flags == Up && r1.node.table[D].nexthop == B;
  }

  lemma TwoNodeLoop(net: Net, d: Addr, x: Addr, y: Addr)
    requires HopTowards(net, d, x, y) && HopTowards(net, d, y, x) && x != d && y != d
    ensures Walk(net, d, [x, y, x])
    ensures !LoopFree(net)
  {
    var walk := [x, y, x];
    assert walk[0] == walk[2];
    assert Walk(net, d, walk) && !Distinct(walk);
  }

  lemma RunExtends(nets: seq<Net>, evs: seq<Event>, ev: Event)
    requires Run(nets, evs) && Enabled(nets[|evs|], ev)
    ensures Run(nets + [Apply(nets[|evs|], ev)], evs + [ev])
  {
    hide Enabled, Apply, Init;
  }

  /** A has a one-hop route to D, and B a route to D through A. */
  ghost predicate RoutesKnown(net: Net) {
    && net.nodes.Keys == {A, B, C, D}
    && (var a := net.nodes[A];
        a.index == A && a.seqno == 2 && a.bid == 1 && a.buffer == []
        && D in a.table && a.table[D] == Updated(NewEntry, 4, 1, D, 6.0))
    && (var b := net.nodes[B];
        b.index == B && b.buffer == [] && b.heard == [Broadcast(D, 1, 6.0)]
        && D in b.table && b.table[D] == Updated(NewEntry, 4, 2, A, 6.0) && A !in b.table)
  }

  lemma RoutesBecomeKnown() returns (nets: seq<Net>, evs: seq<Event>)
    ensures Run(nets, evs) && |evs| == 3 && RoutesKnown(nets[3])
    ensures forall i :: 0 <= i < 3 ==> Careful(nets[i], evs[i])
  {
    hide Recv, RecvData;
    var net0 := Net(map[A := NewNode(A), B := NewNode(B), C := NewNode(C), D := NewNode(D)], {});
    var ev0 := Originate(D, ASK, 0.0, NoLatency());
    DAsks(net0.nodes[D]);
    var net1 := Apply(net0, ev0);
    var ev1 := Deliver(A, FROM_D, 0.0, NoLatency());
    ALearnsD(net1.nodes[A]);
    var net2 := Apply(net1, ev1);
    var ev2 := Deliver(B, FROM_D_BY_A, 0.0, NoLatency());
    BLearnsDThroughA(net2.nodes[B]);
    nets := [net0, net1, net2, Apply(net2, ev2)];
    evs := [ev0, ev1, ev2];
  }

  /** A's route is down although its number never moved, and B offers a route through A at that number. */
  lemma RepairFails(net3: Net) returns (net4: Net, net5: Net, net6: Net, reply: Reply)
    requires RoutesKnown(net3)
    ensures var ev3 := LinkFailure(A, LOST, D, 0.0, NoLatency());
            Enabled(net3, ev3) && net4 == Apply(net3, ev3)
    ensures A in net4.nodes && Enabled(net4, RepairTimer(A, D)) && !Careful(net4, RepairTimer(A, D))
    ensures net5 == Apply(net4, RepairTimer(A, D))
    ensures var ev5 := Deliver(B, FROM_A, 0.0, NoLatency());
            Enabled(net5, ev5) && net6 == Apply(net5, ev5)
    ensures Rrep(reply) in net6.msgs
    ensures reply.sender == B && reply.dst == D && reply.dstSeqno == 4 && reply.hopCount == 3
    ensures A in net6.nodes && D in net6.nodes[A].table
    ensures net6.nodes[A].table[D].seqno == 4 && net6.nodes[A].table[D].hops == Infinity
    ensures HopTowards(net6, D, B, A)
  {
    hide Recv, LinkLayerFailed;
    ARepairs(net3.nodes[A]);
    net4 := Apply(net3, LinkFailure(A, LOST, D, 0.0, NoLatency()));
    net5 := Apply(net4, RepairTimer(A, D));
    reply := BAnswers(net5.nodes[B]);
    net6 := Apply(net5, Deliver(B, FROM_A, 0.0, NoLatency()));
  }

  /** A run with one careless repair timer that ends with A and B each routing to D through the other. */
  lemma RepairTimerClosesLoop() returns (nets: seq<Net>, evs: seq<Event>)
    ensures Run(nets, evs) && |evs| == 7
    ensures forall i :: 0 <= i < 7 && i != 4 ==> Careful(nets[i], evs[i])
    ensures evs[4] == RepairTimer(A, D) && !Careful(nets[4], evs[4])
    ensures Walk(nets[7], D, [A, B, A])
    ensures !LoopFree(nets[7])
  {
    nets, evs := RoutesBecomeKnown();
    var net4, net5, net6, reply := RepairFails(nets[3]);
    hide RoutesKnown, LoopFree, Walk, Recv, RecvData, LinkLayerFailed, RepairTimeout;
    var ev6 := Deliver(A, Rrep(reply), 0.0, NoLatency());
    ATurnsToB(net6.nodes[A], reply);
    var net7 := Apply(net6, ev6);
    TwoNodeLoop(net7, D, A, B);
    hide Apply, HopTowards;
    RunExtends(nets, evs, LinkFailure(A, LOST, D, 0.0, NoLatency()));
    nets, evs := nets + [net4], evs + [LinkFailure(A, LOST, D, 0.0, NoLatency())];
    RunExtends(nets, evs, RepairTimer(A, D));
    nets, evs := nets + [net5], evs + [RepairTimer(A, D)];
    RunExtends(nets, evs, Deliver(B, FROM_A, 0.0, NoLatency()));
    nets, evs := nets + [net6], evs + [Deliver(B, FROM_A, 0.0, NoLatency())];
    RunExtends(nets, evs, ev6);
    nets, evs := nets + [net7], evs + [ev6];
  }
}
