/** The route-request buffer as it is built: packets linked through their own `next` fields. */
module RouteBuffer {
  import opened Routing
  import opened BufferSpec

  class QueuedPacket {
    const packet: Packet
    var ts: real
    var next: QueuedPacket?

    constructor (p: Packet)
      ensures packet == p
    {
      packet := p;
    }
  }

  class Queue {
    var head: QueuedPacket?
    var tail: QueuedPacket?
    var len: int
    ghost var nodes: seq<QueuedPacket>
    /** Every packet that has ever been queued. */
    ghost var cells: set<QueuedPacket>

    ghost predicate Valid()
      reads this, nodes
    {
      && (forall i :: 0 <= i < |nodes| ==> nodes[i] in cells)
      && Chained(nodes) && len == |nodes| <= BUFFER_LIMIT
      && head == At(nodes, 0) && tail == At(nodes, |nodes| - 1)
    }

    static function At(nodes: seq<QueuedPacket>, i: int): QueuedPacket? {
      if 0 <= i < |nodes| then nodes[i] else null
    }

    static ghost predicate Apart(nodes: seq<QueuedPacket>) {
      forall i, j :: 0 <= i < j < |nodes| ==> nodes[i] != nodes[j]
    }

    static ghost predicate Chained(nodes: seq<QueuedPacket>)
      reads nodes
    {
      Apart(nodes)
      && forall i {:trigger nodes[i].next} :: 0 <= i < |nodes| ==> nodes[i].next == At(nodes, i + 1)
    }

    ghost function Contents(): (q: seq<Buffered>)
      reads this, nodes
      ensures |q| == |nodes|
    {
      seq(|nodes|, i requires 0 <= i < |nodes| reads this, nodes => Buffered(nodes[i].packet, nodes[i].ts))
    }

    constructor ()
      ensures Valid() && Contents() == [] && cells == {}
    {
      head, tail, len := null, null, 0;
      nodes, cells := [], {};
    }

    method RemoveHead() returns (p: QueuedPacket?)
      requires Valid()
      modifies this`head, this`tail, this`len, this`nodes
      ensures Valid()
      ensures old(nodes) == [] ==> p == null && nodes == []
      ensures old(nodes) != [] ==> p == old(nodes)[0] && nodes == old(nodes)[1..]
    {
      p := head;
      if head == tail {
        assert nodes != [] ==> |nodes| == 1;
        head, tail := null, null;
      } else {
        head := head.next;
      }
      if p != null {
        len := len - 1;
        nodes := nodes[1..];
      }
    }

    /** findPacketWithDst */
    method FindPacketWithDst(dst: Addr) returns (p: QueuedPacket?, prev: QueuedPacket?, ghost i: nat)
      requires Valid()
      ensures i == FirstFor(Contents(), dst)
      ensures p == if i < |nodes| then nodes[i] else null
      ensures i < |nodes| ==> prev == At(nodes, i - 1)
    {
      p, prev, i := head, null, 0;
      while p != null
        invariant 0 <= i <= |nodes|
        invariant p == if i < |nodes| then nodes[i] else null
        invariant prev == At(nodes, i - 1)
        invariant forall j :: 0 <= j < i ==> Contents()[j].packet.dst != dst
        decreases |nodes| - i
      {
        if p.packet.dst == dst {
          FirstForUnique(Contents(), dst, i);
          return;
        }
        prev, p, i := p, p.next, i + 1;
      }
      FirstForUnique(Contents(), dst, i);
    }

    /** findAgedPacket */
    method FindAgedPacket(now: real) returns (found: bool, p: QueuedPacket?, prev: QueuedPacket?, ghost i: nat)
      requires Valid()
      ensures i <= |nodes| && forall j :: 0 <= j < i ==> !Aged(Contents()[j], now)
      ensures found <==> i < |nodes|
      ensures found ==> Aged(Contents()[i], now) && p == nodes[i] && prev == At(nodes, i - 1)
    {
      p, prev, i := head, null, 0;
      while p != null
        invariant 0 <= i <= |nodes|
        invariant p == if i < |nodes| then nodes[i] else null
        invariant prev == At(nodes, i - 1)
        invariant forall j :: 0 <= j < i ==> !Aged(Contents()[j], now)
        decreases |nodes| - i
      {
        if p.ts < now {
          return true, p, prev, i;
        }
        prev, p, i := p, p.next, i + 1;
      }
      found := false;
    }

    /** Take `p`, found behind `prev`, out of the list. */
    method Unlink(p: QueuedPacket, prev: QueuedPacket?, ghost i: nat)
      requires Valid() && i < |nodes| && p == nodes[i] && prev == At(nodes, i - 1)
      modifies this`head, this`tail, this`len, this`nodes, nodes`next
      ensures Valid() && nodes == old(nodes)[..i] + old(nodes)[i + 1..]
      ensures Contents() == old(Contents())[..i] + old(Contents())[i + 1..]
    {
      hide Valid;
      Cut(p, prev, i);
    }

    method Cut(p: QueuedPacket, prev: QueuedPacket?, ghost i: nat)
      requires Valid() && i < |nodes| && p == nodes[i] && prev == At(nodes, i - 1)
      modifies this`head, this`tail, this`len, this`nodes, nodes`next
      ensures Valid() && nodes == old(nodes)[..i] + old(nodes)[i + 1..]
    {
      assert p == head <==> i == 0;
      hide Valid;
      if p == head {
        var _ := RemoveHead();
      } else {
        CutBehind(p, prev, i);
      }
    }

    method CutBehind(p: QueuedPacket, prev: QueuedPacket, ghost i: nat)
      requires Valid() && 0 < i < |nodes| && p == nodes[i] && prev == nodes[i - 1]
      modifies this`tail, this`len, this`nodes, prev`next
      ensures Valid() && nodes == old(nodes)[..i] + old(nodes)[i + 1..]
    {
      ghost var was := nodes;
      assert p.next == At(was, i + 1);
      if p == tail {
        prev.next := null;
        tail := prev;
      } else {
        prev.next := p.next;
      }
      assert forall k {:trigger was[k].next} ::
          0 <= k < |was| ==> was[k].next == At(was, if k == i - 1 then k + 2 else k + 1);
      assert Apart(was);
      hide Apart, Chained;
      ClosedUp(was, i);
      len := len - 1;
      nodes := nodes[..i] + nodes[i + 1..];
    }

    /** With the node before node `i` linked to the one after it, the shorter list is a chain. */
    static lemma ClosedUp(was: seq<QueuedPacket>, i: nat)
      requires 0 < i < |was| && Apart(was)
      requires forall k {:trigger was[k].next} ::
                 0 <= k < |was| ==> was[k].next == At(was, if k == i - 1 then k + 2 else k + 1)
      ensures var now := was[..i] + was[i + 1..];
        Chained(now) && now[0] == was[0] && now[|now| - 1] == was[if i == |was| - 1 then |was| - 2 else |was| - 1]
    {
      var now := was[..i] + was[i + 1..];
      ClosedApart(was, i);
      forall k | 0 <= k < |now|
        ensures now[k].next == At(now, k + 1)
      {
        ClosedAt(was, i, k);
        ClosedAt(was, i, k + 1);
      }
    }

    static lemma ClosedAt(was: seq<QueuedPacket>, i: nat, k: int)
      requires i < |was|
      ensures At(was[..i] + was[i + 1..], k) == if k < i then At(was, k) else At(was, k + 1)
    {
    }

    static lemma ClosedApart(was: seq<QueuedPacket>, i: nat)
      requires i < |was| && Apart(was)
      ensures Apart(was[..i] + was[i + 1..])
    {
    }

    /** purge: search from the head again after every removal, until nothing aged is left. */
    method Purge(now: real)
      requires Valid()
      modifies this`head, this`tail, this`len, this`nodes, nodes`next
      ensures Valid() && Contents() == Purged(old(Contents()), now)
      ensures forall k :: 0 <= k < |nodes| ==> nodes[k] in old(nodes)
    {
      hide Valid, Purged;
      var found, p, prev, i := FindAgedPacket(now);
      while found
        invariant Valid() && forall k :: 0 <= k < |nodes| ==> nodes[k] in old(nodes)
        invariant Purged(Contents(), now) == Purged(old(Contents()), now)
        invariant 0 <= i <= |nodes| && forall j :: 0 <= j < i ==> !Aged(Contents()[j], now)
        invariant found <==> i < |nodes|
        invariant found ==> Aged(Contents()[i], now) && p == nodes[i] && prev == At(nodes, i - 1)
        decreases |nodes|
      {
        RemoveAged(Contents(), i, now);
        Unlink(p, prev, i);
        found, p, prev, i := FindAgedPacket(now);
      }
      PurgedFixpoint(Contents(), now);
    }

    method Enque(p: QueuedPacket, now: real) returns (dropped: QueuedPacket?)
      requires Valid() && p !in nodes
      modifies this, cells, p
      ensures Valid() && cells == old(cells) + {p}
      ensures Contents() == Enqueued(old(Contents()), p.packet, now)
      ensures dropped != null <==> |Purged(old(Contents()), now)| == BUFFER_LIMIT
    {
      hide Purged, Chained;
      Purge(now);
      p.next := null;
      p.ts := now + BUFFER_TIMEOUT;
      dropped := null;
      if len == BUFFER_LIMIT {
        dropped := RemoveHead();
      }
      assert p !in nodes;
      Append(p);
    }

    /** The linking of a packet at the end. */
    method Append(p: QueuedPacket)
      requires Valid() && p !in nodes && p.next == null && |nodes| < BUFFER_LIMIT
      modifies this, nodes`next
      ensures Valid() && nodes == old(nodes) + [p] && cells == old(cells) + {p}
      ensures Contents() == old(Contents()) + [Buffered(p.packet, p.ts)]
    {
      if head == null {
        head, tail := p, p;
      } else {
        assert tail in nodes;
        tail.next := p;
        tail := p;
      }
      len := len + 1;
      nodes, cells := nodes + [p], cells + {p};
    }

    /** deque() */
    method Deque(now: real) returns (p: QueuedPacket?)
      requires Valid()
      modifies this, cells
      ensures Valid() && cells == old(cells)
      ensures var live := Purged(old(Contents()), now);
              if live == [] then p == null && Contents() == []
              else p != null && p.packet == live[0].packet && Contents() == live[1..]
    {
      Purge(now);
      p := RemoveHead();
    }

    /** deque(dst) */
    method DequeFor(dst: Addr, now: real) returns (p: QueuedPacket?)
      requires Valid()
      modifies this, cells
      ensures Valid() && cells == old(cells) && Contents() == AfterDequeue(old(Contents()), dst, now)
      ensures p == null <==> Dequeued(old(Contents()), dst, now) == None
      ensures p != null ==> Dequeued(old(Contents()), dst, now) == Some(p.packet)
    {
      CellsHoldNodes();
      hide Valid, Purged, FirstFor;
      Purge(now);
      var prev; ghost var i;
      p, prev, i := FindPacketWithDst(dst);
      if p != null {
        CellsHoldNodes();
        Unlink(p, prev, i);
      }
    }

    lemma CellsHoldNodes()
      requires Valid()
      ensures forall i :: 0 <= i < |nodes| ==> nodes[i] in cells
    {
    }

    /** The loop `while p = deque(dst)`: everything live that is held for `dst`, oldest first. */
    method DrainFor(dst: Addr, now: real) returns (packets: seq<Packet>)
      requires Valid()
      modifies this, cells
      ensures Valid() && cells == old(cells)
      ensures packets == Held(Purged(old(Contents()), now), dst)
      ensures Contents() == Others(Purged(old(Contents()), now), dst)
    {
      hide Valid, Purged, Dequeued, AfterDequeue, FirstFor, Held, Others;
      ghost var live := Purged(Contents(), now);
      packets := [];
      DequeueOutcome(Contents(), dst, now);
      var p := DequeFor(dst, now);
      while p != null
        invariant Valid() && cells == old(cells)
        invariant packets + (if p != null then [p.packet] else []) + Held(Contents(), dst) == Held(live, dst)
        invariant Others(Contents(), dst) == Others(live, dst)
        invariant Purged(Contents(), now) == Contents()
        invariant p == null ==> Held(Contents(), dst) == [] && Contents() == Others(live, dst)
        decreases p != null, |Contents()|
      {
        packets := packets + [p.packet];
        DequeueOutcome(Contents(), dst, now);
        p := DequeFor(dst, now);
      }
    }

    method Find(dst: Addr) returns (found: bool)
      requires Valid()
      ensures found == Holds(Contents(), dst)
    {
      var p, _, i := FindPacketWithDst(dst);
      found := p != null;
    }

    /** verifyQueue: the packets counted along the links, and the last of them, which the original asserts to be the
    length and the tail it keeps. */
    method VerifyQueue() returns (cnt: nat, last: QueuedPacket?)
      requires Valid()
      ensures cnt == |Contents()| && cnt == len && last == tail
      ensures last == null <==> Contents() == []
      ensures last != null ==> last.next == null && last.packet == Contents()[cnt - 1].packet
    {
      var p := head;
      cnt, last := 0, null;
      while p != null
        invariant 0 <= cnt <= |nodes|
        invariant p == if cnt < |nodes| then nodes[cnt] else null
        invariant last == At(nodes, cnt - 1)
        decreases |nodes| - cnt
      {
        cnt := cnt + 1;
        last, p := p, p.next;
      }
    }
  }

  lemma {:induction false} FirstForUnique(q: seq<Buffered>, dst: Addr, i: nat)
    requires i <= |q| && forall j :: 0 <= j < i ==> q[j].packet.dst != dst
    requires i < |q| ==> q[i].packet.dst == dst
    ensures FirstFor(q, dst) == i
  {
  }

  lemma RemoveAged(q: seq<Buffered>, i: nat, now: real)
    requires i < |q| && Aged(q[i], now)
    ensures Purged(q[..i] + q[i + 1..], now) == Purged(q, now)
  {
    assert q == q[..i] + ([q[i]] + q[i + 1..]);
    PurgedConcat(q[..i], [q[i]] + q[i + 1..], now);
    PurgedConcat(q[..i], q[i + 1..], now);
    assert ([q[i]] + q[i + 1..])[1..] == q[i + 1..];
  }

  // ---------- what the buffer guarantees over time ----------

  /** Deadlines in queue order, as they are when the clock never runs backwards. */
  ghost predicate Sorted(q: seq<Buffered>) {
    forall i, j :: 0 <= i <= j < |q| ==> q[i].expiry <= q[j].expiry
  }

  /** The purge that only ever looks at the head. */
  function HeadPurged(q: seq<Buffered>, now: real): seq<Buffered> {
    if q != [] && Aged(q[0], now) then HeadPurged(q[1..], now) else q
  }

  /** On a sorted queue, rescanning the whole list finds nothing that looking at the head would miss. */
  lemma {:induction false} RescanningFindsNoMore(q: seq<Buffered>, now: real)
    requires Sorted(q)
    ensures Purged(q, now) == HeadPurged(q, now)
  {
    if q != [] {
      if Aged(q[0], now) {
        RescanningFindsNoMore(q[1..], now);
      } else {
        PurgedFixpoint(q, now);
      }
    }
  }

  datatype Op = Enq(p: Packet) | Deq(dst: Addr) | Tidy

  /** The buffer, the clock, and where every packet that ever entered has gone. */
  datatype Ledger = Ledger(
    queue: seq<Buffered>,
    clock: real,
    entered: seq<Packet>,
    returned: seq<Packet>,
    overflowed: seq<Packet>,
    aged: seq<Packet>)

  function AgedOut(q: seq<Buffered>, now: real): seq<Packet> {
    if q == [] then []
    else (if Aged(q[0], now) then [q[0].packet] else []) + AgedOut(q[1..], now)
  }

  function Step(l: Ledger, op: Op, now: real): Ledger {
    var live := Purged(l.queue, now);
    var l1 := l.(clock := now, queue := live, aged := l.aged + AgedOut(l.queue, now));
    match op
    case Enq(p) =>
      l1.(queue := Enqueued(l.queue, p, now), entered := l.entered + [p],
          overflowed := l.overflowed + (if |live| == BUFFER_LIMIT then [live[0].packet] else []))
    case Deq(dst) =>
      l1.(queue := AfterDequeue(l.queue, dst, now),
          returned := l.returned + (match Dequeued(l.queue, dst, now) case None => [] case Some(p) => [p]))
    case Tidy => l1
  }

  ghost predicate LedgerRun(run: seq<Ledger>, ops: seq<(Op, real)>) {
    && |run| == |ops| + 1
    && run[0].queue == [] && run[0].entered == [] && run[0].returned == [] && run[0].overflowed == [] && run[0].aged == []
    && forall i :: 0 <= i < |ops| ==> run[i].clock <= ops[i].1 && run[i + 1] == Step(run[i], ops[i].0, ops[i].1)
  }

  function Packets(q: seq<Buffered>): seq<Packet> {
    seq(|q|, i requires 0 <= i < |q| => q[i].packet)
  }

  /** Every packet that entered is in exactly one place. */
  ghost predicate Balanced(l: Ledger) {
    multiset(l.entered) == multiset(Packets(l.queue)) + multiset(l.returned) + multiset(l.overflowed) + multiset(l.aged)
  }

  ghost predicate LedgerInv(l: Ledger) {
    && Balanced(l) && Sorted(l.queue) && |l.queue| <= BUFFER_LIMIT
    && forall i :: 0 <= i < |l.queue| ==> l.queue[i].expiry <= l.clock + BUFFER_TIMEOUT
  }

  lemma {:induction false} PurgeBalance(q: seq<Buffered>, now: real)
    ensures multiset(Packets(q)) == multiset(Packets(Purged(q, now))) + multiset(AgedOut(q, now))
  {
    if q == [] {
      assert Packets(q) == [];
    } else {
      PurgeBalance(q[1..], now);
      PacketsSplit(q);
      hide Packets;
      if Aged(q[0], now) {
        assert multiset(AgedOut(q, now)) == multiset{q[0].packet} + multiset(AgedOut(q[1..], now));
      } else {
        var kept := Purged(q, now);
        assert kept[0] == q[0] && kept[1..] == Purged(q[1..], now);
        PacketsSplit(kept);
        assert AgedOut(q, now) == AgedOut(q[1..], now);
      }
    }
  }

  lemma PacketsSplit(q: seq<Buffered>)
    requires q != []
    ensures multiset(Packets(q)) == multiset{q[0].packet} + multiset(Packets(q[1..]))
  {
    assert Packets(q) == [q[0].packet] + Packets(q[1..]);
  }

  /** Purging keeps the order. */
  lemma {:induction false} PurgedIsSorted(q: seq<Buffered>, now: real)
    requires Sorted(q)
    ensures Sorted(Purged(q, now))
  {
    if q != [] {
      assert Sorted(q[1..]);
      PurgedIsSorted(q[1..], now);
      PurgedIsLive(q[1..], now);
      var rest := Purged(q[1..], now);
      forall b | b in rest
        ensures q[0].expiry <= b.expiry
      {
        var k :| 0 <= k < |q[1..]| && q[1..][k] == b;
      }
    }
  }

  /** The purge every operation starts with. */
  function Tidied(l: Ledger, now: real): Ledger {
    l.(clock := now, queue := Purged(l.queue, now), aged := l.aged + AgedOut(l.queue, now))
  }

  lemma TidyKeepsLedger(l: Ledger, now: real)
    requires LedgerInv(l) && l.clock <= now
    ensures LedgerInv(Tidied(l, now))
  {
    PurgedIsLive(l.queue, now);
    PurgedIsSorted(l.queue, now);
    PurgeBalance(l.queue, now);
    forall i | 0 <= i < |Purged(l.queue, now)|
      ensures Purged(l.queue, now)[i].expiry <= now + BUFFER_TIMEOUT
    {
      assert Purged(l.queue, now)[i] in l.queue;
    }
    hide Purged, AgedOut;
  }

  lemma TakenOut<T>(s: seq<T>, i: nat)
    requires i < |s|
    ensures multiset(s) == multiset(s[..i] + s[i + 1..]) + multiset{s[i]}
  {
    assert s == s[..i] + [s[i]] + s[i + 1..];
  }

  function Appended(l: Ledger, p: Packet): Ledger {
    l.(queue := l.queue + [Buffered(p, l.clock + BUFFER_TIMEOUT)], entered := l.entered + [p])
  }

  lemma AppendKeepsLedger(l: Ledger, p: Packet)
    requires LedgerInv(l) && |l.queue| < BUFFER_LIMIT
    ensures LedgerInv(Appended(l, p))
  {
    assert Packets(Appended(l, p).queue) == Packets(l.queue) + [p];
  }

  function HeadDropped(l: Ledger): Ledger
    requires l.queue != []
  {
    l.(queue := l.queue[1..], overflowed := l.overflowed + [l.queue[0].packet])
  }

  lemma HeadDropKeepsLedger(l: Ledger)
    requires LedgerInv(l) && l.queue != []
    ensures LedgerInv(HeadDropped(l))
  {
    PacketsSplit(l.queue);
    hide Packets;
  }

  function HandedOut(l: Ledger, i: nat): Ledger
    requires i < |l.queue|
  {
    l.(queue := l.queue[..i] + l.queue[i + 1..], returned := l.returned + [l.queue[i].packet])
  }

  lemma HandOutBalance(l: Ledger, i: nat)
    requires Balanced(l) && i < |l.queue|
    ensures Balanced(HandedOut(l, i))
  {
    TakenOut(Packets(l.queue), i);
    assert Packets(l.queue)[..i] + Packets(l.queue)[i + 1..] == Packets(l.queue[..i] + l.queue[i + 1..]);
  }

  lemma HandOutKeepsLedger(l: Ledger, i: nat)
    requires LedgerInv(l) && i < |l.queue|
    ensures LedgerInv(HandedOut(l, i))
  {
    HandOutBalance(l, i);
    hide Balanced;
  }

  lemma EnqueueIsAppend(l: Ledger, p: Packet, now: real)
    ensures var t := Tidied(l, now);
            Step(l, Enq(p), now) == if |t.queue| == BUFFER_LIMIT then Appended(HeadDropped(t), p) else Appended(t, p)
  {
    hide Purged, AgedOut;
    assert l.overflowed + [] == l.overflowed;
  }

  lemma DequeueIsHandOut(l: Ledger, dst: Addr, now: real)
    ensures var t := Tidied(l, now);
            var i := FirstFor(t.queue, dst);
            Step(l, Deq(dst), now) == if i < |t.queue| then HandedOut(t, i) else t
  {
    hide Purged, AgedOut, FirstFor;
    assert l.returned + [] == l.returned;
  }

  lemma StepKeepsLedger(l: Ledger, op: Op, now: real)
    requires LedgerInv(l) && l.clock <= now
    ensures LedgerInv(Step(l, op, now))
  {
    var t := Tidied(l, now);
    TidyKeepsLedger(l, now);
    assert |t.queue| <= BUFFER_LIMIT;
    match op
    case Enq(p) =>
      EnqueueIsAppend(l, p, now);
      hide Step, LedgerInv, Tidied;
      if |t.queue| == BUFFER_LIMIT {
        HeadDropKeepsLedger(t);
        AppendKeepsLedger(HeadDropped(t), p);
      } else {
        AppendKeepsLedger(t, p);
      }
    case Deq(dst) =>
      DequeueIsHandOut(l, dst, now);
      hide Step, LedgerInv, Tidied, FirstFor;
      var i := FirstFor(t.queue, dst);
      if i < |t.queue| {
        HandOutKeepsLedger(t, i);
      }
    case Tidy =>
  }

  /** Over every run with a forward-running clock: nothing is lost or duplicated, the buffer never outgrows its
  limit, and its deadlines stay in order. */
  lemma {:induction false} NothingIsLost(run: seq<Ledger>, ops: seq<(Op, real)>, i: nat)
    requires LedgerRun(run, ops) && i < |run|
    ensures LedgerInv(run[i])
  {
    if i == 0 {
      assert Packets([]) == [];
    } else {
      NothingIsLost(run, ops, i - 1);
      StepKeepsLedger(run[i - 1], ops[i - 1].0, ops[i - 1].1);
    }
  }

  /** So in every such run the purge that looks only at the head would do the same. */
  lemma HeadPurgeSuffices(run: seq<Ledger>, ops: seq<(Op, real)>, i: nat, now: real)
    requires LedgerRun(run, ops) && i < |run|
    ensures Purged(run[i].queue, now) == HeadPurged(run[i].queue, now)
  {
    NothingIsLost(run, ops, i);
    RescanningFindsNoMore(run[i].queue, now);
  }

  // ---------- order of delivery ----------

  /** Serial numbers in the order of entry. */
  ghost predicate Serial(ps: seq<Packet>) {
    forall i, j :: 0 <= i < j < |ps| ==> ps[i].uid < ps[j].uid
  }

  ghost predicate SerialQueue(q: seq<Buffered>) {
    forall i, j :: 0 <= i < j < |q| ==> q[i].packet.uid < q[j].packet.uid
  }

  function ForDst(ps: seq<Packet>, dst: Addr): seq<Packet> {
    if ps == [] then []
    else ForDst(ps[..|ps| - 1], dst) + (if ps[|ps| - 1].dst == dst then [ps[|ps| - 1]] else [])
  }

  /** What was handed out for `dst` came in order, and came before everything still held for it. */
  ghost predicate InOrder(l: Ledger, dst: Addr) {
    && SerialQueue(l.queue)
    && (forall b :: b in l.queue ==> b.packet in l.entered)
    && Serial(ForDst(l.returned, dst))
    && forall p, b :: p in ForDst(l.returned, dst) && b in l.queue && b.packet.dst == dst ==> p.uid < b.packet.uid
  }

  lemma {:induction false} PurgedIsSerial(q: seq<Buffered>, now: real)
    requires SerialQueue(q)
    ensures SerialQueue(Purged(q, now))
  {
    if q != [] {
      assert SerialQueue(q[1..]);
      PurgedIsSerial(q[1..], now);
      PurgedIsLive(q[1..], now);
      forall b | b in Purged(q[1..], now)
        ensures q[0].packet.uid < b.packet.uid
      {
        var k :| 0 <= k < |q[1..]| && q[1..][k] == b;
      }
    }
  }

  lemma TidyInOrder(l: Ledger, now: real, dst: Addr)
    requires InOrder(l, dst)
    ensures InOrder(Tidied(l, now), dst)
  {
    PurgedIsSerial(l.queue, now);
    PurgedIsLive(l.queue, now);
  }

  lemma HandOutInOrder(l: Ledger, i: nat, dst: Addr)
    requires InOrder(l, dst) && i < |l.queue|
    requires forall j :: 0 <= j < i ==> l.queue[j].packet.dst != l.queue[i].packet.dst
    ensures InOrder(HandedOut(l, i), dst)
  {
    hide ForDst;
    var l' := HandedOut(l, i);
    ForDstMore(l.returned, l.queue[i].packet, dst);
    TakenOutOrder(l.queue, i);
  }

  lemma ForDstMore(ps: seq<Packet>, p: Packet, dst: Addr)
    ensures ForDst(ps + [p], dst) == ForDst(ps, dst) + (if p.dst == dst then [p] else [])
  {
    assert (ps + [p])[..|ps|] == ps;
  }

  /** What stays behind the first packet for a destination is younger than it. */
  lemma TakenOutOrder(q: seq<Buffered>, i: nat)
    requires SerialQueue(q) && i < |q|
    requires forall j :: 0 <= j < i ==> q[j].packet.dst != q[i].packet.dst
    ensures SerialQueue(q[..i] + q[i + 1..])
    ensures forall b :: b in q[..i] + q[i + 1..] ==>
              b in q && (b.packet.dst == q[i].packet.dst ==> q[i].packet.uid < b.packet.uid)
  {
    var left := q[..i] + q[i + 1..];
    assert forall k :: 0 <= k < i ==> left[k] == q[k];
    assert forall k :: i <= k < |left| ==> left[k] == q[k + 1];
    hide SerialQueue;
    forall k | 0 <= k < |left|
      ensures left[k] in q && (left[k].packet.dst == q[i].packet.dst ==> q[i].packet.uid < left[k].packet.uid)
    {
      if k >= i {
        SerialPair(q, i, k + 1);
      }
    }
  }

  lemma SerialPair(q: seq<Buffered>, i: nat, j: nat)
    requires SerialQueue(q) && i < j < |q|
    ensures q[i].packet.uid < q[j].packet.uid
  {
  }

  lemma HeadDropInOrder(l: Ledger, dst: Addr)
    requires InOrder(l, dst) && l.queue != []
    ensures InOrder(HeadDropped(l), dst)
  {
    assert forall b :: b in l.queue[1..] ==> b in l.queue;
  }

  lemma AppendInOrder(l: Ledger, p: Packet, dst: Addr)
    requires InOrder(l, dst) && Serial(l.entered + [p])
    requires forall r :: r in ForDst(l.returned, dst) ==> r in l.entered
    ensures InOrder(Appended(l, p), dst)
  {
    hide ForDst;
    forall r | r in l.entered
      ensures r.uid < p.uid
    {
      var k :| 0 <= k < |l.entered| && l.entered[k] == r;
      assert (l.entered + [p])[k] == r && (l.entered + [p])[|l.entered|] == p;
    }
  }

  lemma {:induction false} ForDstIsFrom(ps: seq<Packet>, dst: Addr)
    ensures forall p :: p in ForDst(ps, dst) ==> p in ps
  {
    if ps != [] {
      ForDstIsFrom(ps[..|ps| - 1], dst);
    }
  }

  lemma StepInOrder(l: Ledger, op: Op, now: real, dst: Addr)
    requires LedgerInv(l) && InOrder(l, dst) && Serial(Step(l, op, now).entered)
    ensures InOrder(Step(l, op, now), dst)
  {
    var t := Tidied(l, now);
    TidyInOrder(l, now, dst);
    match op
    case Enq(p) =>
      EnqueueIsAppend(l, p, now);
      forall r | r in ForDst(l.returned, dst)
        ensures r in l.entered
      {
        ForDstIsFrom(l.returned, dst);
        assert r in multiset(l.returned) && r in multiset(l.entered);
      }
      hide Step, InOrder, LedgerInv, ForDst;
      if |t.queue| == BUFFER_LIMIT {
        HeadDropInOrder(t, dst);
        AppendInOrder(HeadDropped(t), p, dst);
      } else {
        AppendInOrder(t, p, dst);
      }
    case Deq(d) =>
      DequeueIsHandOut(l, d, now);
      hide Step, InOrder, LedgerInv, Tidied;
      var i := FirstFor(t.queue, d);
      if i < |t.queue| {
        HandOutInOrder(t, i, dst);
      }
    case Tidy =>
  }

  /** Delivery is first-in first-out per destination, whatever overflows or ages out in between. */
  lemma {:induction false} DeliveryIsFifo(run: seq<Ledger>, ops: seq<(Op, real)>, i: nat, dst: Addr)
    requires LedgerRun(run, ops) && i < |run|
    requires Serial(run[i].entered)
    ensures InOrder(run[i], dst)
  {
    if i > 0 {
      var l, op, now := run[i - 1], ops[i - 1].0, ops[i - 1].1;
      assert run[i].entered == if op.Enq? then l.entered + [op.p] else l.entered;
      assert forall k :: 0 <= k < |l.entered| ==> l.entered[k] == run[i].entered[k];
      DeliveryIsFifo(run, ops, i - 1, dst);
      NothingIsLost(run, ops, i - 1);
      StepInOrder(l, op, now, dst);
    }
  }
}
