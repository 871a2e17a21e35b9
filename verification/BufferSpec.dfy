/** What the route-request buffer means: a queue of packets with deadlines, as operations on a sequence.

The linked implementation is in RouteBuffer.dfy; the routing agents use these functions.
*/
module BufferSpec {
  import opened Routing

  /** A data packet, as far as routing looks at it. */
  datatype Packet = Packet(uid: nat, src: Addr, dst: Addr, ttl: int, forwards: nat)

  datatype Buffered = Buffered(packet: Packet, expiry: real)

  datatype Option<+T> = None | Some(value: T)

  const BUFFER_LIMIT: nat := 64
  const BUFFER_TIMEOUT: real := 30.0

  predicate Aged(b: Buffered, now: real) {
    b.expiry < now
  }

  /** The packets that have not aged out, in order. */
  function Purged(q: seq<Buffered>, now: real): seq<Buffered> {
    if q == [] then []
    else if Aged(q[0], now) then Purged(q[1..], now)
    else [q[0]] + Purged(q[1..], now)
  }

  function Enqueued(q: seq<Buffered>, p: Packet, now: real): seq<Buffered> {
    var live := Purged(q, now);
    (if |live| == BUFFER_LIMIT then live[1..] else live) + [Buffered(p, now + BUFFER_TIMEOUT)]
  }

  /** Position of the first packet for `dst`, or the length of the queue. */
  function FirstFor(q: seq<Buffered>, dst: Addr): (i: nat)
    ensures i <= |q|
    ensures i < |q| ==> q[i].packet.dst == dst
    ensures forall j :: 0 <= j < i ==> q[j].packet.dst != dst
  {
    if q == [] || q[0].packet.dst == dst then 0 else 1 + FirstFor(q[1..], dst)
  }

  predicate Holds(q: seq<Buffered>, dst: Addr) {
    FirstFor(q, dst) < |q|
  }

  /** The packet a call of deque(dst) returns. */
  function Dequeued(q: seq<Buffered>, dst: Addr, now: real): Option<Packet> {
    var live := Purged(q, now);
    var i := FirstFor(live, dst);
    if i < |live| then Some(live[i].packet) else None
  }

  /** The queue a call of deque(dst) leaves. */
  function AfterDequeue(q: seq<Buffered>, dst: Addr, now: real): seq<Buffered> {
    var live := Purged(q, now);
    var i := FirstFor(live, dst);
    if i < |live| then live[..i] + live[i + 1..] else live
  }

  /** The packets held for `dst`, oldest first. */
  function Held(q: seq<Buffered>, dst: Addr): seq<Packet> {
    if q == [] then []
    else if q[0].packet.dst == dst then [q[0].packet] + Held(q[1..], dst)
    else Held(q[1..], dst)
  }

  function Others(q: seq<Buffered>, dst: Addr): seq<Buffered> {
    if q == [] then []
    else if q[0].packet.dst == dst then Others(q[1..], dst)
    else [q[0]] + Others(q[1..], dst)
  }

  lemma {:induction false} PurgedIsLive(q: seq<Buffered>, now: real)
    ensures forall b :: b in Purged(q, now) <==> b in q && !Aged(b, now)
    ensures |Purged(q, now)| <= |q|
  {
    if q != [] {
      PurgedIsLive(q[1..], now);
    }
  }

  /** Nothing happens to a queue in which nothing has aged. */
  lemma {:induction false} PurgedFixpoint(q: seq<Buffered>, now: real)
    requires forall b :: b in q ==> !Aged(b, now)
    ensures Purged(q, now) == q
  {
    if q != [] {
      PurgedFixpoint(q[1..], now);
    }
  }

  lemma {:induction false} PurgedConcat(a: seq<Buffered>, b: seq<Buffered>, now: real)
    ensures Purged(a + b, now) == Purged(a, now) + Purged(b, now)
  {
    if a == [] {
      assert a + b == b;
    } else {
      assert (a + b)[1..] == a[1..] + b;
      PurgedConcat(a[1..], b, now);
    }
  }

  lemma SplitHead<T>(a: seq<T>, b: seq<T>)
    requires a != []
    ensures (a + b)[0] == a[0] && (a + b)[1..] == a[1..] + b
  {
  }

  lemma {:induction false} HeldConcat(a: seq<Buffered>, b: seq<Buffered>, dst: Addr)
    ensures Held(a + b, dst) == Held(a, dst) + Held(b, dst)
  {
    if a == [] {
      assert a + b == b;
    } else {
      SplitHead(a, b);
      HeldConcat(a[1..], b, dst);
    }
  }

  lemma {:induction false} OthersConcat(a: seq<Buffered>, b: seq<Buffered>, dst: Addr)
    ensures Others(a + b, dst) == Others(a, dst) + Others(b, dst)
  {
    if a == [] {
      assert a + b == b;
    } else {
      SplitHead(a, b);
      OthersConcat(a[1..], b, dst);
    }
  }

  lemma {:induction false} HeldNone(q: seq<Buffered>, dst: Addr)
    requires forall j :: 0 <= j < |q| ==> q[j].packet.dst != dst
    ensures Held(q, dst) == [] && Others(q, dst) == q
  {
    if q != [] {
      HeldNone(q[1..], dst);
    }
  }

  /** Taking out the first packet for `dst` shortens what is held for it by that packet only. */
  lemma TakeFirst(live: seq<Buffered>, dst: Addr, i: nat)
    requires i == FirstFor(live, dst) < |live|
    ensures Held(live, dst) == [live[i].packet] + Held(live[..i] + live[i + 1..], dst)
    ensures Others(live, dst) == Others(live[..i] + live[i + 1..], dst)
  {
    var before, after := live[..i], live[i + 1..];
    assert live == before + ([live[i]] + after);
    HeldConcat(before, [live[i]] + after, dst);
    HeldConcat([live[i]], after, dst);
    HeldConcat(before, after, dst);
    OthersConcat(before, [live[i]] + after, dst);
    OthersConcat([live[i]], after, dst);
    OthersConcat(before, after, dst);
    HeldNone(before, dst);
    assert Held([live[i]], dst) == [live[i].packet] && Others([live[i]], dst) == [];
  }

  /** One deque(dst) takes the oldest live packet for `dst` and leaves everything else in place. */
  lemma DequeueTakesOldest(q: seq<Buffered>, dst: Addr, now: real)
    requires Dequeued(q, dst, now).Some?
    ensures Held(Purged(q, now), dst) == [Dequeued(q, dst, now).value] + Held(AfterDequeue(q, dst, now), dst)
    ensures Others(AfterDequeue(q, dst, now), dst) == Others(Purged(q, now), dst)
  {
    var live := Purged(q, now);
    var i := FirstFor(live, dst);
    var rest := live[..i] + live[i + 1..];
    assert AfterDequeue(q, dst, now) == rest && Dequeued(q, dst, now) == Some(live[i].packet);
    TakeFirst(live, dst, i);
  }

  /** deque(dst) comes back empty-handed only when nothing live is held for `dst`. */
  lemma DequeueFindsNothing(q: seq<Buffered>, dst: Addr, now: real)
    requires Dequeued(q, dst, now).None?
    ensures Held(Purged(q, now), dst) == []
    ensures AfterDequeue(q, dst, now) == Purged(q, now) == Others(Purged(q, now), dst)
  {
    HeldNone(Purged(q, now), dst);
  }

  /** What a deque leaves has nothing left to purge at the same instant. */
  lemma AfterDequeueIsLive(q: seq<Buffered>, dst: Addr, now: real)
    ensures Purged(AfterDequeue(q, dst, now), now) == AfterDequeue(q, dst, now)
  {
    var live := Purged(q, now);
    PurgedIsLive(q, now);
    var after := AfterDequeue(q, dst, now);
    forall b | b in after
      ensures !Aged(b, now)
    {
      assert b in live;
    }
    PurgedFixpoint(after, now);
  }

  /** One deque(dst) seen as a step of the loop `while p = deque(dst)`. */
  lemma DequeueOutcome(q: seq<Buffered>, dst: Addr, now: real)
    ensures var p, after := Dequeued(q, dst, now), AfterDequeue(q, dst, now);
            && Held(Purged(q, now), dst) == (if p.Some? then [p.value] else []) + Held(after, dst)
            && Others(after, dst) == Others(Purged(q, now), dst)
            && Purged(after, now) == after
            && |after| <= |Purged(q, now)|
            && (p.Some? ==> |after| < |Purged(q, now)|)
            && (p.None? ==> Held(after, dst) == [] && after == Others(Purged(q, now), dst))
  {
    AfterDequeueIsLive(q, dst, now);
    if Dequeued(q, dst, now).Some? {
      DequeueTakesOldest(q, dst, now);
    } else {
      DequeueFindsNothing(q, dst, now);
    }
  }

  lemma {:induction false} OthersHoldNone(q: seq<Buffered>, d: Addr)
    ensures Held(Others(q, d), d) == []
  {
    if q != [] {
      OthersHoldNone(q[1..], d);
      if q[0].packet.dst != d {
        assert Others(q, d)[1..] == Others(q[1..], d);
      }
    }
  }

  lemma EnqueuedIsHeld(q: seq<Buffered>, p: Packet, now: real)
    ensures p in Held(Enqueued(q, p, now), p.dst)
  {
    var now' := Enqueued(q, p, now);
    assert now'[|now'| - 1].packet == p;
    LastIsHeld(now', p);
  }

  lemma {:induction false} LastIsHeld(q: seq<Buffered>, p: Packet)
    requires q != [] && q[|q| - 1].packet == p
    ensures p in Held(q, p.dst)
  {
    if |q| > 1 {
      LastIsHeld(q[1..], p);
    }
  }

  /** A packet that has entered is held, for its destination, for exactly BUFFER_TIMEOUT. */
  lemma HeldUntilTimeout(q: seq<Buffered>, p: Packet, now: real, later: real)
    requires now <= later && forall b :: b in q ==> b.packet != p
    ensures p in Held(Purged(Enqueued(q, p, now), later), p.dst) <==> later <= now + BUFFER_TIMEOUT
  {
    var q', b := Enqueued(q, p, now), Buffered(p, now + BUFFER_TIMEOUT);
    PurgedIsLive(q, now);
    PurgedIsLive(q', later);
    HeldAre(Purged(q', later), p.dst, p);
    assert q'[|q'| - 1] == b && b in q';
    hide Held, Purged, Enqueued;
    assert forall x :: x in q' && x.packet == p ==> x == b by {
      EnqueuedAre(q, p, now);
    }
  }

  lemma EnqueuedAre(q: seq<Buffered>, p: Packet, now: real)
    ensures forall x :: x in Enqueued(q, p, now) ==> x in q || x == Buffered(p, now + BUFFER_TIMEOUT)
  {
    PurgedIsLive(q, now);
  }

  /** What is live stays when another packet enters, but for the oldest when the queue was full. */
  lemma EnteringKeeps(q: seq<Buffered>, p: Packet, now: real)
    ensures var q' := Enqueued(q, p, now);
      && (|q| < BUFFER_LIMIT ==> forall b :: b in q && !Aged(b, now) ==> b in q')
      && (|q| == BUFFER_LIMIT ==> forall b :: b in q[1..] && !Aged(b, now) ==> b in q')
      && (|q| <= BUFFER_LIMIT ==> |q'| <= BUFFER_LIMIT)
  {
    PurgedIsLive(q, now);
    if |q| == BUFFER_LIMIT {
      PurgedIsLive(q[1..], now);
      PurgedConcat(q[..1], q[1..], now);
      assert q == q[..1] + q[1..];
      assert |Purged(q[..1], now)| <= 1 by {
        PurgedIsLive(q[..1], now);
      }
      hide Purged;
    }
  }

  lemma {:induction false} HeldAre(q: seq<Buffered>, d: Addr, p: Packet)
    ensures p in Held(q, d) <==> p.dst == d && exists b :: b in q && b.packet == p
    ensures forall b :: b in Others(q, d) <==> b in q && b.packet.dst != d
  {
    if q != [] {
      HeldAre(q[1..], d, p);
      assert q == [q[0]] + q[1..];
      if b :| b in q && b.packet == p {
        assert b == q[0] || b in q[1..];
      }
    }
  }

  /** What waits for one destination is not touched when the others are taken out or dropped. */
  lemma {:induction false} OthersStay(q: seq<Buffered>, d: Addr, x: Addr)
    requires x != d
    ensures Held(Others(q, d), x) == Held(q, x)
  {
    if q != [] {
      OthersStay(q[1..], d, x);
      if q[0].packet.dst != d {
        assert Others(q, d)[1..] == Others(q[1..], d);
      }
    }
  }
}
