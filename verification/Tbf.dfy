/** The token bucket filter: a queue, a timer and a bucket of tokens. It is shown to be the greedy shaper: what it
sends conforms to (rate, bucket) in every window, and no conforming schedule sends any packet earlier. */
module Tbf {
  datatype Packet = Packet(size: nat)

  /** A packet is paid for by the bit. */
  function Bits(p: Packet): (b: real)
    ensures b >= 0.0
  {
    (p.size * 8) as real
  }

  datatype Config = Config(rate: real, bucket: real, qlen: nat)

  ghost predicate Sane(c: Config) {
    c.rate > 0.0 && c.bucket >= 0.0
  }

  datatype Timer = Idle | Due(at: real)

  datatype State = State(tokens: real, last: real, queue: seq<Packet>, timer: Timer, init: bool)

  datatype Verdict = Sent | Queued | Dropped

  // ---------- tokens ----------

  function Refill(rate: real, dt: real): real {
    rate * dt
  }

  lemma RefillSum(rate: real, a: real, b: real, c: real)
    ensures Refill(rate, b - a) + Refill(rate, c - b) == Refill(rate, c - a)
  {
  }

  lemma RefillOrder(rate: real, a: real, b: real)
    requires rate > 0.0
    ensures Refill(rate, a) <= Refill(rate, b) <==> a <= b
    ensures Refill(rate, 0.0) == 0.0
  {
    if a <= b {
      assert rate * (b - a) >= 0.0;
    } else {
      assert rate * (a - b) > 0.0;
    }
  }

  lemma RefillWait(rate: real, need: real)
    requires rate > 0.0
    ensures Refill(rate, need / rate) == need
    ensures need >= 0.0 ==> need / rate >= 0.0
  {
  }

  function Capped(x: real, bucket: real): real {
    if x > bucket then bucket else x
  }

  /** getupdatedtokens. */
  function Refreshed(c: Config, s: State, now: real): State {
    s.(tokens := Capped(s.tokens + Refill(c.rate, now - s.last), c.bucket), last := now)
  }

  /** Looking at the bucket in between makes no difference: the tokens at a moment depend on the rate, the cap and the
  time gone by, not on how often they are brought up to date. */
  lemma RefreshesCompose(c: Config, s: State, t: real, now: real)
    requires Sane(c) && t <= now
    ensures Refreshed(c, Refreshed(c, s, t), now) == Refreshed(c, s, now)
    ensures s.last <= t && s.tokens <= c.bucket ==>
              s.tokens <= Refreshed(c, s, t).tokens <= Refreshed(c, s, now).tokens <= c.bucket
  {
    RefillSum(c.rate, s.last, t, now);
    RefillOrder(c.rate, 0.0, now - t);
    RefillOrder(c.rate, 0.0, t - s.last);
  }

  /** The wait until the bucket holds enough for `p`. */
  function Resched(c: Config, tokens: real, now: real, p: Packet): Timer
    requires c.rate > 0.0
  {
    Due(now + (Bits(p) - tokens) / c.rate)
  }

  function Opened(c: Config, s: State, now: real): State {
    if s.init then s.(tokens := c.bucket, last := now, init := false) else s
  }

  function Arrival(c: Config, s: State, now: real, p: Packet): (State, Verdict)
    requires c.rate > 0.0
  {
    var o := Opened(c, s, now);
    if o.queue != [] then
      if |o.queue| < c.qlen then (o.(queue := o.queue + [p]), Queued) else (o, Dropped)
    else
      var r := Refreshed(c, o, now);
      if r.tokens >= Bits(p) then (r.(tokens := r.tokens - Bits(p)), Sent)
      else if c.qlen != 0 then (r.(queue := [p], timer := Resched(c, r.tokens, now, p)), Queued)
      else (r, Dropped)
  }

  function Timeout(c: Config, s: State, now: real): State
    requires c.rate > 0.0 && s.queue != []
  {
    var r := Refreshed(c, s, now);
    var rest := r.(tokens := r.tokens - Bits(s.queue[0]), queue := s.queue[1..]);
    rest.(timer := if rest.queue == [] then Idle else Resched(c, rest.tokens, now, rest.queue[0]))
  }

  /** The object whose fields the functions above describe. */
  class Filter {
    const c: Config
    var tokens: real
    var lastupdatetime: real
    var q: seq<Packet>
    var timer: Timer
    var init: bool

    constructor (c: Config)
      ensures this.c == c && q == [] && timer == Idle && init
    {
      this.c := c;
      q, timer, init := [], Idle, true;
    }

    ghost function Snap(): State
      reads this
    {
      State(tokens, lastupdatetime, q, timer, init)
    }

    method GetUpdatedTokens(now: real)
      modifies this`tokens, this`lastupdatetime
      ensures Snap() == Refreshed(c, old(Snap()), now)
    {
      assert (now - lastupdatetime) * c.rate == Refill(c.rate, now - lastupdatetime);
      hide Refill;
      tokens := tokens + (now - lastupdatetime) * c.rate;
      if tokens > c.bucket {
        tokens := c.bucket;
      }
      lastupdatetime := now;
    }

    method Recv(p: Packet, now: real) returns (v: Verdict)
      requires c.rate > 0.0
      modifies this
      ensures (Snap(), v) == Arrival(c, old(Snap()), now, p)
    {
      if init {
        tokens := c.bucket;
        lastupdatetime := now;
        init := false;
      }
      if |q| != 0 {
        if |q| < c.qlen {
          q := q + [p];
          return Queued;
        }
        return Dropped;
      }
      GetUpdatedTokens(now);
      var pktsize := (p.size * 8) as real;
      if tokens >= pktsize {
        tokens := tokens - pktsize;
        v := Sent;
      } else if c.qlen != 0 {
        assert q + [p] == [p];
        q := q + [p];
        timer := Due(now + (pktsize - tokens) / c.rate);
        v := Queued;
      } else {
        v := Dropped;
      }
    }

    /** The original aborts when the timer finds the queue empty; TimerFindsPacket shows that it never does. */
    method OnTimeout(now: real) returns (sent: Packet)
      requires c.rate > 0.0 && q != []
      modifies this
      ensures sent == old(q)[0] && Snap() == Timeout(c, old(Snap()), now)
    {
      sent := q[0];
      q, timer := q[1..], Idle;
      ghost var before := Snap();
      GetUpdatedTokens(now);
      assert Snap() == Refreshed(c, before, now);
      tokens := tokens - (sent.size * 8) as real;
      if |q| != 0 {
        timer := Due(now + ((q[0].size * 8) as real - tokens) / c.rate);
      }
    }
  }

  // ---------- runs ----------

  /** A packet and the time at which it arrived or left. */
  datatype Entry = Entry(time: real, packet: Packet)

  datatype Event = Arrive(time: real, packet: Packet) | Fire(time: real)

  /** A state with its history: the packets accepted, when they came, and the packets sent, when they left. */
  datatype Trace = Trace(s: State, clock: real, accepted: seq<Entry>, sent: seq<Entry>, dropped: nat)

  function Start(): Trace {
    Trace(State(0.0, 0.0, [], Idle, true), 0.0, [], [], 0)
  }

  /** The clock never runs back, and the timer fires when it is due: nothing happens later while it is pending. */
  predicate Timely(tr: Trace, e: Event) {
    match e
    case Arrive(t, _) => tr.clock <= t && (tr.s.timer.Due? ==> t <= tr.s.timer.at)
    case Fire(t) => tr.s.timer == Due(t)
  }

  function After(c: Config, tr: Trace, e: Event): Trace
    requires c.rate > 0.0
  {
    match e
    case Arrive(t, p) =>
      var (s, v) := Arrival(c, tr.s, t, p);
      Trace(s, t,
            if v == Dropped then tr.accepted else tr.accepted + [Entry(t, p)],
            if v == Sent then tr.sent + [Entry(t, p)] else tr.sent,
            if v == Dropped then tr.dropped + 1 else tr.dropped)
    case Fire(t) =>
      if tr.s.queue == [] then tr
      else Trace(Timeout(c, tr.s, t), t, tr.accepted, tr.sent + [Entry(t, tr.s.queue[0])], tr.dropped)
  }

  function Play(c: Config, events: seq<Event>): Trace
    requires c.rate > 0.0
  {
    if events == [] then Start() else After(c, Play(c, events[..|events| - 1]), events[|events| - 1])
  }

  ghost predicate Run(c: Config, events: seq<Event>) {
    Sane(c) && forall i :: 0 <= i < |events| ==> Timely(Play(c, events[..i]), events[i])
  }

  /** No packet is larger than the bucket. */
  ghost predicate Fits(c: Config, events: seq<Event>) {
    forall i :: 0 <= i < |events| && events[i].Arrive? ==> Bits(events[i].packet) <= c.bucket
  }

  lemma RunPrefix(c: Config, events: seq<Event>)
    requires Run(c, events) && events != []
    ensures Run(c, events[..|events| - 1])
    ensures Timely(Play(c, events[..|events| - 1]), events[|events| - 1])
    ensures Fits(c, events) ==> Fits(c, events[..|events| - 1])
  {
    var n := |events| - 1;
    forall i | 0 <= i < n
      ensures Timely(Play(c, events[..n][..i]), events[..n][i])
    {
      assert events[..n][..i] == events[..i];
      assert Timely(Play(c, events[..i]), events[i]);
    }
  }

  // ---------- what holds in every run, whatever the packet sizes ----------

  /** The timer runs exactly while packets wait, and is set so that the bucket would then hold the head's bits. */
  ghost predicate Steady(c: Config, tr: Trace) {
    var s := tr.s;
    && (s.init ==> s.queue == [] && tr.sent == [])
    && (!s.init ==> s.tokens <= c.bucket && s.last <= tr.clock)
    && (s.timer.Due? <==> s.queue != [])
    && (s.queue != [] ==>
          && s.tokens + Refill(c.rate, s.timer.at - s.last) == Bits(s.queue[0])
          && s.tokens <= Bits(s.queue[0]) && tr.clock <= s.timer.at)
    && |s.queue| <= c.qlen
  }

  lemma WaitIsExact(c: Config, tokens: real, now: real, p: Packet)
    requires Sane(c) && tokens <= Bits(p)
    ensures var t := Resched(c, tokens, now, p); t.Due? && now <= t.at && tokens + Refill(c.rate, t.at - now) == Bits(p)
  {
    RefillWait(c.rate, Bits(p) - tokens);
    var w := (Bits(p) - tokens) / c.rate;
    assert now + w - now == w;
  }

  lemma ArrivalStaysSteady(c: Config, tr: Trace, e: Event)
    requires Sane(c) && Steady(c, tr) && e.Arrive? && Timely(tr, e)
    ensures Steady(c, After(c, tr, e))
  {
    hide Refill, Bits, Resched;
    var o := Opened(c, tr.s, e.time);
    var r := Refreshed(c, o, e.time);
    if r.tokens < Bits(e.packet) {
      WaitIsExact(c, r.tokens, e.time, e.packet);
    }
  }

  lemma FireStaysSteady(c: Config, tr: Trace, e: Event)
    requires Sane(c) && Steady(c, tr) && e.Fire? && Timely(tr, e)
    ensures Steady(c, After(c, tr, e))
    ensures Refreshed(c, tr.s, e.time).tokens == Capped(Bits(tr.s.queue[0]), c.bucket)
  {
    hide Refill, Resched;
    var r := Refreshed(c, tr.s, e.time);
    if |tr.s.queue| > 1 {
      WaitIsExact(c, r.tokens - Bits(tr.s.queue[0]), e.time, tr.s.queue[1]);
    }
  }

  lemma {:induction false} RunIsSteady(c: Config, events: seq<Event>)
    requires Run(c, events)
    ensures Steady(c, Play(c, events))
  {
    if events != [] {
      RunPrefix(c, events);
      RunIsSteady(c, events[..|events| - 1]);
      var tr, e := Play(c, events[..|events| - 1]), events[|events| - 1];
      if e.Arrive? {
        ArrivalStaysSteady(c, tr, e);
      } else {
        FireStaysSteady(c, tr, e);
      }
    }
  }

  /** Whenever the timer fires there is a packet to send, and the bucket holds exactly its bits if and only if the
  packet is no larger than the bucket; a larger one leaves a debt of the difference. */
  lemma TimerFindsPacket(c: Config, events: seq<Event>, t: real)
    requires Run(c, events) && Timely(Play(c, events), Fire(t))
    ensures var s := Play(c, events).s;
      && s.queue != []
      && Refreshed(c, s, t).tokens == Capped(Bits(s.queue[0]), c.bucket)
      && (Bits(s.queue[0]) <= c.bucket <==> Refreshed(c, s, t).tokens >= Bits(s.queue[0]))
      && Timeout(c, s, t).tokens == Capped(0.0, c.bucket - Bits(s.queue[0]))
  {
    RunIsSteady(c, events);
    FireStaysSteady(c, Play(c, events), Fire(t));
  }

  // ---------- nothing is lost or reordered ----------

  function Packets(l: seq<Entry>): (ps: seq<Packet>)
    ensures |ps| == |l|
  {
    seq(|l|, i requires 0 <= i < |l| => l[i].packet)
  }

  function Arrivals(events: seq<Event>): nat {
    if events == [] then 0
    else Arrivals(events[..|events| - 1]) + if events[|events| - 1].Arrive? then 1 else 0
  }

  /** Accepted packets leave in the order of arrival; those that have not left are in the queue. */
  lemma {:induction false} ServiceIsFifo(c: Config, events: seq<Event>)
    requires Run(c, events)
    ensures var tr := Play(c, events);
      && Packets(tr.accepted) == Packets(tr.sent) + tr.s.queue
      && |tr.accepted| + tr.dropped == Arrivals(events)
  {
    if events != [] {
      hide Arrival, Timeout, Timely, Steady, Run;
      var n := |events| - 1;
      RunPrefix(c, events);
      ServiceIsFifo(c, events[..n]);
      RunIsSteady(c, events[..n]);
      var tr, e := Play(c, events[..n]), events[n];
      var next := After(c, tr, e);
      if e.Arrive? {
        ArrivalIsFifo(c, tr, e);
      } else {
        FireIsFifo(c, tr, e);
      }
    }
  }

  lemma FireIsFifo(c: Config, tr: Trace, e: Event)
    requires Sane(c) && Steady(c, tr) && e.Fire? && Timely(tr, e)
    requires Packets(tr.accepted) == Packets(tr.sent) + tr.s.queue
    ensures var next := After(c, tr, e);
      && Packets(next.accepted) == Packets(next.sent) + next.s.queue
      && |next.accepted| == |tr.accepted| && next.dropped == tr.dropped
  {
    hide Refill, Bits, Resched, Capped;
    var next := After(c, tr, e);
    assert Packets(next.sent) == Packets(tr.sent) + [tr.s.queue[0]];
    assert tr.s.queue == [tr.s.queue[0]] + next.s.queue;
  }

  lemma ArrivalIsFifo(c: Config, tr: Trace, e: Event)
    requires Sane(c) && Steady(c, tr) && e.Arrive? && Timely(tr, e)
    requires Packets(tr.accepted) == Packets(tr.sent) + tr.s.queue
    ensures var next := After(c, tr, e); Packets(next.accepted) == Packets(next.sent) + next.s.queue
    ensures var next := After(c, tr, e); |next.accepted| + next.dropped == |tr.accepted| + tr.dropped + 1
  {
    hide Refill, Bits, Resched, Capped, Steady;
    var v := Arrival(c, tr.s, e.time, e.packet).1;
    var next := After(c, tr, e);
    if v == Sent {
      assert Packets(next.accepted) == Packets(tr.accepted) + [e.packet];
      assert Packets(next.sent) == Packets(tr.sent) + [e.packet];
    } else if v == Queued {
      assert Packets(next.accepted) == Packets(tr.accepted) + [e.packet];
      assert next.s.queue == tr.s.queue + [e.packet];
    }
  }

  /** A packet is dropped exactly when it must wait and the queue is full. */
  lemma DroppedIffFull(c: Config, events: seq<Event>, t: real, p: Packet)
    requires Run(c, events) && Timely(Play(c, events), Arrive(t, p))
    ensures var s := Play(c, events).s; var o := Opened(c, s, t);
      Arrival(c, s, t, p).1 == Dropped <==>
      |s.queue| == c.qlen && (s.queue != [] || Refreshed(c, o, t).tokens < Bits(p))
  {
    RunIsSteady(c, events);
  }

  // ---------- conformance ----------

  /** The bits of a stretch of a log. */
  function Sum(l: seq<Entry>): (b: real)
    ensures b >= 0.0
  {
    if l == [] then 0.0 else Sum(l[..|l| - 1]) + Bits(l[|l| - 1].packet)
  }

  /** The bits that a schedule sends within a closed window of time. */
  function WindowBits(l: seq<Entry>, from: real, to: real): real {
    if l == [] then 0.0
    else WindowBits(l[..|l| - 1], from, to)
         + if from <= l[|l| - 1].time <= to then Bits(l[|l| - 1].packet) else 0.0
  }

  predicate Ordered(l: seq<Entry>) {
    forall i, j :: 0 <= i < j < |l| ==> l[i].time <= l[j].time
  }

  /** The traffic contract: every closed window carries at most the bucket and what the rate adds. */
  ghost predicate Conforms(c: Config, l: seq<Entry>) {
    forall from, to :: from <= to ==> WindowBits(l, from, to) <= c.bucket + Refill(c.rate, to - from)
  }

  /** The contract read off the log itself: any stretch of it, from its first departure to its last. */
  ghost predicate StretchesConform(c: Config, l: seq<Entry>) {
    forall i, j :: 0 <= i < j <= |l| ==> Sum(l[i..j]) <= c.bucket + Refill(c.rate, l[j - 1].time - l[i].time)
  }

  lemma SumGrows(l: seq<Entry>, i: nat, e: Entry)
    requires i <= |l|
    ensures Sum((l + [e])[i..]) == Sum(l[i..]) + Bits(e.packet)
  {
    var m := (l + [e])[i..];
    assert m[..|m| - 1] == l[i..];
  }

  /** Stretches of a log, from a departure to now, leave the tokens that the bucket still holds. */
  ghost predicate TailConforms(c: Config, s: State, sent: seq<Entry>) {
    forall i :: 0 <= i < |sent| ==> Sum(sent[i..]) + s.tokens <= c.bucket + Refill(c.rate, s.last - sent[i].time)
  }

  lemma RefreshKeepsTail(c: Config, s: State, now: real, sent: seq<Entry>)
    requires Sane(c) && TailConforms(c, s, sent) && s.last <= now
    ensures TailConforms(c, Refreshed(c, s, now), sent)
  {
    hide Refill, Sum;
    forall i | 0 <= i < |sent|
      ensures Sum(sent[i..]) + Refreshed(c, s, now).tokens <= c.bucket + Refill(c.rate, now - sent[i].time)
    {
      RefillSum(c.rate, sent[i].time, s.last, now);
    }
  }

  lemma SendKeepsTail(c: Config, s: State, sent: seq<Entry>, e: Entry)
    requires Sane(c) && TailConforms(c, s, sent) && s.tokens <= c.bucket && e.time == s.last
    ensures TailConforms(c, s.(tokens := s.tokens - Bits(e.packet)), sent + [e])
  {
    hide Refill, Sum;
    forall i | 0 <= i <= |sent|
      ensures Sum((sent + [e])[i..]) + (s.tokens - Bits(e.packet))
              <= c.bucket + Refill(c.rate, s.last - (sent + [e])[i].time)
    {
      SumGrows(sent, i, e);
      if i == |sent| {
        RefillOrder(c.rate, 0.0, 0.0);
        EmptySum(sent[i..]);
      }
    }
  }

  lemma EmptySum(l: seq<Entry>)
    requires l == []
    ensures Sum(l) == 0.0
  {
  }

  /** What a run with small packets keeps: the tokens left bound what was sent, up to now and up to each departure. */
  ghost predicate Shapely(c: Config, tr: Trace) {
    && TailConforms(c, tr.s, tr.sent) && StretchesConform(c, tr.sent) && Ordered(tr.sent)
    && (tr.sent != [] ==> tr.sent[|tr.sent| - 1].time <= tr.s.last)
    && (!tr.s.init ==> 0.0 <= tr.s.tokens <= c.bucket)
    && forall p :: p in tr.s.queue ==> Bits(p) <= c.bucket
  }

  lemma SendIsShapely(c: Config, s: State, sent: seq<Entry>, e: Entry)
    requires Sane(c) && TailConforms(c, s, sent) && StretchesConform(c, sent) && Ordered(sent)
    requires sent != [] ==> sent[|sent| - 1].time <= s.last
    requires Bits(e.packet) <= s.tokens <= c.bucket && e.time == s.last
    ensures TailConforms(c, s.(tokens := s.tokens - Bits(e.packet)), sent + [e])
    ensures StretchesConform(c, sent + [e]) && Ordered(sent + [e])
  {
    hide TailConforms, StretchesConform, Refill, Sum;
    SendKeepsTail(c, s, sent, e);
    StretchesGrow(c, s.(tokens := s.tokens - Bits(e.packet)), sent, e);
  }

  lemma StretchesGrow(c: Config, s: State, sent: seq<Entry>, e: Entry)
    requires StretchesConform(c, sent) && TailConforms(c, s, sent + [e]) && s.tokens >= 0.0 && s.last == e.time
    ensures StretchesConform(c, sent + [e])
  {
    hide Refill, Sum;
    var l := sent + [e];
    forall i, j | 0 <= i < j <= |l|
      ensures Sum(l[i..j]) <= c.bucket + Refill(c.rate, l[j - 1].time - l[i].time)
    {
      if j == |l| {
        assert l[i..j] == l[i..];
      } else {
        assert l[i..j] == sent[i..j];
        assert l[j - 1] == sent[j - 1] && l[i] == sent[i];
      }
    }
  }

  lemma ArrivalIsShapely(c: Config, tr: Trace, e: Event)
    requires Sane(c) && Steady(c, tr) && Shapely(c, tr) && e.Arrive? && Timely(tr, e) && Bits(e.packet) <= c.bucket
    ensures Shapely(c, After(c, tr, e))
  {
    hide Refill, Sum, StretchesConform, TailConforms, Bits, Resched, Ordered;
    var o := Opened(c, tr.s, e.time);
    if tr.s.init {
      NothingSent(c, o, tr.sent);
    }
    assert TailConforms(c, o, tr.sent);
    var r := Refreshed(c, o, e.time);
    RefreshKeepsTail(c, o, e.time, tr.sent);
    RefillOrder(c.rate, 0.0, e.time - o.last);
    assert r.tokens >= 0.0;
    if o.queue == [] && r.tokens >= Bits(e.packet) {
      SendIsShapely(c, r, tr.sent, Entry(e.time, e.packet));
    } else {
      TailIgnores(c, tr.sent);
    }
  }

  lemma NothingSent(c: Config, s: State, sent: seq<Entry>)
    requires sent == []
    ensures TailConforms(c, s, sent)
  {
  }

  /** The tail bound reads only the tokens and their date. */
  lemma TailIgnores(c: Config, sent: seq<Entry>)
    ensures forall s: State, s': State :: TailConforms(c, s, sent) && s.tokens == s'.tokens && s.last == s'.last ==>
              TailConforms(c, s', sent)
  {
  }

  lemma TailMoves(c: Config, s: State, s': State, sent: seq<Entry>)
    requires TailConforms(c, s, sent) && s.tokens == s'.tokens && s.last == s'.last
    ensures TailConforms(c, s', sent)
  {
  }

  lemma LastOf(l: seq<Entry>, x: Entry)
    ensures (l + [x])[|l + [x]| - 1] == x
  {
  }

  lemma FireIsShapely(c: Config, tr: Trace, e: Event)
    requires Sane(c) && Steady(c, tr) && Shapely(c, tr) && e.Fire? && Timely(tr, e)
    ensures Shapely(c, After(c, tr, e))
    ensures After(c, tr, e).s.tokens == 0.0
  {
    hide Refill, Sum, StretchesConform, TailConforms, Bits, Resched, Ordered;
    FireStaysSteady(c, tr, e);
    var r := Refreshed(c, tr.s, e.time);
    var x := Entry(e.time, tr.s.queue[0]);
    assert tr.s.queue[0] in tr.s.queue;
    RefreshKeepsTail(c, tr.s, e.time, tr.sent);
    SendIsShapely(c, r, tr.sent, x);
    TailMoves(c, r.(tokens := r.tokens - Bits(x.packet)), After(c, tr, e).s, tr.sent + [x]);
    LastOf(tr.sent, x);
    assert After(c, tr, e).sent == tr.sent + [x];
  }

  lemma {:induction false} RunIsShapely(c: Config, events: seq<Event>)
    requires Run(c, events) && Fits(c, events)
    ensures Shapely(c, Play(c, events))
  {
    if events != [] {
      hide Arrival, Timeout, After, Timely, Steady, Shapely;
      var n := |events| - 1;
      RunPrefix(c, events);
      RunIsShapely(c, events[..n]);
      RunIsSteady(c, events[..n]);
      if events[n].Arrive? {
        ArrivalIsShapely(c, Play(c, events[..n]), events[n]);
      } else {
        FireIsShapely(c, Play(c, events[..n]), events[n]);
      }
    }
  }

  lemma StretchGrows(l: seq<Entry>, i: nat, n: nat)
    requires i <= n < |l|
    ensures Sum(l[i..n + 1]) == Sum(l[i..n]) + Bits(l[n].packet)
    ensures i == n ==> Sum(l[i..n]) == 0.0
  {
    assert l[i..n + 1][..n - i] == l[i..n];
    if i == n {
      EmptySum(l[i..n]);
    }
  }

  /** From `i` up to `j` are the departures inside the window. */
  ghost predicate IsWindow(l: seq<Entry>, from: real, to: real, i: nat, j: nat) {
    && i <= j <= |l| && WindowBits(l, from, to) == Sum(l[i..j])
    && (i < j ==> from <= l[i].time && l[j - 1].time <= to)
    && (i < j < |l| ==> l[j].time > to)
  }

  lemma WindowMissed(l: seq<Entry>, from: real, to: real, i: nat, j: nat)
    requires Ordered(l) && l != [] && IsWindow(l[..|l| - 1], from, to, i, j)
    requires !(from <= l[|l| - 1].time <= to)
    ensures IsWindow(l, from, to, i, j)
  {
    hide Sum;
    assert l[..|l| - 1][i..j] == l[i..j];
  }

  lemma WindowHit(l: seq<Entry>, from: real, to: real, i: nat, j: nat)
    requires Ordered(l) && l != [] && IsWindow(l[..|l| - 1], from, to, i, j)
    requires from <= l[|l| - 1].time <= to
    ensures IsWindow(l, from, to, if i == j then |l| - 1 else i, |l|)
  {
    hide Sum, Bits;
    var n := |l| - 1;
    assert l[..n][i..j] == l[i..j];
    if i == j {
      EmptySum(l[i..j]);
      StretchGrows(l, n, n);
    } else {
      assert j == n;
      StretchGrows(l, i, n);
    }
  }

  /** The departures inside a window are one stretch of the log. */
  lemma {:induction false} WindowIsStretch(l: seq<Entry>, from: real, to: real) returns (i: nat, j: nat)
    requires Ordered(l)
    ensures i <= j <= |l| && WindowBits(l, from, to) == Sum(l[i..j])
    ensures i < j ==> from <= l[i].time && l[j - 1].time <= to
    ensures IsWindow(l, from, to, i, j)
  {
    if l == [] {
      i, j := 0, 0;
    } else {
      var n := |l| - 1;
      i, j := WindowIsStretch(l[..n], from, to);
      hide Sum, Bits, WindowBits, Ordered;
      if from <= l[n].time <= to {
        WindowHit(l, from, to, i, j);
        i, j := if i == j then n else i, n + 1;
      } else {
        WindowMissed(l, from, to, i, j);
      }
    }
  }

  lemma StretchesAreEnough(c: Config, l: seq<Entry>)
    requires Sane(c) && Ordered(l) && StretchesConform(c, l)
    ensures Conforms(c, l)
  {
    hide Refill;
    forall from, to | from <= to
      ensures WindowBits(l, from, to) <= c.bucket + Refill(c.rate, to - from)
    {
      var i, j := WindowIsStretch(l, from, to);
      RefillOrder(c.rate, 0.0, to - from);
      if i < j {
        RefillOrder(c.rate, l[j - 1].time - l[i].time, to - from);
      }
    }
  }

  /** In every run with packets that fit the bucket, what is sent conforms in every closed window, and the bucket is
  never overdrawn. */
  lemma OutputConforms(c: Config, events: seq<Event>)
    requires Run(c, events) && Fits(c, events)
    ensures Conforms(c, Play(c, events).sent)
    ensures !Play(c, events).s.init ==> 0.0 <= Play(c, events).s.tokens <= c.bucket
  {
    RunIsShapely(c, events);
    StretchesAreEnough(c, Play(c, events).sent);
  }

  /** A packet larger than the bucket, arriving first, waits until the rate would have made up for it. */
  lemma OversizedWaits(c: Config, p: Packet, t: real) returns (tr: Trace, at: real)
    requires Sane(c) && c.qlen > 0 && Bits(p) > c.bucket && t >= 0.0
    ensures Timely(Start(), Arrive(t, p)) && tr == After(c, Start(), Arrive(t, p))
    ensures tr.s.queue == [p] && tr.s.timer == Due(at) && tr.sent == []
    ensures Refreshed(c, tr.s, at).tokens == c.bucket
  {
    RefillOrder(c.rate, 0.0, 0.0);
    RefillWait(c.rate, Bits(p) - c.bucket);
    hide Refill, Bits;
    tr, at := After(c, Start(), Arrive(t, p)), t + (Bits(p) - c.bucket) / c.rate;
  }

  /** It is then sent all the same: that overdraws the bucket and breaks the contract within the moment it leaves. */
  lemma OversizedOverdraws(c: Config, p: Packet, t: real) returns (events: seq<Event>)
    requires Sane(c) && c.qlen > 0 && Bits(p) > c.bucket && t >= 0.0
    ensures Run(c, events) && Play(c, events).s.tokens == c.bucket - Bits(p) < 0.0
    ensures !Conforms(c, Play(c, events).sent)
  {
    var first, at := OversizedWaits(c, p, t);
    events := [Arrive(t, p), Fire(at)];
    assert events[..0] == [] && events[..1] == [Arrive(t, p)] && [Arrive(t, p)][..0] == [];
    hide Bits, Refill, Arrival;
    assert Play(c, [Arrive(t, p)]) == first;
    assert Play(c, events) == After(c, first, Fire(at));
    hide Play, Resched;
    var l := [Entry(at, p)];
    assert After(c, first, Fire(at)).sent == l && l[..0] == [];
    assert WindowBits(l, at, at) == Bits(p);
    RefillOrder(c.rate, 0.0, 0.0);
    assert at - at == 0.0;
  }

  // ---------- no conforming schedule is faster ----------

  /** Packet `k` left as it came, or after a packet that did, with the bucket full then and spent to nothing now. */
  ghost predicate Tight(c: Config, accepted: seq<Entry>, sent: seq<Entry>, k: nat, a: nat)
    requires k < |sent|
  {
    && a <= k && a < |accepted| && sent[a].time == accepted[a].time
    && (a == k || Sum(sent[a..k + 1]) == c.bucket + Refill(c.rate, sent[k].time - sent[a].time))
  }

  /** Since some packet that left as it came, no token has been lost to a full bucket. */
  ghost predicate Anchored(c: Config, s: State, accepted: seq<Entry>, sent: seq<Entry>, a: nat) {
    && a < |sent| && a < |accepted| && sent[a].time == accepted[a].time
    && Sum(sent[a..]) + s.tokens == c.bucket + Refill(c.rate, s.last - sent[a].time)
  }

  ghost predicate IsTight(c: Config, accepted: seq<Entry>, sent: seq<Entry>, k: nat)
    requires k < |sent|
  {
    exists a: nat :: Tight(c, accepted, sent, k, a)
  }

  /** Every departure so far is tight and after its arrival, and the tokens are accounted for. */
  ghost predicate Prompt(c: Config, tr: Trace) {
    && (!tr.s.init ==> exists a: nat :: Anchored(c, tr.s, tr.accepted, tr.sent, a))
    && (forall k: nat :: k < |tr.sent| ==> IsTight(c, tr.accepted, tr.sent, k))
    && |tr.sent| <= |tr.accepted|
    && (forall k :: 0 <= k < |tr.sent| ==> tr.accepted[k].time <= tr.sent[k].time)
    && (forall k :: 0 <= k < |tr.accepted| ==> tr.accepted[k].time <= tr.clock)
  }

  lemma TightStays(c: Config, accepted: seq<Entry>, sent: seq<Entry>, more: seq<Entry>, e: seq<Entry>)
    requires forall k: nat :: k < |sent| ==> IsTight(c, accepted, sent, k)
    ensures forall k: nat :: k < |sent| ==> IsTight(c, accepted + more, sent + e, k)
  {
    hide Refill, Sum;
    forall k: nat | k < |sent|
      ensures IsTight(c, accepted + more, sent + e, k)
    {
      assert IsTight(c, accepted, sent, k);
      var a: nat :| Tight(c, accepted, sent, k, a);
      assert (sent + e)[a..k + 1] == sent[a..k + 1];
      assert Tight(c, accepted + more, sent + e, k, a);
    }
  }

  /** A refresh that does not overflow keeps the account. */
  lemma RefreshStaysAnchored(c: Config, s: State, now: real, accepted: seq<Entry>, sent: seq<Entry>, a: nat)
    requires Sane(c) && Anchored(c, s, accepted, sent, a)
    requires s.tokens + Refill(c.rate, now - s.last) <= c.bucket
    ensures Anchored(c, Refreshed(c, s, now), accepted, sent, a)
  {
    hide Refill, Sum;
    RefillSum(c.rate, sent[a].time, s.last, now);
  }

  lemma SendStaysAnchored(c: Config, s: State, accepted: seq<Entry>, sent: seq<Entry>, a: nat, e: Entry, more: seq<Entry>)
    requires Anchored(c, s, accepted, sent, a)
    ensures Anchored(c, s.(tokens := s.tokens - Bits(e.packet)), accepted + more, sent + [e], a)
  {
    hide Refill, Sum;
    SumGrows(sent, a, e);
  }

  /** A packet sent from a full bucket as it comes starts a new account. */
  lemma SendAnchors(c: Config, s: State, accepted: seq<Entry>, sent: seq<Entry>, e: Entry)
    requires Sane(c) && s.tokens == c.bucket && s.last == e.time && |accepted| == |sent|
    ensures Anchored(c, s.(tokens := s.tokens - Bits(e.packet)), accepted + [e], sent + [e], |sent|)
  {
    SumGrows(sent, |sent|, e);
    EmptySum(sent[|sent|..]);
    RefillOrder(c.rate, 0.0, 0.0);
  }

  /** The state and the logs that an arrival hands on. */
  lemma ArrivalIsPrompt(c: Config, tr: Trace, e: Event)
    requires Sane(c) && Steady(c, tr) && Shapely(c, tr) && Prompt(c, tr)
    requires |tr.accepted| == |tr.sent| + |tr.s.queue|
    requires e.Arrive? && Timely(tr, e) && Bits(e.packet) <= c.bucket
    ensures Prompt(c, After(c, tr, e))
  {
    hide Refill, Sum, TailConforms, StretchesConform, Ordered, Bits, Resched, Anchored, IsTight, Tight;
    var o := Opened(c, tr.s, e.time);
    var next := After(c, tr, e);
    var x := Entry(e.time, e.packet);
    if o.queue != [] {
      var a: nat :| Anchored(c, tr.s, tr.accepted, tr.sent, a);
      AnchorIgnores(c, tr.s, next.s, tr.accepted, tr.sent, a, next.accepted[|tr.accepted|..]);
      TightStays(c, tr.accepted, tr.sent, next.accepted[|tr.accepted|..], []);
      assert tr.sent + [] == tr.sent && tr.accepted + next.accepted[|tr.accepted|..] == next.accepted;
    } else {
      var r := Refreshed(c, o, e.time);
      if r.tokens >= Bits(e.packet) {
        PromptSend(c, tr, o, e);
      } else {
        PromptWait(c, tr, e);
      }
    }
  }

  lemma AnchorIgnores(c: Config, s: State, s': State, accepted: seq<Entry>, sent: seq<Entry>, a: nat, more: seq<Entry>)
    requires Anchored(c, s, accepted, sent, a) && s'.tokens == s.tokens && s'.last == s.last
    ensures Anchored(c, s', accepted + more, sent, a)
  {
  }

  lemma PromptSend(c: Config, tr: Trace, o: State, e: Event)
    requires Sane(c) && Steady(c, tr) && Shapely(c, tr) && Prompt(c, tr)
    requires |tr.accepted| == |tr.sent| && tr.s.queue == []
    requires e.Arrive? && Timely(tr, e) && o == Opened(c, tr.s, e.time)
    requires Refreshed(c, o, e.time).tokens >= Bits(e.packet)
    ensures Prompt(c, After(c, tr, e))
  {
    hide Refill, Sum, TailConforms, StretchesConform, Ordered, Bits, Resched, Anchored, IsTight, Tight;
    var r := Refreshed(c, o, e.time);
    var next := After(c, tr, e);
    var x := Entry(e.time, e.packet);
    TightStays(c, tr.accepted, tr.sent, [x], [x]);
    TightAtOnce(c, tr.accepted + [x], tr.sent + [x], |tr.sent|);
    if r.tokens == c.bucket {
      SendAnchors(c, r, tr.accepted, tr.sent, x);
      AnchorIgnores(c, r.(tokens := r.tokens - Bits(e.packet)), next.s, next.accepted, next.sent, |tr.sent|, []);
      assert next.accepted + [] == next.accepted;
    } else {
      RefillOrder(c.rate, 0.0, 0.0);
      assert !tr.s.init;
      var a: nat :| Anchored(c, tr.s, tr.accepted, tr.sent, a);
      RefreshStaysAnchored(c, o, e.time, tr.accepted, tr.sent, a);
      SendStaysAnchored(c, r, tr.accepted, tr.sent, a, x, [x]);
      AnchorIgnores(c, r.(tokens := r.tokens - Bits(e.packet)), next.s, next.accepted, next.sent, a, []);
      assert next.accepted + [] == next.accepted;
    }
  }

  lemma TightAtOnce(c: Config, accepted: seq<Entry>, sent: seq<Entry>, k: nat)
    requires k < |sent| && k < |accepted| && sent[k].time == accepted[k].time
    ensures IsTight(c, accepted, sent, k)
  {
    assert Tight(c, accepted, sent, k, k);
  }

  lemma PromptWait(c: Config, tr: Trace, e: Event)
    requires Sane(c) && Steady(c, tr) && Shapely(c, tr) && Prompt(c, tr)
    requires |tr.accepted| == |tr.sent| && tr.s.queue == []
    requires e.Arrive? && Timely(tr, e) && Bits(e.packet) <= c.bucket
    requires Refreshed(c, Opened(c, tr.s, e.time), e.time).tokens < Bits(e.packet)
    ensures Prompt(c, After(c, tr, e))
  {
    hide Refill, Sum, TailConforms, StretchesConform, Ordered, Bits, Resched, Anchored, IsTight, Tight;
    var next := After(c, tr, e);
    var r := Refreshed(c, Opened(c, tr.s, e.time), e.time);
    RefillOrder(c.rate, 0.0, 0.0);
    assert !tr.s.init;
    var a: nat :| Anchored(c, tr.s, tr.accepted, tr.sent, a);
    RefreshStaysAnchored(c, tr.s, e.time, tr.accepted, tr.sent, a);
    var more := next.accepted[|tr.accepted|..];
    AnchorIgnores(c, r, next.s, tr.accepted, tr.sent, a, more);
    TightStays(c, tr.accepted, tr.sent, more, []);
    assert tr.sent + [] == tr.sent && tr.accepted + more == next.accepted;
  }

  lemma FireIsPrompt(c: Config, tr: Trace, e: Event)
    requires Sane(c) && Steady(c, tr) && Shapely(c, tr) && Prompt(c, tr)
    requires |tr.accepted| == |tr.sent| + |tr.s.queue|
    requires e.Fire? && Timely(tr, e)
    ensures Prompt(c, After(c, tr, e))
  {
    hide Sum, TailConforms, StretchesConform, Ordered, Bits, Resched, Anchored, IsTight, Tight, Refill;
    FireStaysSteady(c, tr, e);
    FireIsShapely(c, tr, e);
    var next := After(c, tr, e);
    var x := Entry(e.time, tr.s.queue[0]);
    var r := Refreshed(c, tr.s, e.time);
    assert tr.s.queue[0] in tr.s.queue;
    var a: nat :| Anchored(c, tr.s, tr.accepted, tr.sent, a);
    assert tr.accepted + [] == tr.accepted && next.accepted + [] == next.accepted;
    RefreshStaysAnchored(c, tr.s, e.time, tr.accepted, tr.sent, a);
    SendStaysAnchored(c, r, tr.accepted, tr.sent, a, x, []);
    AnchorIgnores(c, r.(tokens := r.tokens - Bits(x.packet)), next.s, next.accepted, next.sent, a, []);
    TightStays(c, tr.accepted, tr.sent, [], [x]);
    SpentIsTight(c, next.s, next.accepted, next.sent, a);
  }

  /** With the account in order and nothing left, the last departure is tight. */
  lemma SpentIsTight(c: Config, s: State, accepted: seq<Entry>, sent: seq<Entry>, a: nat)
    requires Anchored(c, s, accepted, sent, a) && s.tokens == 0.0 && s.last == sent[|sent| - 1].time
    ensures IsTight(c, accepted, sent, |sent| - 1)
  {
    assert sent[a..] == sent[a..|sent| - 1 + 1];
    assert Tight(c, accepted, sent, |sent| - 1, a);
  }

  lemma {:induction false} RunIsPrompt(c: Config, events: seq<Event>)
    requires Run(c, events) && Fits(c, events)
    ensures Prompt(c, Play(c, events))
  {
    if events != [] {
      hide Arrival, Timeout, After, Timely, Steady, Shapely, Prompt;
      var n := |events| - 1;
      RunPrefix(c, events);
      RunIsPrompt(c, events[..n]);
      RunIsSteady(c, events[..n]);
      RunIsShapely(c, events[..n]);
      ServiceIsFifo(c, events[..n]);
      if events[n].Arrive? {
        ArrivalIsPrompt(c, Play(c, events[..n]), events[n]);
      } else {
        FireIsPrompt(c, Play(c, events[..n]), events[n]);
      }
    }
  }

  /** A schedule of the packets that the filter accepted: in order, none before it came, within the contract. */
  ghost predicate Schedule(c: Config, accepted: seq<Entry>, x: seq<Entry>) {
    && |x| <= |accepted| && Packets(x) == Packets(accepted)[..|x|]
    && Ordered(x) && (forall k :: 0 <= k < |x| ==> accepted[k].time <= x[k].time)
    && Conforms(c, x)
  }

  lemma {:induction false} WindowCovers(l: seq<Entry>, i: nat, j: nat, from: real, to: real)
    requires i <= j <= |l| && forall k :: i <= k < j ==> from <= l[k].time <= to
    ensures WindowBits(l, from, to) >= Sum(l[i..j])
  {
    hide Sum, Bits;
    if l != [] {
      var n := |l| - 1;
      if j <= n {
        WindowCovers(l[..n], i, j, from, to);
        assert l[..n][i..j] == l[i..j];
      } else if i <= n {
        WindowCovers(l[..n], i, n, from, to);
        assert l[..n][i..n] == l[i..n];
        StretchGrows(l, i, n);
      } else {
        WindowCovers(l[..n], n, n, from, to);
        EmptySum(l[i..j]);
        EmptySum(l[..n][n..n]);
      }
    } else {
      EmptySum(l[i..j]);
    }
  }

  lemma {:induction false} SumOfPackets(l: seq<Entry>, m: seq<Entry>)
    requires Packets(l) == Packets(m)
    ensures Sum(l) == Sum(m)
  {
    if l != [] {
      var n := |l| - 1;
      assert |Packets(m)| == |l|;
      assert Packets(l)[..n] == Packets(l[..n]) && Packets(m)[..n] == Packets(m[..n]);
      assert Packets(l)[n] == l[n].packet && Packets(m)[n] == m[n].packet;
      SumOfPackets(l[..n], m[..n]);
    }
  }

  lemma StretchOfPackets(l: seq<Entry>, m: seq<Entry>, i: nat, j: nat)
    requires i <= j <= |l| && j <= |m|
    requires forall k :: i <= k < j ==> l[k].packet == m[k].packet
    ensures Sum(l[i..j]) == Sum(m[i..j])
  {
    assert Packets(l[i..j]) == Packets(m[i..j]);
    SumOfPackets(l[i..j], m[i..j]);
  }

  lemma SentIsSchedule(c: Config, events: seq<Event>)
    requires Run(c, events) && Fits(c, events)
    ensures Schedule(c, Play(c, events).accepted, Play(c, events).sent)
  {
    var tr := Play(c, events);
    hide Refill, Conforms, StretchesConform, TailConforms, Run, Play;
    RunIsPrompt(c, events);
    RunIsShapely(c, events);
    OutputConforms(c, events);
    ServiceIsFifo(c, events);
    assert Packets(tr.accepted)[..|tr.sent|] == Packets(tr.sent);
  }

  /** What the filter has sent is a schedule, and no schedule sends any of those packets earlier. */
  lemma GreedyShaper(c: Config, events: seq<Event>, x: seq<Entry>, k: nat)
    requires Run(c, events) && Fits(c, events)
    requires Schedule(c, Play(c, events).accepted, x) && k < |x| && k < |Play(c, events).sent|
    ensures Schedule(c, Play(c, events).accepted, Play(c, events).sent)
    ensures Play(c, events).sent[k].time <= x[k].time
  {
    var tr := Play(c, events);
    SentIsSchedule(c, events);
    RunIsPrompt(c, events);
    assert IsTight(c, tr.accepted, tr.sent, k);
    var a: nat :| Tight(c, tr.accepted, tr.sent, k, a);
    hide Conforms, Run, Play, Sum;
    if a < k {
      NoEarlier(c, tr.accepted, tr.sent, x, k, a);
    }
  }

  lemma NoEarlier(c: Config, accepted: seq<Entry>, sent: seq<Entry>, x: seq<Entry>, k: nat, a: nat)
    requires Sane(c) && Schedule(c, accepted, x) && |sent| <= |accepted|
    requires Packets(sent) == Packets(accepted)[..|sent|]
    requires k < |x| && k < |sent| && a < k && Tight(c, accepted, sent, k, a)
    ensures sent[k].time <= x[k].time
  {
    forall i | a <= i < k + 1
      ensures sent[i].packet == x[i].packet
    {
      assert Packets(sent)[i] == sent[i].packet && Packets(x)[i] == x[i].packet;
      assert Packets(accepted)[..|sent|][i] == Packets(accepted)[..|x|][i];
    }
    StretchOfPackets(sent, x, a, k + 1);
    WindowCovers(x, a, k + 1, x[a].time, x[k].time);
    RefillOrder(c.rate, sent[k].time - sent[a].time, x[k].time - x[a].time);
  }
}
