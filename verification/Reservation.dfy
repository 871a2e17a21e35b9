/** Hop-by-hop reservation: what one link does with a signalling message, on values, and what a path of such links
guarantees while the messages of many flows interleave. */
module Reservation {
  import opened Routing

  const NFLOWS: nat := 500
  const FREE: int := -1

  datatype Kind = Request | Accept | Reject | Confirm | Teardown

  datatype Message = Message(kind: Kind, flow: int, rate: real, decision: bool)

  /** A link: flows with an undecided request, the count of admitted flows, the sum of reserved rates and its limit. */
  datatype Link = Link(pending: seq<int>, numfl: int, resv: real, limit: real)

  datatype Outcome = Forward(link: Link, message: Message) | Halt

  /** The first slot that holds `id`, or the length of the table. */
  function Slot(pending: seq<int>, id: int): (i: nat)
    ensures i <= |pending|
    ensures forall k :: 0 <= k < i ==> pending[k] != id
    ensures i < |pending| ==> pending[i] == id
  {
    if pending == [] || pending[0] == id then 0 else 1 + Slot(pending[1..], id)
  }

  /** admit_flow */
  predicate Admits(l: Link, rate: real) {
    l.resv + rate <= l.limit
  }

  /** SALink::recv. A request that is admitted when the table is full ends the program. */
  function RecvAt(l: Link, m: Message): Outcome {
    match m.kind
    case Request =>
      if !Admits(l, m.rate) then Forward(l, m.(decision := false))
      else
        var j := Slot(l.pending, FREE);
        if j == |l.pending| then Halt
        else Forward(l.(pending := l.pending[j := m.flow], numfl := l.numfl + 1, resv := l.resv + m.rate), m)
    case Accept | Reject => Forward(l, m)
    case Confirm =>
      var j := Slot(l.pending, m.flow);
      if j == |l.pending| then Forward(l, m)
      else
        var l1 := l.(pending := l.pending[j := FREE]);
        Forward(if m.decision then l1 else l1.(numfl := l.numfl - 1, resv := l.resv - m.rate), m)
    case Teardown => Forward(l.(numfl := l.numfl - 1, resv := l.resv - m.rate), m)
  }

  /** A link reads a message and passes it on: of what it carries only the decision of a request can change, which
  stays positive exactly if the rate fits. The rate that fits is reserved, and the flow takes the first free slot. */
  lemma MessagePassed(l: Link, m: Message)
    ensures match RecvAt(l, m)
      case Halt => m.kind == Request && l.resv + m.rate <= l.limit && FREE !in l.pending
      case Forward(l', m') =>
        && m'.kind == m.kind && m'.flow == m.flow && m'.rate == m.rate
        && m'.decision == (m.decision && (m.kind == Request ==> l.resv + m.rate <= l.limit))
        && (m.kind == Request ==> l'.resv == l.resv + if l.resv + m.rate <= l.limit then m.rate else 0.0)
        && (m.kind == Request && l.resv + m.rate <= l.limit ==> FREE in l.pending && (m.flow != FREE ==> m.flow in l'.pending))
        && (m.kind == Accept || m.kind == Reject ==> l' == l)
  {
    var j := Slot(l.pending, FREE);
    if j < |l.pending| {
      assert l.pending[j := m.flow][j] == m.flow;
    }
  }

  // ---------- flows and links together ----------

  /** Where a flow's one message is: before which hop of its route, and with which decision. */
  datatype Phase = Idle | Requesting(hop: nat, decision: bool) | Confirming(hop: nat, decision: bool)
                 | Settled(accepted: bool) | Leaving(hop: nat)

  /** A flow, and the account of the links: those that hold its rate, and those that still wait for its outcome. */
  datatype Flow = Flow(phase: Phase, rate: real, route: seq<nat>, held: set<nat>, awaiting: set<nat>)

  datatype Net = Net(links: seq<Link>, flows: seq<Flow>)

  datatype Event = Begin(flow: nat, rate: real, route: seq<nat>) | Move(flow: nat) | End(flow: nat)

  predicate GoodRoute(n: Net, route: seq<nat>) {
    (forall i :: 0 <= i < |route| ==> route[i] < |n.links|) &&
    forall i, j :: 0 <= i < j < |route| ==> route[i] != route[j]
  }

  /** A flow asks when it has no message on its way and holds nothing, and is torn down only after it was accepted. */
  predicate Enabled(n: Net, e: Event) {
    e.flow < |n.flows| &&
    match e
    case Begin(f, rate, route) =>
      rate >= 0.0 && GoodRoute(n, route) && (n.flows[f].phase.Idle? || n.flows[f].phase == Settled(false))
    case Move(f) => !n.flows[f].phase.Idle? && !n.flows[f].phase.Settled?
    case End(f) => n.flows[f].phase == Settled(true)
  }

  /** The message of a flow, as it comes to the next link. */
  function MessageOf(f: nat, w: Flow): Message {
    match w.phase
    case Requesting(_, d) => Message(Request, f, w.rate, d)
    case Confirming(_, d) => Message(Confirm, f, w.rate, d)
    case _ => Message(Teardown, f, w.rate, true)
  }

  function Hop(p: Phase): nat {
    match p
    case Requesting(k, _) => k
    case Confirming(k, _) => k
    case Leaving(k) => k
    case _ => 0
  }

  /** Past the last link: the receiver returns the decision, which goes back unchanged and out again as a CONFIRM. */
  function Arrived(w: Flow): Flow {
    match w.phase
    case Requesting(_, d) => w.(phase := Confirming(0, d))
    case Confirming(_, d) => w.(phase := Settled(d))
    case _ => w.(phase := Idle)
  }

  /** Past link `l`, which was `before` when the message came, and passed it on as `m`. From there on the message is
  `m`: with its decision and with its rate. */
  function Passed(w: Flow, l: nat, before: Link, m: Message): Flow {
    match w.phase
    case Requesting(k, _) =>
      if Admits(before, w.rate)
      then w.(phase := Requesting(k + 1, m.decision), rate := m.rate, held := w.held + {l}, awaiting := w.awaiting + {l})
      else w.(phase := Requesting(k + 1, m.decision), rate := m.rate)
    case Confirming(k, _) =>
      if Slot(before.pending, m.flow) == |before.pending| then w.(phase := Confirming(k + 1, m.decision), rate := m.rate)
      else w.(phase := Confirming(k + 1, m.decision), rate := m.rate,
              held := if m.decision then w.held else w.held - {l}, awaiting := w.awaiting - {l})
    case _ => w.(phase := Leaving(Hop(w.phase) + 1), rate := m.rate, held := w.held - {l})
  }

  datatype Maybe = Halted | Running(net: Net)

  function Apply(n: Net, e: Event): Maybe
    requires Enabled(n, e)
  {
    var w := n.flows[e.flow];
    match e
    case Begin(f, rate, route) => Running(n.(flows := n.flows[f := Flow(Requesting(0, true), rate, route, {}, {})]))
    case End(f) => Running(n.(flows := n.flows[f := w.(phase := Leaving(0))]))
    case Move(f) =>
      var k := Hop(w.phase);
      if k >= |w.route| then Running(n.(flows := n.flows[f := Arrived(w)]))
      else
        var l := w.route[k];
        if l >= |n.links| then Running(n)
        else
          match RecvAt(n.links[l], MessageOf(f, w))
          case Halt => Halted
          case Forward(after, m) =>
            Running(Net(n.links[l := after], n.flows[f := Passed(w, l, n.links[l], m)]))
  }

  // ---------- the account of one flow ----------

  function Links(route: seq<nat>): set<nat> {
    set l | l in route
  }

  /** What a flow holds and awaits, as its message passes from hop to hop. */
  ghost predicate FlowOk(w: Flow) {
    match w.phase
    case Idle => w.held == {} && w.awaiting == {}
    case Requesting(k, d) =>
      && k <= |w.route| && w.held == w.awaiting && w.held <= Links(w.route[..k])
      && (d <==> w.held == Links(w.route[..k]))
    case Confirming(k, d) =>
      && k <= |w.route| && w.awaiting <= Links(w.route[k..])
      && (if d then w.held == Links(w.route) && w.awaiting == Links(w.route[k..]) else w.held == w.awaiting)
    case Settled(d) => w.awaiting == {} && w.held == if d then Links(w.route) else {}
    case Leaving(k) => k <= |w.route| && w.awaiting == {} && w.held == Links(w.route[k..])
  }

  // ---------- the account of one link ----------

  function Share(w: Flow, l: nat): real {
    if l in w.held then w.rate else 0.0
  }

  function Reserved(flows: seq<Flow>, l: nat): real {
    if flows == [] then 0.0 else Reserved(flows[..|flows| - 1], l) + Share(flows[|flows| - 1], l)
  }

  function Holders(flows: seq<Flow>, l: nat): nat {
    if flows == [] then 0
    else Holders(flows[..|flows| - 1], l) + if l in flows[|flows| - 1].held then 1 else 0
  }

  /** The table holds exactly the flows that await an outcome at the link, each once. */
  ghost predicate PendingOk(pending: seq<int>, flows: seq<Flow>, l: nat) {
    && |pending| == NFLOWS
    && (forall i :: 0 <= i < NFLOWS && pending[i] != FREE ==>
          0 <= pending[i] < |flows| && l in flows[pending[i]].awaiting)
    && (forall i, j :: 0 <= i < j < NFLOWS && pending[i] == pending[j] ==> pending[i] == FREE)
    && (forall f :: 0 <= f < |flows| && l in flows[f].awaiting ==> f in pending)
  }

  ghost predicate LinkOk(k: Link, flows: seq<Flow>, l: nat, base: int) {
    && PendingOk(k.pending, flows, l)
    && k.resv == Reserved(flows, l) <= k.limit
    && k.numfl == base + Holders(flows, l)
  }

  /** `base` is the count that the links start with. */
  ghost predicate Inv(n: Net, base: int) {
    && (forall f :: 0 <= f < |n.flows| ==> FlowOk(n.flows[f]) && GoodRoute(n, n.flows[f].route) && n.flows[f].rate >= 0.0)
    && (forall l :: 0 <= l < |n.links| ==> LinkOk(n.links[l], n.flows, l, base))
  }

  ghost predicate Start(n: Net, base: int) {
    && (forall f :: 0 <= f < |n.flows| ==> n.flows[f] == Flow(Idle, 0.0, [], {}, {}))
    && forall l :: 0 <= l < |n.links| ==>
         n.links[l] == Link(seq(NFLOWS, i => FREE), base, 0.0, n.links[l].limit) && n.links[l].limit >= 0.0
  }

  lemma {:induction false} ReservedUpdate(flows: seq<Flow>, f: nat, w: Flow, l: nat)
    requires f < |flows|
    ensures Reserved(flows[f := w], l) == Reserved(flows, l) - Share(flows[f], l) + Share(w, l)
    ensures Holders(flows[f := w], l) ==
            Holders(flows, l) - (if l in flows[f].held then 1 else 0) + (if l in w.held then 1 else 0)
  {
    var n, now := |flows| - 1, flows[f := w];
    if f == n {
      assert now[..n] == flows[..n];
    } else {
      ReservedUpdate(flows[..n], f, w, l);
      assert now[..n] == flows[..n][f := w];
    }
  }

  lemma {:induction false} NothingReserved(flows: seq<Flow>, l: nat)
    requires forall f :: 0 <= f < |flows| ==> l !in flows[f].held
    ensures Reserved(flows, l) == 0.0 && Holders(flows, l) == 0
  {
    if flows != [] {
      NothingReserved(flows[..|flows| - 1], l);
    }
  }

  lemma {:induction false} ReservedNonNegative(flows: seq<Flow>, l: nat)
    requires forall f :: 0 <= f < |flows| ==> flows[f].rate >= 0.0
    ensures Reserved(flows, l) >= 0.0
  {
    if flows != [] {
      ReservedNonNegative(flows[..|flows| - 1], l);
    }
  }

  lemma StartIsOk(n: Net, base: int)
    requires Start(n, base)
    ensures Inv(n, base)
  {
    forall l | 0 <= l < |n.links|
      ensures LinkOk(n.links[l], n.flows, l, base)
    {
      NothingReserved(n.flows, l);
    }
  }

  /** A link that neither the flow's held nor its awaited links gain or lose is left alone. */
  lemma LinkUntouched(k: Link, flows: seq<Flow>, f: nat, w: Flow, l: nat, base: int)
    requires LinkOk(k, flows, l, base) && f < |flows|
    requires (l in w.held <==> l in flows[f].held) && (l in w.awaiting <==> l in flows[f].awaiting)
    requires l in w.held ==> w.rate == flows[f].rate
    ensures LinkOk(k, flows[f := w], l, base)
  {
    ReservedUpdate(flows, f, w, l);
  }

  /** The table after `f` takes a free slot. */
  lemma PendingTaken(pending: seq<int>, flows: seq<Flow>, f: nat, w: Flow, l: nat)
    requires PendingOk(pending, flows, l) && f < |flows| && l !in flows[f].awaiting && l in w.awaiting
    requires Slot(pending, FREE) < NFLOWS
    ensures PendingOk(pending[Slot(pending, FREE) := f], flows[f := w], l)
  {
    var j := Slot(pending, FREE);
    var now := pending[j := f];
    assert now[j] == f;
    forall g | 0 <= g < |flows| && l in flows[f := w][g].awaiting
      ensures g in now
    {
      if g != f {
        var i :| 0 <= i < NFLOWS && pending[i] == g;
        assert now[i] == g;
      }
    }
  }

  /** The table after `f`'s slot is freed. */
  lemma PendingFreed(pending: seq<int>, flows: seq<Flow>, f: nat, w: Flow, l: nat)
    requires PendingOk(pending, flows, l) && f < |flows| && l in flows[f].awaiting && l !in w.awaiting
    ensures Slot(pending, f) < NFLOWS && PendingOk(pending[Slot(pending, f) := FREE], flows[f := w], l)
  {
    var j := Slot(pending, f);
    assert f in pending;
    var now := pending[j := FREE];
    forall g | 0 <= g < |flows| && l in flows[f := w][g].awaiting
      ensures g in now
    {
      var i :| 0 <= i < NFLOWS && pending[i] == g;
      assert now[i] == g;
    }
  }

  /** A flow that does not await is not in the table. */
  lemma NotPending(pending: seq<int>, flows: seq<Flow>, f: nat, l: nat)
    requires PendingOk(pending, flows, l) && f < |flows|
    ensures Slot(pending, f) < NFLOWS <==> l in flows[f].awaiting
  {
    if l in flows[f].awaiting {
      assert f in pending;
    }
  }

  // ---------- one step ----------

  lemma RouteSplit(route: seq<nat>, k: nat)
    requires k < |route| && forall i, j :: 0 <= i < j < |route| ==> route[i] != route[j]
    ensures Links(route[..k + 1]) == Links(route[..k]) + {route[k]} && route[k] !in Links(route[..k])
    ensures Links(route[k..]) == Links(route[k + 1..]) + {route[k]} && route[k] !in Links(route[k + 1..])
  {
    assert route[..k + 1] == route[..k] + [route[k]];
    assert route[k..] == [route[k]] + route[k + 1..];
  }

  /** The account of the flow stays right at the next hop. */
  lemma PassKeepsFlow(w: Flow, k: nat, before: Link, m: Message)
    requires FlowOk(w) && k == Hop(w.phase) && k < |w.route| && !w.phase.Idle? && !w.phase.Settled?
    requires forall i, j :: 0 <= i < j < |w.route| ==> w.route[i] != w.route[j]
    requires w.phase.Requesting? ==> m.decision == (w.phase.decision && Admits(before, w.rate))
    requires w.phase.Confirming? ==> m.decision == w.phase.decision
    requires w.phase.Confirming? ==> (Slot(before.pending, m.flow) < |before.pending| <==> w.route[k] in w.awaiting)
    ensures FlowOk(Passed(w, w.route[k], before, m))
  {
    hide Links, Slot;
    RouteSplit(w.route, k);
  }

  lemma ArriveKeepsFlow(w: Flow)
    requires FlowOk(w) && Hop(w.phase) >= |w.route| && !w.phase.Idle? && !w.phase.Settled?
    ensures FlowOk(Arrived(w))
    ensures Arrived(w).held == w.held && Arrived(w).awaiting == w.awaiting
    ensures Arrived(w).rate == w.rate && Arrived(w).route == w.route
  {
    assert w.route[..|w.route|] == w.route && w.route[0..] == w.route && w.route[|w.route|..] == [];
  }

  lemma RequestKeepsLink(k: Link, flows: seq<Flow>, f: nat, l: nat, base: int)
    requires LinkOk(k, flows, l, base) && f < |flows| && flows[f].phase.Requesting?
    requires l !in flows[f].held && l !in flows[f].awaiting
    ensures match RecvAt(k, MessageOf(f, flows[f]))
      case Halt => true
      case Forward(k', m) =>
        && LinkOk(k', flows[f := Passed(flows[f], l, k, m)], l, base)
        && m.decision == (flows[f].phase.decision && Admits(k, flows[f].rate))
  {
    hide Reserved, Holders, PendingOk;
    var w := flows[f];
    if Admits(k, w.rate) {
      hide Slot;
      match RecvAt(k, MessageOf(f, w))
      case Halt =>
      case Forward(k', m) =>
        var w' := Passed(w, l, k, m);
        ReservedUpdate(flows, f, w', l);
        PendingLength(k.pending, flows, l);
        PendingTaken(k.pending, flows, f, w', l);
    } else {
      LinkUntouched(k, flows, f, Passed(w, l, k, MessageOf(f, w).(decision := false)), l, base);
    }
  }

  lemma PendingLength(pending: seq<int>, flows: seq<Flow>, l: nat)
    requires PendingOk(pending, flows, l)
    ensures |pending| == NFLOWS
  {
  }

  lemma ConfirmKeepsLink(k: Link, flows: seq<Flow>, f: nat, l: nat, base: int)
    requires LinkOk(k, flows, l, base) && f < |flows| && flows[f].phase.Confirming? && flows[f].rate >= 0.0
    requires l in flows[f].awaiting ==> l in flows[f].held
    ensures match RecvAt(k, MessageOf(f, flows[f]))
      case Halt => false
      case Forward(k', m) =>
        && LinkOk(k', flows[f := Passed(flows[f], l, k, m)], l, base)
        && m.decision == flows[f].phase.decision
        && (Slot(k.pending, m.flow) < |k.pending| <==> l in flows[f].awaiting)
  {
    hide Reserved, Holders, PendingOk, Slot;
    var w := flows[f];
    var m := MessageOf(f, w);
    var w' := Passed(w, l, k, m);
    PendingLength(k.pending, flows, l);
    NotPending(k.pending, flows, f, l);
    if l in w.awaiting {
      PendingFreed(k.pending, flows, f, w', l);
      ReservedUpdate(flows, f, w', l);
    } else {
      LinkUntouched(k, flows, f, w', l, base);
    }
  }

  lemma TeardownKeepsLink(k: Link, flows: seq<Flow>, f: nat, l: nat, base: int)
    requires LinkOk(k, flows, l, base) && f < |flows| && flows[f].phase.Leaving? && flows[f].rate >= 0.0
    requires l in flows[f].held && l !in flows[f].awaiting
    ensures match RecvAt(k, MessageOf(f, flows[f]))
      case Halt => false
      case Forward(k', m) => LinkOk(k', flows[f := Passed(flows[f], l, k, m)], l, base)
  {
    hide Reserved, Holders;
    var w' := Passed(flows[f], l, k, MessageOf(f, flows[f]));
    ReservedUpdate(flows, f, w', l);
  }

  lemma PassKeepsRest(w: Flow, l: nat, before: Link, m: Message, l': nat)
    requires l' != l && !w.phase.Idle? && !w.phase.Settled? && m.rate == w.rate
    ensures var w' := Passed(w, l, before, m);
      && (l' in w'.held <==> l' in w.held) && (l' in w'.awaiting <==> l' in w.awaiting)
      && w'.rate == w.rate && w'.route == w.route
  {
  }

  /** A message that passes a link. */
  lemma HopKeepsInv(n: Net, f: nat, base: int)
    requires Inv(n, base) && Enabled(n, Move(f)) && Hop(n.flows[f].phase) < |n.flows[f].route|
    ensures match Apply(n, Move(f))
      case Halted => n.flows[f].phase.Requesting?
      case Running(n') => Inv(n', base)
  {
    hide LinkOk, FlowOk;
    var w := n.flows[f];
    var k := Hop(w.phase);
    var l := w.route[k];
    HopFacts(w, k);
    match w.phase {
      case Requesting(_, _) => RequestKeepsLink(n.links[l], n.flows, f, l, base);
      case Confirming(_, _) => ConfirmKeepsLink(n.links[l], n.flows, f, l, base);
      case Leaving(_) => TeardownKeepsLink(n.links[l], n.flows, f, l, base);
    }
    match RecvAt(n.links[l], MessageOf(f, w))
    case Halt =>
    case Forward(after, m) =>
      hide RecvAt;
      var w' := Passed(w, l, n.links[l], m);
      PassKeepsFlow(w, k, n.links[l], m);
      forall l' | 0 <= l' < |n.links| && l' != l
        ensures LinkOk(n.links[l'], n.flows[f := w'], l', base)
      {
        PassKeepsRest(w, l, n.links[l], m, l');
        LinkUntouched(n.links[l'], n.flows, f, w', l', base);
      }
      PassKeepsRoute(w, l, n.links[l], m);
  }

  lemma PassKeepsRoute(w: Flow, l: nat, before: Link, m: Message)
    ensures Passed(w, l, before, m).route == w.route && Passed(w, l, before, m).rate == m.rate
  {
  }

  lemma HopFacts(w: Flow, k: nat)
    requires FlowOk(w) && k == Hop(w.phase) && k < |w.route| && !w.phase.Idle? && !w.phase.Settled?
    requires forall i, j :: 0 <= i < j < |w.route| ==> w.route[i] != w.route[j]
    ensures w.phase.Requesting? ==> w.route[k] !in w.held && w.route[k] !in w.awaiting
    ensures w.phase.Confirming? ==> (w.route[k] in w.awaiting ==> w.route[k] in w.held)
    ensures w.phase.Leaving? ==> w.route[k] in w.held && w.route[k] !in w.awaiting
  {
    RouteSplit(w.route, k);
  }

  /** Only a request that finds the table full can end the run; every other step keeps the accounts. */
  lemma StepKeepsInv(n: Net, e: Event, base: int)
    requires Inv(n, base) && Enabled(n, e)
    ensures match Apply(n, e)
      case Halted => e.Move? && n.flows[e.flow].phase.Requesting?
      case Running(n') => Inv(n', base)
  {
    var f := e.flow;
    var w := n.flows[f];
    if e.Move? && Hop(w.phase) < |w.route| {
      HopKeepsInv(n, f, base);
    } else {
      hide LinkOk;
      var w' := Apply(n, e).net.flows[f];
      assert FlowOk(w') by {
        if e.Move? {
          ArriveKeepsFlow(w);
        } else if e.End? {
          assert w.route[0..] == w.route;
        }
      }
      assert w'.held == w.held && w'.awaiting == w.awaiting by {
        if e.Move? {
          ArriveKeepsFlow(w);
        }
      }
      forall l | 0 <= l < |n.links|
        ensures LinkOk(n.links[l], n.flows[f := w'], l, base)
      {
        LinkUntouched(n.links[l], n.flows, f, w', l, base);
      }
    }
  }

  // ---------- whole runs ----------

  /** Messages of all flows interleave in any order; a run may end early, when some link halts the program. */
  ghost predicate Run(run: seq<Net>, events: seq<Event>, base: int) {
    && |run| == |events| + 1 && Start(run[0], base)
    && forall i :: 0 <= i < |events| ==> Enabled(run[i], events[i]) && Apply(run[i], events[i]) == Running(run[i + 1])
  }

  lemma {:induction false} RunKeepsInv(run: seq<Net>, events: seq<Event>, base: int)
    requires Run(run, events, base)
    ensures Inv(run[|events|], base)
  {
    if events == [] {
      StartIsOk(run[0], base);
    } else {
      var n := |events| - 1;
      assert Run(run[..n + 1], events[..n], base);
      RunKeepsInv(run[..n + 1], events[..n], base);
      StepKeepsInv(run[n], events[n], base);
    }
  }

  /** Once a flow's CONFIRM has passed, every link of its route holds its rate, if it was accepted, and otherwise
  none does; and none has it in its table. */
  lemma AllOrNothing(run: seq<Net>, events: seq<Event>, base: int, f: nat)
    requires Run(run, events, base)
    requires var n := run[|events|]; f < |n.flows| && n.flows[f].phase.Settled?
    ensures var n := run[|events|]; var w := n.flows[f];
      && (w.phase.accepted ==> forall l :: l in w.held <==> l in w.route)
      && (!w.phase.accepted ==> w.held == {})
      && forall l :: 0 <= l < |n.links| ==> f !in n.links[l].pending
  {
    RunKeepsInv(run, events, base);
    var n := run[|events|];
    assert FlowOk(n.flows[f]);
    forall l | 0 <= l < |n.links|
      ensures f !in n.links[l].pending
    {
      assert LinkOk(n.links[l], n.flows, l, base);
      NotPending(n.links[l].pending, n.flows, f, l);
    }
  }

  /** Every link's reserved rate is the sum of the rates it holds, within its limit; its count is theirs. */
  lemma RatesAddUp(run: seq<Net>, events: seq<Event>, base: int, l: nat)
    requires Run(run, events, base) && l < |run[|events|].links|
    ensures var n := run[|events|];
      && 0.0 <= Reserved(n.flows, l) == n.links[l].resv <= n.links[l].limit
      && n.links[l].numfl == base + Holders(n.flows, l)
  {
    RunKeepsInv(run, events, base);
    var n := run[|events|];
    assert LinkOk(n.links[l], n.flows, l, base);
    ReservedNonNegative(n.flows, l);
  }

  /** The rates of the accepted flows whose routes use link `l`. */
  function Accepted(flows: seq<Flow>, l: nat): real {
    if flows == [] then 0.0
    else
      var w := flows[|flows| - 1];
      Accepted(flows[..|flows| - 1], l) + if w.phase == Settled(true) && l in w.route then w.rate else 0.0
  }

  lemma {:induction false} QuietAccount(flows: seq<Flow>, l: nat)
    requires forall f :: 0 <= f < |flows| ==> FlowOk(flows[f]) && (flows[f].phase.Idle? || flows[f].phase.Settled?)
    ensures Reserved(flows, l) == Accepted(flows, l)
  {
    if flows != [] {
      QuietAccount(flows[..|flows| - 1], l);
      assert FlowOk(flows[|flows| - 1]);
    }
  }

  /** When no message is on its way, links know of accepted flows only: their rates, on their routes, and an empty
  table. */
  lemma QuietNetwork(run: seq<Net>, events: seq<Event>, base: int, l: nat)
    requires Run(run, events, base) && l < |run[|events|].links|
    requires forall f :: 0 <= f < |run[|events|].flows| ==>
               run[|events|].flows[f].phase.Idle? || run[|events|].flows[f].phase.Settled?
    ensures run[|events|].links[l].resv == Accepted(run[|events|].flows, l)
    ensures forall i :: 0 <= i < NFLOWS && i < |run[|events|].links[l].pending| ==> run[|events|].links[l].pending[i] == FREE
  {
    RunKeepsInv(run, events, base);
    var n := run[|events|];
    assert LinkOk(n.links[l], n.flows, l, base);
    QuietAccount(n.flows, l);
    forall f | 0 <= f < |n.flows|
      ensures n.flows[f].awaiting == {}
    {
      assert FlowOk(n.flows[f]);
    }
  }

  /** With no more flows than slots, no link ever runs out of slots: no run halts. */
  lemma TableSuffices(run: seq<Net>, events: seq<Event>, base: int, e: Event)
    requires Run(run, events, base) && Enabled(run[|events|], e) && |run[|events|].flows| <= NFLOWS
    ensures Apply(run[|events|], e).Running?
  {
    RunKeepsInv(run, events, base);
    StepRuns(run[|events|], e, base);
  }

  lemma StepRuns(n: Net, e: Event, base: int)
    requires Inv(n, base) && Enabled(n, e) && |n.flows| <= NFLOWS
    ensures Apply(n, e).Running? && Inv(Apply(n, e).net, base)
  {
    StepKeepsInv(n, e, base);
    if e.Move? && n.flows[e.flow].phase.Requesting? {
      var w := n.flows[e.flow];
      var k := Hop(w.phase);
      if k < |w.route| {
        HopFacts(w, k);
        var l := w.route[k];
        assert LinkOk(n.links[l], n.flows, l, base);
        SlotIsFree(n.links[l].pending, n.flows, e.flow, l);
      }
    }
  }

  // ---------- a flow that fits ----------

  /** The network after `k` steps of flow `f` alone. */
  function Moved(n: Net, f: nat, k: nat): Maybe
    decreases k
  {
    if k == 0 || !Enabled(n, Move(f)) then Running(n)
    else match Apply(n, Move(f))
      case Halted => Halted
      case Running(n') => Moved(n', f, k - 1)
  }

  /** Steps until the outcome of a flow whose message is on its way. */
  function StepsLeft(w: Flow): nat {
    match w.phase
    case Requesting(k, _) => if k <= |w.route| then 2 * |w.route| + 2 - k else 0
    case Confirming(k, _) => if k <= |w.route| then |w.route| + 1 - k else 0
    case _ => 0
  }

  /** All hops have said yes so far, and those still to come have room. */
  ghost predicate Fits(n: Net, f: nat) {
    f < |n.flows| &&
    var w := n.flows[f];
    match w.phase
    case Requesting(k, d) =>
      d && k <= |w.route| && forall i :: k <= i < |w.route| ==>
        w.route[i] < |n.links| && n.links[w.route[i]].resv + w.rate <= n.links[w.route[i]].limit
    case Confirming(k, d) => d && k <= |w.route|
    case _ => false
  }

  lemma FitsOn(n: Net, f: nat, base: int)
    requires Inv(n, base) && Fits(n, f) && |n.flows| <= NFLOWS
    ensures Enabled(n, Move(f)) && Apply(n, Move(f)).Running?
    ensures var n' := Apply(n, Move(f)).net;
      && Inv(n', base) && |n'.flows| == |n.flows| && n'.flows[f].route == n.flows[f].route
      && n'.flows[f].rate == n.flows[f].rate && StepsLeft(n.flows[f]) > 0
      && if n'.flows[f].phase.Settled? then n'.flows[f].phase.accepted && StepsLeft(n.flows[f]) == 1
         else Fits(n', f) && StepsLeft(n'.flows[f]) == StepsLeft(n.flows[f]) - 1
  {
    RouteIsGood(n, f, base);
    StepRuns(n, Move(f), base);
    hide Inv, Slot;
    var w := n.flows[f];
    if Hop(w.phase) < |w.route| {
      var l := w.route[Hop(w.phase)];
      MessagePassed(n.links[l], MessageOf(f, w));
      hide RecvAt;
    }
  }

  lemma RouteIsGood(n: Net, f: nat, base: int)
    requires Inv(n, base) && f < |n.flows|
    ensures GoodRoute(n, n.flows[f].route)
  {
  }

  lemma MovedOn(n: Net, f: nat, k: nat)
    requires k > 0 && Enabled(n, Move(f)) && Apply(n, Move(f)).Running?
    ensures Moved(n, f, k) == Moved(Apply(n, Move(f)).net, f, k - 1)
  {
    hide Enabled, Apply;
  }

  lemma MovedNone(n: Net, f: nat)
    ensures Moved(n, f, 0) == Running(n)
  {
  }

  lemma {:induction false} FitsToTheEnd(n: Net, f: nat, base: int)
    requires f < |n.flows| <= NFLOWS && Inv(n, base) && Fits(n, f)
    ensures match Moved(n, f, StepsLeft(n.flows[f]))
      case Halted => false
      case Running(n') =>
        && Inv(n', base) && |n'.flows| == |n.flows| && n'.flows[f].phase == Settled(true)
        && n'.flows[f].route == n.flows[f].route && n'.flows[f].rate == n.flows[f].rate
    decreases StepsLeft(n.flows[f])
  {
    hide *;
    FitsOn(n, f, base);
    var n', k := Apply(n, Move(f)).net, StepsLeft(n.flows[f]);
    MovedOn(n, f, k);
    if n'.flows[f].phase.Settled? {
      MovedNone(n', f);
    } else {
      FitsToTheEnd(n', f, base);
    }
  }

  /** A flow for which every link of its route has room, and whose message is not overtaken, is accepted, and from then
  on every link of the route holds its rate. */
  lemma FlowThatFitsIsAccepted(n: Net, f: nat, rate: real, route: seq<nat>, base: int)
    requires Inv(n, base) && Enabled(n, Begin(f, rate, route)) && |n.flows| <= NFLOWS
    requires forall l :: l in route ==> l < |n.links| && n.links[l].resv + rate <= n.links[l].limit
    ensures Apply(n, Begin(f, rate, route)).Running?
    ensures match Moved(Apply(n, Begin(f, rate, route)).net, f, 2 * |route| + 2)
      case Halted => false
      case Running(n') =>
        && f < |n'.flows| && n'.flows[f].phase == Settled(true) && n'.flows[f].rate == rate
        && forall l :: l in n'.flows[f].held <==> l in route
  {
    StepRuns(n, Begin(f, rate, route), base);
    var n1 := Apply(n, Begin(f, rate, route)).net;
    assert forall i :: 0 <= i < |route| ==> route[i] in route;
    FitsToTheEnd(n1, f, base);
    var n2 := Moved(n1, f, 2 * |route| + 2).net;
    assert FlowOk(n2.flows[f]);
  }

  /** A table in which some flow does not wait has a free slot, if there are no more flows than slots. */
  lemma SlotIsFree(pending: seq<int>, flows: seq<Flow>, f: nat, l: nat)
    requires PendingOk(pending, flows, l) && f < |flows| <= NFLOWS && l !in flows[f].awaiting
    ensures Slot(pending, FREE) < NFLOWS
  {
    if Slot(pending, FREE) == NFLOWS {
      assert f !in pending;
      DistinctBound(pending, UpTo(|flows|) - {f});
      assert false;
    }
  }

  function UpTo(n: nat): (s: set<int>)
    ensures |s| == n && forall g :: g in s <==> 0 <= g < n
  {
    if n == 0 then {} else UpTo(n - 1) + {n - 1}
  }

  /** The agent's stop sends a TEARDOWN whether or not the flow was accepted. At a link that does not hold the flow
  the account stays right if and only if the rate is zero. */
  lemma TeardownOfNothing(k: Link, flows: seq<Flow>, f: nat, l: nat, base: int, rate: real)
    requires LinkOk(k, flows, l, base) && f < |flows| && l !in flows[f].held
    ensures match RecvAt(k, Message(Teardown, f, rate, true))
      case Halt => false
      case Forward(k', _) =>
        && (k'.resv == Reserved(flows, l) <==> rate == 0.0)
        && k'.numfl == base + Holders(flows, l) - 1
  {
  }

  /** So one rejected flow that is torn down lets the link admit more than its limit. */
  lemma TeardownOversells()
    ensures var k := Link(seq(NFLOWS, i => FREE), 0, 0.0, 10.0);
      var big := Message(Request, 1, 20.0, true);
      !Admits(k, 20.0)
      && RecvAt(k, big) == Forward(k, big.(decision := false))
      && RecvAt(k, Message(Teardown, 1, 20.0, true)).Forward?
      && Admits(RecvAt(k, Message(Teardown, 1, 20.0, true)).link, 20.0)
  {
  }
}
