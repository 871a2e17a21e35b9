/** Route discovery in whole runs of the network: which events search for a destination, and how many requests that
can put on the medium while no answer comes. */
module AodvSearch {
  import opened Routing
  import opened BufferSpec
  import opened RingSearch
  import opened AodvSpec
  import opened AodvSafety
  import opened AodvNetwork
  import opened AodvDiscovery

  // ---------- which calls of sendRequest an event makes ----------

  function ResolveCalls(n: Node, p: Packet, now: real, perHop: Addr -> real, d: Addr): seq<Attempt> {
    if p.dst == d && p.src == n.index && EntryOf(n, d).flags != Up
    then [Attempt(SetEntry(n, d, EntryOf(n, d)).(buffer := Enqueued(n.buffer, p, now)), now, perHop)]
    else []
  }

  function DataCalls(n: Node, p: Packet, now: real, perHop: Addr -> real, d: Addr): seq<Attempt> {
    if p.src == n.index && p.forwards == 0 then ResolveCalls(n, p.(ttl := NETWORK_DIAMETER), now, perHop, d) else []
  }

  function RepairCalls(n: Node, p: Packet, now: real, perHop: Addr -> real, d: Addr): seq<Attempt> {
    if p.dst == d && d in n.table && n.table[d].hops.Finite? && p.forwards > n.table[d].hops.n
    then [Attempt(SetEntry(n, d, n.table[d].(flags := InRepair)).(buffer := Enqueued(n.buffer, p, now)), now, perHop)]
    else []
  }

  function PurgeCall(n: Node, x: Addr, now: real, perHop: Addr -> real, d: Addr): seq<Attempt>
    requires x in n.table
  {
    if x == d && n.table[d].flags != Up && Holds(n.buffer, d) then [Attempt(n, now, perHop)] else []
  }

  function PurgeCalls(n: Node, order: seq<Addr>, now: real, perHop: Addr -> real, d: Addr): seq<Attempt>
    requires forall x :: x in order ==> x in n.table
    decreases |order|
  {
    if order == [] then []
    else PurgeCall(n, order[0], now, perHop, d)
         + PurgeCalls(PurgeEntry(n, order[0], now, perHop).node, order[1..], now, perHop, d)
  }

  /** The calls of sendRequest for `d` that node `n` makes while it handles `ev`, in order. */
  function Calls(n: Node, ev: Event, d: Addr): seq<Attempt>
    requires ev.PurgeRoutes? ==> forall x :: x in ev.order ==> x in n.table
  {
    match ev
    case Deliver(_, Data(_, p), now, perHop) => DataCalls(n, p, now, perHop, d)
    case Originate(_, p, now, perHop) => DataCalls(n, p, now, perHop, d)
    case LinkFailure(_, p, _, now, perHop) => RepairCalls(n, p, now, perHop, d)
    case PurgeRoutes(_, order, now, perHop) => PurgeCalls(n, order, now, perHop, d)
    case _ => []
  }

  /** A request for `d` of the node's own. */
  predicate Original(m: Msg, x: Addr, d: Addr) {
    m.Rreq? && m.rq.src == x && m.rq.sender == x && m.rq.dst == d
  }

  function Originals(sent: seq<Msg>, x: Addr, d: Addr): nat {
    if sent == [] then 0
    else Originals(sent[..|sent| - 1], x, d) + if Original(sent[|sent| - 1], x, d) then 1 else 0
  }

  lemma {:induction false} OriginalsConcat(a: seq<Msg>, b: seq<Msg>, x: Addr, d: Addr)
    ensures Originals(a + b, x, d) == Originals(a, x, d) + Originals(b, x, d)
  {
    if b == [] {
      assert a + b == a;
    } else {
      assert (a + b)[..|a + b| - 1] == a + b[..|b| - 1];
      OriginalsConcat(a, b[..|b| - 1], x, d);
    }
  }

  lemma {:induction false} NoOriginals(sent: seq<Msg>, x: Addr, d: Addr)
    requires forall m :: m in sent ==> !Original(m, x, d)
    ensures Originals(sent, x, d) == 0
  {
    if sent != [] {
      NoOriginals(sent[..|sent| - 1], x, d);
    }
  }

  // ---------- how attempts and the events between them hang together ----------

  /** Between attempts the search stands still. With `strict`, so do the flags and the last hop count, which only a
  route under repair that is given up can change. */
  predicate Rests(strict: bool, e: Entry, e': Entry) {
    && e'.reqCnt == e.reqCnt && e'.reqLastTtl == e.reqLastTtl && e'.reqTimeout == e.reqTimeout
    && (e'.flags == Up <==> e.flags == Up)
    && (strict ==> SameSearch(e, e'))
  }

  /** From entry `e` through the calls to entry `e'`, with nothing but rest in between. */
  ghost predicate Linked(strict: bool, e: Entry, calls: seq<Attempt>, e': Entry, d: Addr) {
    && (forall i :: 0 <= i < |calls| ==> d in calls[i].node.table)
    && (calls == [] ==> Rests(strict, e, e'))
    && (calls != [] ==> Rests(strict, e, calls[0].node.table[d])
                        && Rests(strict, After(calls[|calls| - 1], d).node.table[d], e'))
    && forall i :: 0 < i < |calls| ==> Rests(strict, After(calls[i - 1], d).node.table[d], calls[i].node.table[d])
  }

  lemma LinkedConcat(strict: bool, e: Entry, a: seq<Attempt>, e': Entry, b: seq<Attempt>, e'': Entry, d: Addr)
    requires Linked(strict, e, a, e', d) && Linked(strict, e', b, e'', d)
    ensures Linked(strict, e, a + b, e'', d)
  {
    hide After;
    var c := a + b;
    forall i | 0 <= i < |c|
      ensures d in c[i].node.table
    {
      assert c[i] == if i < |a| then a[i] else b[i - |a|];
    }
    forall i | 0 <= i < |c|
      ensures i > 0 ==> Rests(strict, After(c[i - 1], d).node.table[d], c[i].node.table[d])
    {
      if i < |a| {
        assert c[i] == a[i] && (i > 0 ==> c[i - 1] == a[i - 1]);
      } else {
        assert c[i] == b[i - |a|];
        if i > |a| {
          assert c[i - 1] == b[i - |a| - 1];
        } else if i > 0 {
          assert c[i - 1] == a[|a| - 1];
        }
      }
    }
  }

  lemma {:induction false} RequestsConcat(a: seq<Attempt>, b: seq<Attempt>, d: Addr)
    requires forall i :: 0 <= i < |a| ==> d in a[i].node.table
    requires forall i :: 0 <= i < |b| ==> d in b[i].node.table
    ensures forall i :: 0 <= i < |a + b| ==> d in (a + b)[i].node.table
    ensures Requests(a + b, d) == Requests(a, d) + Requests(b, d)
  {
    hide Asks;
    if b == [] {
      assert a + b == a;
    } else {
      assert (a + b)[..|a + b| - 1] == a + b[..|b| - 1];
      RequestsConcat(a, b[..|b| - 1], d);
    }
  }

  /** What one event does to the search for `d`: its calls link the entries before and after, and each request that
  goes out is the outcome of a call. */
  ghost predicate Accounts(strict: bool, n: Node, calls: seq<Attempt>, r: Result, d: Addr) {
    && Linked(strict, EntryOf(n, d), calls, EntryOf(r.node, d), d)
    && Originals(r.sent, n.index, d) == Requests(calls, d)
  }

  /** Handlers that make no call, and one call on its own. */
  lemma NoCallAccounts(strict: bool, n: Node, r: Result, d: Addr)
    requires Rests(strict, EntryOf(n, d), EntryOf(r.node, d))
    requires forall m :: m in r.sent ==> !Original(m, n.index, d)
    ensures Accounts(strict, n, [], r, d)
  {
    NoOriginals(r.sent, n.index, d);
  }

  lemma OneCallAccounts(strict: bool, n: Node, a: Attempt, d: Addr)
    requires d in a.node.table && a.node.index == n.index && Rests(strict, EntryOf(n, d), a.node.table[d])
    ensures Accounts(strict, n, [a], After(a, d), d)
  {
    assert Requests([a], d) == if Asks(a, d) then 1 else 0 by {
      assert [a][..0] == [];
    }
    var sent := After(a, d).sent;
    if Asks(a, d) {
      assert sent == [sent[0]] && sent[..0] == [];
    }
  }

  lemma AccountsTrans(strict: bool, n: Node, a: seq<Attempt>, r: Result, b: seq<Attempt>, r': Result, d: Addr)
    requires Accounts(strict, n, a, r, d) && Accounts(strict, r.node, b, r', d) && r.node.index == n.index
    ensures Accounts(strict, n, a + b, Result(r'.node, r.sent + r'.sent), d)
  {
    hide Rests, After, Asks;
    LinkedConcat(strict, EntryOf(n, d), a, EntryOf(r.node, d), b, EntryOf(r'.node, d), d);
    RequestsConcat(a, b, d);
    OriginalsConcat(r.sent, r'.sent, n.index, d);
  }

  // ---------- the events ----------

  /** Not up before or after, and with `strict` not under repair either. */
  predicate Idle(strict: bool, n: Node, n': Node, d: Addr) {
    && EntryOf(n, d).flags != Up && EntryOf(n', d).flags != Up
    && (strict ==> EntryOf(n, d).flags == Down && EntryOf(n', d).flags == Down)
  }

  /** A reverse route that does not come up leaves the search alone. */
  lemma RequestAccounts(strict: bool, n: Node, rq: Request, now: real, d: Addr)
    requires Idle(strict, n, RecvRequest(n, rq, now).node, d)
    ensures Accounts(strict, n, [], RecvRequest(n, rq, now), d)
  {
    hide Accounts;
    var r := RecvRequest(n, rq, now);
    if rq.src != n.index && !Heard(n, rq.src, rq.bcastId) {
      var r1 := ReverseRoute(n, rq, now);
      ReverseRouteRests(n, rq, now, d);
      AnswerRests(r1.node, rq, now, d);
    }
    NoCallAccounts(strict, n, r, d);
  }

  lemma ReverseRouteRests(n: Node, rq: Request, now: real, d: Addr)
    ensures var r := ReverseRoute(n, rq, now);
      && rq.src in r.node.table && r.node.index == n.index
      && (forall m :: m in r.sent ==> m.Data?)
      && (EntryOf(r.node, d).flags != Up ==> SameSearch(EntryOf(n, d), EntryOf(r.node, d)))
  {
  }

  lemma AnswerRests(n: Node, rq: Request, now: real, d: Addr)
    requires rq.src in n.table && rq.src != n.index
    ensures var r := Answer(n, rq, now);
      && SameSearch(EntryOf(n, d), EntryOf(r.node, d))
      && (forall m :: m in r.sent ==> !Original(m, n.index, d))
  {
  }

  lemma ReplyAccounts(strict: bool, n: Node, rp: Reply, now: real, d: Addr)
    requires Idle(strict, n, RecvReply(n, rp, now).node, d)
    ensures Accounts(strict, n, [], RecvReply(n, rp, now), d)
  {
    hide Accounts;
    ForwardRouteRests(n, rp, now, d);
    var n1 := ForwardRoute(n, rp, now).node;
    PassReplyRests(n1, rp, now, d);
    NoCallAccounts(strict, n, RecvReply(n, rp, now), d);
  }

  lemma ForwardRouteRests(n: Node, rp: Reply, now: real, d: Addr)
    ensures var r := ForwardRoute(n, rp, now);
      && rp.dst in r.node.table && (forall m :: m in r.sent ==> m.Data?)
      && (EntryOf(r.node, d).flags != Up ==> SameSearch(EntryOf(n, d), EntryOf(r.node, d)))
  {
  }

  lemma PassReplyRests(n: Node, rp: Reply, now: real, d: Addr)
    requires rp.dst in n.table
    ensures var r := PassReply(n, rp, now);
      && SameSearch(EntryOf(n, d), EntryOf(r.node, d)) && (forall m :: m in r.sent ==> m.Rrep?)
  {
  }

  lemma ErrorAccounts(strict: bool, n: Node, from: Addr, unreachable: map<Addr, nat>, d: Addr)
    requires Idle(strict, n, RecvError(n, from, unreachable).node, d)
    ensures Accounts(strict, n, [], RecvError(n, from, unreachable), d)
  {
    hide Accounts;
    NoCallAccounts(strict, n, RecvError(n, from, unreachable), d);
  }

  lemma DataAccounts(strict: bool, n: Node, p: Packet, now: real, perHop: Addr -> real, d: Addr)
    requires Idle(strict, n, RecvData(n, p, now, perHop).node, d)
    ensures Accounts(strict, n, DataCalls(n, p, now, perHop, d), RecvData(n, p, now, perHop), d)
  {
    hide Accounts, SendRequest, RtResolve;
    if p.src == n.index && p.forwards == 0 {
      ResolveAccounts(strict, n, p.(ttl := NETWORK_DIAMETER), now, perHop, d);
    } else if p.src == n.index || p.ttl - 1 == 0 {
      NoCallAccounts(strict, n, Result(n, []), d);
    } else {
      ResolveAccounts(strict, n, p.(ttl := p.ttl - 1), now, perHop, d);
    }
  }

  lemma ResolveAccounts(strict: bool, n: Node, p: Packet, now: real, perHop: Addr -> real, d: Addr)
    requires Idle(strict, n, RtResolve(n, p, now, perHop).node, d)
    ensures Accounts(strict, n, ResolveCalls(n, p, now, perHop, d), RtResolve(n, p, now, perHop), d)
  {
    hide Accounts;
    var calls := ResolveCalls(n, p, now, perHop, d);
    if calls != [] {
      OneCallAccounts(strict, n, calls[0], d);
    } else {
      NoCallAccounts(strict, n, RtResolve(n, p, now, perHop), d);
    }
  }

  lemma FailureAccounts(strict: bool, n: Node, p: Packet, neighbour: Addr, now: real, perHop: Addr -> real, d: Addr)
    requires Idle(strict, n, LinkLayerFailed(n, p, neighbour, now, perHop).node, d)
    ensures Accounts(strict, n, RepairCalls(n, p, now, perHop, d), LinkLayerFailed(n, p, neighbour, now, perHop), d)
  {
    hide Accounts;
    var calls := RepairCalls(n, p, now, perHop, d);
    if calls != [] {
      assert LinkLayerFailed(n, p, neighbour, now, perHop) == After(calls[0], d);
      assert EntryOf(After(calls[0], d).node, d).flags == InRepair;
      OneCallAccounts(strict, n, calls[0], d);
    } else {
      NoCallAccounts(strict, n, LinkLayerFailed(n, p, neighbour, now, perHop), d);
    }
  }

  lemma PurgeEntryAccounts(strict: bool, n: Node, x: Addr, now: real, perHop: Addr -> real, d: Addr)
    requires x in n.table && Idle(strict, n, n, d)
    ensures Accounts(strict, n, PurgeCall(n, x, now, perHop, d), PurgeEntry(n, x, now, perHop), d)
    ensures PurgeEntry(n, x, now, perHop).node.index == n.index
    ensures Idle(strict, n, PurgeEntry(n, x, now, perHop).node, d)
    ensures PurgeEntry(n, x, now, perHop).node.table.Keys == n.table.Keys
  {
    hide Accounts;
    var calls := PurgeCall(n, x, now, perHop, d);
    if calls != [] {
      OneCallAccounts(strict, n, calls[0], d);
    } else {
      NoCallAccounts(strict, n, PurgeEntry(n, x, now, perHop), d);
    }
  }

  lemma {:induction false} PurgeAccounts(strict: bool, n: Node, order: seq<Addr>, now: real, perHop: Addr -> real, d: Addr)
    requires forall x :: x in order ==> x in n.table
    requires Idle(strict, n, n, d)
    ensures Accounts(strict, n, PurgeCalls(n, order, now, perHop, d), RtPurge(n, order, now, perHop), d)
    decreases |order|
  {
    hide Accounts, PurgeEntry, PurgeCall;
    if order == [] {
      NoCallAccounts(strict, n, Result(n, []), d);
    } else {
      PurgeEntryAccounts(strict, n, order[0], now, perHop, d);
      var r := PurgeEntry(n, order[0], now, perHop);
      PurgeAccounts(strict, r.node, order[1..], now, perHop, d);
      AccountsTrans(strict, n, PurgeCall(n, order[0], now, perHop, d), r,
                    PurgeCalls(r.node, order[1..], now, perHop, d), RtPurge(r.node, order[1..], now, perHop), d);
    }
  }

  /** Whatever the event: its calls link the entries, and its requests are theirs. */
  lemma EventAccounts(strict: bool, n: Node, ev: Event, d: Addr)
    requires ev.PurgeRoutes? ==> forall x :: x in ev.order ==> x in n.table
    requires Idle(strict, n, Handle(n, ev).node, d)
    ensures Accounts(strict, n, Calls(n, ev, d), Handle(n, ev), d)
  {
    hide Accounts, RecvRequest, RecvReply, RecvError, RecvData, LinkLayerFailed, RtPurge;
    match ev
    case Deliver(_, Rreq(rq), now, _) => RequestAccounts(strict, n, rq.(ttl := rq.ttl - 1), now, d);
    case Deliver(_, Rrep(rp), now, _) => ReplyAccounts(strict, n, rp.(ttl := rp.ttl - 1), now, d);
    case Deliver(_, Rerr(from, unreachable), _, _) => ErrorAccounts(strict, n, from, unreachable, d);
    case Deliver(_, Data(_, p), now, perHop) => DataAccounts(strict, n, p, now, perHop, d);
    case Originate(_, p, now, perHop) => DataAccounts(strict, n, p, now, perHop, d);
    case LinkFailure(_, p, neighbour, now, perHop) => FailureAccounts(strict, n, p, neighbour, now, perHop, d);
    case PurgeRoutes(_, order, now, perHop) => PurgeAccounts(strict, n, order, now, perHop, d);
    case PurgeIds(_, now) => NoCallAccounts(strict, n, Result(IdPurge(n, now), []), d);
    case RepairTimer(_, x) => NoCallAccounts(strict, n, RepairTimeout(n, x), d);
  }

  // ---------- what a search can spend ----------

  /** The most requests that any last hop count leaves before the node gives up. */
  function Allowance(e: Entry): (r: nat)
    ensures r <= 7
  {
    RequestsLeft(e.reqCnt, e.reqLastTtl)
  }

  function GiveUps(calls: seq<Attempt>, d: Addr): nat
    requires forall i :: 0 <= i < |calls| ==> d in calls[i].node.table
  {
    if calls == [] then 0
    else GiveUps(calls[..|calls| - 1], d) + if GivesUp(calls[|calls| - 1], d) then 1 else 0
  }

  /** Calls that find the route not up and no request outstanding. */
  predicate IsDue(a: Attempt, d: Addr)
    requires d in a.node.table
  {
    a.node.table[d].flags != Up && a.node.table[d].reqTimeout <= a.now
  }

  function Due(calls: seq<Attempt>, d: Addr): nat
    requires forall i :: 0 <= i < |calls| ==> d in calls[i].node.table
  {
    if calls == [] then 0
    else Due(calls[..|calls| - 1], d) + if IsDue(calls[|calls| - 1], d) then 1 else 0
  }

  /** A request costs at least one, giving up restores at most seven, and anything else costs nothing. */
  lemma AttemptSpends(a: Attempt, d: Addr)
    requires d in a.node.table
    ensures var e, e' := a.node.table[d], After(a, d).node.table[d];
            && (Asks(a, d) ==> Allowance(e') + 1 <= Allowance(e))
            && (!Asks(a, d) && !GivesUp(a, d) ==> e' == e)
            && (IsDue(a, d) <==> Asks(a, d) || GivesUp(a, d)) && !(Asks(a, d) && GivesUp(a, d))
  {
  }

  lemma RestSpendsNothing(strict: bool, e: Entry, e': Entry)
    requires Rests(strict, e, e')
    ensures Allowance(e') == Allowance(e)
  {
  }

  /** Along linked calls: the requests and what is left are within what there was and what giving up restored; and
  every due call asks or gives up. */
  lemma {:induction false} LinkedSpends(strict: bool, e: Entry, calls: seq<Attempt>, e': Entry, d: Addr)
    requires Linked(strict, e, calls, e', d)
    ensures Requests(calls, d) + Allowance(e') <= Allowance(e) + 7 * GiveUps(calls, d)
    ensures Due(calls, d) == Requests(calls, d) + GiveUps(calls, d)
    decreases |calls|
  {
    if calls == [] {
      RestSpendsNothing(strict, e, e');
    } else {
      var last, init := calls[|calls| - 1], calls[..|calls| - 1];
      hide Rests, After, Asks, GivesUp, Allowance;
      assert Linked(strict, e, init, last.node.table[d], d);
      LinkedSpends(strict, e, init, last.node.table[d], d);
      AttemptSpends(last, d);
      RestSpendsNothing(strict, After(last, d).node.table[d], e');
    }
  }

  // ---------- runs ----------

  /** From state `a` to state `b`, node `x` has no live route to `d`; with `strict`, nor one under repair. */
  ghost predicate NeverUp(strict: bool, nets: seq<Net>, a: nat, b: nat, x: Addr, d: Addr) {
    a <= b < |nets| &&
    forall k :: a <= k <= b ==>
      x in nets[k].nodes && EntryOf(nets[k].nodes[x], d).flags != Up
      && (strict ==> EntryOf(nets[k].nodes[x], d).flags == Down)
  }

  /** The calls of sendRequest for `d` at node `x` from state `a` to state `b`. */
  ghost function AttemptsIn(nets: seq<Net>, evs: seq<Event>, a: nat, b: nat, x: Addr, d: Addr): seq<Attempt>
    requires Run(nets, evs) && a <= b <= |evs|
  {
    if a == b then []
    else AttemptsIn(nets, evs, a, b - 1, x, d)
         + if evs[b - 1].at == x then Calls(nets[b - 1].nodes[x], evs[b - 1], d) else []
  }

  /** The requests for `d` that node `x` hands to the medium from state `a` to state `b`. */
  ghost function RequestsSent(nets: seq<Net>, evs: seq<Event>, a: nat, b: nat, x: Addr, d: Addr): nat
    requires Run(nets, evs) && a <= b <= |evs|
  {
    if a == b then 0
    else RequestsSent(nets, evs, a, b - 1, x, d)
         + if evs[b - 1].at == x then Originals(Handle(nets[b - 1].nodes[x], evs[b - 1]).sent, x, d) else 0
  }

  lemma {:induction false} PurgeKeepsIndex(n: Node, order: seq<Addr>, now: real, perHop: Addr -> real)
    requires forall x :: x in order ==> x in n.table
    ensures RtPurge(n, order, now, perHop).node.index == n.index
    ensures forall m :: m in RtPurge(n, order, now, perHop).sent && m.Rreq? ==> m.rq.sender == n.index
    decreases |order|
  {
    if order != [] {
      PurgeEntryKeepsIndex(n, order[0], now, perHop);
      hide PurgeEntry;
      PurgeKeepsIndex(PurgeEntry(n, order[0], now, perHop).node, order[1..], now, perHop);
    }
  }

  lemma PurgeEntryKeepsIndex(n: Node, x: Addr, now: real, perHop: Addr -> real)
    requires x in n.table
    ensures PurgeEntry(n, x, now, perHop).node.index == n.index
    ensures PurgeEntry(n, x, now, perHop).node.table.Keys == n.table.Keys
    ensures forall m :: m in PurgeEntry(n, x, now, perHop).sent && m.Rreq? ==> m.rq.sender == n.index
  {
  }

  lemma RecvKeepsIndex(n: Node, m: Msg, now: real, perHop: Addr -> real)
    ensures var r := Recv(n, m, now, perHop);
      r.node.index == n.index && forall x :: x in r.sent && x.Rreq? ==> x.rq.sender == n.index
  {
    hide SendRequest, ReverseRoute, Answer, ForwardRoute, PassReply, RecvData;
    match m
    case Rreq(rq) =>
      var rq' := rq.(ttl := rq.ttl - 1);
      ReverseRouteRests(n, rq', now, 0);
      if rq'.src != n.index {
        AnswerKeepsIndex(ReverseRoute(n, rq', now).node, rq', now);
      }
    case Rrep(rp) =>
      var rp' := rp.(ttl := rp.ttl - 1);
      ForwardRouteRests(n, rp', now, 0);
      ForwardRouteKeepsIndex(n, rp', now);
      PassReplyRests(ForwardRoute(n, rp', now).node, rp', now, 0);
      PassReplyKeepsIndex(ForwardRoute(n, rp', now).node, rp', now);
    case Rerr(_, _) =>
    case Data(_, p) => DataKeepsIndex(n, p, now, perHop);
  }

  lemma AnswerKeepsIndex(n: Node, rq: Request, now: real)
    requires rq.src in n.table
    ensures var r := Answer(n, rq, now);
      r.node.index == n.index && forall m :: m in r.sent && m.Rreq? ==> m.rq.sender == n.index
  {
  }

  lemma ForwardRouteKeepsIndex(n: Node, rp: Reply, now: real)
    ensures ForwardRoute(n, rp, now).node.index == n.index
  {
  }

  lemma PassReplyKeepsIndex(n: Node, rp: Reply, now: real)
    requires rp.dst in n.table
    ensures PassReply(n, rp, now).node.index == n.index
  {
  }

  lemma DataKeepsIndex(n: Node, p: Packet, now: real, perHop: Addr -> real)
    ensures var r := RecvData(n, p, now, perHop);
      r.node.index == n.index && forall m :: m in r.sent && m.Rreq? ==> m.rq.sender == n.index
  {
  }

  /** A node keeps its address and puts it on every request that it sends. */
  lemma HandleKeepsIndex(n: Node, ev: Event)
    requires ev.PurgeRoutes? ==> forall x :: x in ev.order ==> x in n.table
    ensures Handle(n, ev).node.index == n.index
    ensures forall m :: m in Handle(n, ev).sent && m.Rreq? ==> m.rq.sender == n.index
  {
    hide Recv, RecvData, RtPurge;
    match ev
    case Deliver(_, m, now, perHop) => RecvKeepsIndex(n, m, now, perHop);
    case Originate(_, p, now, perHop) => DataKeepsIndex(n, p, now, perHop);
    case PurgeRoutes(_, order, now, perHop) => PurgeKeepsIndex(n, order, now, perHop);
    case _ =>
  }

  lemma RunStep(nets: seq<Net>, evs: seq<Event>, i: nat)
    requires Run(nets, evs) && i < |evs|
    ensures |nets| == |evs| + 1 && evs[i].at in nets[i].nodes
    ensures evs[i].PurgeRoutes? ==> forall d :: d in evs[i].order ==> d in nets[i].nodes[evs[i].at].table
    ensures var r := Handle(nets[i].nodes[evs[i].at], evs[i]);
      && nets[i + 1].nodes == nets[i].nodes[evs[i].at := r.node]
      && nets[i + 1].msgs == nets[i].msgs + set m | m in r.sent
  {
    hide Handle;
  }

  lemma {:induction false} RunKeepsIndex(nets: seq<Net>, evs: seq<Event>, k: nat)
    requires Run(nets, evs) && k < |nets|
    ensures nets[k].nodes.Keys == nets[0].nodes.Keys
    ensures forall x :: x in nets[k].nodes ==> nets[k].nodes[x].index == x
  {
    if k == 0 {
      hide Handle;
    } else {
      RunIsLong(nets, evs);
      hide Handle, Run;
      RunKeepsIndex(nets, evs, k - 1);
      RunStep(nets, evs, k - 1);
      HandleKeepsIndex(nets[k - 1].nodes[evs[k - 1].at], evs[k - 1]);
    }
  }

  lemma RunIsLong(nets: seq<Net>, evs: seq<Event>)
    requires Run(nets, evs)
    ensures |nets| == |evs| + 1
  {
    hide Enabled, Apply;
  }

  lemma AttemptsStep(nets: seq<Net>, evs: seq<Event>, a: nat, b: nat, x: Addr, d: Addr)
    requires Run(nets, evs) && a <= b < |evs| && x in nets[b].nodes
    ensures |nets| == |evs| + 1
    ensures evs[b].at == x && evs[b].PurgeRoutes? ==> forall y :: y in evs[b].order ==> y in nets[b].nodes[x].table
    ensures AttemptsIn(nets, evs, a, b + 1, x, d)
            == AttemptsIn(nets, evs, a, b, x, d) + if evs[b].at == x then Calls(nets[b].nodes[x], evs[b], d) else []
    ensures RequestsSent(nets, evs, a, b + 1, x, d) == RequestsSent(nets, evs, a, b, x, d)
            + if evs[b].at == x then Originals(Handle(nets[b].nodes[x], evs[b]).sent, x, d) else 0
  {
    hide Handle, Calls;
  }

  lemma AccountsParts(strict: bool, n: Node, calls: seq<Attempt>, r: Result, d: Addr)
    requires Accounts(strict, n, calls, r, d)
    ensures Linked(strict, EntryOf(n, d), calls, EntryOf(r.node, d), d)
    ensures forall i :: 0 <= i < |calls| ==> d in calls[i].node.table
    ensures Originals(r.sent, n.index, d) == Requests(calls, d)
  {
  }

  lemma NeverUpPrefix(strict: bool, nets: seq<Net>, a: nat, b: nat, x: Addr, d: Addr)
    requires NeverUp(strict, nets, a, b, x, d) && a < b
    ensures b < |nets|
    ensures NeverUp(strict, nets, a, b - 1, x, d) && x in nets[b - 1].nodes && x in nets[b].nodes && x in nets[a].nodes
    ensures Idle(strict, nets[b - 1].nodes[x], nets[b].nodes[x], d)
  {
  }

  lemma LinkedTable(strict: bool, e: Entry, calls: seq<Attempt>, e': Entry, d: Addr)
    requires Linked(strict, e, calls, e', d)
    ensures forall i :: 0 <= i < |calls| ==> d in calls[i].node.table
  {
  }

  lemma NothingLinks(strict: bool, e: Entry, d: Addr)
    ensures Linked(strict, e, [], e, d)
  {
  }

  lemma LinkedOn(strict: bool, e: Entry, a: seq<Attempt>, e': Entry, b: seq<Attempt>, e'': Entry, d: Addr)
    requires Linked(strict, e, a, e', d) && Linked(strict, e', b, e'', d)
    ensures Linked(strict, e, a + b, e'', d)
    ensures forall i :: 0 <= i < |a| ==> d in a[i].node.table
    ensures forall i :: 0 <= i < |b| ==> d in b[i].node.table
    ensures forall i :: 0 <= i < |a + b| ==> d in (a + b)[i].node.table
    ensures Requests(a + b, d) == Requests(a, d) + Requests(b, d)
  {
    hide *;
    LinkedConcat(strict, e, a, e', b, e'', d);
    LinkedTable(strict, e, a, e', d);
    LinkedTable(strict, e', b, e'', d);
    RequestsConcat(a, b, d);
  }

  /** The calls of one event of a run. */
  lemma StepAccounts(strict: bool, nets: seq<Net>, evs: seq<Event>, a: nat, b: nat, x: Addr, d: Addr)
    returns (more: seq<Attempt>)
    requires Run(nets, evs) && NeverUp(strict, nets, a, b, x, d) && a < b
    ensures |nets| == |evs| + 1 && b < |nets| && x in nets[b - 1].nodes && x in nets[b].nodes
    ensures Linked(strict, EntryOf(nets[b - 1].nodes[x], d), more, EntryOf(nets[b].nodes[x], d), d)
    ensures forall i :: 0 <= i < |more| ==> d in more[i].node.table
    ensures AttemptsIn(nets, evs, a, b, x, d) == AttemptsIn(nets, evs, a, b - 1, x, d) + more
    ensures RequestsSent(nets, evs, a, b, x, d) == RequestsSent(nets, evs, a, b - 1, x, d) + Requests(more, d)
  {
    hide *;
    NeverUpPrefix(strict, nets, a, b, x, d);
    RunIsLong(nets, evs);
    RunStep(nets, evs, b - 1);
    AttemptsStep(nets, evs, a, b - 1, x, d);
    var n, ev := nets[b - 1].nodes[x], evs[b - 1];
    if ev.at == x {
      RunKeepsIndex(nets, evs, b - 1);
      EventAccounts(strict, n, ev, d);
      more := Calls(n, ev, d);
      AccountsParts(strict, n, more, Handle(n, ev), d);
    } else {
      more := [];
      NothingLinks(strict, EntryOf(n, d), d);
      NoRequests(d);
    }
  }

  lemma NoneYet(strict: bool, nets: seq<Net>, evs: seq<Event>, a: nat, x: Addr, d: Addr)
    requires Run(nets, evs) && NeverUp(strict, nets, a, a, x, d)
    ensures |nets| == |evs| + 1 && a < |nets| && x in nets[a].nodes
    ensures AttemptsIn(nets, evs, a, a, x, d) == [] && RequestsSent(nets, evs, a, a, x, d) == 0
    ensures Requests([], d) == 0
    ensures Linked(strict, EntryOf(nets[a].nodes[x], d), [], EntryOf(nets[a].nodes[x], d), d)
  {
    RunIsLong(nets, evs);
    hide Run, EntryOf;
    NothingLinks(strict, EntryOf(nets[a].nodes[x], d), d);
  }

  lemma NoRequests(d: Addr)
    ensures Requests([], d) == 0
  {
  }

  /** In any run in which `x` has no live route to `d`, its calls hang together, and the requests on the medium are
  what they asked. */
  lemma {:induction false} RunAccounts(strict: bool, nets: seq<Net>, evs: seq<Event>, a: nat, b: nat, x: Addr, d: Addr)
    requires Run(nets, evs) && NeverUp(strict, nets, a, b, x, d)
    ensures |nets| == |evs| + 1
    ensures Linked(strict, EntryOf(nets[a].nodes[x], d), AttemptsIn(nets, evs, a, b, x, d), EntryOf(nets[b].nodes[x], d), d)
    ensures RequestsSent(nets, evs, a, b, x, d) == Requests(AttemptsIn(nets, evs, a, b, x, d), d)
    decreases b
  {
    hide *;
    RunIsLong(nets, evs);
    RunStarts(strict, nets, a, b, x, d);
    if a == b {
      NoneYet(strict, nets, evs, a, x, d);
    } else {
      NeverUpPrefix(strict, nets, a, b, x, d);
      RunAccounts(strict, nets, evs, a, b - 1, x, d);
      var more := StepAccounts(strict, nets, evs, a, b, x, d);
      LinkedOn(strict, EntryOf(nets[a].nodes[x], d), AttemptsIn(nets, evs, a, b - 1, x, d),
               EntryOf(nets[b - 1].nodes[x], d), more, EntryOf(nets[b].nodes[x], d), d);
    }
  }

  lemma RunStarts(strict: bool, nets: seq<Net>, a: nat, b: nat, x: Addr, d: Addr)
    requires NeverUp(strict, nets, a, b, x, d)
    ensures a <= b < |nets| && x in nets[a].nodes && x in nets[b].nodes
    ensures EntryOf(nets[a].nodes[x], d).flags != Up
  {
  }

  /** The bound: with no answer, at most seven requests per time that the node gives up, and seven more; and every
  call that is due asks or gives up. */
  lemma RequestsPerGiveUp(nets: seq<Net>, evs: seq<Event>, a: nat, b: nat, x: Addr, d: Addr)
    requires Run(nets, evs) && NeverUp(false, nets, a, b, x, d)
    ensures |nets| == |evs| + 1
    ensures forall i :: 0 <= i < |AttemptsIn(nets, evs, a, b, x, d)| ==> d in AttemptsIn(nets, evs, a, b, x, d)[i].node.table
    ensures var calls := AttemptsIn(nets, evs, a, b, x, d);
      && RequestsSent(nets, evs, a, b, x, d) <= 7 + 7 * GiveUps(calls, d)
      && Due(calls, d) == RequestsSent(nets, evs, a, b, x, d) + GiveUps(calls, d)
  {
    hide *;
    RunIsLong(nets, evs);
    RunStarts(false, nets, a, b, x, d);
    RunAccounts(false, nets, evs, a, b, x, d);
    var calls := AttemptsIn(nets, evs, a, b, x, d);
    LinkedTable(false, EntryOf(nets[a].nodes[x], d), calls, EntryOf(nets[b].nodes[x], d), d);
    LinkedSpends(false, EntryOf(nets[a].nodes[x], d), calls, EntryOf(nets[b].nodes[x], d), d);
  }

  /** Between two give-ups at most seven requests leave; so of eight due calls, one gives up. */
  lemma SevenRequestsInRun(nets: seq<Net>, evs: seq<Event>, a: nat, b: nat, x: Addr, d: Addr)
    requires Run(nets, evs) && NeverUp(false, nets, a, b, x, d)
    ensures |nets| == |evs| + 1
    ensures forall i :: 0 <= i < |AttemptsIn(nets, evs, a, b, x, d)| ==> d in AttemptsIn(nets, evs, a, b, x, d)[i].node.table
    ensures var calls := AttemptsIn(nets, evs, a, b, x, d);
      && (GiveUps(calls, d) == 0 ==> RequestsSent(nets, evs, a, b, x, d) <= 7)
      && (Due(calls, d) >= 8 ==> GiveUps(calls, d) >= 1)
  {
    hide *;
    RequestsPerGiveUp(nets, evs, a, b, x, d);
  }

  // ---------- the medium ----------

  /** The requests for `d` of node `x` itself that have come on the medium since state `a`. */
  ghost function NewOriginals(nets: seq<Net>, a: nat, b: nat, x: Addr, d: Addr): set<Msg>
    requires a <= b < |nets|
  {
    set m | m in nets[b].msgs && m !in nets[a].msgs && Original(m, x, d)
  }

  function OriginalsOf(sent: seq<Msg>, x: Addr, d: Addr): set<Msg> {
    set m | m in sent && Original(m, x, d)
  }

  lemma {:induction false} OriginalsBound(sent: seq<Msg>, x: Addr, d: Addr)
    ensures |OriginalsOf(sent, x, d)| <= Originals(sent, x, d)
  {
    if sent == [] {
      assert OriginalsOf(sent, x, d) == {};
    } else {
      var init, last := sent[..|sent| - 1], sent[|sent| - 1];
      OriginalsBound(init, x, d);
      assert sent == init + [last];
      assert OriginalsOf(sent, x, d) == OriginalsOf(init, x, d) + if Original(last, x, d) then {last} else {};
    }
  }

  lemma SmallerSet<T>(a: set<T>, b: set<T>)
    requires a <= b
    ensures |a| <= |b|
  {
    assert b == a + (b - a);
  }

  /** What comes on the medium under the name of `x` was handed to it by `x`. */
  lemma {:induction false} MediumBound(nets: seq<Net>, evs: seq<Event>, a: nat, b: nat, x: Addr, d: Addr)
    requires Run(nets, evs) && a <= b <= |evs| && x in nets[0].nodes
    ensures |nets| == |evs| + 1
    ensures |NewOriginals(nets, a, b, x, d)| <= RequestsSent(nets, evs, a, b, x, d)
    decreases b
  {
    RunIsLong(nets, evs);
    if a == b {
      assert NewOriginals(nets, a, b, x, d) == {};
      hide Run;
    } else {
      hide Handle, Original, Run, RequestsSent, Originals, Calls;
      MediumBound(nets, evs, a, b - 1, x, d);
      RunStep(nets, evs, b - 1);
      RunKeepsIndex(nets, evs, b - 1);
      AttemptsStep(nets, evs, a, b - 1, x, d);
      var y, ev := evs[b - 1].at, evs[b - 1];
      var sent := Handle(nets[b - 1].nodes[y], ev).sent;
      HandleKeepsIndex(nets[b - 1].nodes[y], ev);
      var added := if y == x then OriginalsOf(sent, x, d) else {};
      if y != x {
        OthersSendNone(sent, y, x, d);
      } else {
        OriginalsBound(sent, x, d);
      }
      assert NewOriginals(nets, a, b, x, d) <= NewOriginals(nets, a, b - 1, x, d) + added;
      SmallerSet(NewOriginals(nets, a, b, x, d), NewOriginals(nets, a, b - 1, x, d) + added);
    }
  }

  lemma OthersSendNone(sent: seq<Msg>, y: Addr, x: Addr, d: Addr)
    requires y != x && forall m :: m in sent && m.Rreq? ==> m.rq.sender == y
    ensures forall m :: m in sent ==> !Original(m, x, d)
  {
  }

  /** The same bound, of the medium itself: while `x` has no live route to `d` and does not give up, at most seven
  requests for `d` enter it from `x`. */
  lemma MediumSeesSeven(nets: seq<Net>, evs: seq<Event>, a: nat, b: nat, x: Addr, d: Addr)
    requires Run(nets, evs) && NeverUp(false, nets, a, b, x, d)
    ensures |nets| == |evs| + 1
    ensures forall i :: 0 <= i < |AttemptsIn(nets, evs, a, b, x, d)| ==> d in AttemptsIn(nets, evs, a, b, x, d)[i].node.table
    ensures GiveUps(AttemptsIn(nets, evs, a, b, x, d), d) == 0 ==> |NewOriginals(nets, a, b, x, d)| <= 7
  {
    hide *;
    RunIsLong(nets, evs);
    RunStarts(false, nets, a, b, x, d);
    RunKeepsIndex(nets, evs, a);
    SevenRequestsInRun(nets, evs, a, b, x, d);
    MediumBound(nets, evs, a, b, x, d);
  }

  /** Without local repair the attempts of a run are those of a search that goes on, so that it is counted exactly
  (RequestsAreCounted) and gives up exactly when its allowance is used (GivesUpInTime). */
  lemma RunIsUnanswered(nets: seq<Net>, evs: seq<Event>, a: nat, b: nat, x: Addr, d: Addr)
    requires Run(nets, evs) && NeverUp(true, nets, a, b, x, d)
    ensures |nets| == |evs| + 1
    ensures Unanswered(AttemptsIn(nets, evs, a, b, x, d), d)
    ensures RequestsSent(nets, evs, a, b, x, d) == Requests(AttemptsIn(nets, evs, a, b, x, d), d)
  {
    RunIsLong(nets, evs);
    RunStarts(true, nets, a, b, x, d);
    RunAccounts(true, nets, evs, a, b, x, d);
    hide Run, NeverUp, AttemptsIn, RequestsSent, After, SameSearch;
    LinkedStrictly(EntryOf(nets[a].nodes[x], d), AttemptsIn(nets, evs, a, b, x, d), EntryOf(nets[b].nodes[x], d), d);
  }

  lemma LinkedStrictly(e: Entry, calls: seq<Attempt>, e': Entry, d: Addr)
    requires Linked(true, e, calls, e', d)
    ensures Unanswered(calls, d)
  {
    hide After, SameSearch;
  }
}
