/** Route discovery gives up: how many requests go out for one destination when no answer ever comes. */
module AodvDiscovery {
  import opened Routing
  import opened BufferSpec
  import opened RingSearch
  import opened AodvSpec

  /** One call of sendRequest for a destination: the state it met, the clock and the per-hop estimate. */
  datatype Attempt = Attempt(node: Node, now: real, perHop: Addr -> real)

  function After(a: Attempt, d: Addr): (r: Result)
    requires d in a.node.table
    ensures d in r.node.table
  {
    SendRequest(a.node, d, a.now, a.perHop)
  }

  /** What the search for a destination remembers is the same. */
  predicate SameSearch(e: Entry, e': Entry) {
    e'.flags == e.flags && e'.reqCnt == e.reqCnt && e'.reqLastTtl == e.reqLastTtl && e'.reqTimeout == e.reqTimeout
    && e'.lastHopCount == e.lastHopCount
  }

  /** Consecutive attempts with no answer in between: whatever else happens to the entry, its search goes on. */
  ghost predicate Unanswered(run: seq<Attempt>, d: Addr) {
    && (forall i :: 0 <= i < |run| ==> d in run[i].node.table)
    && (forall i :: 0 < i < |run| ==> SameSearch(After(run[i - 1], d).node.table[d], run[i].node.table[d]))
  }

  predicate Asks(a: Attempt, d: Addr)
    requires d in a.node.table
  {
    After(a, d).sent != []
  }

  /** Neither up nor waiting for an earlier request to time out, but out of retries. */
  predicate GivesUp(a: Attempt, d: Addr)
    requires d in a.node.table
  {
    var e := a.node.table[d];
    e.flags != Up && e.reqTimeout <= a.now && e.reqCnt > RREQ_RETRIES
  }

  /** Requests left before the node gives up. */
  function Remaining(e: Entry): nat {
    if e.reqCnt > RREQ_RETRIES then 0
    else Rings(Max(e.reqLastTtl, e.lastHopCount)) + (RREQ_RETRIES + 1 - e.reqCnt)
  }

  lemma AtMostSeven(e: Entry)
    ensures Remaining(e) <= 7
  {
  }

  /** A request uses up exactly one; silence uses up none; giving up happens only when none is left. */
  lemma AttemptCosts(a: Attempt, d: Addr)
    requires d in a.node.table
    ensures var e, e' := a.node.table[d], After(a, d).node.table[d];
            && (Asks(a, d) ==> Remaining(e) > 0 && Remaining(e') == Remaining(e) - 1)
            && (!Asks(a, d) && !GivesUp(a, d) ==> e' == e)
            && (GivesUp(a, d) ==> !Asks(a, d) && Remaining(e) == 0)
            && (e.flags != Up && e.reqTimeout <= a.now ==> (Asks(a, d) <==> Remaining(e) > 0))
  {
  }

  function Requests(run: seq<Attempt>, d: Addr): nat
    requires forall i :: 0 <= i < |run| ==> d in run[i].node.table
  {
    if run == [] then 0
    else Requests(run[..|run| - 1], d) + (if Asks(run[|run| - 1], d) then 1 else 0)
  }

  ghost predicate NeverGivesUp(run: seq<Attempt>, d: Addr)
    requires forall i :: 0 <= i < |run| ==> d in run[i].node.table
  {
    forall i :: 0 <= i < |run| ==> !GivesUp(run[i], d)
  }

  /** The requests sent are exactly the allowance used. */
  lemma {:induction false} RequestsAreCounted(run: seq<Attempt>, d: Addr)
    requires |run| > 0 && Unanswered(run, d) && NeverGivesUp(run, d)
    ensures Requests(run, d) + Remaining(After(run[|run| - 1], d).node.table[d]) == Remaining(run[0].node.table[d])
    decreases |run|
  {
    var last := run[|run| - 1];
    var prefix := run[..|run| - 1];
    AttemptCosts(last, d);
    if |run| > 1 {
      assert Unanswered(prefix, d) && NeverGivesUp(prefix, d);
      RequestsAreCounted(prefix, d);
      assert prefix[|prefix| - 1] == run[|run| - 2];
    } else {
      assert Requests(prefix, d) == 0;
    }
  }

  /** At most seven requests leave before the node gives up and the count starts again. */
  lemma DiscoveryIsBounded(run: seq<Attempt>, d: Addr)
    requires Unanswered(run, d) && NeverGivesUp(run, d)
    ensures Requests(run, d) <= 7
  {
    if |run| > 0 {
      RequestsAreCounted(run, d);
      AtMostSeven(run[0].node.table[d]);
    }
  }

  ghost predicate AllDue(run: seq<Attempt>, d: Addr)
    requires forall i :: 0 <= i < |run| ==> d in run[i].node.table
  {
    forall i :: 0 <= i < |run| ==> run[i].node.table[d].flags != Up && run[i].node.table[d].reqTimeout <= run[i].now
  }

  lemma {:induction false} DueAttemptsAsk(run: seq<Attempt>, d: Addr)
    requires Unanswered(run, d) && AllDue(run, d)
    requires |run| > 0 ==> |run| <= Remaining(run[0].node.table[d])
    ensures Requests(run, d) == |run| && NeverGivesUp(run, d)
    ensures |run| > 0 ==> Remaining(After(run[|run| - 1], d).node.table[d]) == Remaining(run[0].node.table[d]) - |run|
    decreases |run|
  {
    if |run| > 0 {
      var prefix := run[..|run| - 1];
      assert Unanswered(prefix, d) && AllDue(prefix, d);
      DueAttemptsAsk(prefix, d);
      AttemptCosts(run[|run| - 1], d);
      forall i | 0 <= i < |run|
        ensures !GivesUp(run[i], d)
      {
        if i < |prefix| {
          assert prefix[i] == run[i];
        }
      }
    }
  }

  /** What giving up is, whenever it happens: nothing is sent, no packet stays held, the count starts again. */
  lemma GivingUpDrops(a: Attempt, d: Addr)
    requires d in a.node.table && GivesUp(a, d)
    ensures var n' := After(a, d).node;
            && !Asks(a, d) && Held(n'.buffer, d) == [] && n'.table[d].reqCnt == 0
            && n'.table[d].reqTimeout == a.now + MAX_RREQ_TIMEOUT
  {
    OthersHoldNone(Purged(a.node.buffer, a.now), d);
  }

  /** Giving up is reached: when each attempt comes after the previous timeout, the attempt after the allowance
  is used drops every packet held for the destination, sends nothing, and starts the count again. */
  lemma GivesUpInTime(run: seq<Attempt>, d: Addr)
    requires |run| > 0 && Unanswered(run, d) && AllDue(run, d)
    requires |run| == Remaining(run[0].node.table[d]) + 1
    ensures Requests(run[..|run| - 1], d) == |run| - 1
    ensures var last, n' := run[|run| - 1], After(run[|run| - 1], d).node;
            && GivesUp(last, d) && !Asks(last, d)
            && Held(n'.buffer, d) == [] && n'.table[d].reqCnt == 0
            && n'.table[d].reqTimeout == last.now + MAX_RREQ_TIMEOUT
  {
    var prefix := run[..|run| - 1];
    var last := run[|run| - 1];
    assert Unanswered(prefix, d) && AllDue(prefix, d);
    DueAttemptsAsk(prefix, d);
    if |prefix| > 0 {
      assert prefix[|prefix| - 1] == run[|run| - 2];
    }
    assert Remaining(last.node.table[d]) == 0;
    GivingUpDrops(last, d);
  }

  /** Every request travels at most the network diameter, and its timeout is never further off than the cap. */
  lemma RequestsAreModest(a: Attempt, d: Addr)
    requires d in a.node.table && Asks(a, d)
    ensures |After(a, d).sent| == 1 && After(a, d).sent[0].Rreq?
    ensures var rq := After(a, d).sent[0].rq;
            && 0 < rq.ttl <= NETWORK_DIAMETER && rq.dst == d && rq.src == rq.sender == a.node.index
            && (rq.ttl == NETWORK_DIAMETER <==> After(a, d).node.table[d].reqCnt == a.node.table[d].reqCnt + 1)
    ensures After(a, d).node.table[d].reqTimeout <= a.now + MAX_RREQ_TIMEOUT
    ensures After(a, d).node.seqno == a.node.seqno + 2
  {
  }
}
