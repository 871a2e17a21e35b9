/** The expanding ring search by which both agents choose the reach and the patience of a route request. */
module RingSearch {

  const RREQ_RETRIES: nat := 3
  const TTL_START: nat := 5
  const TTL_THRESHOLD: nat := 7
  const TTL_INCREMENT: nat := 2
  const NETWORK_DIAMETER: nat := 30

  function NextTtl(lastTtl: nat): nat {
    if lastTtl == 0 then TTL_START
    else if lastTtl < TTL_THRESHOLD then lastTtl + TTL_INCREMENT
    else NETWORK_DIAMETER
  }

  /** Requests with a limited TTL still to come before the search covers the whole network. */
  function Rings(lastTtl: nat): nat {
    if lastTtl == 0 then 2 else if lastTtl < TTL_THRESHOLD then (8 - lastTtl) / 2 else 0
  }

  /** The most requests that any last hop count leaves before a node gives up. */
  function RequestsLeft(cnt: nat, lastTtl: nat): (r: nat)
    ensures r <= 7
  {
    if cnt > RREQ_RETRIES then 0
    else (if lastTtl == 0 then 3 else Rings(lastTtl)) + (RREQ_RETRIES + 1 - cnt)
  }

  /** When a request sent now may be repeated: twice the round trip, more after network-wide tries, capped. */
  function RequestTimeout(ttl: nat, cnt: nat, perHop: real, now: real, cap: real): real {
    var wait := 2.0 * (ttl as real) * perHop;
    var scaled := (if cnt > 0 then wait * (cnt as real) else wait) + now;
    if scaled > now + cap then now + cap else scaled
  }

  /** A request waits no time that is negative and none beyond the cap, which it meets exactly when the round trip,
  once for each network-wide try, is that long; a wider ring and a further try never wait less. */
  lemma DeadlineIsCapped(ttl: nat, cnt: nat, perHop: real, now: real, cap: real)
    requires perHop >= 0.0 && cap >= 0.0
    ensures now <= RequestTimeout(ttl, cnt, perHop, now, cap) <= now + cap
    ensures RequestTimeout(ttl, cnt, perHop, now, cap) == now + cap <==> RoundTrips(ttl, cnt, perHop) >= cap
    ensures forall ttl': nat, cnt': nat :: ttl <= ttl' && cnt <= cnt' ==>
              RequestTimeout(ttl, cnt, perHop, now, cap) <= RequestTimeout(ttl', cnt', perHop, now, cap)
  {
    TripsGrow(0, ttl, cnt, cnt, perHop);
    forall ttl': nat, cnt': nat | ttl <= ttl' && cnt <= cnt'
      ensures RequestTimeout(ttl, cnt, perHop, now, cap) <= RequestTimeout(ttl', cnt', perHop, now, cap)
    {
      TripsGrow(ttl, ttl', cnt, cnt', perHop);
    }
  }

  /** Below the cap the deadline is exactly the time of the round trips from now. */
  lemma DeadlineIsRoundTrips(ttl: nat, cnt: nat, perHop: real, now: real, cap: real)
    requires RoundTrips(ttl, cnt, perHop) <= cap
    ensures RequestTimeout(ttl, cnt, perHop, now, cap) == now + RoundTrips(ttl, cnt, perHop)
  {
    if cnt > 0 {
      assert RoundTrips(ttl, cnt, perHop) == 2.0 * (ttl as real) * perHop * (cnt as real);
    } else {
      assert RoundTrips(ttl, cnt, perHop) == 2.0 * (ttl as real) * perHop;
    }
  }

  /** The reach of the k-th request of a search that begins with neither a TTL nor a hop count known. */
  function Reach(k: nat): nat {
    if k == 0 then 0 else NextTtl(Reach(k - 1))
  }

  /** Such a search looks within 5 hops, then within 7, then in the whole network. */
  lemma {:induction false} RingsWiden(k: nat)
    ensures Reach(k) == if k == 0 then 0 else if k == 1 then 5 else if k == 2 then 7 else NETWORK_DIAMETER
  {
    if k > 0 {
      RingsWiden(k - 1);
    }
  }

  /** The time there and back over `ttl` hops, once for each network-wide try but at least once. */
  function RoundTrips(ttl: nat, cnt: nat, perHop: real): real {
    2.0 * (ttl as real) * perHop * ((if cnt > 0 then cnt else 1) as real)
  }

  lemma TripsGrow(ttl: nat, ttl': nat, cnt: nat, cnt': nat, perHop: real)
    requires ttl <= ttl' && cnt <= cnt' && perHop >= 0.0
    ensures 0.0 <= RoundTrips(ttl, cnt, perHop) <= RoundTrips(ttl', cnt', perHop)
  {
    var k, k' := (if cnt > 0 then cnt else 1) as real, (if cnt' > 0 then cnt' else 1) as real;
    var a, a' := 2.0 * (ttl as real), 2.0 * (ttl' as real);
    Times(a, a', perHop);
    Times(a * perHop, a' * perHop, k);
    assert a' * perHop * (k' - k) >= 0.0;
  }

  lemma Times(x: real, y: real, z: real)
    requires 0.0 <= x <= y && z >= 0.0
    ensures 0.0 <= x * z <= y * z
  {
    assert (y - x) * z >= 0.0;
  }

  method RequestDeadline(ttl: nat, cnt: nat, perHop: real, now: real, cap: real) returns (timeout: real)
    ensures timeout == RequestTimeout(ttl, cnt, perHop, now, cap)
  {
    timeout := 2.0 * (ttl as real) * perHop;
    if cnt > 0 {
      timeout := timeout * (cnt as real);
    }
    timeout := timeout + now;
    if timeout > now + cap {
      timeout := now + cap;
    }
  }
}
