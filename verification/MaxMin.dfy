/** Weighted max-min fair sharing of links among flows: what it means, and when an allocation is fair. */
module MaxMin {

  /** How often link `l` occurs on a route; a route may cross a link more than once. */
  function Crossings(route: seq<nat>, l: nat): nat {
    if route == [] then 0
    else Crossings(route[..|route| - 1], l) + (if route[|route| - 1] == l then 1 else 0)
  }

  /** What a flow of this rate puts on a link it crosses `c` times. */
  function Times(c: nat, rate: real): real {
    c as real * rate
  }

  /** The total of `rate` over the first flows, each counted once per crossing of link `l`. */
  function LoadOf(routes: seq<seq<nat>>, l: nat, rate: seq<real>): real
    requires |routes| == |rate|
  {
    if routes == [] then 0.0
    else LoadOf(routes[..|routes| - 1], l, rate[..|rate| - 1])
         + Times(Crossings(routes[|routes| - 1], l), rate[|rate| - 1])
  }

  lemma {:induction false} CrossingsPositive(route: seq<nat>, l: nat)
    ensures Crossings(route, l) > 0 <==> l in route
  {
    if route != [] {
      CrossingsPositive(route[..|route| - 1], l);
      assert route == route[..|route| - 1] + [route[|route| - 1]];
    }
  }

  lemma TimesMono(c: nat, a: real, b: real)
    requires c > 0 ==> a <= b
    ensures Times(c, a) <= Times(c, b)
    ensures c > 0 && a < b ==> Times(c, a) < Times(c, b)
  {
  }

  lemma TimesDiff(c: nat, a: real, b: real)
    ensures Times(c, a) == Times(c, b) + Times(c, a - b)
  {
  }

  /** More of everything on a link is more load. */
  lemma {:induction false} LoadMono(routes: seq<seq<nat>>, l: nat, f: seq<real>, g: seq<real>)
    requires |routes| == |f| == |g|
    requires forall j :: 0 <= j < |routes| && l in routes[j] ==> f[j] <= g[j]
    ensures LoadOf(routes, l, f) <= LoadOf(routes, l, g)
  {
    if routes != [] {
      var n := |routes| - 1;
      LoadMono(routes[..n], l, f[..n], g[..n]);
      CrossingsPositive(routes[n], l);
      TimesMono(Crossings(routes[n], l), f[n], g[n]);
      hide Times, Crossings;
    }
  }

  /** ... and strictly more as soon as one flow on the link has more. */
  lemma {:induction false} LoadStrict(routes: seq<seq<nat>>, l: nat, f: seq<real>, g: seq<real>, j: nat)
    requires |routes| == |f| == |g| && j < |routes| && l in routes[j] && f[j] < g[j]
    requires forall k :: 0 <= k < |routes| && l in routes[k] ==> f[k] <= g[k]
    ensures LoadOf(routes, l, f) < LoadOf(routes, l, g)
  {
    var n := |routes| - 1;
    var routes', f', g' := routes[..n], f[..n], g[..n];
    CrossingsPositive(routes[n], l);
    TimesMono(Crossings(routes[n], l), f[n], g[n]);
    hide Times, Crossings;
    if j < n {
      LoadStrict(routes', l, f', g', j);
    } else {
      LoadMono(routes', l, f', g');
    }
  }

  lemma {:induction false} LoadZero(routes: seq<seq<nat>>, l: nat, f: seq<real>)
    requires |routes| == |f|
    requires forall j :: 0 <= j < |routes| && l in routes[j] ==> f[j] == 0.0
    ensures LoadOf(routes, l, f) == 0.0
  {
    if routes != [] {
      var n := |routes| - 1;
      LoadZero(routes[..n], l, f[..n]);
      CrossingsPositive(routes[n], l);
    }
  }

  /** Changing one flow's rate changes the load by its crossings times the difference. */
  lemma {:induction false} LoadChange(routes: seq<seq<nat>>, l: nat, f: seq<real>, j: nat, v: real)
    requires |routes| == |f| && j < |f|
    ensures LoadOf(routes, l, f[j := v]) == LoadOf(routes, l, f) + Times(Crossings(routes[j], l), v - f[j])
  {
    var n := |routes| - 1;
    var g := f[j := v];
    if j == n {
      assert g[..n] == f[..n];
      TimesDiff(Crossings(routes[j], l), v, f[j]);
    } else {
      LoadChange(routes[..n], l, f[..n], j, v);
      assert g[..n] == f[..n][j := v] && routes[..n][j] == routes[j];
    }
  }

  // ---------- fairness ----------

  /** Links with capacities, shared by weighted flows along fixed routes. */
  datatype Problem = Problem(routes: seq<seq<nat>>, weight: seq<real>, member: seq<bool>, capacity: seq<real>)

  ghost predicate Valid(p: Problem) {
    && |p.routes| == |p.weight| == |p.member|
    && (forall j :: 0 <= j < |p.routes| && p.member[j] ==> p.weight[j] > 0.0)
    && (forall j :: 0 <= j < |p.routes| && p.member[j] ==> p.routes[j] != [])
    && forall j :: 0 <= j < |p.routes| ==> forall l :: l in p.routes[j] ==> l < |p.capacity|
  }

  /** The rates of the flows that take part, zero for the others. */
  function Taking(rate: seq<real>, member: seq<bool>): seq<real>
    requires |rate| == |member|
  {
    seq(|rate|, j requires 0 <= j < |rate| => if member[j] then rate[j] else 0.0)
  }

  function Load(p: Problem, l: nat, rate: seq<real>): real
    requires |p.routes| == |rate| == |p.member|
  {
    LoadOf(p.routes, l, Taking(rate, p.member))
  }

  predicate Uses(p: Problem, j: nat, l: nat)
    requires |p.routes| == |p.member|
  {
    j < |p.routes| && p.member[j] && l in p.routes[j]
  }

  ghost predicate Feasible(p: Problem, rate: seq<real>)
    requires Valid(p)
  {
    && |rate| == |p.routes|
    && (forall j :: 0 <= j < |rate| && p.member[j] ==> rate[j] >= 0.0)
    && forall l: nat, j: nat :: Uses(p, j, l) ==> Load(p, l, rate) <= p.capacity[l]
  }

  /** Flow `k` gets no more for its weight than flow `j`. */
  predicate NoBetter(p: Problem, rate: seq<real>, k: nat, j: nat)
    requires |p.weight| == |rate| && k < |rate| && j < |rate|
  {
    rate[k] * p.weight[j] <= rate[j] * p.weight[k]
  }

  /** No flow can gain except at the cost of one that is no better off. */
  ghost predicate Fair(p: Problem, rate: seq<real>)
    requires Valid(p)
  {
    Feasible(p, rate) &&
    forall other, j :: Feasible(p, other) && 0 <= j < |rate| && p.member[j] && other[j] > rate[j] ==>
      exists k :: 0 <= k < |rate| && p.member[k] && other[k] < rate[k] && NoBetter(p, rate, k, j)
  }

  /** Link `l` holds flow `j` back: it is full, and nobody on it does better. */
  ghost predicate Bottleneck(p: Problem, rate: seq<real>, j: nat, l: nat)
    requires Valid(p) && |rate| == |p.routes|
  {
    && Uses(p, j, l)
    && Load(p, l, rate) == p.capacity[l]
    && forall k: nat :: Uses(p, k, l) ==> NoBetter(p, rate, k, j)
  }

  ghost predicate HasBottleneck(p: Problem, rate: seq<real>, j: nat)
    requires Valid(p) && |rate| == |p.routes|
  {
    exists l: nat :: Bottleneck(p, rate, j, l)
  }

  /** An allocation in which every flow has a bottleneck is fair. */
  lemma BottleneckedIsFair(p: Problem, rate: seq<real>)
    requires Valid(p) && Feasible(p, rate)
    requires forall j :: 0 <= j < |rate| && p.member[j] ==> HasBottleneck(p, rate, j)
    ensures Fair(p, rate)
  {
    forall other, j | Feasible(p, other) && 0 <= j < |rate| && p.member[j] && other[j] > rate[j]
      ensures exists k :: 0 <= k < |rate| && p.member[k] && other[k] < rate[k] && NoBetter(p, rate, k, j)
    {
      assert HasBottleneck(p, rate, j);
      var l: nat :| Bottleneck(p, rate, j, l);
      if forall k: nat :: Uses(p, k, l) ==> other[k] >= rate[k] {
        var f, g := Taking(rate, p.member), Taking(other, p.member);
        assert f[j] < g[j] && l in p.routes[j];
        forall k | 0 <= k < |p.routes| && l in p.routes[k]
          ensures f[k] <= g[k]
        {
          assert p.member[k] ==> Uses(p, k, l);
        }
        LoadStrict(p.routes, l, f, g, j);
        assert false;
      }
      var k: nat :| Uses(p, k, l) && other[k] < rate[k];
      assert NoBetter(p, rate, k, j);
    }
  }

  /** What a flow gets per unit of weight. */
  function Share(p: Problem, rate: seq<real>, j: nat): real
    requires |p.weight| == |rate| && j < |rate| && p.weight[j] > 0.0
  {
    rate[j] / p.weight[j]
  }

  lemma NoBetterIsShare(p: Problem, rate: seq<real>, k: nat, j: nat)
    requires |p.weight| == |rate| && k < |rate| && j < |rate| && p.weight[j] > 0.0 && p.weight[k] > 0.0
    ensures NoBetter(p, rate, k, j) <==> Share(p, rate, k) <= Share(p, rate, j)
  {
    CrossMultiply(rate[k], p.weight[k], rate[j], p.weight[j]);
  }

  lemma CrossMultiply(a: real, b: real, c: real, d: real)
    requires b > 0.0 && d > 0.0
    ensures a * d <= c * b <==> a / b <= c / d
  {
    var x, y := a / b, c / d;
    assert a == x * b && c == y * d;
    assert a * d == x * (b * d) && c * b == y * (b * d);
    var m := b * d;
    assert m > 0.0;
    ScaleOrder(x, y, m);
  }

  lemma ScaleOrder(x: real, y: real, m: real)
    requires m > 0.0
    ensures x * m <= y * m <==> x <= y
  {
    if x <= y {
      assert (y - x) * m >= 0.0;
    } else {
      assert (x - y) * m > 0.0;
    }
  }

  function LesserShare(p: Problem, x: seq<real>, y: seq<real>, j: nat): real
    requires |p.weight| == |x| == |y| && j < |x| && p.weight[j] > 0.0
  {
    if Share(p, x, j) <= Share(p, y, j) then Share(p, x, j) else Share(p, y, j)
  }

  ghost predicate Differs(p: Problem, x: seq<real>, y: seq<real>, j: nat)
    requires |p.member| == |x| == |y|
  {
    j < |x| && p.member[j] && x[j] != y[j]
  }

  /** Among the flows on which two allocations differ, one with the least share. */
  lemma {:induction false} LeastDifference(p: Problem, x: seq<real>, y: seq<real>, n: nat) returns (k: nat)
    requires Valid(p) && |p.routes| == |x| == |y| && n <= |x|
    requires exists j: nat :: j < n && Differs(p, x, y, j)
    ensures k < n && Differs(p, x, y, k)
    ensures forall j: nat :: j < n && Differs(p, x, y, j) ==> LesserShare(p, x, y, k) <= LesserShare(p, x, y, j)
    decreases n
  {
    if exists j: nat :: j < n - 1 && Differs(p, x, y, j) {
      k := LeastDifference(p, x, y, n - 1);
      if Differs(p, x, y, n - 1) && LesserShare(p, x, y, n - 1) < LesserShare(p, x, y, k) {
        k := n - 1;
      }
    } else {
      k := n - 1;
    }
  }

  /** At the least difference, the fair allocation cannot be the one that gives less. */
  lemma FairIsLeast(p: Problem, x: seq<real>, y: seq<real>, k: nat)
    requires Valid(p) && Fair(p, x) && Feasible(p, y) && Differs(p, x, y, k)
    requires forall j: nat :: j < |x| && Differs(p, x, y, j) ==> LesserShare(p, x, y, k) <= LesserShare(p, x, y, j)
    ensures x[k] > y[k]
  {
    if x[k] < y[k] {
      var m :| 0 <= m < |x| && p.member[m] && y[m] < x[m] && NoBetter(p, x, m, k);
      assert Differs(p, x, y, m);
      DivideOrder(y[m], x[m], p.weight[m]);
      DivideOrder(x[k], y[k], p.weight[k]);
      NoBetterIsShare(p, x, m, k);
      assert false;
    }
  }

  lemma DivideOrder(a: real, b: real, w: real)
    requires w > 0.0 && a < b
    ensures a / w < b / w
  {
  }

  lemma LesserShareSymmetric(p: Problem, x: seq<real>, y: seq<real>, j: nat)
    requires |p.weight| == |x| == |y| && j < |x| && p.weight[j] > 0.0
    ensures LesserShare(p, x, y, j) == LesserShare(p, y, x, j)
  {
  }

  /** There is only one fair allocation. */
  lemma FairIsUnique(p: Problem, x: seq<real>, y: seq<real>, j: nat)
    requires Valid(p) && Fair(p, x) && Fair(p, y)
    requires j < |p.routes| && p.member[j]
    ensures x[j] == y[j]
  {
    if Differs(p, x, y, j) {
      var k := LeastDifference(p, x, y, |x|);
      FairIsLeast(p, x, y, k);
      hide LesserShare, Fair, Share;
      LesserShareSymmetric(p, x, y, k);
      forall i: nat | i < |x| && Differs(p, y, x, i)
        ensures LesserShare(p, y, x, k) <= LesserShare(p, y, x, i)
      {
        assert Differs(p, x, y, i);
        LesserShareSymmetric(p, x, y, i);
      }
      FairIsLeast(p, y, x, k);
    }
  }
}
