/** The rate allocator of the analytic simulator: newupdate fills the most congested link, fixes the flows on it,
and goes on with what is left. In exact arithmetic it computes the weighted max-min fair allocation. */
module Asim {
  import opened MaxMin

  // ---------- the reverse index ----------

  /** Flow `j`, once for every time its route crosses link `l`. */
  function Repeat(j: nat, c: nat): (s: seq<nat>)
    ensures |s| == c && forall x :: x in s ==> x == j
  {
    if c == 0 then [] else Repeat(j, c - 1) + [j]
  }

  /** The flows through link `l`, in order of flow number, as often as they cross it. */
  function FlowsOn(adj: seq<seq<nat>>, l: nat): seq<nat> {
    if adj == [] then []
    else FlowsOn(adj[..|adj| - 1], l) + Repeat(|adj| - 1, Crossings(adj[|adj| - 1], l))
  }

  /** The index lists exactly the flows whose routes contain the link. */
  lemma {:induction false} IndexIsInverse(adj: seq<seq<nat>>, l: nat, j: nat)
    ensures j in FlowsOn(adj, l) <==> j < |adj| && l in adj[j]
  {
    if adj != [] {
      var n := |adj| - 1;
      IndexIsInverse(adj[..n], l, j);
      CrossingsPositive(adj[n], l);
      var own := Repeat(n, Crossings(adj[n], l));
      if j == n && l in adj[n] {
        assert own[0] in own;
      }
    }
  }

  /** The loop at the end of GetInputs, for one link. */
  method BuildIndex(adj: seq<seq<nat>>, l: nat) returns (flows: seq<nat>)
    ensures flows == FlowsOn(adj, l)
  {
    flows := [];
    var j := 0;
    while j < |adj|
      invariant 0 <= j <= |adj| && flows == FlowsOn(adj[..j], l)
    {
      ghost var before := flows;
      var k := 0;
      while k < |adj[j]|
        invariant 0 <= k <= |adj[j]|
        invariant flows == before + Repeat(j, Crossings(adj[j][..k], l))
      {
        assert adj[j][..k + 1][..k] == adj[j][..k];
        if adj[j][k] == l {
          flows := flows + [j];
        }
        k := k + 1;
      }
      assert adj[j][..k] == adj[j];
      assert adj[..j + 1][..j] == adj[..j];
      j := j + 1;
    }
    assert adj[..j] == adj;
  }

  // ---------- sums over flows ----------

  /** Flows that take part in the allocation and have, or have not, been scaled. */
  function Chosen(short: seq<bool>, scaled: seq<bool>, want: bool): seq<bool>
    requires |short| == |scaled|
  {
    seq(|short|, j requires 0 <= j < |short| => !short[j] && scaled[j] == want)
  }

  /** What flows of one kind put on link `l`. */
  function Total(adj: seq<seq<nat>>, l: nat, rate: seq<real>, kind: seq<bool>): real
    requires |adj| == |rate| == |kind|
  {
    LoadOf(adj, l, Taking(rate, kind))
  }

  /** Moving flow `j` from the unscaled to the scaled, at rate `x`. */
  lemma MoveFlow(adj: seq<seq<nat>>, l: nat, rate: seq<real>, short: seq<bool>, scaled: seq<bool>, j: nat, x: real)
    requires |adj| == |rate| == |short| == |scaled| && j < |adj| && !short[j] && !scaled[j]
    ensures Total(adj, l, rate[j := x], Chosen(short, scaled[j := true], false)) ==
            Total(adj, l, rate, Chosen(short, scaled, false)) - Times(Crossings(adj[j], l), rate[j])
    ensures Total(adj, l, rate[j := x], Chosen(short, scaled[j := true], true)) ==
            Total(adj, l, rate, Chosen(short, scaled, true)) + Times(Crossings(adj[j], l), x)
  {
    var c := Crossings(adj[j], l);
    var u, s := Taking(rate, Chosen(short, scaled, false)), Taking(rate, Chosen(short, scaled, true));
    var u', s' := Taking(rate[j := x], Chosen(short, scaled[j := true], false)),
                  Taking(rate[j := x], Chosen(short, scaled[j := true], true));
    assert u' == u[j := 0.0] && u[j] == rate[j];
    assert s' == s[j := x] && s[j] == 0.0;
    LoadChange(adj, l, u, j, 0.0);
    LoadChange(adj, l, s, j, x);
    assert Times(c, 0.0 - rate[j]) == -Times(c, rate[j]);
  }

  lemma NoFlowsNoTotal(adj: seq<seq<nat>>, l: nat, rate: seq<real>, kind: seq<bool>)
    requires |adj| == |rate| == |kind|
    requires forall j :: 0 <= j < |adj| && l in adj[j] ==> !kind[j]
    ensures Total(adj, l, rate, kind) == 0.0
  {
    LoadZero(adj, l, Taking(rate, kind));
  }

  /** With positive rates, a link has unscaled load exactly when it has an unscaled flow. */
  lemma TotalPositive(adj: seq<seq<nat>>, l: nat, rate: seq<real>, kind: seq<bool>)
    requires |adj| == |rate| == |kind|
    requires forall j :: 0 <= j < |adj| && kind[j] ==> rate[j] > 0.0
    ensures Total(adj, l, rate, kind) >= 0.0
    ensures Total(adj, l, rate, kind) > 0.0 <==> exists j :: 0 <= j < |adj| && l in adj[j] && kind[j]
  {
    var zero := seq(|adj|, j => 0.0);
    LoadZero(adj, l, zero);
    LoadMono(adj, l, zero, Taking(rate, kind));
    if exists j :: 0 <= j < |adj| && l in adj[j] && kind[j] {
      var j :| 0 <= j < |adj| && l in adj[j] && kind[j];
      LoadStrict(adj, l, zero, Taking(rate, kind), j);
    } else {
      NoFlowsNoTotal(adj, l, rate, kind);
    }
  }

  // ---------- the allocator ----------

  /** What is left of each link for the bulk flows. */
  function Capacity(adj: seq<seq<nat>>, mu: seq<real>, rate: seq<real>, short: seq<bool>): (cap: seq<real>)
    requires |adj| == |rate| == |short|
    ensures |cap| == |mu|
  {
    seq(|mu|, l requires 0 <= l < |mu| => mu[l] * 1.05 - Total(adj, l, rate, short))
  }

  ghost predicate Positive(rate: seq<real>, short: seq<bool>)
    requires |rate| == |short|
  {
    forall j :: 0 <= j < |rate| && !short[j] ==> rate[j] > 0.0
  }

  /** Every bulk flow crosses some link. */
  ghost predicate Routed(adj: seq<seq<nat>>, short: seq<bool>)
    requires |adj| == |short|
  {
    forall j :: 0 <= j < |adj| && !short[j] ==> adj[j] != []
  }

  /** Some bulk flow crosses link `l`. */
  predicate Carries(adj: seq<seq<nat>>, short: seq<bool>, l: nat)
    requires |adj| == |short|
  {
    exists j :: 0 <= j < |adj| && l in adj[j] && !short[j]
  }

  /** Every link that a bulk flow crosses has something left after the short flows. */
  ghost predicate Roomy(adj: seq<seq<nat>>, short: seq<bool>, cap: seq<real>)
    requires |adj| == |short|
  {
    forall l :: 0 <= l < |cap| && Carries(adj, short, l) ==> cap[l] > 0.0
  }

  // ---------- what the outcome means for the links ----------

  /** On every link that a bulk flow crosses, the short flows stay below 105 per cent of its rate. */
  ghost predicate RoomForBulk(adj: seq<seq<nat>>, mu: seq<real>, short: seq<bool>, rate: seq<real>)
    requires |adj| == |short| == |rate|
  {
    forall l :: 0 <= l < |mu| && Carries(adj, short, l) ==> LoadOf(adj, l, Taking(rate, short)) < mu[l] * 1.05
  }

  /** Flow `k` gets no more for its weight than flow `j`. */
  predicate GetsNoMore(weight: seq<real>, rate: seq<real>, k: nat, j: nat)
    requires |weight| == |rate| && k < |rate| && j < |rate|
  {
    rate[k] * weight[j] <= rate[j] * weight[k]
  }

  /** Link `l` is filled exactly to 105 per cent of its rate by all flows together, and of the bulk flows on it `j` gets the most for
  its weight. */
  ghost predicate FilledFor(adj: seq<seq<nat>>, mu: seq<real>, short: seq<bool>, weight: seq<real>, rate: seq<real>,
                            j: nat, l: nat)
    requires |adj| == |short| == |weight| == |rate| && j < |adj|
  {
    && l < |mu| && l in adj[j] && LoadOf(adj, l, rate) == mu[l] * 1.05
    && forall k :: 0 <= k < |adj| && !short[k] && l in adj[k] ==> GetsNoMore(weight, rate, k, j)
  }

  /** No link in use is filled beyond that, and every bulk flow crosses one that is filled for it. */
  ghost predicate Filled(adj: seq<seq<nat>>, mu: seq<real>, short: seq<bool>, weight: seq<real>, rate: seq<real>)
    requires |adj| == |short| == |weight| == |rate|
  {
    && (forall l :: 0 <= l < |mu| && Carries(adj, short, l) ==> LoadOf(adj, l, rate) <= mu[l] * 1.05)
    && forall j :: 0 <= j < |adj| && !short[j] ==> exists l: nat :: FilledFor(adj, mu, short, weight, rate, j, l)
  }

  /** Short and bulk flows together are all flows. */
  lemma {:induction false} LoadSplits(adj: seq<seq<nat>>, l: nat, rate: seq<real>, short: seq<bool>)
    requires |adj| == |rate| == |short|
    ensures |Bulk(short)| == |rate|
    ensures LoadOf(adj, l, rate) == LoadOf(adj, l, Taking(rate, short)) + LoadOf(adj, l, Taking(rate, Bulk(short)))
  {
    if adj != [] {
      var n := |adj| - 1;
      LoadSplits(adj[..n], l, rate[..n], short[..n]);
      assert Taking(rate[..n], short[..n]) == Taking(rate, short)[..n];
      assert Taking(rate[..n], Bulk(short[..n])) == Taking(rate, Bulk(short))[..n];
    }
  }

  lemma RoomIsRoomy(adj: seq<seq<nat>>, mu: seq<real>, short: seq<bool>, rate: seq<real>)
    requires |adj| == |short| == |rate|
    ensures RoomForBulk(adj, mu, short, rate) <==> Roomy(adj, short, Capacity(adj, mu, rate, short))
  {
    hide LoadOf, Carries;
    var cap := Capacity(adj, mu, rate, short);
    forall l | 0 <= l < |mu|
      ensures cap[l] > 0.0 <==> LoadOf(adj, l, Taking(rate, short)) < mu[l] * 1.05
    {
    }
  }

  function Leftover(adj: seq<seq<nat>>, mu: seq<real>, short: seq<bool>, weight: seq<real>): Setup
    requires |adj| == |short| == |weight|
  {
    Setup(adj, short, Capacity(adj, mu, weight, short), weight)
  }

  /** What is missing on the link is what is missing of the capacity left over. */
  lemma SameGap(adj: seq<seq<nat>>, mu: seq<real>, short: seq<bool>, weight: seq<real>, rate: seq<real>, l: nat)
    requires |adj| == |short| == |weight| == |rate| && l < |mu|
    requires forall j :: 0 <= j < |adj| && short[j] ==> rate[j] == weight[j]
    ensures var q := ProblemOf(Leftover(adj, mu, short, weight));
      |q.member| == |rate| && |q.capacity| == |mu| && LoadOf(adj, l, rate) - mu[l] * 1.05 == Load(q, l, rate) - q.capacity[l]
  {
    LoadSplits(adj, l, rate, short);
    assert Taking(rate, short) == Taking(weight, short);
  }

  lemma SameOrder(q: Problem, rate: seq<real>, k: nat, j: nat)
    requires |q.weight| == |rate| && k < |rate| && j < |rate| && NoBetter(q, rate, k, j)
    ensures GetsNoMore(q.weight, rate, k, j)
  {
  }

  lemma BottleneckIsFilled(adj: seq<seq<nat>>, mu: seq<real>, short: seq<bool>, weight: seq<real>, rate: seq<real>,
                           j: nat, l: nat)
    requires |adj| == |short| == |weight| == |rate| && j < |adj|
    requires forall j :: 0 <= j < |adj| && short[j] ==> rate[j] == weight[j]
    requires var q := ProblemOf(Leftover(adj, mu, short, weight)); Valid(q) && Bottleneck(q, rate, j, l)
    ensures FilledFor(adj, mu, short, weight, rate, j, l)
  {
    var q := ProblemOf(Leftover(adj, mu, short, weight));
    hide LoadOf, Load, Taking, Capacity, NoBetter, GetsNoMore;
    assert l in adj[j] && l < |q.capacity|;
    SameGap(adj, mu, short, weight, rate, l);
    assert LoadOf(adj, l, rate) == mu[l] * 1.05;
    forall k | 0 <= k < |adj| && !short[k] && l in adj[k]
      ensures GetsNoMore(weight, rate, k, j)
    {
      assert Uses(q, k, l);
      SameOrder(q, rate, k, j);
    }
  }

  /** A settled allocation of the capacities left over fills the links themselves. */
  lemma SettledIsFilled(adj: seq<seq<nat>>, mu: seq<real>, short: seq<bool>, weight: seq<real>, rate: seq<real>,
                        scaled: seq<bool>, uc: seq<real>)
    requires |adj| == |short| == |weight| == |rate|
    requires forall j :: 0 <= j < |adj| && short[j] ==> rate[j] == weight[j]
    requires Settled(Leftover(adj, mu, short, weight), rate, scaled, uc)
    ensures Filled(adj, mu, short, weight, rate)
  {
    hide LoadOf, Load, Taking, Bottleneck, FilledFor, Capacity;
    var q := ProblemOf(Leftover(adj, mu, short, weight));
    FairFits(q, rate);
    hide Fair;
    forall l | 0 <= l < |mu| && Carries(adj, short, l)
      ensures LoadOf(adj, l, rate) <= mu[l] * 1.05
    {
      var j: nat :| 0 <= j < |adj| && l in adj[j] && !short[j];
      assert Uses(q, j, l);
      SameGap(adj, mu, short, weight, rate, l);
    }
    hide Feasible;
    forall j | 0 <= j < |adj| && !short[j]
      ensures exists l: nat :: FilledFor(adj, mu, short, weight, rate, j, l)
    {
      assert HasBottleneck(q, rate, j);
      var l: nat :| Bottleneck(q, rate, j, l);
      BottleneckIsFilled(adj, mu, short, weight, rate, j, l);
    }
  }

  /** Some link in use is filled beyond 105 per cent of its rate. */
  ghost predicate Overfull(adj: seq<seq<nat>>, mu: seq<real>, short: seq<bool>, rate: seq<real>)
    requires |adj| == |short| == |rate|
  {
    exists l :: 0 <= l < |mu| && Carries(adj, short, l) && LoadOf(adj, l, rate) > mu[l] * 1.05
  }

  lemma OverbookedIsOverfull(adj: seq<seq<nat>>, mu: seq<real>, short: seq<bool>, weight: seq<real>, rate: seq<real>)
    requires |adj| == |short| == |weight| == |rate|
    requires forall j :: 0 <= j < |adj| && short[j] ==> rate[j] == weight[j]
    requires Overbooked(Leftover(adj, mu, short, weight), rate)
    ensures Overfull(adj, mu, short, rate)
  {
    hide LoadOf;
    var p := Leftover(adj, mu, short, weight);
    var l :| 0 <= l < |p.cap| && Carries(adj, short, l) && LoadOf(adj, l, Taking(rate, Bulk(short))) > p.cap[l];
    SameGap(adj, mu, short, weight, rate, l);
    hide Capacity;
  }

  lemma FairFits(q: Problem, rate: seq<real>)
    requires Valid(q) && Fair(q, rate)
    ensures Feasible(q, rate)
  {
  }

  /** Every bulk flow on link `l` has its final rate. */
  ghost predicate AllFixed(adj: seq<seq<nat>>, short: seq<bool>, fixed: seq<bool>, l: nat)
    requires |adj| == |short| == |fixed|
  {
    forall j :: 0 <= j < |adj| && !short[j] && l in adj[j] ==> fixed[j]
  }

  /** How far a link is from being the bottleneck at congestion `gamma`. */
  function Slack(gamma: real, left: real, load: real): real {
    gamma * left - load
  }

  // ---------- one round, on values ----------

  /** The fixed data of an allocation. */
  datatype Setup = Setup(adj: seq<seq<nat>>, short: seq<bool>, cap: seq<real>, weight: seq<real>)

  /** The running data: rates, which are final, what links have left and still carry unscaled, and the congestion
  at which each final rate was fixed. */
  datatype State = State(rate: seq<real>, fixed: seq<bool>, left: seq<real>, load: seq<real>, factor: seq<real>)

  ghost predicate Shaped(p: Setup, s: State) {
    && |p.adj| == |p.short| == |p.weight| == |s.rate| == |s.fixed| == |s.factor|
    && |p.cap| == |s.left| == |s.load|
    && forall j :: 0 <= j < |p.adj| ==> forall l :: l in p.adj[j] ==> l < |p.cap|
  }

  ghost predicate Books(p: Setup, s: State)
    requires Shaped(p, s)
  {
    && (forall l :: 0 <= l < |p.cap| ==> s.load[l] == Total(p.adj, l, s.rate, Chosen(p.short, s.fixed, false)))
    && (forall l :: 0 <= l < |p.cap| ==> s.left[l] == p.cap[l] - Total(p.adj, l, s.rate, Chosen(p.short, s.fixed, true)))
  }

  /** Nothing is overbooked, and a full link has no unscaled flows. */
  ghost predicate Headroom(p: Setup, s: State)
    requires Shaped(p, s)
  {
    forall l :: 0 <= l < |p.cap| && Carries(p.adj, p.short, l) ==>
      s.left[l] >= 0.0 && (s.left[l] == 0.0 ==> s.load[l] == 0.0)
  }

  /** Final rates are weights divided by factors no smaller than the current congestion; the others are weights. */
  ghost predicate Factors(p: Setup, s: State, gamma: real)
    requires Shaped(p, s)
  {
    && (forall j :: 0 <= j < |p.adj| && !p.short[j] && s.fixed[j] ==>
          s.factor[j] > 0.0 && s.factor[j] >= gamma && s.rate[j] * s.factor[j] == p.weight[j])
    && (forall j :: 0 <= j < |p.adj| && !p.short[j] && !s.fixed[j] ==> s.rate[j] == p.weight[j])
  }

  ghost predicate HoldsBack(p: Setup, s: State, j: nat, b: nat)
    requires Shaped(p, s) && j < |p.adj|
  {
    && b < |p.cap| && b in p.adj[j] && s.left[b] == 0.0 && AllFixed(p.adj, p.short, s.fixed, b)
    && forall k :: 0 <= k < |p.adj| && !p.short[k] && b in p.adj[k] ==> s.factor[k] >= s.factor[j]
  }

  ghost predicate AllHeld(p: Setup, s: State)
    requires Shaped(p, s)
  {
    forall j :: 0 <= j < |p.adj| && !p.short[j] && s.fixed[j] ==> exists b: nat :: HoldsBack(p, s, j, b)
  }

  /** What SelectBottleneck promises. */
  ghost predicate Selected(p: Setup, s: State, b: int, gamma: real)
    requires Shaped(p, s)
  {
    && -1 <= b < |p.cap|
    && (b == -1 ==> gamma == 0.0)
    && (b >= 0 ==> s.left[b] != 0.0 && gamma == s.load[b] / s.left[b] && gamma > 0.0)
    && forall l :: 0 <= l < |p.cap| && s.left[l] != 0.0 ==> s.load[l] / s.left[l] <= gamma
  }

  /** What ScaleLink does, with the factors it uses. */
  ghost predicate Round(p: Setup, s: State, s': State, b: nat, gamma: real)
    requires Shaped(p, s) && Shaped(p, s')
  {
    && gamma > 0.0
    && (forall j :: 0 <= j < |p.adj| ==> s'.fixed[j] == (s.fixed[j] || (!p.short[j] && b in p.adj[j])))
    && (forall j :: 0 <= j < |p.adj| ==> s'.rate[j] == if s'.fixed[j] && !s.fixed[j] then s.rate[j] / gamma else s.rate[j])
    && (forall j :: 0 <= j < |p.adj| ==> s'.factor[j] == if s'.fixed[j] && !s.fixed[j] then gamma else s.factor[j])
    && (forall l :: 0 <= l < |p.cap| ==> Slack(gamma, s'.left[l], s'.load[l]) == Slack(gamma, s.left[l], s.load[l]))
    && (forall l :: 0 <= l < |p.cap| && AllFixed(p.adj, p.short, s.fixed, l) ==> s'.left[l] == s.left[l])
  }

  lemma SlackAtBottleneck(gamma: real, left: real, load: real)
    requires left != 0.0 && gamma == load / left
    ensures Slack(gamma, left, load) == 0.0
  {
  }

  lemma SlackEmpty(gamma: real, left: real, load: real)
    requires gamma > 0.0 && Slack(gamma, left, load) == 0.0 && load == 0.0
    ensures left == 0.0
  {
  }

  /** The bottleneck is used up exactly: setting its remaining capacity to zero changes nothing. */
  lemma BottleneckEmpties(p: Setup, s: State, s': State, b: nat, gamma: real)
    requires Shaped(p, s) && Shaped(p, s') && b < |p.cap|
    requires Books(p, s') && Selected(p, s, b, gamma) && Round(p, s, s', b, gamma)
    ensures s'.load[b] == 0.0 && s'.left[b] == 0.0
  {
    NoFlowsNoTotal(p.adj, b, s'.rate, Chosen(p.short, s'.fixed, false));
    SlackAtBottleneck(gamma, s.left[b], s.load[b]);
    SlackEmpty(gamma, s'.left[b], s'.load[b]);
  }

  /** Some flow on a bottleneck is still unscaled, so every round makes progress. */
  lemma BottleneckHasWork(p: Setup, s: State, b: nat, gamma: real)
    requires Shaped(p, s) && Books(p, s) && b < |p.cap| && Selected(p, s, b, gamma)
    ensures exists j :: 0 <= j < |p.adj| && b in p.adj[j] && !p.short[j] && !s.fixed[j]
  {
    if !exists j :: 0 <= j < |p.adj| && b in p.adj[j] && !p.short[j] && !s.fixed[j] {
      NoFlowsNoTotal(p.adj, b, s.rate, Chosen(p.short, s.fixed, false));
      assert false;
    }
  }

  lemma DivOrder(load: real, left: real, gamma: real)
    requires left > 0.0
    ensures load / left <= gamma <==> Slack(gamma, left, load) >= 0.0
  {
  }

  /** Room on a link survives a round at its congestion or above. */
  lemma SlackKeepsRoom(gamma: real, left: real, load: real)
    requires gamma > 0.0 && Slack(gamma, left, load) >= 0.0 && load >= 0.0
    ensures left >= 0.0 && (left == 0.0 ==> load == 0.0)
  {
  }

  /** Rates of flows that are not fixed are positive weights. */
  lemma LoadsNonNegative(p: Setup, s: State, gamma: real, l: nat)
    requires Shaped(p, s) && Books(p, s) && Factors(p, s, gamma) && Positive(p.weight, p.short) && l < |p.cap|
    ensures s.load[l] >= 0.0
    ensures s.load[l] > 0.0 <==> exists j :: 0 <= j < |p.adj| && l in p.adj[j] && !p.short[j] && !s.fixed[j]
  {
    TotalPositive(p.adj, l, s.rate, Chosen(p.short, s.fixed, false));
  }

  lemma RoundKeepsFactors(p: Setup, s: State, s': State, b: nat, gamma: real)
    requires Shaped(p, s) && Shaped(p, s') && Factors(p, s, gamma) && gamma > 0.0 && Round(p, s, s', b, gamma)
    ensures Factors(p, s', gamma)
  {
    forall j | 0 <= j < |p.adj| && !p.short[j] && s'.fixed[j] && !s.fixed[j]
      ensures s'.rate[j] * s'.factor[j] == p.weight[j]
    {
      assert s.rate[j] / gamma * gamma == s.rate[j];
    }
  }

  /** In a selected round no carrying link has negative slack. */
  lemma SelectedSlack(p: Setup, s: State, b: int, gamma: real, l: nat)
    requires Shaped(p, s) && Headroom(p, s) && Selected(p, s, b, gamma)
    requires l < |p.cap| && Carries(p.adj, p.short, l)
    ensures Slack(gamma, s.left[l], s.load[l]) >= 0.0
  {
    if s.left[l] > 0.0 {
      DivOrder(s.load[l], s.left[l], gamma);
    }
  }

  lemma RoundKeepsHeadroom(p: Setup, s: State, s': State, b: nat, gamma: real)
    requires Shaped(p, s) && Shaped(p, s') && Positive(p.weight, p.short)
    requires Headroom(p, s) && Selected(p, s, b, gamma) && Books(p, s') && Factors(p, s', gamma)
    requires Round(p, s, s', b, gamma)
    ensures Headroom(p, s')
  {
    forall l | 0 <= l < |p.cap| && Carries(p.adj, p.short, l)
      ensures s'.left[l] >= 0.0 && (s'.left[l] == 0.0 ==> s'.load[l] == 0.0)
    {
      SelectedSlack(p, s, b, gamma, l);
      LoadsNonNegative(p, s', gamma, l);
      SlackKeepsRoom(gamma, s'.left[l], s'.load[l]);
    }
  }

  /** The next bottleneck is no more congested than this one. */
  lemma CongestionFalls(p: Setup, s: State, s': State, b: nat, gamma: real, b': int, gamma': real)
    requires Shaped(p, s) && Shaped(p, s') && Positive(p.weight, p.short)
    requires Headroom(p, s) && Headroom(p, s') && Books(p, s') && Factors(p, s', gamma)
    requires Selected(p, s, b, gamma) && Round(p, s, s', b, gamma) && Selected(p, s', b', gamma')
    requires b >= 0
    ensures gamma' <= gamma
  {
    if b' >= 0 {
      BottleneckHasWork(p, s', b', gamma');
      assert Carries(p.adj, p.short, b');
      SelectedSlack(p, s, b, gamma, b');
      assert s'.left[b'] > 0.0;
      DivOrder(s'.load[b'], s'.left[b'], gamma);
    }
  }

  lemma RoundKeepsHeld(p: Setup, s: State, s': State, b: nat, gamma: real)
    requires Shaped(p, s) && Shaped(p, s') && b < |p.cap| && gamma > 0.0
    requires Factors(p, s, gamma) && AllHeld(p, s) && Round(p, s, s', b, gamma) && s'.left[b] == 0.0
    ensures AllHeld(p, s')
  {
    forall j | 0 <= j < |p.adj| && !p.short[j] && s'.fixed[j]
      ensures exists b': nat :: HoldsBack(p, s', j, b')
    {
      if s.fixed[j] {
        var l: nat :| HoldsBack(p, s, j, l);
        assert HoldsBack(p, s', j, l);
      } else {
        assert HoldsBack(p, s', j, b);
      }
    }
  }

  // ---------- the end of the run ----------

  function ProblemOf(p: Setup): Problem {
    Problem(p.adj, p.weight, Bulk(p.short), p.cap)
  }

  function Bulk(short: seq<bool>): seq<bool> {
    seq(|short|, j requires 0 <= j < |short| => !short[j])
  }

  lemma AllAreFixed(p: Setup, s: State, j: nat)
    requires Shaped(p, s) && Books(p, s) && Headroom(p, s) && Factors(p, s, 0.0) && Positive(p.weight, p.short)
    requires Routed(p.adj, p.short) && Selected(p, s, -1, 0.0) && j < |p.adj| && !p.short[j]
    ensures s.fixed[j]
  {
    if !s.fixed[j] {
      var l := p.adj[j][0];
      assert l in p.adj[j];
      assert Carries(p.adj, p.short, l);
      LoadsNonNegative(p, s, 0.0, l);
      assert s.left[l] > 0.0;
      DivOrder(s.load[l], s.left[l], 0.0);
      assert false;
    }
  }

  lemma PositiveFactor(x: real, a: real)
    requires a > 0.0 && x * a > 0.0
    ensures x > 0.0
  {
  }

  lemma SharesFollowFactors(x: real, a: real, v: real, y: real, c: real, w: real)
    requires a > 0.0 && c > 0.0 && a >= c && x * a == v && y * c == w && v > 0.0 && w > 0.0
    ensures x * w <= y * v && x > 0.0 && y > 0.0
  {
    PositiveFactor(x, a);
    PositiveFactor(y, c);
    assert x * w == (x * y) * c && y * v == (x * y) * a;
    assert (x * y) > 0.0;
    assert (x * y) * (a - c) >= 0.0;
  }

  lemma FinalIsFeasible(p: Setup, s: State)
    requires Shaped(p, s) && Books(p, s) && Headroom(p, s) && Factors(p, s, 0.0) && Positive(p.weight, p.short)
    requires Routed(p.adj, p.short) && forall j :: 0 <= j < |p.adj| && !p.short[j] ==> s.fixed[j]
    ensures Valid(ProblemOf(p)) && Feasible(ProblemOf(p), s.rate)
    ensures forall l :: 0 <= l < |p.cap| ==> Load(ProblemOf(p), l, s.rate) == p.cap[l] - s.left[l]
  {
    assert Chosen(p.short, s.fixed, true) == Bulk(p.short);
    forall j | 0 <= j < |p.adj| && !p.short[j]
      ensures s.rate[j] >= 0.0
    {
      SharesFollowFactors(s.rate[j], s.factor[j], p.weight[j], s.rate[j], s.factor[j], p.weight[j]);
    }
    var q := ProblemOf(p);
    forall l: nat, j: nat | Uses(q, j, l)
      ensures Load(q, l, s.rate) <= q.capacity[l]
    {
      assert Carries(p.adj, p.short, l);
    }
  }

  lemma FinalIsFair(p: Setup, s: State)
    requires Shaped(p, s) && Books(p, s) && Sound(p, s, 0.0)
    requires Positive(p.weight, p.short) && Routed(p.adj, p.short) && Selected(p, s, -1, 0.0)
    ensures Settled(p, s.rate, s.fixed, s.left)
  {
    forall j | 0 <= j < |p.adj| && !p.short[j]
      ensures s.fixed[j]
    {
      AllAreFixed(p, s, j);
    }
    FinalIsFeasible(p, s);
    forall j | 0 <= j < |p.adj| && !p.short[j]
      ensures HasBottleneck(ProblemOf(p), s.rate, j)
    {
      HeldIsBottlenecked(p, s, j);
    }
    hide Valid, Feasible, HasBottleneck, Fair;
    BottleneckedIsFair(ProblemOf(p), s.rate);
  }

  lemma HeldIsBottlenecked(p: Setup, s: State, j: nat)
    requires Shaped(p, s) && Factors(p, s, 0.0) && AllHeld(p, s) && Positive(p.weight, p.short)
    requires forall k :: 0 <= k < |p.adj| && !p.short[k] ==> s.fixed[k]
    requires Valid(ProblemOf(p))
    requires forall l :: 0 <= l < |p.cap| ==> Load(ProblemOf(p), l, s.rate) == p.cap[l] - s.left[l]
    requires j < |p.adj| && !p.short[j]
    ensures HasBottleneck(ProblemOf(p), s.rate, j)
  {
    hide LoadOf, Taking, Feasible;
    var q := ProblemOf(p);
    var b: nat :| HoldsBack(p, s, j, b);
    forall k: nat | Uses(q, k, b)
      ensures NoBetter(q, s.rate, k, j)
    {
      SharesFollowFactors(s.rate[k], s.factor[k], p.weight[k], s.rate[j], s.factor[j], p.weight[j]);
    }
    assert Bottleneck(q, s.rate, j, b);
  }

  /** Without room on every carrying link, no allocation of positive rates fits, so neither does this one. */
  lemma NoRoomNoFit(p: Setup, rate: seq<real>)
    requires |p.adj| == |p.short| == |rate| && Positive(rate, p.short) && !Roomy(p.adj, p.short, p.cap)
    ensures Overbooked(p, rate)
  {
    var l :| 0 <= l < |p.cap| && Carries(p.adj, p.short, l) && p.cap[l] <= 0.0;
    TotalPositive(p.adj, l, rate, Bulk(p.short));
  }

  /** Some link carries more than it can. */
  ghost predicate Overbooked(p: Setup, rate: seq<real>) {
    |p.adj| == |p.short| == |rate| &&
    exists l :: 0 <= l < |p.cap| && Carries(p.adj, p.short, l)
                && LoadOf(p.adj, l, Taking(rate, Bulk(p.short))) > p.cap[l]
  }

  /** The outcome of a good run: a fair allocation, in which every bulk flow is scaled and held back by some
  bottleneck, and no link in use is left with a debt. */
  ghost predicate Settled(p: Setup, rate: seq<real>, scaled: seq<bool>, uc: seq<real>) {
    var q := ProblemOf(p);
    && |p.adj| == |p.short| == |rate| == |scaled| && |uc| == |p.cap|
    && Valid(q) && Fair(q, rate)
    && (forall j :: 0 <= j < |p.adj| && !p.short[j] ==> scaled[j] && HasBottleneck(q, rate, j))
    && forall l :: 0 <= l < |p.cap| && Carries(p.adj, p.short, l) ==> uc[l] >= 0.0
  }

  /** Flows that take no part are marked as scaled and keep their rates. */
  ghost predicate ShortKept(p: Setup, s: State)
    requires Shaped(p, s)
  {
    forall j :: 0 <= j < |p.adj| && p.short[j] ==> s.fixed[j] && s.rate[j] == p.weight[j]
  }

  /** A run before any judgement of its input: short flows are left alone, and rates stay positive if they were. */
  ghost predicate Ordinary(p: Setup, s: State)
    requires Shaped(p, s)
  {
    ShortKept(p, s) && (Positive(p.weight, p.short) ==> Positive(s.rate, p.short))
  }

  /** A run with positive rates and room on the links. */
  ghost predicate Sound(p: Setup, s: State, gamma: real)
    requires Shaped(p, s)
  {
    Headroom(p, s) && Factors(p, s, gamma) && AllHeld(p, s)
  }

  /** The congestion of the rounds so far never rises; `g` is the latest. */
  predicate Falling(gammas: seq<real>, g: real) {
    && |gammas| > 0 && gammas[|gammas| - 1] == g
    && forall i :: 0 < i < |gammas| ==> gammas[i] <= gammas[i - 1]
  }

  lemma FallingStarts(g: real)
    ensures Falling([g], g)
  {
  }

  lemma FallingGrows(gammas: seq<real>, g: real, g': real)
    requires Falling(gammas, g) && g' <= g
    ensures Falling(gammas + [g'], g')
  {
  }

  class Allocator {
    const adj: seq<seq<nat>>
    const theflows: seq<seq<nat>>
    const mu: seq<real>
    const short: seq<bool>
    const pTput: array<real>
    const scaled: array<bool>
    const uc: array<real>
    const utput: array<real>

    ghost predicate Shape() {
      && |adj| == |short| == pTput.Length == scaled.Length
      && |mu| == |theflows| == uc.Length == utput.Length
      && pTput != uc && pTput != utput && uc != utput
      && (forall j :: 0 <= j < |adj| ==> forall l :: l in adj[j] ==> l < |mu|)
      && forall l :: 0 <= l < |mu| ==> theflows[l] == FlowsOn(adj, l)
    }

    /** What GetInputs leaves behind, with its last loop: the flows of every link. */
    constructor (adj: seq<seq<nat>>, mu: seq<real>, short: seq<bool>, rate: seq<real>)
      requires |adj| == |short| == |rate|
      requires forall j :: 0 <= j < |adj| ==> forall l :: l in adj[j] ==> l < |mu|
      ensures Shape() && this.adj == adj && this.mu == mu && this.short == short && pTput[..] == rate
      ensures fresh(pTput) && fresh(scaled) && fresh(uc) && fresh(utput)
    {
      var index: seq<seq<nat>> := [];
      while |index| < |mu|
        invariant |index| <= |mu| && forall l :: 0 <= l < |index| ==> index[l] == FlowsOn(adj, l)
      {
        var flows := BuildIndex(adj, |index|);
        index := index + [flows];
      }
      this.adj, this.mu, this.short, theflows := adj, mu, short, index;
      pTput := new real[|rate|](i requires 0 <= i < |rate| => rate[i]);
      scaled := new bool[|rate|];
      uc, utput := new real[|mu|], new real[|mu|];
    }

    /** The two running sums agree with the flows: unscaled load, and capacity less scaled load. */
    ghost predicate Accounts(cap: seq<real>)
      requires Shape() && |cap| == |mu|
      reads pTput, scaled, uc, utput
    {
      && (forall l :: 0 <= l < |mu| ==> utput[l] == Total(adj, l, pTput[..], Chosen(short, scaled[..], false)))
      && (forall l :: 0 <= l < |mu| ==> uc[l] == cap[l] - Total(adj, l, pTput[..], Chosen(short, scaled[..], true)))
    }

    /** One flow's share taken from every link on its route, once per crossing. */
    method Charge(t: nat, down: real, load: real)
      requires Shape() && t < |adj|
      modifies uc, utput
      ensures forall l :: 0 <= l < |mu| ==> uc[l] == old(uc[l]) - Times(Crossings(adj[t], l), down)
      ensures forall l :: 0 <= l < |mu| ==> utput[l] == old(utput[l]) - Times(Crossings(adj[t], l), load)
    {
      var j := 0;
      while j < |adj[t]|
        invariant 0 <= j <= |adj[t]|
        invariant forall l :: 0 <= l < |mu| ==> uc[l] == old(uc[l]) - Times(Crossings(adj[t][..j], l), down)
        invariant forall l :: 0 <= l < |mu| ==> utput[l] == old(utput[l]) - Times(Crossings(adj[t][..j], l), load)
      {
        ghost var route := adj[t][..j];
        assert adj[t][j] in adj[t];
        assert adj[t][..j + 1] == route + [adj[t][j]];
        forall l | 0 <= l < |mu|
          ensures Times(Crossings(adj[t][..j + 1], l), down)
                  == Times(Crossings(route, l), down) + (if adj[t][j] == l then down else 0.0)
          ensures Times(Crossings(adj[t][..j + 1], l), load)
                  == Times(Crossings(route, l), load) + (if adj[t][j] == l then load else 0.0)
        {
          OneMore(route, adj[t][j], l, down);
          OneMore(route, adj[t][j], l, load);
        }
        hide Times, Crossings;
        uc[adj[t][j]] := uc[adj[t][j]] - down;
        utput[adj[t][j]] := utput[adj[t][j]] - load;
        j := j + 1;
      }
      assert adj[t][..j] == adj[t];
    }

    static lemma OneMore(route: seq<nat>, x: nat, l: nat, r: real)
      ensures Times(Crossings(route + [x], l), r) == Times(Crossings(route, l), r) + (if x == l then r else 0.0)
    {
      assert (route + [x])[..|route|] == route;
    }

    /** The most congested link with something left, and how congested it is; -1 when no link has unscaled load. */
    method SelectBottleneck() returns (bneck: int, maxgamma: real)
      requires Shape()
      ensures -1 <= bneck < |mu|
      ensures bneck == -1 ==> maxgamma == 0.0
      ensures bneck >= 0 ==> uc[bneck] != 0.0 && maxgamma == utput[bneck] / uc[bneck] && maxgamma > 0.0
      ensures forall l :: 0 <= l < |mu| && uc[l] != 0.0 ==> utput[l] / uc[l] <= maxgamma
    {
      bneck, maxgamma := -1, 0.0;
      var i := 0;
      while i < |mu|
        invariant 0 <= i <= |mu| && -1 <= bneck < i
        invariant bneck == -1 ==> maxgamma == 0.0
        invariant bneck >= 0 ==> uc[bneck] != 0.0 && maxgamma == utput[bneck] / uc[bneck] && maxgamma > 0.0
        invariant forall l :: 0 <= l < i && uc[l] != 0.0 ==> utput[l] / uc[l] <= maxgamma
      {
        if uc[i] != 0.0 {
          var t := utput[i] / uc[i];
          if t > maxgamma {
            bneck, maxgamma := i, t;
          }
        }
        i := i + 1;
      }
    }

    /** Fix one bulk flow at its rate divided by `gamma`. */
    method ScaleFlow(t: nat, gamma: real, ghost cap: seq<real>)
      requires Shape() && |cap| == |mu| && Accounts(cap)
      requires t < |adj| && !short[t] && !scaled[t] && gamma > 0.0
      modifies pTput, scaled, uc, utput
      ensures Accounts(cap)
      ensures pTput[..] == old(pTput[..])[t := old(pTput[t]) / gamma]
      ensures scaled[..] == old(scaled[..])[t := true]
      ensures forall l :: 0 <= l < |mu| ==> Slack(gamma, uc[l], utput[l]) == old(Slack(gamma, uc[l], utput[l]))
      ensures forall l :: 0 <= l < |mu| && l !in adj[t] ==> uc[l] == old(uc[l])
    {
      ghost var rate, done := pTput[..], scaled[..];
      var x := pTput[t] / gamma;
      pTput[t] := x;
      scaled[t] := true;
      assert pTput[..] == rate[t := x] && scaled[..] == done[t := true];
      assert x * gamma == rate[t];
      Charge(t, x, x * gamma);
      forall l | 0 <= l < |mu|
        ensures utput[l] == Total(adj, l, rate[t := x], Chosen(short, done[t := true], false))
        ensures uc[l] == cap[l] - Total(adj, l, rate[t := x], Chosen(short, done[t := true], true))
        ensures Slack(gamma, uc[l], utput[l]) == old(Slack(gamma, uc[l], utput[l]))
        ensures l !in adj[t] ==> uc[l] == old(uc[l])
      {
        MoveFlow(adj, l, rate, short, done, t, x);
        ScaledTimes(Crossings(adj[t], l), x, gamma);
        CrossingsPositive(adj[t], l);
      }
    }

    static lemma ScaledTimes(c: nat, x: real, gamma: real)
      ensures Times(c, x * gamma) == gamma * Times(c, x)
      ensures c == 0 ==> Times(c, x) == 0.0
    {
    }

    /** Fix every bulk flow on link `b` that is not fixed yet. */
    method ScaleLink(b: nat, gamma: real, ghost cap: seq<real>)
      requires Shape() && |cap| == |mu| && Accounts(cap) && b < |mu| && gamma > 0.0
      modifies pTput, scaled, uc, utput
      ensures Accounts(cap)
      ensures forall j :: 0 <= j < |adj| ==> scaled[j] == (old(scaled[j]) || (!short[j] && b in adj[j]))
      ensures forall j :: 0 <= j < |adj| ==>
                pTput[j] == if scaled[j] && !old(scaled[j]) then old(pTput[j]) / gamma else old(pTput[j])
      ensures forall l :: 0 <= l < |mu| ==> Slack(gamma, uc[l], utput[l]) == old(Slack(gamma, uc[l], utput[l]))
      ensures forall l :: 0 <= l < |mu| ==>
                AllFixed(adj, short, old(scaled[..]), l) ==> uc[l] == old(uc[l])
    {
      hide Slack;
      var i := 0;
      while i < |theflows[b]|
        invariant 0 <= i <= |theflows[b]| && Accounts(cap)
        invariant forall j :: 0 <= j < |adj| ==> scaled[j] == (old(scaled[j]) || (!short[j] && j in theflows[b][..i]))
        invariant forall j :: 0 <= j < |adj| ==>
                    pTput[j] == if scaled[j] && !old(scaled[j]) then old(pTput[j]) / gamma else old(pTput[j])
        invariant forall l :: 0 <= l < |mu| ==> Slack(gamma, uc[l], utput[l]) == old(Slack(gamma, uc[l], utput[l]))
        invariant forall l :: 0 <= l < |mu| ==>
                    AllFixed(adj, short, old(scaled[..]), l) ==> uc[l] == old(uc[l])
      {
        var t := theflows[b][i];
        IndexIsInverse(adj, b, t);
        assert t in theflows[b];
        assert theflows[b][..i + 1] == theflows[b][..i] + [t];
        hide Accounts, Slack;
        if !short[t] && !scaled[t] {
          ghost var rate, done := pTput[..], scaled[..];
          ScaleFlow(t, gamma, cap);
          assert forall j :: 0 <= j < |adj| ==> pTput[j] == pTput[..][j] && scaled[j] == scaled[..][j];
          assert !old(scaled[t]);
        }
        i := i + 1;
      }
      hide Accounts, Slack, AllFixed;
      assert theflows[b][..i] == theflows[b];
      forall j | 0 <= j < |adj|
        ensures j in theflows[b] <==> b in adj[j]
      {
        IndexIsInverse(adj, b, j);
      }
    }

    /** The two loops that open newupdate: capacities less the short flows, and loads of the bulk flows. */
    method Start()
      requires Shape()
      modifies scaled, uc, utput
      ensures scaled[..] == short
      ensures Accounts(Capacity(adj, mu, pTput[..], short))
      ensures forall l :: 0 <= l < |mu| ==> uc[l] + LoadOf(adj, l, Taking(pTput[..], short)) == mu[l] * 1.05
      ensures forall l :: 0 <= l < |mu| ==> utput[l] == LoadOf(adj, l, Taking(pTput[..], Bulk(short)))
    {
      var i := 0;
      while i < |mu|
        invariant 0 <= i <= |mu|
        invariant forall l :: 0 <= l < i ==> uc[l] == mu[l] * 1.05 && utput[l] == 0.0
      {
        uc[i] := mu[i] * 1.05;
        utput[i] := 0.0;
        i := i + 1;
      }
      ghost var rate := pTput[..];
      ghost var shorts, bulks := Taking(rate, short), Taking(rate, Bulk(short));
      i := 0;
      while i < |adj|
        invariant 0 <= i <= |adj| && pTput[..] == rate
        invariant forall j :: 0 <= j < i ==> scaled[j] == short[j]
        invariant forall l :: 0 <= l < |mu| ==> uc[l] == mu[l] * 1.05 - LoadOf(adj[..i], l, shorts[..i])
        invariant forall l :: 0 <= l < |mu| ==> utput[l] == LoadOf(adj[..i], l, bulks[..i])
      {
        hide Taking, Bulk, LoadOf, Times, Crossings;
        StartFlow(i);
        forall l | 0 <= l < |mu|
          ensures LoadOf(adj[..i + 1], l, shorts[..i + 1])
                  == LoadOf(adj[..i], l, shorts[..i]) + Times(Crossings(adj[i], l), if short[i] then rate[i] else 0.0)
          ensures LoadOf(adj[..i + 1], l, bulks[..i + 1])
                  == LoadOf(adj[..i], l, bulks[..i]) + Times(Crossings(adj[i], l), if short[i] then 0.0 else rate[i])
        {
          TakenAt(rate, short, i);
          OneMoreFlow(adj, l, shorts, i);
          OneMoreFlow(adj, l, bulks, i);
        }
        i := i + 1;
      }
      hide Taking, Bulk, LoadOf, Times, Crossings;
      assert adj[..i] == adj && shorts[..i] == shorts && bulks[..i] == bulks;
      assert scaled[..] == short;
      forall l | 0 <= l < |mu|
        ensures Total(adj, l, rate, Chosen(short, short, true)) == 0.0
        ensures Total(adj, l, rate, Chosen(short, short, false)) == LoadOf(adj, l, bulks)
        ensures Total(adj, l, rate, short) == LoadOf(adj, l, shorts)
      {
        StartTotals(adj, l, rate, short);
      }
    }

    /** The accounts of one flow before any scaling: a short flow takes capacity, a bulk flow adds load. */
    method StartFlow(i: nat)
      requires Shape() && i < |adj|
      modifies scaled, uc, utput
      ensures scaled[..] == old(scaled[..])[i := short[i]]
      ensures forall l :: 0 <= l < |mu| ==>
                uc[l] == old(uc[l]) - Times(Crossings(adj[i], l), if short[i] then pTput[i] else 0.0)
      ensures forall l :: 0 <= l < |mu| ==>
                utput[l] == old(utput[l]) + Times(Crossings(adj[i], l), if short[i] then 0.0 else pTput[i])
    {
      ghost var x := pTput[i];
      scaled[i] := short[i];
      if short[i] {
        Charge(i, pTput[i], 0.0);
      } else {
        Charge(i, 0.0, -pTput[i]);
      }
      forall l | 0 <= l < |mu|
        ensures Times(Crossings(adj[i], l), 0.0) == 0.0
        ensures Times(Crossings(adj[i], l), -x) == -Times(Crossings(adj[i], l), x)
      {
      }
    }

    static lemma TakenAt(rate: seq<real>, short: seq<bool>, i: nat)
      requires |rate| == |short| && i < |rate|
      ensures |Taking(rate, short)| == |Taking(rate, Bulk(short))| == |rate|
      ensures Taking(rate, short)[i] == if short[i] then rate[i] else 0.0
      ensures Taking(rate, Bulk(short))[i] == if short[i] then 0.0 else rate[i]
    {
    }

    static lemma StartTotals(adj: seq<seq<nat>>, l: nat, rate: seq<real>, short: seq<bool>)
      requires |adj| == |rate| == |short|
      ensures Total(adj, l, rate, Chosen(short, short, true)) == 0.0
      ensures Total(adj, l, rate, Chosen(short, short, false)) == LoadOf(adj, l, Taking(rate, Bulk(short)))
      ensures Total(adj, l, rate, short) == LoadOf(adj, l, Taking(rate, short))
    {
      NoFlowsNoTotal(adj, l, rate, Chosen(short, short, true));
      assert Chosen(short, short, false) == Bulk(short);
    }

    static lemma OneMoreFlow(adj: seq<seq<nat>>, l: nat, f: seq<real>, i: nat)
      requires |adj| == |f| && i < |adj|
      ensures LoadOf(adj[..i + 1], l, f[..i + 1]) == LoadOf(adj[..i], l, f[..i]) + Times(Crossings(adj[i], l), f[i])
    {
      assert adj[..i + 1][..i] == adj[..i] && f[..i + 1][..i] == f[..i];
    }

    ghost function Snap(factor: seq<real>): State
      reads pTput, scaled, uc, utput
    {
      State(pTput[..], scaled[..], uc[..], utput[..], factor)
    }

    ghost function Unscaled(): set<nat>
      reads scaled
    {
      set j: nat | j < scaled.Length && !scaled[j]
    }

    /** newupdate, up to the recomputation of the link arrival rates. */
    method NewUpdate() returns (ghost cap: seq<real>, ghost gammas: seq<real>)
      requires Shape()
      modifies pTput, scaled, uc, utput
      // the books balance, whatever the input
      ensures cap == Capacity(adj, mu, old(pTput[..]), short)
      ensures Accounts(cap)
      ensures ShortUntouched(old(pTput[..]), pTput[..])
      // with positive rates and room on every link in use: links are filled to the limit, and no further, for every flow
      ensures Positive(old(pTput[..]), short) && Routed(adj, short) && RoomForBulk(adj, mu, short, old(pTput[..])) ==>
                Filled(adj, mu, short, old(pTput[..]), pTput[..])
      // that is the fair allocation, in rounds of falling congestion
      ensures RoomForBulk(adj, mu, short, old(pTput[..])) <==> Roomy(adj, short, cap)
      ensures Positive(old(pTput[..]), short) && Routed(adj, short) && Roomy(adj, short, cap) ==>
                Settled(Setup(adj, short, cap, old(pTput[..])), pTput[..], scaled[..], uc[..]) && Falling(gammas, 0.0)
      // without that room: no allocation of positive rates would fit, and this one does not
      ensures Positive(old(pTput[..]), short) && !RoomForBulk(adj, mu, short, old(pTput[..])) ==>
                Overfull(adj, mu, short, pTput[..])
      ensures Positive(old(pTput[..]), short) && !Roomy(adj, short, cap) ==>
                Overbooked(Setup(adj, short, cap, old(pTput[..])), pTput[..])
    {
      ghost var weight := pTput[..];
      cap := Capacity(adj, mu, weight, short);
      ghost var p := Setup(adj, short, cap, weight);
      ghost var ok := Positive(weight, short) && Routed(adj, short) && Roomy(adj, short, cap);
      ghost var factor := seq(|adj|, j => 1.0);
      var bneck, maxgamma := Begin(p, factor);
      factor, gammas := Converge(p, ok, bneck, maxgamma, factor);
      hide Books, Sound, Selected, Settled, Overbooked, Capacity, Roomy, Routed, Accounts, Positive;
      AccountsAreBooks(p, factor);
      RoomIsRoomy(adj, mu, short, weight);
      hide RoomForBulk, Filled, Overfull;
      if ok {
        FinalIsFair(p, Snap(factor));
        SettledIsFilled(adj, mu, short, weight, pTput[..], scaled[..], uc[..]);
      }
      if Positive(weight, short) && !Roomy(adj, short, cap) {
        NoRoomNoFit(p, pTput[..]);
        OverbookedIsOverfull(adj, mu, short, weight, pTput[..]);
      }
    }

    /** The main loop: rounds until no link is a bottleneck. `gammas` lists the congestion of the rounds. */
    method Converge(ghost p: Setup, ghost ok: bool, first: int, congestion: real, ghost factors: seq<real>)
      returns (ghost factor: seq<real>, ghost gammas: seq<real>)
      requires Shape() && p.adj == adj && p.short == short && |factors| == |adj|
      requires Shaped(p, Snap(factors)) && Books(p, Snap(factors)) && Ordinary(p, Snap(factors))
      requires |p.cap| == |mu| && -1 <= first < |mu| && Selected(p, Snap(factors), first, congestion)
      requires ok ==> Positive(p.weight, short) && Sound(p, Snap(factors), congestion)
      modifies pTput, scaled, uc, utput
      ensures |factor| == |adj| && Shaped(p, Snap(factor)) && Books(p, Snap(factor)) && Ordinary(p, Snap(factor))
      ensures Selected(p, Snap(factor), -1, 0.0)
      ensures ok ==> Sound(p, Snap(factor), 0.0) && Falling(gammas, 0.0)
    {
      hide *;
      var bneck, maxgamma := first, congestion;
      factor, gammas := factors, [maxgamma];
      FallingStarts(maxgamma);
      while bneck + 1 != 0
        invariant |factor| == |adj| && Shaped(p, Snap(factor)) && Books(p, Snap(factor))
        invariant -1 <= bneck < |mu| && Selected(p, Snap(factor), bneck, maxgamma)
        invariant Ordinary(p, Snap(factor))
        invariant ok ==> Sound(p, Snap(factor), maxgamma) && Falling(gammas, maxgamma)
        decreases Unscaled()
      {
        ghost var s, b, gamma := Snap(factor), bneck, maxgamma;
        bneck, maxgamma, factor := Step(p, bneck, maxgamma, factor);
        if ok {
          RoundIsGood(p, s, Snap(factor), b, gamma, bneck, maxgamma);
          FallingGrows(gammas, gamma, maxgamma);
        }
        gammas := gammas + [maxgamma];
      }
      SelectedNone(p, Snap(factor), maxgamma);
    }

    ghost predicate ShortUntouched(was: seq<real>, now: seq<real>) {
      |was| == |now| == |short| && forall j :: 0 <= j < |short| && short[j] ==> now[j] == was[j]
    }

    static lemma SelectedNone(p: Setup, s: State, gamma: real)
      requires Shaped(p, s) && Selected(p, s, -1, gamma)
      ensures gamma == 0.0
    {
    }

    /** Everything before the main loop. */
    method Begin(ghost p: Setup, ghost factor: seq<real>) returns (bneck: int, maxgamma: real)
      requires Shape() && |factor| == |adj| && p == Setup(adj, short, Capacity(adj, mu, pTput[..], short), pTput[..])
      modifies scaled, uc, utput
      ensures Shaped(p, Snap(factor)) && Books(p, Snap(factor)) && Ordinary(p, Snap(factor))
      ensures -1 <= bneck < |mu| && Selected(p, Snap(factor), bneck, maxgamma)
      ensures Positive(p.weight, short) && Roomy(adj, short, p.cap) ==> Sound(p, Snap(factor), maxgamma)
    {
      hide Capacity, Total, Positive, Roomy, Sound, Chosen;
      Start();
      bneck, maxgamma := SelectBottleneck();
      assert Books(p, Snap(factor));
      if Positive(p.weight, short) && Roomy(adj, short, p.cap) {
        StartIsGood(p, Snap(factor), maxgamma);
      }
    }

    /** One pass of the main loop: a round, and the search for the next bottleneck. */
    method Step(ghost p: Setup, b: nat, gamma: real, ghost factor: seq<real>)
      returns (bneck: int, maxgamma: real, ghost factor': seq<real>)
      requires Shape() && p.adj == adj && p.short == short && |factor| == |adj|
      requires Shaped(p, Snap(factor)) && Books(p, Snap(factor)) && b < |mu| && Selected(p, Snap(factor), b, gamma)
      requires Ordinary(p, Snap(factor))
      modifies pTput, scaled, uc, utput
      ensures |factor'| == |adj| && Shaped(p, Snap(factor')) && Books(p, Snap(factor'))
      ensures Round(p, old(Snap(factor)), Snap(factor'), b, gamma)
      ensures Ordinary(p, Snap(factor'))
      ensures -1 <= bneck < |mu| && Selected(p, Snap(factor'), bneck, maxgamma)
      ensures Unscaled() < old(Unscaled())
    {
      hide Books, Round, Unscaled, Ordinary;
      ghost var s := Snap(factor);
      factor' := Fill(p, b, gamma, factor);
      bneck, maxgamma := SelectBottleneck();
      assert Selected(p, Snap(factor'), bneck, maxgamma);
      RoundStaysOrdinary(p, s, Snap(factor'), b, gamma);
    }

    /** One round: scale the flows of the bottleneck, then clear what is left of it, which changes nothing. */
    method Fill(ghost p: Setup, b: nat, gamma: real, ghost factor: seq<real>) returns (ghost factor': seq<real>)
      requires Shape() && p.adj == adj && p.short == short && |factor| == |adj|
      requires Shaped(p, Snap(factor)) && Books(p, Snap(factor)) && b < |mu| && Selected(p, Snap(factor), b, gamma)
      modifies pTput, scaled, uc, utput
      ensures |factor'| == |adj| && Shaped(p, Snap(factor')) && Books(p, Snap(factor'))
      ensures Round(p, old(Snap(factor)), Snap(factor'), b, gamma)
      ensures Unscaled() < old(Unscaled())
    {
      hide Total, Chosen, Slack, AllFixed;
      ghost var s, before := Snap(factor), Unscaled();
      BottleneckHasWork(p, s, b, gamma);
      AccountsAreBooks(p, factor);
      ScaleLink(b, gamma, p.cap);
      AccountsAreBooks(p, factor);
      factor' := NewFactors(factor, s.fixed, scaled[..], gamma);
      ghost var s' := Snap(factor');
      assert Round(p, s, s', b, gamma);
      hide Round, Books, Shape, Accounts;
      BottleneckEmpties(p, s, s', b, gamma);
      uc[b] := 0.0;
      assert uc[..] == s'.left;
      assert Unscaled() < before by {
        hide Shaped, Selected;
        var j :| 0 <= j < |adj| && b in adj[j] && !short[j] && !s.fixed[j];
        assert j in before && j !in Unscaled();
      }
    }

    static ghost function NewFactors(factor: seq<real>, was: seq<bool>, now: seq<bool>, gamma: real): seq<real>
      requires |factor| == |was| == |now|
    {
      seq(|factor|, j requires 0 <= j < |factor| => if now[j] && !was[j] then gamma else factor[j])
    }

    lemma AccountsAreBooks(p: Setup, factor: seq<real>)
      requires Shape() && p.adj == adj && p.short == short && |p.cap| == |mu| && Shaped(p, Snap(factor))
      ensures Accounts(p.cap) <==> Books(p, Snap(factor))
    {
    }

    static lemma StartIsGood(p: Setup, s: State, gamma: real)
      requires Shaped(p, s) && s.fixed == p.short && s.rate == p.weight && Books(p, s)
      requires Positive(p.weight, p.short) && Roomy(p.adj, p.short, p.cap)
      ensures Sound(p, s, gamma)
    {
      forall l | 0 <= l < |p.cap|
        ensures s.left[l] == p.cap[l]
      {
        NoFlowsNoTotal(p.adj, l, s.rate, Chosen(p.short, s.fixed, true));
      }
    }

    static lemma RoundIsGood(p: Setup, s: State, s': State, b: nat, gamma: real, b': int, gamma': real)
      requires Shaped(p, s) && Shaped(p, s') && Positive(p.weight, p.short) && b < |p.cap|
      requires Sound(p, s, gamma) && Selected(p, s, b, gamma)
      requires Books(p, s') && Round(p, s, s', b, gamma) && Selected(p, s', b', gamma')
      ensures Sound(p, s', gamma') && gamma' <= gamma
    {
      BottleneckEmpties(p, s, s', b, gamma);
      RoundKeepsFactors(p, s, s', b, gamma);
      RoundKeepsHeadroom(p, s, s', b, gamma);
      CongestionFalls(p, s, s', b, gamma, b', gamma');
      RoundKeepsHeld(p, s, s', b, gamma);
    }

    static lemma RoundStaysOrdinary(p: Setup, s: State, s': State, b: nat, gamma: real)
      requires Shaped(p, s) && Shaped(p, s') && Round(p, s, s', b, gamma) && Ordinary(p, s)
      ensures Ordinary(p, s')
    {
    }
  }
}
