/** The RED router of the analytic simulator: the drop probability and delay at which an M/M/1 queue and the RED
curve agree. */
module Red {
  datatype Red = Red(minTh: real, maxTh: real, maxP: real)

  ghost predicate Sane(r: Red) {
    0.0 <= r.minTh < r.maxTh && r.maxP > 0.0
  }

  // ---------- the formulas ----------

  function LambdaL(r: Red): real
    requires r.minTh >= 0.0
  {
    r.minTh / (1.0 + r.minTh)
  }

  function LambdaH(r: Red): real
    requires r.maxTh >= 0.0 && r.maxP < 1.0
  {
    r.maxTh / (1.0 + r.maxTh) / (1.0 - r.maxP)
  }

  function A(r: Red, lambda: real): real
    requires r.maxP != 0.0
  {
    lambda * (r.maxTh - r.minTh) / r.maxP
  }

  function B(r: Red, lambda: real): real
    requires r.maxP != 0.0
  {
    (r.maxTh - r.minTh) * (1.0 - lambda) / r.maxP + r.minTh * lambda + lambda
  }

  function C(r: Red, lambda: real): real {
    r.minTh * (1.0 - lambda) - lambda
  }

  /** The share to drop so that a load of `carried` remains. */
  function Above(lambda: real, carried: real): real
    requires lambda != 0.0
  {
    (lambda - carried) / lambda
  }

  function Discriminant(r: Red, lambda: real): real
    requires r.maxP != 0.0
  {
    B(r, lambda) * B(r, lambda) - 4.0 * A(r, lambda) * C(r, lambda)
  }

  predicate Low(r: Red, lambda: real)
    requires r.minTh >= 0.0
  {
    lambda <= LambdaL(r)
  }

  predicate High(r: Red, lambda: real)
    requires r.maxTh >= 0.0
  {
    r.maxP < 1.0 && lambda > LambdaH(r)
  }

  // ---------- what they mean ----------

  /** The RED curve: the delay at which packets are dropped with probability `p`. */
  function Curve(r: Red, p: real): real
    requires r.maxP != 0.0
  {
    r.minTh + p * (r.maxTh - r.minTh) / r.maxP
  }

  /** The load that remains when a share `p` is dropped. */
  function Carried(lambda: real, p: real): real {
    lambda * (1.0 - p)
  }

  /** The delay of a queue under load `rho`, without the division: it grows with `rho` and needs `rho` below one. */
  ghost predicate QueueDelay(rho: real, delay: real) {
    rho < 1.0 && delay * (1.0 - rho) == rho
  }

  /** The delay of a queue under load `rho`, as the code computes it. */
  function Delay(rho: real): real
    requires rho != 1.0
  {
    rho / (1.0 - rho)
  }

  /** An operating point: on the queue's delay, and on the RED curve, which is flat beyond `maxP` and before 0. */
  ghost predicate Operates(r: Red, lambda: real, p: real, delay: real)
    requires Sane(r)
  {
    && 0.0 <= p && (p <= r.maxP || p < 1.0) && p <= 1.0
    && QueueDelay(Carried(lambda, p), delay)
    && (p == 0.0 ==> delay <= r.minTh)
    && (0.0 < p <= r.maxP ==> delay == Curve(r, p))
    && (p > r.maxP ==> delay == r.maxTh)
  }

  lemma Scaled(x: real, y: real, z: real)
    requires z != 0.0
    ensures x * y / z == x * (y / z)
  {
  }

  /** The polynomial that the code solves says that the queue's delay is the curve's. */
  lemma PolynomialIsBalance(r: Red, lambda: real, p: real)
    requires Sane(r)
    ensures A(r, lambda) * p * p + B(r, lambda) * p + C(r, lambda)
            == Curve(r, p) * (1.0 - Carried(lambda, p)) - Carried(lambda, p)
  {
    var k := (r.maxTh - r.minTh) / r.maxP;
    Scaled(lambda, r.maxTh - r.minTh, r.maxP);
    Scaled(1.0 - lambda, r.maxTh - r.minTh, r.maxP);
    Scaled(p, r.maxTh - r.minTh, r.maxP);
    assert A(r, lambda) == lambda * k;
    assert B(r, lambda) == k * (1.0 - lambda) + r.minTh * lambda + lambda by {
      assert (r.maxTh - r.minTh) * (1.0 - lambda) == (1.0 - lambda) * (r.maxTh - r.minTh);
    }
    assert Curve(r, p) == r.minTh + p * k;
    Expand(r.minTh, k, lambda, p);
  }

  lemma Expand(m: real, k: real, lambda: real, p: real)
    ensures lambda * k * p * p + (k * (1.0 - lambda) + m * lambda + lambda) * p + (m * (1.0 - lambda) - lambda)
            == (m + p * k) * (1.0 - lambda * (1.0 - p)) - lambda * (1.0 - p)
  {
    var d := m + p * k;
    assert lambda * (1.0 - p) == lambda - lambda * p;
    assert d * (1.0 - (lambda - lambda * p)) == d - d * lambda + d * lambda * p;
    assert d * lambda == m * lambda + p * k * lambda;
    assert d * lambda * p == m * lambda * p + p * k * lambda * p;
  }

  lemma Positive(x: real, y: real)
    requires x >= 0.0 && y >= 0.0
    ensures x * y >= 0.0 && (x > 0.0 && y > 0.0 ==> x * y > 0.0)
  {
  }

  /** Products with a positive factor compare as the other factors do. */
  lemma Cancel(x: real, y: real, z: real, xz: real, yz: real)
    requires z > 0.0 && xz == x * z && yz == y * z
    ensures xz <= yz <==> x <= y
    ensures xz < yz <==> x < y
  {
    if x < y {
      Positive(y - x, z);
    } else if x > y {
      Positive(x - y, z);
    }
  }

  lemma DivPositive(x: real, z: real)
    requires x > 0.0 && z > 0.0
    ensures x / z > 0.0
  {
  }

  lemma Square(x: real)
    ensures x * x >= 0.0
  {
  }

  lemma SquareOrder(x: real, y: real)
    requires 0.0 <= x <= y
    ensures x * x <= y * y
  {
    Positive(x, y - x);
    Positive(y, y - x);
  }

  function Poly(a: real, b: real, c: real, x: real): real {
    a * x * x + b * x + c
  }

  /** The larger root of a quadratic whose ends have opposite signs. */
  lemma LargerRoot(a: real, b: real, c: real, root: real)
    requires a > 0.0 && c < 0.0 && root >= 0.0 && root * root == b * b - 4.0 * a * c
    ensures var p := (-b + root) / (2.0 * a); p > 0.0 && Poly(a, b, c, p) == 0.0
  {
    var p := (-b + root) / (2.0 * a);
    Positive(a, -c);
    assert root > b by {
      if root <= b {
        SquareOrder(root, b);
        assert false;
      }
    }
    var n := -b + root;
    assert p * (2.0 * a) == n;
    assert n * n == 2.0 * b * b - 4.0 * a * c - 2.0 * b * root;
    assert n * n + 2.0 * b * n + 4.0 * a * c == 0.0;
    assert 4.0 * a * Poly(a, b, c, p) == n * n + 2.0 * b * n + 4.0 * a * c by {
      assert 4.0 * a * (a * p * p) == (p * (2.0 * a)) * (p * (2.0 * a));
      assert 4.0 * a * (b * p) == 2.0 * b * (p * (2.0 * a));
      assert 4.0 * a * Poly(a, b, c, p) == 4.0 * a * (a * p * p) + 4.0 * a * (b * p) + 4.0 * a * c;
    }
  }

  /** Above zero, such a quadratic is negative before its root and positive after it. */
  lemma SignsAroundRoot(a: real, b: real, c: real, p: real, x: real)
    requires a > 0.0 && c < 0.0 && p > 0.0 && Poly(a, b, c, p) == 0.0 && x >= 0.0
    ensures Poly(a, b, c, x) < 0.0 <==> x < p
    ensures Poly(a, b, c, x) == 0.0 <==> x == p
  {
    var t := a * (x + p) + b;
    assert (a * p + b) * p == -c;
    Cancel(0.0, a * p + b, p, 0.0, -c);
    Positive(a, x);
    assert t > 0.0;
    assert Poly(a, b, c, x) == Poly(a, b, c, x) - Poly(a, b, c, p) == (x - p) * t by {
      assert (x - p) * t == a * (x - p) * (x + p) + b * (x - p);
      assert a * (x - p) * (x + p) == a * x * x - a * p * p;
    }
    if x < p {
      Positive(p - x, t);
    } else if x > p {
      Positive(x - p, t);
    }
  }

  // ---------- the three branches ----------

  lemma LowOperates(r: Red, lambda: real)
    requires Sane(r) && lambda >= 0.0 && Low(r, lambda)
    ensures lambda < 1.0 && Operates(r, lambda, 0.0, Delay(lambda))
  {
    var m := r.minTh;
    assert LambdaL(r) * (1.0 + m) == m;
    Cancel(lambda, LambdaL(r), 1.0 + m, lambda * (1.0 + m), m);
    Cancel(lambda, 1.0, 1.0 + m, lambda * (1.0 + m), 1.0 + m);
    hide LambdaL;
    LowDelay(m, lambda, Delay(lambda));
    assert Carried(lambda, 0.0) == lambda;
  }

  lemma LowDelay(m: real, lambda: real, d: real)
    requires 0.0 <= lambda < 1.0 && lambda * (1.0 + m) <= m && d * (1.0 - lambda) == lambda
    ensures 0.0 <= d <= m
  {
    Cancel(0.0, d, 1.0 - lambda, 0.0, lambda);
    Cancel(d, m, 1.0 - lambda, lambda, m - lambda * m);
  }

  lemma HighOperates(r: Red, lambda: real)
    requires Sane(r) && lambda >= 0.0 && High(r, lambda)
    ensures lambda > 0.0
    ensures var p := Above(lambda, Carried(LambdaH(r), r.maxP));
      r.maxP < p < 1.0 && Operates(r, lambda, p, r.maxTh)
  {
    var h := LambdaH(r);
    var u := Carried(h, r.maxP);
    CarriedAtH(r);
    Cancel(0.0, h, 1.0 - r.maxP, 0.0, u);
    Cancel(h, lambda, 1.0 - r.maxP, u, Carried(lambda, r.maxP));
    hide LambdaH, Carried;
    HighShare(r.maxP, lambda, u, Above(lambda, u));
  }

  lemma HighShare(maxP: real, lambda: real, u: real, p: real)
    requires lambda > 0.0 && 0.0 < u < Carried(lambda, maxP) && p == Above(lambda, u)
    ensures maxP < p < 1.0 && Carried(lambda, p) == u
  {
    assert p * lambda == lambda - u;
    Cancel(p, 1.0, lambda, lambda - u, lambda);
    Cancel(maxP, p, lambda, maxP * lambda, lambda - u);
  }

  /** At the upper threshold the carried load gives the longest delay of the curve. */
  lemma CarriedAtH(r: Red)
    requires Sane(r) && r.maxP < 1.0
    ensures var u := Carried(LambdaH(r), r.maxP); 0.0 < u && QueueDelay(u, r.maxTh)
  {
    var big := r.maxTh;
    var x := big / (1.0 + big);
    assert x * (1.0 + big) == big;
    assert LambdaH(r) * (1.0 - r.maxP) == x;
    Cancel(0.0, x, 1.0 + big, 0.0, big);
    Cancel(x, 1.0, 1.0 + big, big, 1.0 + big);
    assert big * (1.0 - x) == big - x * big;
  }

  lemma MiddleSigns(r: Red, lambda: real)
    requires Sane(r) && lambda >= 0.0 && !Low(r, lambda)
    ensures A(r, lambda) > 0.0 && C(r, lambda) < 0.0 && Discriminant(r, lambda) > 0.0
  {
    var m := r.minTh;
    assert LambdaL(r) * (1.0 + m) == m;
    Cancel(0.0, LambdaL(r), 1.0 + m, 0.0, m);
    Cancel(LambdaL(r), lambda, 1.0 + m, m, lambda * (1.0 + m));
    assert m * (1.0 - lambda) == m - lambda * m;
    Positive(lambda, r.maxTh - r.minTh);
    DivPositive(lambda * (r.maxTh - r.minTh), r.maxP);
    hide A, B, C;
    Positive(A(r, lambda), -C(r, lambda));
    Square(B(r, lambda));
  }

  /** The polynomial is not negative where the curve ends, nor at one. */
  lemma MiddleEnds(r: Red, lambda: real)
    requires Sane(r) && lambda >= 0.0 && !High(r, lambda)
    ensures r.maxP < 1.0 ==> Poly(A(r, lambda), B(r, lambda), C(r, lambda), r.maxP) >= 0.0
    ensures Poly(A(r, lambda), B(r, lambda), C(r, lambda), 1.0) > 0.0
  {
    MiddleAtOne(r, lambda);
    if r.maxP < 1.0 {
      MiddleAtMax(r, lambda);
    }
  }

  lemma MiddleAtOne(r: Red, lambda: real)
    requires Sane(r)
    ensures Poly(A(r, lambda), B(r, lambda), C(r, lambda), 1.0) > 0.0
  {
    hide A, B, C, Curve;
    PolynomialIsBalance(r, lambda, 1.0);
    CurveGrows(r, 0.0, 1.0);
    assert Carried(lambda, 1.0) == 0.0;
  }

  lemma MiddleAtMax(r: Red, lambda: real)
    requires Sane(r) && lambda >= 0.0 && !High(r, lambda) && r.maxP < 1.0
    ensures Poly(A(r, lambda), B(r, lambda), C(r, lambda), r.maxP) >= 0.0
  {
    hide A, B, C, Curve, LambdaH;
    PolynomialIsBalance(r, lambda, r.maxP);
    CurveGrows(r, 0.0, r.maxP);
    CarriedAtH(r);
    Cancel(lambda, LambdaH(r), 1.0 - r.maxP, Carried(lambda, r.maxP), Carried(LambdaH(r), r.maxP));
    BalanceOrder(r.maxTh, Carried(lambda, r.maxP), Carried(LambdaH(r), r.maxP));
  }

  lemma BalanceOrder(d: real, q: real, u: real)
    requires d >= 0.0 && q <= u
    ensures d * (1.0 - q) - q >= d * (1.0 - u) - u
  {
    Positive(d, u - q);
  }

  lemma MiddleOperates(r: Red, lambda: real, root: real)
    requires Sane(r) && lambda >= 0.0 && !Low(r, lambda) && !High(r, lambda)
    requires root >= 0.0 && root * root == Discriminant(r, lambda)
    ensures A(r, lambda) > 0.0
    ensures var p := (-B(r, lambda) + root) / (2.0 * A(r, lambda));
      && 0.0 < p <= r.maxP && p < 1.0 && Carried(lambda, p) < 1.0
      && Operates(r, lambda, p, Curve(r, p))
      && Delay(Carried(lambda, p)) == Curve(r, p)
  {
    hide A, B, C, Curve, Carried, Low, High, Discriminant;
    var a, b, c := A(r, lambda), B(r, lambda), C(r, lambda);
    MiddleSigns(r, lambda);
    assert root * root == b * b - 4.0 * a * c by {
      DiscriminantIs(r, lambda);
    }
    LargerRoot(a, b, c, root);
    var p := (-b + root) / (2.0 * a);
    MiddleEnds(r, lambda);
    SignsAroundRoot(a, b, c, p, 1.0);
    if r.maxP < 1.0 {
      SignsAroundRoot(a, b, c, p, r.maxP);
    }
    PolynomialIsBalance(r, lambda, p);
    CurveGrows(r, 0.0, p);
    var d, q := Curve(r, p), Carried(lambda, p);
    assert d * (1.0 - q) == q;
    BalanceBelowOne(lambda, p, d, q);
    assert QueueDelay(q, d);
    assert q / (1.0 - q) == d;
  }

  lemma DiscriminantIs(r: Red, lambda: real)
    requires r.maxP != 0.0
    ensures Discriminant(r, lambda) == B(r, lambda) * B(r, lambda) - 4.0 * A(r, lambda) * C(r, lambda)
  {
  }

  lemma BalanceBelowOne(lambda: real, p: real, d: real, q: real)
    requires d >= 0.0 && d * (1.0 - q) == q
    ensures q < 1.0
  {
    Cancel(q, 1.0, 1.0 + d, d, 1.0 + d);
  }

  lemma CurveGrows(r: Red, p: real, p': real)
    requires Sane(r) && p <= p'
    ensures Curve(r, 0.0) == r.minTh && Curve(r, r.maxP) == r.maxTh
    ensures Curve(r, p) <= Curve(r, p')
    ensures p < p' ==> Curve(r, p) < Curve(r, p')
    ensures p >= 0.0 ==> Curve(r, p) >= r.minTh
  {
    var k := (r.maxTh - r.minTh) / r.maxP;
    assert k > 0.0;
    Scaled(p, r.maxTh - r.minTh, r.maxP);
    Scaled(p', r.maxTh - r.minTh, r.maxP);
    Scaled(0.0, r.maxTh - r.minTh, r.maxP);
    Positive(p' - p, k);
    if p >= 0.0 {
      Positive(p, k);
    }
  }

  // ---------- one operating point per load, and both coordinates grow with the load ----------

  lemma DelayGrows(rho: real, d: real, rho': real, d': real)
    requires 0.0 <= rho && QueueDelay(rho, d) && QueueDelay(rho', d')
    ensures rho <= rho' ==> 0.0 <= d <= d'
    ensures rho < rho' ==> d < d'
  {
    Cancel(0.0, d, 1.0 - rho, 0.0, rho);
    if rho <= rho' {
      DelayStep(d, rho, rho');
      Cancel(d, d', 1.0 - rho', d * (1.0 - rho'), rho');
    }
  }

  lemma DelayStep(d: real, rho: real, rho': real)
    requires d >= 0.0 && rho <= rho' && d * (1.0 - rho) == rho
    ensures d * (1.0 - rho') <= rho
  {
    Positive(d, rho' - rho);
  }

  lemma CurveOrder(r: Red, lambda: real, p: real, d: real, lambda': real, p': real, d': real)
    requires Sane(r) && Operates(r, lambda, p, d) && Operates(r, lambda', p', d') && p' < p
    ensures d' <= d && (p' < r.maxP ==> d' < d) && d > 0.0
  {
    hide Curve;
    CurveGrows(r, 0.0, p);
    CurveGrows(r, 0.0, p');
    CurveGrows(r, p', p);
    CurveGrows(r, 0.0, r.maxP);
    if p' <= r.maxP {
      CurveGrows(r, p', r.maxP);
    }
  }

  /** A heavier load is dropped no less and delayed no less. */
  lemma LoadRaisesBoth(r: Red, lambda: real, p: real, d: real, lambda': real, p': real, d': real)
    requires Sane(r) && 0.0 <= lambda <= lambda'
    requires Operates(r, lambda, p, d) && Operates(r, lambda', p', d')
    ensures p <= p' && d <= d'
  {
    var q, q' := Carried(lambda, p), Carried(lambda', p');
    if p' < p {
      CurveOrder(r, lambda, p, d, lambda', p', d');
      CarriedOrder(lambda, p, lambda', p');
      DelayGrows(q, d, q', d');
      assert d == d';
      PositiveCarries(q, d);
      assert false;
    } else if p < p' {
      CurveOrder(r, lambda', p', d', lambda, p, d);
    } else {
      CarriedOrder(lambda, p, lambda', p');
      DelayGrows(q, d, q', d');
    }
  }

  lemma CarriedOrder(lambda: real, p: real, lambda': real, p': real)
    requires 0.0 <= lambda <= lambda' && p' <= p <= 1.0
    ensures 0.0 <= Carried(lambda, p) <= Carried(lambda', p')
    ensures p' < p && Carried(lambda, p) > 0.0 ==> Carried(lambda, p) < Carried(lambda', p')
  {
    Positive(lambda, 1.0 - p);
    Positive(lambda, p - p');
    Positive(lambda' - lambda, 1.0 - p');
    var a, b, c := Carried(lambda, p), Carried(lambda, p'), Carried(lambda', p');
    assert b - a == lambda * (p - p') && c - b == (lambda' - lambda) * (1.0 - p');
    assert lambda == 0.0 ==> a == 0.0;
  }

  lemma PositiveCarries(q: real, d: real)
    requires QueueDelay(q, d) && d > 0.0
    ensures q > 0.0
  {
    Positive(d, 1.0 - q);
  }

  /** No load has two operating points. */
  lemma OperatingPointIsUnique(r: Red, lambda: real, p: real, d: real, p': real, d': real)
    requires Sane(r) && lambda >= 0.0 && Operates(r, lambda, p, d) && Operates(r, lambda, p', d')
    ensures p == p' && d == d'
  {
    LoadRaisesBoth(r, lambda, p, d, lambda, p', d');
    LoadRaisesBoth(r, lambda, p', d', lambda, p, d);
  }

  lemma BranchesDisjoint(r: Red, lambda: real)
    requires Sane(r) && lambda >= 0.0 && Low(r, lambda)
    ensures !High(r, lambda)
  {
    LowOperates(r, lambda);
    if High(r, lambda) {
      HighOperates(r, lambda);
      hide LambdaL, LambdaH, Operates, Delay, Above;
      var p := Above(lambda, Carried(LambdaH(r), r.maxP));
      OperatingPointIsUnique(r, lambda, 0.0, Delay(lambda), p, r.maxTh);
      assert false;
    }
  }

  /** The branches meet: no drop at the lower threshold and its delay, the full probability and delay at the upper. */
  lemma ThresholdsMeet(r: Red, p: real, d: real)
    requires Sane(r)
    ensures Operates(r, LambdaL(r), p, d) ==> p == 0.0 && d == r.minTh
    ensures r.maxP < 1.0 && Operates(r, LambdaH(r), p, d) ==> p == r.maxP && d == r.maxTh
  {
    var l, m := LambdaL(r), r.minTh;
    LowThreshold(r);
    if Operates(r, l, p, d) {
      OperatingPointIsUnique(r, l, p, d, 0.0, m);
    }
    if r.maxP < 1.0 && Operates(r, LambdaH(r), p, d) {
      HighThreshold(r);
      OperatingPointIsUnique(r, LambdaH(r), p, d, r.maxP, r.maxTh);
    }
  }

  lemma LowThreshold(r: Red)
    requires Sane(r)
    ensures LambdaL(r) >= 0.0 && Operates(r, LambdaL(r), 0.0, r.minTh)
  {
    var l, m := LambdaL(r), r.minTh;
    assert l * (1.0 + m) == m;
    Cancel(0.0, l, 1.0 + m, 0.0, m);
    LowOperates(r, l);
    hide LambdaL;
    Cancel(Delay(l), m, 1.0 - l, l, l);
  }

  lemma HighThreshold(r: Red)
    requires Sane(r) && r.maxP < 1.0
    ensures LambdaH(r) > 0.0 && Operates(r, LambdaH(r), r.maxP, r.maxTh)
  {
    CarriedAtH(r);
    CurveGrows(r, 0.0, r.maxP);
    Cancel(0.0, LambdaH(r), 1.0 - r.maxP, 0.0, Carried(LambdaH(r), r.maxP));
    hide LambdaH, Curve, Carried;
  }

  // ---------- the code ----------

  class RedRouter {
    const r: Red
    var lambdaL: real
    var lambdaH: real

    ghost predicate Valid()
      reads this
    {
      Sane(r) && lambdaL == LambdaL(r) && (r.maxP < 1.0 ==> lambdaH == LambdaH(r))
    }

    constructor (minTh: int, maxTh: int, maxP: real)
      requires 0 <= minTh < maxTh && maxP > 0.0
      ensures Valid() && r == Red(minTh as real, maxTh as real, maxP)
    {
      r := Red(minTh as real, maxTh as real, maxP);
      new;
      Populate();
    }

    method Populate()
      requires Sane(r)
      modifies this
      ensures Valid()
    {
      lambdaL := r.minTh / (1.0 + r.minTh);
      if r.maxP < 1.0 {
        lambdaH := r.maxTh / (1.0 + r.maxTh) / (1.0 - r.maxP);
      }
    }

    /** `root` is the square root that the middle branch takes. */
    method ComputeProbability(lambda: real, root: real) returns (p: real, delay: real)
      requires Valid() && lambda >= 0.0
      requires !Low(r, lambda) && !High(r, lambda) ==> root >= 0.0 && root * root == Discriminant(r, lambda)
      ensures Operates(r, lambda, p, delay)
      ensures p == 0.0 <==> Low(r, lambda)
      ensures p > r.maxP <==> High(r, lambda)
    {
      hide Operates, A, B, LambdaL, LambdaH, Curve, Above, Carried, Delay;
      if lambda <= lambdaL {
        LowOperates(r, lambda);
        BranchesDisjoint(r, lambda);
        return 0.0, Delay(lambda);
      }
      if r.maxP < 1.0 && lambda > lambdaH {
        HighOperates(r, lambda);
        return Above(lambda, Carried(lambdaH, r.maxP)), r.maxTh;
      }
      MiddleOperates(r, lambda, root);
      p := (-B(r, lambda) + root) / (2.0 * A(r, lambda));
      delay := Delay(Carried(lambda, p));
    }
  }
}
