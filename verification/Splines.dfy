/** The constraints of planegcs that sum over the poles of a B-spline: the weighted linear combination
    and the slope at a knot. */
module Splines {
  import opened Constraints

  // ---------------------------------------------------------------- sums

  /** The sum of the values from place b on with their factors. */
  function WSum(x: Values, pv: seq<Ptr>, f: seq<real>, b: int, k: nat): (r: real) {
    if k == 0 then 0.0 else WSum(x, pv, f, b, k - 1) + Val(x, pv, b + k - 1) * Nth(f, k - 1)
  }

  /** The sum of the poles from place a on with their weights from place b on and their factors. */
  function PSum(x: Values, pv: seq<Ptr>, f: seq<real>, a: int, b: int, k: nat): (r: real) {
    if k == 0 then 0.0 else PSum(x, pv, f, a, b, k - 1) + Weighted(x, pv, f, a, b, k - 1)
  }

  function Weighted(x: Values, pv: seq<Ptr>, f: seq<real>, a: int, b: int, i: int): (r: real) {
    Val(x, pv, a + i) * (Val(x, pv, b + i) * Nth(f, i))
  }

  /** The rates at which the sums change with p. */
  function WRate(pv: seq<Ptr>, f: seq<real>, b: int, k: nat, p: Ptr): (r: real) {
    if k == 0 then 0.0 else WRate(pv, f, b, k - 1, p) + HitAt(pv, b + k - 1, p) * Nth(f, k - 1)
  }

  function PTerm(x: Values, pv: seq<Ptr>, f: seq<real>, a: int, b: int, i: int, p: Ptr): (r: real) {
    (HitAt(pv, a + i, p) * Val(x, pv, b + i) + Val(x, pv, a + i) * HitAt(pv, b + i, p)) * Nth(f, i)
  }

  function PRate(x: Values, pv: seq<Ptr>, f: seq<real>, a: int, b: int, k: nat, p: Ptr): (r: real) {
    if k == 0 then 0.0 else PRate(x, pv, f, a, b, k - 1, p) + PTerm(x, pv, f, a, b, k - 1, p)
  }

  lemma {:induction false} WSumBump(x: Values, pv: seq<Ptr>, f: seq<real>, b: int, k: nat, p: Ptr, h: real)
    ensures WSum(Bump(x, p, h), pv, f, b, k) == WSum(x, pv, f, b, k) + h * WRate(pv, f, b, k, p)
  {
    hide Bump, Val, HitAt;
    if k > 0 {
      WSumBump(x, pv, f, b, k - 1, p, h);
      ValBump(x, pv, b + k - 1, p, h);
      WTerm(Val(x, pv, b + k - 1), HitAt(pv, b + k - 1, p), Nth(f, k - 1), WRate(pv, f, b, k - 1, p), h);
    }
  }

  lemma WTerm(v: real, r: real, f: real, w: real, h: real)
    ensures (v + h * r) * f == v * f + h * (r * f) && h * (w + r * f) == h * w + h * (r * f)
  {
  }

  /** What is left over of second order where p is both a pole and its weight. */
  function PCurve(pv: seq<Ptr>, f: seq<real>, a: int, b: int, k: nat, p: Ptr): (r: real) {
    if k == 0 then 0.0 else PCurve(pv, f, a, b, k - 1, p) + CurveTerm(pv, f, a, b, k - 1, p)
  }

  function CurveTerm(pv: seq<Ptr>, f: seq<real>, a: int, b: int, i: int, p: Ptr): (r: real) {
    HitAt(pv, a + i, p) * HitAt(pv, b + i, p) * Nth(f, i)
  }

  /** A quantity with the value a, the slope b and the curvature c, after the change h. */
  function Second(h: real, a: real, b: real, c: real): (r: real) {
    a + h * b + h * h * c
  }

  lemma SecondAdd(h: real, a: real, b: real, c: real, a': real, b': real, c': real)
    ensures Second(h, a, b, c) + Second(h, a', b', c') == Second(h, a + a', b + b', c + c')
  {
  }

  lemma SecondNone(h: real)
    ensures Second(h, 0.0, 0.0, 0.0) == 0.0
  {
  }

  lemma {:induction false} PSumBump(x: Values, pv: seq<Ptr>, f: seq<real>, a: int, b: int, k: nat, p: Ptr, h: real)
    ensures PSum(Bump(x, p, h), pv, f, a, b, k) == Second(h, PSum(x, pv, f, a, b, k), PRate(x, pv, f, a, b, k, p),
      PCurve(pv, f, a, b, k, p))
  {
    hide Bump, Val, HitAt, PTerm, CurveTerm, Second, Weighted;
    if k > 0 {
      PSumBump(x, pv, f, a, b, k - 1, p, h);
      PTermBump(x, pv, f, a, b, k - 1, p, h);
      SecondAdd(h, PSum(x, pv, f, a, b, k - 1), PRate(x, pv, f, a, b, k - 1, p), PCurve(pv, f, a, b, k - 1, p),
                Weighted(x, pv, f, a, b, k - 1), PTerm(x, pv, f, a, b, k - 1, p), CurveTerm(pv, f, a, b, k - 1, p));
    } else {
      SecondNone(h);
    }
  }

  lemma PTermBump(x: Values, pv: seq<Ptr>, f: seq<real>, a: int, b: int, i: int, p: Ptr, h: real)
    ensures Weighted(Bump(x, p, h), pv, f, a, b, i) == Second(h, Weighted(x, pv, f, a, b, i),
      PTerm(x, pv, f, a, b, i, p), CurveTerm(pv, f, a, b, i, p))
  {
    ValBump(x, pv, a + i, p, h);
    ValBump(x, pv, b + i, p, h);
    hide Bump, Val, HitAt, Nth;
    PScalar(Val(x, pv, a + i), Val(x, pv, b + i), HitAt(pv, a + i, p), HitAt(pv, b + i, p), Nth(f, i), h);
  }

  lemma PScalar(v: real, w: real, r: real, s: real, f: real, h: real)
    ensures (v + h * r) * ((w + h * s) * f) == v * (w * f) + h * ((r * w + v * s) * f) + h * h * (r * s * f)
  {
    assert (v + h * r) * (w + h * s) == v * w + h * (r * w + v * s) + h * h * (r * s);
  }

  /** p is neither pole j nor its weight. */
  predicate Missed(pv: seq<Ptr>, a: int, b: int, j: int, p: Ptr) {
    HitAt(pv, a + j, p) == 0.0 && HitAt(pv, b + j, p) == 0.0
  }

  /** p is at no pole and no weight but those of number i. */
  ghost predicate Only(pv: seq<Ptr>, a: int, b: int, k: nat, p: Ptr, i: int) {
    forall j | 0 <= j < k && j != i :: Missed(pv, a, b, j, p)
  }

  lemma {:induction false} RateOnly(x: Values, pv: seq<Ptr>, f: seq<real>, a: int, b: int, k: nat, p: Ptr, i: int)
    requires Only(pv, a, b, k, p, i)
    ensures WRate(pv, f, b, k, p) == if 0 <= i < k then HitAt(pv, b + i, p) * Nth(f, i) else 0.0
    ensures PRate(x, pv, f, a, b, k, p) == if 0 <= i < k then PTerm(x, pv, f, a, b, i, p) else 0.0
    ensures PCurve(pv, f, a, b, k, p) == if 0 <= i < k then CurveTerm(pv, f, a, b, i, p) else 0.0
  {
    hide HitAt, Val, Nth;
    if k > 0 {
      assert k - 1 != i ==> Missed(pv, a, b, k - 1, p);
      assert forall j | 0 <= j < k - 1 && j != i :: Missed(pv, a, b, j, p);
      RateOnly(x, pv, f, a, b, k - 1, p, i);
    }
  }

  // ---------------------------------------------------------------- the weighted linear combination

  /** The point, then n poles, then n weights. */
  ghost predicate Shaped(pv: seq<Ptr>, f: seq<real>, n: nat) {
    |f| == n && |pv| == 2 * n + 1
  }

  /** The point times the sum of the weights, less the weighted sum. */
  function Balance(x: Values, pv: seq<Ptr>, f: seq<real>, n: nat): (r: real) {
    Val(x, pv, 0) * WSum(x, pv, f, 1 + n, n) - PSum(x, pv, f, 1, 1 + n, n)
  }

  method CombinationError(x: Values, pv: seq<Ptr>, f: seq<real>, n: nat, scale: real) returns (e: real)
    requires Shaped(pv, f, n)
    ensures e == scale * Balance(x, pv, f, n)
  {
    var sum, wsum, i := 0.0, 0.0, 0;
    while i < n
      invariant 0 <= i <= n && wsum == WSum(x, pv, f, 1 + n, i) && sum == PSum(x, pv, f, 1, 1 + n, i)
    {
      var wcontrib := x(pv[1 + n + i]) * f[i];
      wsum := wsum + wcontrib;
      sum := sum + x(pv[1 + i]) * wcontrib;
      i := i + 1;
    }
    e := scale * (x(pv[0]) * wsum - sum);
  }

  /** What the loop of `grad` finds from place i on: the first pole or weight that is p. */
  function FirstFound(x: Values, pv: seq<Ptr>, f: seq<real>, n: nat, i: nat, p: Ptr): (r: real)
    decreases n - i
  {
    if i >= n || |pv| != 2 * n + 1 then 0.0
    else if p == pv[1 + i] then -(Val(x, pv, 1 + n + i) * Nth(f, i))
    else if p == pv[1 + n + i] then (Val(x, pv, 0) - Val(x, pv, 1 + i)) * Nth(f, i)
    else FirstFound(x, pv, f, n, i + 1, p)
  }

  function CombinationSlope(x: Values, pv: seq<Ptr>, f: seq<real>, n: nat, p: Ptr): (r: real) {
    if 0 < |pv| && p == pv[0] then WSum(x, pv, f, 1 + n, n) else FirstFound(x, pv, f, n, 0, p)
  }

  method CombinationGrad(x: Values, pv: seq<Ptr>, f: seq<real>, n: nat, scale: real, p: Ptr) returns (g: real)
    requires Shaped(pv, f, n)
    ensures g == scale * CombinationSlope(x, pv, f, n, p)
  {
    var deriv, i := 0.0, 0;
    if p == pv[0] {
      var wsum := 0.0;
      while i < n
        invariant 0 <= i <= n && wsum == WSum(x, pv, f, 1 + n, i)
      {
        wsum := wsum + x(pv[1 + n + i]) * f[i];
        i := i + 1;
      }
      return scale * wsum;
    }
    while i < n
      invariant 0 <= i <= n && FirstFound(x, pv, f, n, 0, p) == FirstFound(x, pv, f, n, i, p)
    {
      if p == pv[1 + i] {
        deriv := -(x(pv[1 + n + i]) * f[i]);
        return scale * deriv;
      }
      if p == pv[1 + n + i] {
        deriv := (x(pv[0]) - x(pv[1 + i])) * f[i];
        return scale * deriv;
      }
      i := i + 1;
    }
    g := scale * deriv;
  }

  /** The place of p, when it has at most one: the point, pole or weight number i, or none. */
  lemma {:induction false} FirstFoundOnly(x: Values, pv: seq<Ptr>, f: seq<real>, n: nat, i: nat, p: Ptr, at: int)
    requires Shaped(pv, f, n) && Only(pv, 1, 1 + n, n, p, at) && (i <= at < n || (at == n && i <= n))
    ensures FirstFound(x, pv, f, n, i, p) == if at == n then 0.0 else FirstFound(x, pv, f, n, at, p)
    decreases n - i
  {
    if i < at && i < n {
      assert Missed(pv, 1, 1 + n, i, p);
      FirstFoundOnly(x, pv, f, n, i + 1, p, at);
    }
  }

  /** The number of p among the poles and weights, n when it is none. */
  lemma NumberOf(pv: seq<Ptr>, n: nat, p: Ptr) returns (at: int)
    requires |pv| == 2 * n + 1 && Single(pv, p)
    ensures 0 <= at <= n && Only(pv, 1, 1 + n, n, p, at)
    ensures at < n ==> pv[1 + at] == p || pv[1 + n + at] == p
    ensures at < n ==> HitAt(pv, 1 + at, p) == 0.0 || HitAt(pv, 1 + n + at, p) == 0.0
    ensures at < n ==> pv[0] != p
  {
    at := 0;
    while at < n && Missed(pv, 1, 1 + n, at, p)
      invariant 0 <= at <= n && forall j {:trigger Missed(pv, 1, 1 + n, j, p)} | 0 <= j < at ::
        Missed(pv, 1, 1 + n, j, p)
    {
      at := at + 1;
    }
    assert forall j {:trigger Missed(pv, 1, 1 + n, j, p)} | 0 <= j < n && j != at :: Missed(pv, 1, 1 + n, j, p);
  }

  /** The sum of the slopes of the first k poles and weights that are p. */
  function PlaceSlopes(x: Values, pv: seq<Ptr>, f: seq<real>, n: nat, k: nat, p: Ptr): (r: real) {
    if k == 0 then 0.0
    else
      PlaceSlopes(x, pv, f, n, k - 1, p)
      + HitAt(pv, 1 + k - 1, p) * -(Val(x, pv, 1 + n + k - 1) * Nth(f, k - 1))
      + HitAt(pv, 1 + n + k - 1, p) * ((Val(x, pv, 0) - Val(x, pv, 1 + k - 1)) * Nth(f, k - 1))
  }

  /** The sum of the slopes of all places of p. */
  function AllSlopes(x: Values, pv: seq<Ptr>, f: seq<real>, n: nat, p: Ptr): (r: real) {
    HitAt(pv, 0, p) * WSum(x, pv, f, 1 + n, n) + PlaceSlopes(x, pv, f, n, n, p)
  }

  /** What is left over of second order: where p is a weight and also the point or that weight's pole. */
  function BalanceCurve(pv: seq<Ptr>, f: seq<real>, n: nat, p: Ptr): (r: real) {
    HitAt(pv, 0, p) * WRate(pv, f, 1 + n, n, p) - PCurve(pv, f, 1, 1 + n, n, p)
  }

  lemma {:induction false} PlaceRates(x: Values, pv: seq<Ptr>, f: seq<real>, n: nat, k: nat, p: Ptr)
    ensures PlaceSlopes(x, pv, f, n, k, p) == Val(x, pv, 0) * WRate(pv, f, 1 + n, k, p) - PRate(x, pv, f, 1, 1 + n, k,
      p)
  {
    hide Val, HitAt, Nth;
    if k > 0 {
      PlaceRates(x, pv, f, n, k - 1, p);
      PlaceTerm(Val(x, pv, 0), WRate(pv, f, 1 + n, k - 1, p), HitAt(pv, 1 + k - 1, p), HitAt(pv, 1 + n + k - 1, p),
                Val(x, pv, 1 + k - 1), Val(x, pv, 1 + n + k - 1), Nth(f, k - 1));
    }
  }

  lemma PlaceTerm(q: real, wr: real, r: real, s: real, v: real, w: real, f: real)
    ensures q * (wr + s * f) - (r * w + v * s) * f == q * wr + r * -(w * f) + s * ((q - v) * f)
  {
    assert q * (wr + s * f) == q * wr + q * s * f;
    assert (r * w + v * s) * f == r * w * f + v * s * f;
    assert r * -(w * f) == -(r * w * f) && s * ((q - v) * f) == q * s * f - v * s * f;
  }

  /** The exact change of the balance, whatever pointers are equal. */
  lemma BalanceBump(x: Values, pv: seq<Ptr>, f: seq<real>, n: nat, p: Ptr, h: real)
    ensures Balance(Bump(x, p, h), pv, f, n) == Second(h, Balance(x, pv, f, n), AllSlopes(x, pv, f, n, p),
      BalanceCurve(pv, f, n, p))
  {
    hide Bump, Val, HitAt, WSum, PSum, WRate, PRate, PCurve, PlaceSlopes;
    ValBump(x, pv, 0, p, h);
    WSumBump(x, pv, f, 1 + n, n, p, h);
    PSumBump(x, pv, f, 1, 1 + n, n, p, h);
    PlaceRates(x, pv, f, n, n, p);
    hide *;
    BalanceParts(x, pv, f, n, p);
    BalanceParts(Bump(x, p, h), pv, f, n, p);
    BalanceScalar(Val(x, pv, 0), WSum(x, pv, f, 1 + n, n), PSum(x, pv, f, 1, 1 + n, n),
                  HitAt(pv, 0, p), WRate(pv, f, 1 + n, n, p), PRate(x, pv, f, 1, 1 + n, n, p),
                    PCurve(pv, f, 1, 1 + n, n, p), h,
                  Val(Bump(x, p, h), pv, 0), WSum(Bump(x, p, h), pv, f, 1 + n, n),
                    PSum(Bump(x, p, h), pv, f, 1, 1 + n, n),
                  PlaceSlopes(x, pv, f, n, n, p));
    assert AllSlopes(x, pv, f, n, p) == HitAt(pv, 0, p) * WSum(x, pv, f, 1 + n, n) + PlaceSlopes(x, pv, f, n, n, p);
    assert BalanceCurve(pv, f, n, p) == HitAt(pv, 0, p) * WRate(pv, f, 1 + n, n, p) - PCurve(pv, f, 1, 1 + n, n, p);
    assert Balance(x, pv, f, n) == Val(x, pv, 0) * WSum(x, pv, f, 1 + n, n) - PSum(x, pv, f, 1, 1 + n, n);
  }

  lemma BalanceParts(x: Values, pv: seq<Ptr>, f: seq<real>, n: nat, p: Ptr)
    ensures Balance(x, pv, f, n) == Val(x, pv, 0) * WSum(x, pv, f, 1 + n, n) - PSum(x, pv, f, 1, 1 + n, n)
    ensures AllSlopes(x, pv, f, n, p) == HitAt(pv, 0, p) * WSum(x, pv, f, 1 + n, n) + PlaceSlopes(x, pv, f, n, n, p)
    ensures BalanceCurve(pv, f, n, p) == HitAt(pv, 0, p) * WRate(pv, f, 1 + n, n, p) - PCurve(pv, f, 1, 1 + n, n, p)
  {
  }

  lemma BalanceScalar(q: real, w: real, s: real, rq: real, rw: real, rs: real, cs: real, h: real, q': real, w': real,
      s': real, pl: real)
    requires q' == q + h * rq && w' == w + h * rw && s' == Second(h, s, rs, cs) && pl == q * rw - rs
    ensures q' * w' - s' == Second(h, q * w - s, rq * w + pl, rq * rw - cs)
  {
    assert (q + h * rq) * (w + h * rw) == q * w + h * (rq * w) + h * (q * rw) + h * h * (rq * rw);
  }

  /** `error` after the change h of p is what `grad` makes of it. */
  ghost predicate Predicted(x: Values, pv: seq<Ptr>, f: seq<real>, n: nat, scale: real, p: Ptr, h: real) {
    scale * Balance(Bump(x, p, h), pv, f, n) == scale * Balance(x, pv, f, n) + h * (scale * CombinationSlope(x, pv, f,
      n, p))
  }

  /** `grad` is the exact difference quotient of `error` for every change if and only if the slope it
      takes, that of the first place of p, is the sum of the slopes of all places, and no second
      order is left. */
  lemma CombinationExact(x: Values, pv: seq<Ptr>, f: seq<real>, n: nat, scale: real, p: Ptr)
    requires scale != 0.0
    ensures (forall h :: Predicted(x, pv, f, n, scale, p, h))
       <==> CombinationSlope(x, pv, f, n, p) == AllSlopes(x, pv, f, n, p) && BalanceCurve(pv, f, n, p) == 0.0
  {
    hide *;
    var d, c := AllSlopes(x, pv, f, n, p) - CombinationSlope(x, pv, f, n, p), BalanceCurve(pv, f, n, p);
    if d == 0.0 && c == 0.0 {
      forall h ensures Predicted(x, pv, f, n, scale, p, h) {
        PredictedAt(x, pv, f, n, scale, p, h);
        OffNone(h);
      }
    } else {
      PredictedAt(x, pv, f, n, scale, p, 1.0);
      PredictedAt(x, pv, f, n, scale, p, -1.0);
      OffOne(d, c);
      assert !Predicted(x, pv, f, n, scale, p, 1.0) || !Predicted(x, pv, f, n, scale, p, -1.0);
    }
  }

  /** What a prediction with the slope and curvature too small by d and c is off. */
  function Off(h: real, d: real, c: real): (r: real) {
    h * d + h * h * c
  }

  lemma OffNone(h: real)
    ensures Off(h, 0.0, 0.0) == 0.0
  {
  }

  lemma OffOne(d: real, c: real)
    ensures Off(1.0, d, c) == 0.0 && Off(-1.0, d, c) == 0.0 ==> d == 0.0 && c == 0.0
  {
  }

  lemma PredictedAt(x: Values, pv: seq<Ptr>, f: seq<real>, n: nat, scale: real, p: Ptr, h: real)
    requires scale != 0.0
    ensures Predicted(x, pv, f, n, scale, p, h)
       <==> Off(h, AllSlopes(x, pv, f, n, p) - CombinationSlope(x, pv, f, n, p), BalanceCurve(pv, f, n, p)) == 0.0
  {
    hide Balance, AllSlopes, CombinationSlope, BalanceCurve, Bump, Off;
    BalanceBump(x, pv, f, n, p, h);
    Compared(scale, Balance(Bump(x, p, h), pv, f, n), Balance(x, pv, f, n), AllSlopes(x, pv, f, n, p),
      CombinationSlope(x, pv, f, n, p),
             BalanceCurve(pv, f, n, p), h);
  }

  lemma Compared(s: real, e': real, e: real, a: real, g: real, c: real, h: real)
    requires s != 0.0 && e' == Second(h, e, a, c)
    ensures s * e' == s * e + h * (s * g) <==> Off(h, a - g, c) == 0.0
  {
    var d := h * (a - g) + h * h * c;
    assert s * e' - (s * e + h * (s * g)) == s * d;
    ZeroProduct(s, d);
  }

  /** So it is for a pointer with at most one place. */
  lemma CombinationSingle(x: Values, pv: seq<Ptr>, f: seq<real>, n: nat, p: Ptr)
    requires Shaped(pv, f, n) && Single(pv, p)
    ensures CombinationSlope(x, pv, f, n, p) == AllSlopes(x, pv, f, n, p) && BalanceCurve(pv, f, n, p) == 0.0
  {
    hide Bump, Val, HitAt, WSum, PSum, WRate, PRate, PTerm, FirstFound, PCurve, PlaceSlopes;
    var at := NumberOf(pv, n, p);
    RateOnly(x, pv, f, 1, 1 + n, n, p, at);
    PlaceRates(x, pv, f, n, n, p);
    FirstFoundOnly(x, pv, f, n, 0, p, at);
    SlopeParts(x, pv, f, n, p, at);
    hide Only, Single, Shaped;
  }

  /** The slope by the place of p. */
  lemma SlopeParts(x: Values, pv: seq<Ptr>, f: seq<real>, n: nat, p: Ptr, at: int)
    requires Shaped(pv, f, n) && Single(pv, p) && 0 <= at <= n && Only(pv, 1, 1 + n, n, p, at)
    requires at < n ==> (pv[1 + at] == p || pv[1 + n + at] == p) && pv[0] != p
    requires FirstFound(x, pv, f, n, 0, p) == if at == n then 0.0 else FirstFound(x, pv, f, n, at, p)
    requires WRate(pv, f, 1 + n, n, p) == if 0 <= at < n then HitAt(pv, 1 + n + at, p) * Nth(f, at) else 0.0
    requires PRate(x, pv, f, 1, 1 + n, n, p) == if 0 <= at < n then PTerm(x, pv, f, 1, 1 + n, at, p) else 0.0
    ensures HitAt(pv, 0, p) == 0.0 || WRate(pv, f, 1 + n, n, p) == 0.0
    ensures CombinationSlope(x, pv, f, n, p)
         == HitAt(pv, 0, p) * WSum(x, pv, f, 1 + n, n) + Val(x, pv, 0) * WRate(pv, f, 1 + n, n, p) - PRate(x, pv, f, 1,
           1 + n, n, p)
  {
    hide WSum, PSum, WRate, PRate, Val, Nth, Only;
    if at < n {
      assert pv[1 + at] == p ==> pv[1 + n + at] != p;
      PlaceScalar(Val(x, pv, 0), Val(x, pv, 1 + at), Val(x, pv, 1 + n + at), HitAt(pv, 1 + at, p),
        HitAt(pv, 1 + n + at, p), Nth(f, at));
    }
  }

  lemma PlaceScalar(q: real, v: real, w: real, r: real, s: real, f: real)
    ensures r == 1.0 && s == 0.0 ==> q * (s * f) - (r * w + v * s) * f == -(w * f)
    ensures r == 0.0 && s == 1.0 ==> q * (s * f) - (r * w + v * s) * f == (q - v) * f
  {
  }

  lemma Scaled(s: real, a: real, b: real, h: real)
    ensures s * (a + h * b) == s * a + h * (s * b)
  {
  }

  /** With two places it may fail: of two equal poles only the first is counted. */
  lemma CombinationEqualPoles()
    ensures var pv, f := [0, 1, 1, 2, 3], [1.0, 1.0];
            var x: Values := q => if q >= 2 then 1.0 else 0.0;
            Shaped(pv, f, 2) && Balance(Bump(x, 1, 1.0), pv, f, 2) - Balance(x, pv, f, 2) == -2.0
              && CombinationSlope(x, pv, f, 2, 1) == -1.0
  {
    var pv, f := [0, 1, 1, 2, 3], [1.0, 1.0];
    var x: Values := q => if q >= 2 then 1.0 else 0.0;
    var y := Bump(x, 1, 1.0);
    assert PSum(x, pv, f, 1, 3, 2) == PSum(x, pv, f, 1, 3, 1) + Val(x, pv, 2) * (Val(x, pv, 4) * Nth(f, 1));
    assert PSum(y, pv, f, 1, 3, 2) == PSum(y, pv, f, 1, 3, 1) + Val(y, pv, 2) * (Val(y, pv, 4) * Nth(f, 1));
    assert PSum(x, pv, f, 1, 3, 1) == PSum(x, pv, f, 1, 3, 0) + Val(x, pv, 1) * (Val(x, pv, 3) * Nth(f, 0));
    assert PSum(y, pv, f, 1, 3, 1) == PSum(y, pv, f, 1, 3, 0) + Val(y, pv, 1) * (Val(y, pv, 3) * Nth(f, 0));
  }

  // ---------------------------------------------------------------- the slope at a knot

  /** n pole x, n pole y, n weights, and the line from point 1 to point 2. */
  ghost predicate KnotShaped(pv: seq<Ptr>, f: seq<real>, s: seq<real>, n: nat) {
    |f| == |s| == n && |pv| == 3 * n + 4
  }

  function Times(a: real, b: real): (r: real) {
    a * b
  }

  function Det(a: real, b: real, c: real, d: real): (r: real) {
    a * b - c * d
  }

  /** The slope in the coordinate whose poles start at place a, times the square of the weight sum. */
  function SlopeOf(x: Values, pv: seq<Ptr>, f: seq<real>, s: seq<real>, a: int, n: nat): (r: real) {
    Det(WSum(x, pv, f, 2 * n, n), PSum(x, pv, s, a, 2 * n, n), WSum(x, pv, s, 2 * n, n), PSum(x, pv, f, a, 2 * n, n))
  }

  /** The unit direction of a vector, which needs a square root. */
  type Direction = (real, real) -> (real, real)

  function LineDir(x: Values, pv: seq<Ptr>, n: nat, dir: Direction): (r: (real, real)) {
    dir(Val(x, pv, 3 * n + 2) - Val(x, pv, 3 * n), Val(x, pv, 3 * n + 3) - Val(x, pv, 3 * n + 1))
  }

  /** The cross product of the slope and the direction of the line. */
  function Cross(x: Values, pv: seq<Ptr>, f: seq<real>, s: seq<real>, n: nat, dir: Direction): (r: real) {
    SlopeOf(x, pv, f, s, 0, n) * LineDir(x, pv, n, dir).1 - SlopeOf(x, pv, f, s, n, n) * LineDir(x, pv, n, dir).0
  }

  method SlopeError(x: Values, pv: seq<Ptr>, f: seq<real>, s: seq<real>, n: nat, dir: Direction, scale: real)
      returns (e: real)
    requires KnotShaped(pv, f, s, n)
    ensures e == scale * Cross(x, pv, f, s, n, dir)
  {
    hide WSum, PSum;
    var wsum, wslopesum, xsum, xslopesum, ysum, yslopesum := 0.0, 0.0, 0.0, 0.0, 0.0, 0.0;
    var i := 0;
    NoSums(x, pv, f, s, n);
    while i < n
      invariant 0 <= i <= n && wsum == WSum(x, pv, f, 2 * n, i) && wslopesum == WSum(x, pv, s, 2 * n, i)
      invariant xsum == PSum(x, pv, f, 0, 2 * n, i) && xslopesum == PSum(x, pv, s, 0, 2 * n, i)
      invariant ysum == PSum(x, pv, f, n, 2 * n, i) && yslopesum == PSum(x, pv, s, n, 2 * n, i)
    {
      NextSums(x, pv, f, n, i);
      NextSums(x, pv, s, n, i);
      var wcontrib, wslopecontrib := x(pv[2 * n + i]) * f[i], x(pv[2 * n + i]) * s[i];
      wsum := wsum + wcontrib;
      xsum := xsum + x(pv[i]) * wcontrib;
      ysum := ysum + x(pv[n + i]) * wcontrib;
      wslopesum := wslopesum + wslopecontrib;
      xslopesum := xslopesum + x(pv[i]) * wslopecontrib;
      yslopesum := yslopesum + x(pv[n + i]) * wslopecontrib;
      i := i + 1;
    }
    var slopex, slopey := wsum * xslopesum - wslopesum * xsum, wsum * yslopesum - wslopesum * ysum;
    var d := dir(x(pv[3 * n + 2]) - x(pv[3 * n]), x(pv[3 * n + 3]) - x(pv[3 * n + 1]));
    assert d == LineDir(x, pv, n, dir);
    assert slopex == SlopeOf(x, pv, f, s, 0, n) && slopey == SlopeOf(x, pv, f, s, n, n);
    hide SlopeOf, LineDir;
    e := scale * (slopex * d.1 - slopey * d.0);
  }

  lemma NoSums(x: Values, pv: seq<Ptr>, f: seq<real>, s: seq<real>, n: nat)
    ensures WSum(x, pv, f, 2 * n, 0) == WSum(x, pv, s, 2 * n, 0) == PSum(x, pv, f, 0, 2 * n, 0)
      == PSum(x, pv, s, 0, 2 * n, 0) == 0.0
    ensures PSum(x, pv, f, n, 2 * n, 0) == PSum(x, pv, s, n, 2 * n, 0) == 0.0
  {
  }

  lemma NextSums(x: Values, pv: seq<Ptr>, f: seq<real>, n: nat, i: nat)
    requires |f| == n && |pv| == 3 * n + 4 && i < n
    ensures var t := x(pv[2 * n + i]) * f[i];
            && WSum(x, pv, f, 2 * n, i + 1) == WSum(x, pv, f, 2 * n, i) + t
            && PSum(x, pv, f, 0, 2 * n, i + 1) == PSum(x, pv, f, 0, 2 * n, i) + x(pv[i]) * t
            && PSum(x, pv, f, n, 2 * n, i + 1) == PSum(x, pv, f, n, 2 * n, i) + x(pv[n + i]) * t
  {
  }

  /** The weighted sum of the poles, each taken from the value c. */
  function ShiftSum(x: Values, pv: seq<Ptr>, f: seq<real>, a: int, b: int, c: real, k: nat): (r: real) {
    if k == 0 then 0.0
      else ShiftSum(x, pv, f, a, b, c, k - 1) + (Val(x, pv, b + k - 1) * Nth(f, k - 1)) * (Val(x, pv, a + k - 1) - c)
  }

  lemma {:induction false} Shifted(x: Values, pv: seq<Ptr>, f: seq<real>, a: int, b: int, c: real, k: nat)
    ensures ShiftSum(x, pv, f, a, b, c, k) == PSum(x, pv, f, a, b, k) - Times(c, WSum(x, pv, f, b, k))
  {
    hide Val, Nth;
    if k > 0 {
      Shifted(x, pv, f, a, b, c, k - 1);
      ShiftTerm(Val(x, pv, b + k - 1) * Nth(f, k - 1), Val(x, pv, a + k - 1), c, WSum(x, pv, f, b, k - 1));
    }
  }

  lemma ShiftTerm(t: real, v: real, c: real, w: real)
    ensures t * (v - c) == v * t - c * t && c * (w + t) == c * w + c * t
  {
  }

  /** What `grad` takes for weight i in the coordinate from place a. */
  function WeightSlope(x: Values, pv: seq<Ptr>, f: seq<real>, s: seq<real>, a: int, n: nat, i: int): (r: real) {
    Det(Nth(f, i), ShiftSum(x, pv, s, a, 2 * n, Val(x, pv, a + i), n), Nth(s, i),
      ShiftSum(x, pv, f, a, 2 * n, Val(x, pv, a + i), n))
  }

  /** What `grad` takes for pole i of either coordinate. */
  function PoleSlope(x: Values, pv: seq<Ptr>, f: seq<real>, s: seq<real>, n: nat, i: int): (r: real) {
    Det(WSum(x, pv, f, 2 * n, n), Nth(s, i), WSum(x, pv, s, 2 * n, n), Nth(f, i))
  }

  /** The branches of `grad` for the poles and the weights, from place i on; nothing for the line. */
  function KnotFound(x: Values, pv: seq<Ptr>, f: seq<real>, s: seq<real>, n: nat, dir: Direction, i: nat,
      p: Ptr): (r: real)
    decreases n - i
  {
    var (dx, dy) := LineDir(x, pv, n, dir);
    if i >= n || |pv| != 3 * n + 4 then 0.0
    else if p == pv[i] then PoleSlope(x, pv, f, s, n, i) * dy
    else if p == pv[n + i] then -PoleSlope(x, pv, f, s, n, i) * dx
    else if p == pv[2 * n + i] then WeightSlope(x, pv, f, s, 0, n, i) * dy - WeightSlope(x, pv, f, s, n, n, i) * dx
    else KnotFound(x, pv, f, s, n, dir, i + 1, p)
  }

  /** p is no pole and no weight of the first i. */
  ghost predicate NotYet(pv: seq<Ptr>, n: nat, i: nat, p: Ptr) {
    |pv| == 3 * n + 4 && forall j | 0 <= j < 3 * n && (j < i || n <= j < n + i || 2 * n <= j < 2 * n + i) :: pv[j] != p
  }

  lemma FoundNext(x: Values, pv: seq<Ptr>, f: seq<real>, s: seq<real>, n: nat, dir: Direction, i: nat, p: Ptr)
    requires |pv| == 3 * n + 4 && i < n
    ensures KnotFound(x, pv, f, s, n, dir, i, p)
         == var (dx, dy) := LineDir(x, pv, n, dir);
            if p == pv[i] then PoleSlope(x, pv, f, s, n, i) * dy
            else if p == pv[n + i] then -PoleSlope(x, pv, f, s, n, i) * dx
            else if p == pv[2 * n + i] then WeightSlope(x, pv, f, s, 0, n, i) * dy - WeightSlope(x, pv, f, s, n, n,
                                            i) * dx
            else KnotFound(x, pv, f, s, n, dir, i + 1, p)
  {
  }

  /** The loop of `grad`; found is false when p is no pole and no weight. */
  method SlopeGrad(x: Values, pv: seq<Ptr>, f: seq<real>, s: seq<real>, n: nat, dir: Direction, scale: real, p: Ptr)
      returns (g: real, found: bool)
    requires KnotShaped(pv, f, s, n)
    ensures found <==> exists j :: 0 <= j < 3 * n && pv[j] == p
    ensures found ==> g == scale * KnotFound(x, pv, f, s, n, dir, 0, p)
  {
    hide KnotFound, PoleSlope, WeightSlope;
    var d := dir(x(pv[3 * n + 2]) - x(pv[3 * n]), x(pv[3 * n + 3]) - x(pv[3 * n + 1]));
    assert d == LineDir(x, pv, n, dir);
    hide LineDir;
    var i := 0;
    while i < n
      invariant 0 <= i <= n && KnotFound(x, pv, f, s, n, dir, 0, p) == KnotFound(x, pv, f, s, n, dir, i, p)
        && NotYet(pv, n, i, p)
    {
      FoundNext(x, pv, f, s, n, dir, i, p);
      if p == pv[i] {
        var c := PoleSums(x, pv, f, s, n, i);
        return scale * (c * d.1), true;
      }
      if p == pv[n + i] {
        var c := PoleSums(x, pv, f, s, n, i);
        return scale * (-c * d.0), true;
      }
      if p == pv[2 * n + i] {
        var cx := WeightSums(x, pv, f, s, 0, n, i);
        var cy := WeightSums(x, pv, f, s, n, n, i);
        return scale * (cx * d.1 - cy * d.0), true;
      }
      i := i + 1;
    }
    return 0.0, false;
  }

  method PoleSums(x: Values, pv: seq<Ptr>, f: seq<real>, s: seq<real>, n: nat, i: nat) returns (c: real)
    requires KnotShaped(pv, f, s, n) && i < n
    ensures c == PoleSlope(x, pv, f, s, n, i)
  {
    var wsum, wslopesum, j := 0.0, 0.0, 0;
    while j < n
      invariant 0 <= j <= n && wsum == WSum(x, pv, f, 2 * n, j) && wslopesum == WSum(x, pv, s, 2 * n, j)
    {
      wsum, wslopesum := wsum + x(pv[2 * n + j]) * f[j], wslopesum + x(pv[2 * n + j]) * s[j];
      j := j + 1;
    }
    c := wsum * s[i] - wslopesum * f[i];
  }

  method WeightSums(x: Values, pv: seq<Ptr>, f: seq<real>, s: seq<real>, a: nat, n: nat, i: nat) returns (c: real)
    requires KnotShaped(pv, f, s, n) && i < n && (a == 0 || a == n)
    ensures c == WeightSlope(x, pv, f, s, a, n, i)
  {
    var sum, slopesum, j := 0.0, 0.0, 0;
    while j < n
      invariant 0 <= j <= n && sum == ShiftSum(x, pv, f, a, 2 * n, Val(x, pv, a + i), j)
        && slopesum == ShiftSum(x, pv, s, a, 2 * n, Val(x, pv, a + i), j)
    {
      var wcontrib, wslopecontrib := x(pv[2 * n + j]) * f[j], x(pv[2 * n + j]) * s[j];
      sum, slopesum := sum + wcontrib * (x(pv[a + j]) - x(pv[a + i])),
        slopesum + wslopecontrib * (x(pv[a + j]) - x(pv[a + i]));
      j := j + 1;
    }
    c := f[i] * slopesum - s[i] * sum;
  }

  /** p is at place k and nowhere else. */
  ghost predicate Alone(pv: seq<Ptr>, p: Ptr, k: int) {
    0 <= k < |pv| && pv[k] == p && forall j | 0 <= j < |pv| && j != k :: pv[j] != p
  }

  /** The pointer at place k counts for number i in the sums. */
  lemma AloneOnly(pv: seq<Ptr>, p: Ptr, k: int, a: int, b: int, n: nat, i: int)
    requires Alone(pv, p, k) && 0 <= a && 0 <= b && a + n <= |pv| && b + n <= |pv| && a != b
    requires (k == a + i || !(a <= k < a + n)) && (k == b + i || !(b <= k < b + n))
    ensures Only(pv, a, b, n, p, i)
  {
    forall j {:trigger Missed(pv, a, b, j, p)} | 0 <= j < n && j != i ensures Missed(pv, a, b, j, p) {
      assert a + j != k && b + j != k;
    }
  }

  /** The changes of the two sums when only weight i is p. */
  lemma WeightBump(x: Values, pv: seq<Ptr>, f: seq<real>, a: int, n: nat, i: int, p: Ptr, h: real)
    requires |pv| == 3 * n + 4 && 0 <= i < n && (a == 0 || a == n) && Alone(pv, p, 2 * n + i)
    ensures WSum(Bump(x, p, h), pv, f, 2 * n, n) == WSum(x, pv, f, 2 * n, n) + Times(h, Nth(f, i))
    ensures PSum(Bump(x, p, h), pv, f, a, 2 * n, n) == PSum(x, pv, f, a, 2 * n, n) + Times(h,
      Times(Val(x, pv, a + i), Nth(f, i)))
  {
    AloneOnly(pv, p, 2 * n + i, a, 2 * n, n, i);
    hide Alone, Only, Bump, Val, HitAt, Nth, WSum, PSum, WRate, PRate, PCurve, Second;
    WSumBump(x, pv, f, 2 * n, n, p, h);
    PSumBump(x, pv, f, a, 2 * n, n, p, h);
    WeightRates(x, pv, f, a, n, i, p);
    SecondFlat(h, PSum(x, pv, f, a, 2 * n, n), PRate(x, pv, f, a, 2 * n, n, p));
  }

  lemma SecondFlat(h: real, a: real, b: real)
    ensures Second(h, a, b, 0.0) == a + Times(h, b)
  {
  }

  lemma WeightRates(x: Values, pv: seq<Ptr>, f: seq<real>, a: int, n: nat, i: int, p: Ptr)
    requires |pv| == 3 * n + 4 && 0 <= i < n && (a == 0 || a == n) && Alone(pv, p, 2 * n + i)
    ensures WRate(pv, f, 2 * n, n, p) == Nth(f, i)
      && PRate(x, pv, f, a, 2 * n, n, p) == Times(Val(x, pv, a + i), Nth(f, i))
    ensures PCurve(pv, f, a, 2 * n, n, p) == 0.0
  {
    AloneOnly(pv, p, 2 * n + i, a, 2 * n, n, i);
    assert HitAt(pv, 2 * n + i, p) == 1.0 && HitAt(pv, a + i, p) == 0.0;
    hide Alone, Only, Val, HitAt, Nth, WRate, PRate;
    RateOnly(x, pv, f, a, 2 * n, n, p, i);
    OneHit(HitAt(pv, a + i, p), HitAt(pv, 2 * n + i, p), Val(x, pv, a + i), Val(x, pv, 2 * n + i), Nth(f, i));
  }

  lemma OneHit(r: real, s: real, v: real, w: real, f: real)
    ensures r == 0.0 && s == 1.0 ==> s * f == f && (r * w + v * s) * f == v * f
    ensures r == 1.0 && s == 0.0 ==> s * f == 0.0 && (r * w + v * s) * f == w * f
    ensures r == 0.0 && s == 0.0 ==> s * f == 0.0 && (r * w + v * s) * f == 0.0
  {
  }

  /** The slope is linear in each weight: the squares cancel. */
  lemma WeightExact(x: Values, pv: seq<Ptr>, f: seq<real>, s: seq<real>, a: int, n: nat, i: int, p: Ptr, h: real)
    requires |pv| == 3 * n + 4 && 0 <= i < n && (a == 0 || a == n) && Alone(pv, p, 2 * n + i)
    ensures SlopeOf(Bump(x, p, h), pv, f, s, a, n) == SlopeOf(x, pv, f, s, a, n) + h * WeightSlope(x, pv, f, s, a, n, i)
  {
    WeightBump(x, pv, f, a, n, i, p, h);
    WeightBump(x, pv, s, a, n, i, p, h);
    Shifted(x, pv, f, a, 2 * n, Val(x, pv, a + i), n);
    Shifted(x, pv, s, a, 2 * n, Val(x, pv, a + i), n);
    hide Alone, Bump, Val, Nth, WSum, PSum, ShiftSum, Det, Times;
    var y, v := Bump(x, p, h), Val(x, pv, a + i);
    WeightScalar(WSum(x, pv, f, 2 * n, n), PSum(x, pv, s, a, 2 * n, n), WSum(x, pv, s, 2 * n, n),
      PSum(x, pv, f, a, 2 * n, n),
                 WSum(y, pv, f, 2 * n, n), PSum(y, pv, s, a, 2 * n, n), WSum(y, pv, s, 2 * n, n),
                   PSum(y, pv, f, a, 2 * n, n),
                 ShiftSum(x, pv, s, a, 2 * n, v, n), ShiftSum(x, pv, f, a, 2 * n, v, n), Nth(f, i), Nth(s, i), v, h);
  }

  lemma WeightScalar(wf: real, ps: real, ws: real, pf: real, wf': real, ps': real, ws': real, pf': real, ss: real,
      sf: real, f: real, s: real, v: real, h: real)
    requires wf' == wf + Times(h, f) && ps' == ps + Times(h, Times(v, s)) && ws' == ws + Times(h, s)
      && pf' == pf + Times(h, Times(v, f))
    requires ss == ps - Times(v, ws) && sf == pf - Times(v, wf)
    ensures Det(wf', ps', ws', pf') == Det(wf, ps, ws, pf) + h * Det(f, ss, s, sf)
  {
    assert (wf + h * f) * (ps + h * (v * s)) == wf * ps + h * (f * ps) + h * (wf * (v * s)) + h * h * (f * v * s);
    assert (ws + h * s) * (pf + h * (v * f)) == ws * pf + h * (s * pf) + h * (ws * (v * f)) + h * h * (f * v * s);
  }

  /** Changing a pole or a weight leaves the line. */
  lemma LineStays(x: Values, pv: seq<Ptr>, n: nat, dir: Direction, p: Ptr, k: int, h: real)
    requires |pv| == 3 * n + 4 && Alone(pv, p, k) && k < 3 * n
    ensures LineDir(Bump(x, p, h), pv, n, dir) == LineDir(x, pv, n, dir)
  {
  }

  /** For a weight with one place `grad` is the exact difference quotient of `error`, for any number
      of poles and any change h. */
  lemma KnotWeightExact(x: Values, pv: seq<Ptr>, f: seq<real>, s: seq<real>, n: nat, dir: Direction, scale: real,
      i: int, p: Ptr, h: real)
    requires KnotShaped(pv, f, s, n) && 0 <= i < n && Alone(pv, p, 2 * n + i)
    ensures scale * Cross(Bump(x, p, h), pv, f, s, n, dir) == scale * Cross(x, pv, f, s, n,
      dir) + h * (scale * KnotFound(x, pv, f, s, n, dir, 0, p))
  {
    FoundAt(x, pv, f, s, n, dir, 0, p, i, 2 * n + i);
    WeightExact(x, pv, f, s, 0, n, i, p, h);
    WeightExact(x, pv, f, s, n, n, i, p, h);
    LineStays(x, pv, n, dir, p, 2 * n + i, h);
    hide Alone, Bump, SlopeOf, WeightSlope, LineDir, KnotFound;
    var d := LineDir(x, pv, n, dir);
    CrossScalar(scale, SlopeOf(x, pv, f, s, 0, n), SlopeOf(x, pv, f, s, n, n), WeightSlope(x, pv, f, s, 0, n, i),
      WeightSlope(x, pv, f, s, n, n, i), d.0, d.1, h);
  }

  lemma CrossScalar(c: real, a: real, b: real, ra: real, rb: real, dx: real, dy: real, h: real)
    ensures c * ((a + h * ra) * dy - (b + h * rb) * dx) == c * (a * dy - b * dx) + h * (c * (ra * dy - rb * dx))
  {
    assert (a + h * ra) * dy == a * dy + h * (ra * dy);
    assert (b + h * rb) * dx == b * dx + h * (rb * dx);
    Scaled(c, a * dy - b * dx, ra * dy - rb * dx, h);
  }

  /** The branch that the loop of `grad` takes for the place k. */
  lemma {:induction false} FoundAt(x: Values, pv: seq<Ptr>, f: seq<real>, s: seq<real>, n: nat, dir: Direction, j: nat,
      p: Ptr, i: int, k: int)
    requires |pv| == 3 * n + 4 && j <= i < n && Alone(pv, p, k) && (k == i || k == n + i || k == 2 * n + i)
    ensures KnotFound(x, pv, f, s, n, dir, j, p)
         == var (dx, dy) := LineDir(x, pv, n, dir);
            if k == i then PoleSlope(x, pv, f, s, n, i) * dy else if k == n + i then -PoleSlope(x, pv, f, s, n, i) * dx
            else WeightSlope(x, pv, f, s, 0, n, i) * dy - WeightSlope(x, pv, f, s, n, n, i) * dx
    decreases n - j
  {
    if j < i {
      FoundAt(x, pv, f, s, n, dir, j + 1, p, i, k);
    }
  }

  /** The change of the sums when only pole i is p. */
  lemma PoleBump(x: Values, pv: seq<Ptr>, f: seq<real>, a: int, n: nat, i: int, p: Ptr, h: real, k: int)
    requires |pv| == 3 * n + 4 && 0 <= i < n && (a == 0 || a == n) && (k == i || k == n + i) && Alone(pv, p, k)
    ensures WSum(Bump(x, p, h), pv, f, 2 * n, n) == WSum(x, pv, f, 2 * n, n)
    ensures PSum(Bump(x, p, h), pv, f, a, 2 * n, n) == PSum(x, pv, f, a, 2 * n, n) + Times(h, if k == a + i then
      Times(Val(x, pv, 2 * n + i), Nth(f, i)) else 0.0)
  {
    AloneOnly(pv, p, k, a, 2 * n, n, i);
    hide Alone, Only, Bump, Val, HitAt, Nth, WSum, PSum, WRate, PRate, PCurve, Second;
    WSumBump(x, pv, f, 2 * n, n, p, h);
    PSumBump(x, pv, f, a, 2 * n, n, p, h);
    PoleRates(x, pv, f, a, n, i, p, k);
    SecondFlat(h, PSum(x, pv, f, a, 2 * n, n), PRate(x, pv, f, a, 2 * n, n, p));
  }

  lemma PoleRates(x: Values, pv: seq<Ptr>, f: seq<real>, a: int, n: nat, i: int, p: Ptr, k: int)
    requires |pv| == 3 * n + 4 && 0 <= i < n && (a == 0 || a == n) && (k == i || k == n + i) && Alone(pv, p, k)
    ensures WRate(pv, f, 2 * n, n, p) == 0.0 && PCurve(pv, f, a, 2 * n, n, p) == 0.0
    ensures PRate(x, pv, f, a, 2 * n, n, p) == if k == a + i then Times(Val(x, pv, 2 * n + i), Nth(f, i)) else 0.0
  {
    AloneOnly(pv, p, k, a, 2 * n, n, i);
    assert HitAt(pv, 2 * n + i, p) == 0.0 && HitAt(pv, a + i, p) == if k == a + i then 1.0 else 0.0;
    hide Alone, Only, Val, HitAt, Nth, WRate, PRate;
    RateOnly(x, pv, f, a, 2 * n, n, p, i);
    OneHit(HitAt(pv, a + i, p), HitAt(pv, 2 * n + i, p), Val(x, pv, a + i), Val(x, pv, 2 * n + i), Nth(f, i));
  }

  lemma PoleExact(x: Values, pv: seq<Ptr>, f: seq<real>, s: seq<real>, a: int, n: nat, i: int, p: Ptr, h: real, k: int)
    requires |pv| == 3 * n + 4 && 0 <= i < n && (a == 0 || a == n) && (k == i || k == n + i) && Alone(pv, p, k)
    ensures SlopeOf(Bump(x, p, h), pv, f, s, a, n)
         == SlopeOf(x, pv, f, s, a, n) + h * if k == a + i then Val(x, pv, 2 * n + i) * PoleSlope(x, pv, f, s, n, i)
           else 0.0
  {
    PoleBump(x, pv, f, a, n, i, p, h, k);
    PoleBump(x, pv, s, a, n, i, p, h, k);
    hide Alone, Bump, Val, Nth, WSum, PSum, Det, Times;
    var y := Bump(x, p, h);
    PoleScalar(WSum(x, pv, f, 2 * n, n), PSum(x, pv, s, a, 2 * n, n), WSum(x, pv, s, 2 * n, n),
      PSum(x, pv, f, a, 2 * n, n),
               PSum(y, pv, s, a, 2 * n, n), PSum(y, pv, f, a, 2 * n, n), Nth(f, i), Nth(s, i), Val(x, pv, 2 * n + i), h,
                 k == a + i);
  }

  lemma PoleScalar(wf: real, ps: real, ws: real, pf: real, ps': real, pf': real, f: real, s: real, w: real, h: real,
      here: bool)
    requires ps' == ps + Times(h, if here then Times(w, s) else 0.0) && pf' == pf + Times(h, if here then Times(w, f)
      else 0.0)
    ensures Det(wf, ps', ws, pf') == Det(wf, ps, ws, pf) + h * if here then w * Det(wf, s, ws, f) else 0.0
  {
    assert here ==> wf * ps' == wf * ps + h * (w * (wf * s));
    assert here ==> ws * pf' == ws * pf + h * (w * (ws * f));
  }

  /** For a pole with one place the difference quotient is the weight of the pole times `grad`, so that
      `grad` is exact if and only if the weight is 1 or `grad` is 0: the scale, the slope of the
      pole or the component of the direction that goes with its coordinate. */
  lemma KnotPoleExact(x: Values, pv: seq<Ptr>, f: seq<real>, s: seq<real>, n: nat, dir: Direction, scale: real, i: int,
      p: Ptr, h: real, k: int)
    requires KnotShaped(pv, f, s, n) && 0 <= i < n && (k == i || k == n + i) && Alone(pv, p, k) && h != 0.0
    ensures scale * Cross(Bump(x, p, h), pv, f, s, n, dir) == scale * Cross(x, pv, f, s, n,
      dir) + h * (scale * KnotFound(x, pv, f, s, n, dir, 0, p))
       <==> Val(x, pv, 2 * n + i) == 1.0 || scale == 0.0 || PoleSlope(x, pv, f, s, n, i) == 0.0
            || (if k == i then LineDir(x, pv, n, dir).1 else LineDir(x, pv, n, dir).0) == 0.0
  {
    hide *;
    KnotPoleChange(x, pv, f, s, n, dir, scale, i, p, h, k);
    KnotPoleFound(x, pv, f, s, n, dir, i, p, k);
    var d, w, c := LineDir(x, pv, n, dir), Val(x, pv, 2 * n + i), PoleSlope(x, pv, f, s, n, i);
    WeightOne(h, w, scale * KnotFound(x, pv, f, s, n, dir, 0, p));
    FourFactors(scale, c, d.0, d.1, k == i);
  }

  lemma KnotPoleFound(x: Values, pv: seq<Ptr>, f: seq<real>, s: seq<real>, n: nat, dir: Direction, i: int, p: Ptr,
      k: int)
    requires KnotShaped(pv, f, s, n) && 0 <= i < n && (k == i || k == n + i) && Alone(pv, p, k)
    ensures KnotFound(x, pv, f, s, n, dir, 0, p)
         == if k == i then PoleSlope(x, pv, f, s, n, i) * LineDir(x, pv, n, dir).1
           else -PoleSlope(x, pv, f, s, n, i) * LineDir(x, pv, n, dir).0
  {
    FoundAt(x, pv, f, s, n, dir, 0, p, i, k);
  }

  lemma KnotPoleChange(x: Values, pv: seq<Ptr>, f: seq<real>, s: seq<real>, n: nat, dir: Direction, scale: real, i: int,
      p: Ptr, h: real, k: int)
    requires KnotShaped(pv, f, s, n) && 0 <= i < n && (k == i || k == n + i) && Alone(pv, p, k)
    ensures scale * Cross(Bump(x, p, h), pv, f, s, n, dir)
         == scale * Cross(x, pv, f, s, n,
           dir) + h * (Val(x, pv, 2 * n + i) * (scale * KnotFound(x, pv, f, s, n, dir, 0, p)))
  {
    KnotPoleFound(x, pv, f, s, n, dir, i, p, k);
    PoleExact(x, pv, f, s, 0, n, i, p, h, k);
    PoleExact(x, pv, f, s, n, n, i, p, h, k);
    LineStays(x, pv, n, dir, p, k, h);
    hide Alone, Bump, SlopeOf, PoleSlope, LineDir, KnotFound, Val;
    var d, w, c := LineDir(x, pv, n, dir), Val(x, pv, 2 * n + i), PoleSlope(x, pv, f, s, n, i);
    var u, v := SlopeOf(x, pv, f, s, 0, n), SlopeOf(x, pv, f, s, n, n);
    var ra, rb := if k == i then w * c else 0.0, if k == i then 0.0 else w * c;
    CrossScalar(scale, u, v, ra, rb, d.0, d.1, h);
    WeightOut(scale, w, c, d.0, d.1, k == i, h);
  }

  lemma FourFactors(s: real, c: real, dx: real, dy: real, first: bool)
    ensures s * (if first then c * dy else -c * dx) == 0.0 <==>
      s == 0.0 || c == 0.0 || (if first then dy else dx) == 0.0
  {
    ZeroProduct(s, if first then c * dy else -c * dx);
    ZeroProduct(c, dy);
    ZeroProduct(-c, dx);
  }

  /** Two poles at 0 and 1 with the weights 2 and 1. */
  function TwoPoles(): (r: Values) {
    q => if q == 1 then 1.0 else if q == 4 then 2.0 else if q == 5 then 1.0 else 0.0
  }

  function Upright(): (r: Direction) {
    (u, v) => (0.0, 1.0)
  }

  /** With the weight 2 `grad` gives half the change: the line is upright, and the first pole moved by 1. */
  lemma KnotPoleTwice()
    ensures var pv, f, s := [0, 1, 2, 3, 4, 5, 6, 7, 8, 9], [1.0, 0.0], [0.0, 1.0];
            && KnotShaped(pv, f, s, 2) && Alone(pv, 0, 0) && KnotFound(TwoPoles(), pv, f, s, 2, Upright(), 0, 0) == -1.0
            && Cross(Bump(TwoPoles(), 0, 1.0), pv, f, s, 2, Upright()) - Cross(TwoPoles(), pv, f, s, 2, Upright())
              == -2.0
  {
    var pv, f, s, x := [0, 1, 2, 3, 4, 5, 6, 7, 8, 9], [1.0, 0.0], [0.0, 1.0], TwoPoles();
    assert Val(x, pv, 4) == 2.0 && Val(x, pv, 5) == 1.0 && LineDir(x, pv, 2, Upright()).1 == 1.0;
    assert KnotShaped(pv, f, s, 2) && Alone(pv, 0, 0);
    hide TwoPoles, Upright, Val, Cross, KnotFound, LineDir, Bump, WSum, Alone;
    WSumTwo(x, pv, f, 4);
    WSumTwo(x, pv, s, 4);
    assert PoleSlope(x, pv, f, s, 2, 0) == -1.0;
    hide PoleSlope;
    KnotPoleFound(x, pv, f, s, 2, Upright(), 0, 0, 0);
    KnotPoleChange(x, pv, f, s, 2, Upright(), 1.0, 0, 0, 1.0, 0);
  }

  lemma WSumTwo(x: Values, pv: seq<Ptr>, f: seq<real>, b: int)
    ensures WSum(x, pv, f, b, 2) == Val(x, pv, b) * Nth(f, 0) + Val(x, pv, b + 1) * Nth(f, 1)
  {
    hide Val, Nth;
    assert WSum(x, pv, f, b, 2) == WSum(x, pv, f, b, 1) + Val(x, pv, b + 1) * Nth(f, 1);
    assert WSum(x, pv, f, b, 1) == WSum(x, pv, f, b, 0) + Val(x, pv, b) * Nth(f, 0);
  }

  lemma WeightOut(s: real, w: real, c: real, dx: real, dy: real, first: bool, h: real)
    ensures h * (s * ((if first then w * c else 0.0) * dy - (if first then 0.0 else w * c) * dx))
      == h * (w * (s * if first then c * dy else -c * dx))
  {
  }

  lemma WeightOne(h: real, w: real, g: real)
    requires h != 0.0
    ensures h * (w * g) == h * g <==> w == 1.0 || g == 0.0
  {
    assert h * (w * g) - h * g == h * ((w - 1.0) * g);
    ZeroProduct(w - 1.0, g);
    ZeroProduct(h, (w - 1.0) * g);
  }

  lemma ZeroProduct(a: real, b: real)
    ensures a * b == 0.0 <==> a == 0.0 || b == 0.0
  {
    if a * b == 0.0 && a != 0.0 {
      assert b == (a * b) / a;
    }
  }
}
