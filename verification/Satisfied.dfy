/** When a constraint of planegcs is met: what it means that its error is 0. */
module Satisfied {
  import Geometry
  import opened Constraints
  import opened Splines

  // ---------------------------------------------------------------- two lines

  /** The direction of the line from the point behind places i, i + 1 to that behind places j, j + 1. */
  function Vector(x: Values, pv: seq<Ptr>, i: nat, j: nat): (r: Geometry.Point)
    requires i + 1 < |pv| && j + 1 < |pv|
  {
    Geometry.Point(x(pv[i]) - x(pv[j]), x(pv[i + 1]) - x(pv[j + 1]))
  }

  function Origin(): (r: Geometry.Point) {
    Geometry.Point(0.0, 0.0)
  }

  function Multiple(a: Geometry.Point, k: real): (r: Geometry.Point) {
    Geometry.Point(k * a.x, k * a.y)
  }

  /** One of the vectors is a multiple of the other. */
  ghost predicate Aligned(a: Geometry.Point, b: Geometry.Point) {
    (exists k :: b == Multiple(a, k)) || exists k :: a == Multiple(b, k)
  }

  lemma ScaledZero(scale: real, e: real)
    requires scale != 0.0
    ensures scale * e == 0.0 <==> e == 0.0
  {
  }

  lemma AlignedCross(a: Geometry.Point, b: Geometry.Point)
    ensures Aligned(a, b) <==> a.x * b.y - a.y * b.x == 0.0
  {
    hide Multiple;
    if k :| b == Multiple(a, k) {
      MultipleCross(a, k);
    } else if k :| a == Multiple(b, k) {
      MultipleCross(b, k);
    } else if a.x * b.y - a.y * b.x == 0.0 {
      ZeroCross(a, b);
    }
  }

  lemma MultipleCross(a: Geometry.Point, k: real)
    ensures a.x * Multiple(a, k).y - a.y * Multiple(a, k).x == 0.0
    ensures Multiple(a, k).x * a.y - Multiple(a, k).y * a.x == 0.0
  {
    SwapFactors(a.x, a.y, k);
  }

  lemma SwapFactors(u: real, v: real, k: real)
    ensures u * (k * v) == v * (k * u)
  {
  }

  lemma ZeroCross(a: Geometry.Point, b: Geometry.Point)
    requires a.x * b.y - a.y * b.x == 0.0
    ensures Aligned(a, b)
  {
    if a.x != 0.0 {
      MultipleBy(a.x, a.y, b.x, b.y);
      assert b == Multiple(a, b.x / a.x);
    } else if a.y != 0.0 {
      MultipleBy(a.y, a.x, b.y, b.x);
      assert b == Multiple(a, b.y / a.y);
    } else {
      assert a == Multiple(b, 0.0);
    }
  }

  lemma MultipleBy(u: real, v: real, s: real, t: real)
    requires u != 0.0 && u * t == v * s
    ensures s == (s / u) * u && t == (s / u) * v
  {
    Geometry.Quotient(s, u);
    var k := s / u;
    assert u * t == u * (k * v);
    Cancel(u, t, k * v);
  }

  lemma Cancel(u: real, s: real, t: real)
    requires u != 0.0 && u * s == u * t
    ensures s == t
  {
  }

  /** The error is twice the scaled area between the directions, and 0 exactly for parallel lines. */
  lemma ParallelMet(x: Values, pv: seq<Ptr>, scale: real)
    requires |pv| == 8
    ensures var a, b := Vector(x, pv, 0, 2), Vector(x, pv, 4, 6);
      && ParallelError(x, pv, scale) == scale * (2.0 * Geometry.Area(Origin(), a, b))
      && (scale != 0.0 ==> (ParallelError(x, pv, scale) == 0.0 <==> Aligned(a, b)))
  {
    var a, b := Vector(x, pv, 0, 2), Vector(x, pv, 4, 6);
    AlignedCross(a, b);
    if scale != 0.0 {
      ScaledZero(scale, a.x * b.y - a.y * b.x);
    }
    hide Aligned;
  }

  /** Twice the error is the scaled defect of Pythagoras' theorem, and it is 0 exactly when the directions are
      the sides of a right angle. */
  lemma PerpendicularMet(x: Values, pv: seq<Ptr>, scale: real)
    requires |pv| == 8
    ensures var a, b := Vector(x, pv, 0, 2), Vector(x, pv, 4, 6);
      var defect := Geometry.Norm2(a) + Geometry.Norm2(b) - Geometry.Dist2(a, b);
      && 2.0 * PerpendicularError(x, pv, scale) == scale * defect
      && (scale != 0.0 ==> (PerpendicularError(x, pv, scale) == 0.0 <==> defect == 0.0))
  {
    var a, b := Vector(x, pv, 0, 2), Vector(x, pv, 4, 6);
    var e := a.x * b.x + a.y * b.y;
    assert PerpendicularError(x, pv, scale) == scale * e;
    Pythagoras(a, b);
    hide *;
    Doubled(scale, e);
    if scale != 0.0 {
      ScaledZero(scale, e);
    }
  }

  lemma Doubled(scale: real, e: real)
    ensures 2.0 * (scale * e) == scale * (2.0 * e)
  {
  }

  lemma Pythagoras(a: Geometry.Point, b: Geometry.Point)
    ensures Geometry.Dist2(a, b) == Geometry.Norm2(a) + Geometry.Norm2(b) - 2.0 * (a.x * b.x + a.y * b.y)
  {
  }

  // ---------------------------------------------------------------- difference and tangent circles

  lemma DifferenceMet(x: Values, pv: seq<Ptr>, scale: real)
    requires |pv| == 3 && scale != 0.0
    ensures DifferenceError(x, pv, scale) == scale * (x(pv[1]) - (x(pv[0]) + x(pv[2])))
    ensures DifferenceError(x, pv, scale) == 0.0 <==> x(pv[1]) == x(pv[0]) + x(pv[2])
  {
    ScaledZero(scale, x(pv[1]) - x(pv[0]) - x(pv[2]));
  }

  /** Circles whose centres are not within a ten millionth of each other touch, from inside or outside;
      the others have the same radius. */
  lemma TangentMet(x: Values, pv: seq<Ptr>, scale: real, inside: bool)
    requires |pv| == 6
    ensures var d := Geometry.Dist2(Geometry.Point(x(pv[0]), x(pv[1])), Geometry.Point(x(pv[2]), x(pv[3])));
      var r, s := x(pv[4]), x(pv[5]);
      var gap := if d < 0.0000001 * 0.0000001 then r - s
                 else if inside then d - (r - s) * (r - s) else d - (r + s) * (r + s);
      && TangentError(x, pv, scale, inside) == scale * gap
      && (scale != 0.0 ==> (TangentError(x, pv, scale, inside) == 0.0 <==> gap == 0.0))
  {
    var d := Apart(x, pv);
    SameDistance(x(pv[0]), x(pv[2]));
    SameDistance(x(pv[1]), x(pv[3]));
    if scale != 0.0 {
      ScaledZero(scale, x(pv[4]) - x(pv[5]));
      ScaledZero(scale, d - Reach(x, pv, inside) * Reach(x, pv, inside));
    }
  }

  lemma SameDistance(a: real, b: real)
    ensures (a - b) * (a - b) == (b - a) * (b - a)
  {
  }

  // ---------------------------------------------------------------- weighted means

  function Total(t: seq<real>): (r: real) {
    if t == [] then 0.0 else Total(t[..|t| - 1]) + t[|t| - 1]
  }

  /** The first n values from place a on. */
  function Places(x: Values, pv: seq<Ptr>, a: nat, n: nat): (r: seq<real>)
    requires a + n <= |pv|
    ensures |r| == n
  {
    seq(n, i requires 0 <= i < n => x(pv[a + i]))
  }

  /** Member by member. */
  function Products(u: seq<real>, v: seq<real>): (r: seq<real>)
    requires |u| == |v|
    ensures |r| == |u|
  {
    seq(|u|, i requires 0 <= i < |u| => u[i] * v[i])
  }

  /** The members of u taken from c. */
  function From(u: seq<real>, c: real): (r: seq<real>)
    ensures |r| == |u|
  {
    seq(|u|, i requires 0 <= i < |u| => u[i] - c)
  }

  /** c is the mean of the values u with the weights w: they balance about it. */
  ghost predicate Balanced(u: seq<real>, w: seq<real>, c: real)
    requires |u| == |w|
  {
    Total(Products(From(u, c), w)) == 0.0
  }

  lemma ProductsInit(u: seq<real>, v: seq<real>)
    requires |u| == |v| > 0
    ensures Products(u, v)[..|u| - 1] == Products(u[..|u| - 1], v[..|u| - 1])
  {
    var n := |u| - 1;
    var u', v' := u[..n], v[..n];
    forall i | 0 <= i < n ensures Products(u, v)[..n][i] == Products(u', v')[i] {
      assert u'[i] == u[i] && v'[i] == v[i];
    }
  }

  /** The moment about c. */
  lemma {:induction false} Moment(u: seq<real>, w: seq<real>, c: real)
    requires |u| == |w|
    ensures Total(Products(From(u, c), w)) == Total(Products(u, w)) - c * Total(w)
  {
    hide *;
    TotalStep(w);
    TotalStep(Products(u, w));
    TotalStep(Products(From(u, c), w));
    if u != [] {
      var n := |u| - 1;
      var u', w' := u[..n], w[..n];
      Moment(u', w', c);
      ProductsInit(From(u, c), w);
      ProductsInit(u, w);
      FromInit(u, c);
      Members(u, w, c, n);
      MomentStep(Total(Products(u', w')), Total(w'), u[n], w[n], c);
    }
  }

  lemma TotalStep(t: seq<real>)
    ensures Total(t) == if t == [] then 0.0 else Total(t[..|t| - 1]) + t[|t| - 1]
  {
  }

  lemma FromInit(u: seq<real>, c: real)
    requires u != []
    ensures From(u, c)[..|u| - 1] == From(u[..|u| - 1], c)
  {
  }

  lemma Members(u: seq<real>, w: seq<real>, c: real, i: int)
    requires |u| == |w| && 0 <= i < |u|
    ensures |Products(From(u, c), w)| == |Products(u, w)| == |u|
    ensures Products(From(u, c), w)[i] == (u[i] - c) * w[i] && Products(u, w)[i] == u[i] * w[i]
  {
  }

  lemma MomentStep(p: real, t: real, u: real, w: real, c: real)
    ensures p - c * t + (u - c) * w == p + u * w - c * (t + w)
  {
  }

  lemma {:induction false} CentreTotal(x: Values, pv: seq<Ptr>, w: seq<real>, n: nat)
    requires n <= |w| && |pv| == |w| + 1
    ensures Constraints.Centre(x, pv, w, n) == Total(Products(Places(x, pv, 1, n), w[..n]))
  {
    if n > 0 {
      CentreTotal(x, pv, w, n - 1);
      ProductsInit(Places(x, pv, 1, n), w[..n]);
      assert Places(x, pv, 1, n)[..n - 1] == Places(x, pv, 1, n - 1) && w[..n][..n - 1] == w[..n - 1];
    }
  }

  /** The error of the centre of gravity is, up to sign and scale, the moment of the points about it, with the
      origin carrying what the weights lack to 1; if they lack nothing it is 0 exactly when the points balance. */
  lemma CentreMet(x: Values, pv: seq<Ptr>, w: seq<real>, scale: real)
    requires |pv| == |w| + 1 && scale != 0.0
    ensures var u, c := Places(x, pv, 1, |w|), x(pv[0]);
      && Gap(x, pv, w) + (Total(Products(From(u, c), w)) + (0.0 - c) * (1.0 - Total(w))) == 0.0
      && (Total(w) == 1.0 ==> (scale * Gap(x, pv, w) == 0.0 <==> Balanced(u, w, c)))
  {
    hide *;
    var u, c := Places(x, pv, 1, |w|), x(pv[0]);
    CentreTotal(x, pv, w, |w|);
    assert w[..|w|] == w;
    Moment(u, w, c);
    GapIs(x, pv, w);
    BalanceIs(u, w, c);
    ScaledZero(scale, Gap(x, pv, w));
    Lacking(c, Total(w), Constraints.Centre(x, pv, w, |w|));
  }

  lemma GapIs(x: Values, pv: seq<Ptr>, w: seq<real>)
    requires |pv| == |w| + 1
    ensures Gap(x, pv, w) == x(pv[0]) - Constraints.Centre(x, pv, w, |w|)
  {
    hide Constraints.Centre;
  }

  lemma BalanceIs(u: seq<real>, w: seq<real>, c: real)
    requires |u| == |w|
    ensures Balanced(u, w, c) <==> Total(Products(From(u, c), w)) == 0.0
  {
    hide Total, Products, From;
  }

  lemma Lacking(c: real, t: real, m: real)
    ensures (m - c * t) + (0.0 - c) * (1.0 - t) == m - c
  {
  }

  lemma {:induction false} WSumTotal(x: Values, pv: seq<Ptr>, f: seq<real>, b: nat, k: nat)
    requires b + k <= |pv| && k <= |f|
    ensures WSum(x, pv, f, b, k) == Total(Products(Places(x, pv, b, k), f[..k]))
  {
    if k > 0 {
      WSumTotal(x, pv, f, b, k - 1);
      ProductsInit(Places(x, pv, b, k), f[..k]);
      assert Places(x, pv, b, k)[..k - 1] == Places(x, pv, b, k - 1) && f[..k][..k - 1] == f[..k - 1];
    }
  }

  lemma {:induction false} PSumTotal(x: Values, pv: seq<Ptr>, f: seq<real>, a: nat, b: nat, k: nat)
    requires a + k <= |pv| && b + k <= |pv| && k <= |f|
    ensures PSum(x, pv, f, a, b, k) == Total(Products(Places(x, pv, a, k), Products(Places(x, pv, b, k), f[..k])))
  {
    hide *;
    TotalStep(Products(Places(x, pv, a, k), Products(Places(x, pv, b, k), f[..k])));
    PSumStep(x, pv, f, a, b, k);
    if k > 0 {
      PSumTotal(x, pv, f, a, b, k - 1);
      var u, v, w := Places(x, pv, a, k), Places(x, pv, b, k), f[..k];
      ProductsInit(u, Products(v, w));
      ProductsInit(v, w);
      PlacesInit(x, pv, a, k);
      PlacesInit(x, pv, b, k);
      assert w[..k - 1] == f[..k - 1];
      ProductsAt(v, w, k - 1);
      ProductsAt(u, Products(v, w), k - 1);
    }
  }

  lemma PSumStep(x: Values, pv: seq<Ptr>, f: seq<real>, a: nat, b: nat, k: nat)
    requires a + k <= |pv| && b + k <= |pv| && k <= |f|
    ensures PSum(x, pv, f, a, b, k) == if k == 0 then 0.0
      else PSum(x, pv, f, a, b, k - 1) + x(pv[a + (k - 1)]) * (x(pv[b + (k - 1)]) * f[k - 1])
  {
  }

  lemma PlacesInit(x: Values, pv: seq<Ptr>, a: nat, k: nat)
    requires a + k <= |pv| && k > 0
    ensures Places(x, pv, a, k)[..k - 1] == Places(x, pv, a, k - 1) && Places(x, pv, a, k)[k - 1] == x(pv[a + (k - 1)])
  {
  }

  lemma ProductsAt(u: seq<real>, v: seq<real>, i: int)
    requires |u| == |v| && 0 <= i < |u|
    ensures Products(u, v)[i] == u[i] * v[i]
  {
  }

  /** The error of the weighted linear combination is 0 exactly when the poles, with the products of
      their weights and factors, balance about the point. */
  lemma CombinationMet(x: Values, pv: seq<Ptr>, f: seq<real>, n: nat, scale: real)
    requires Shaped(pv, f, n) && scale != 0.0
    ensures var m := Products(Places(x, pv, 1 + n, n), f);
      Balance(x, pv, f, n) + Total(Products(From(Places(x, pv, 1, n), x(pv[0])), m)) == 0.0
    ensures scale * Balance(x, pv, f, n) == 0.0 <==>
              Balanced(Places(x, pv, 1, n), Products(Places(x, pv, 1 + n, n), f), x(pv[0]))
  {
    hide Balance, Balanced, WSum, PSum, Total, Products, Places, From;
    var u, v, c := Places(x, pv, 1, n), Places(x, pv, 1 + n, n), x(pv[0]);
    WSumTotal(x, pv, f, 1 + n, n);
    PSumTotal(x, pv, f, 1, 1 + n, n);
    assert f[..n] == f;
    CombinationIs(x, pv, f, n);
    Moment(u, Products(v, f), c);
    BalanceIs(u, Products(v, f), c);
    ScaledZero(scale, Balance(x, pv, f, n));
  }

  lemma CombinationIs(x: Values, pv: seq<Ptr>, f: seq<real>, n: nat)
    requires Shaped(pv, f, n)
    ensures Balance(x, pv, f, n) == x(pv[0]) * WSum(x, pv, f, 1 + n, n) - PSum(x, pv, f, 1, 1 + n, n)
  {
    hide WSum, PSum;
  }

  // ---------------------------------------------------------------- the slope at a knot

  /** The factors after the parameter has moved by u. */
  function Along(f: seq<real>, s: seq<real>, u: real): (r: seq<real>)
    requires |f| == |s|
  {
    seq(|f|, i requires 0 <= i < |f| => f[i] + u * s[i])
  }

  lemma {:induction false} WSumAlong(x: Values, pv: seq<Ptr>, f: seq<real>, s: seq<real>, b: int, k: nat, u: real)
    requires |f| == |s| && k <= |f|
    ensures WSum(x, pv, Along(f, s, u), b, k) == WSum(x, pv, f, b, k) + u * WSum(x, pv, s, b, k)
  {
    hide Val;
    if k > 0 {
      WSumAlong(x, pv, f, s, b, k - 1, u);
      AlongTerm(Val(x, pv, b + k - 1), f[k - 1], s[k - 1], u, WSum(x, pv, s, b, k - 1));
    }
  }

  lemma AlongTerm(v: real, f: real, s: real, u: real, t: real)
    ensures v * (f + u * s) == v * f + u * (v * s) && u * (t + v * s) == u * t + u * (v * s)
  {
  }

  lemma {:induction false} PSumAlong(x: Values, pv: seq<Ptr>, f: seq<real>, s: seq<real>, a: int, b: int, k: nat,
      u: real)
    requires |f| == |s| && k <= |f|
    ensures PSum(x, pv, Along(f, s, u), a, b, k) == PSum(x, pv, f, a, b, k) + u * PSum(x, pv, s, a, b, k)
  {
    hide Val;
    if k > 0 {
      PSumAlong(x, pv, f, s, a, b, k - 1, u);
      var v, w := Val(x, pv, a + k - 1), Val(x, pv, b + k - 1);
      AlongTerm(w, f[k - 1], s[k - 1], u, 0.0);
      AlongTerm(v, w * f[k - 1], w * s[k - 1], u, PSum(x, pv, s, a, b, k - 1));
    }
  }

  /** The slope is that of the curve: when the factors move along, the weighted means before and after
      differ by the move times the slope over the product of the weight sums. */
  lemma SlopeExact(x: Values, pv: seq<Ptr>, f: seq<real>, s: seq<real>, a: int, n: nat, u: real)
    requires |f| == |s| == n
    ensures var g := Along(f, s, u);
      PSum(x, pv, g, a, 2 * n, n) * WSum(x, pv, f, 2 * n, n) - PSum(x, pv, f, a, 2 * n, n) * WSum(x, pv, g, 2 * n, n)
      == u * SlopeOf(x, pv, f, s, a, n)
  {
    hide WSum, PSum, Along, Det;
    WSumAlong(x, pv, f, s, 2 * n, n, u);
    PSumAlong(x, pv, f, s, a, 2 * n, n, u);
    ChordOf(WSum(x, pv, f, 2 * n, n), WSum(x, pv, s, 2 * n, n), PSum(x, pv, f, a, 2 * n, n),
      PSum(x, pv, s, a, 2 * n, n), u, WSum(x, pv, Along(f, s, u), 2 * n, n), PSum(x, pv, Along(f, s, u), a, 2 * n, n));
  }

  lemma ChordOf(w: real, w': real, p: real, p': real, u: real, w1: real, p1: real)
    requires w1 == w + u * w' && p1 == p + u * p'
    ensures p1 * w - p * w1 == u * Det(w, p', w', p)
  {
    assert (p + u * p') * w - p * (w + u * w') == u * (w * p' - w' * p);
  }

  /** The error is 0 exactly when the slope has the direction of the line. */
  lemma SlopeMet(x: Values, pv: seq<Ptr>, f: seq<real>, s: seq<real>, n: nat, dir: Direction, scale: real, length: real)
    requires KnotShaped(pv, f, s, n) && scale != 0.0 && length != 0.0
    requires var l := Vector(x, pv, 3 * n + 2, 3 * n);
      var d := dir(l.x, l.y); l.x == length * d.0 && l.y == length * d.1
    ensures var a, b := Geometry.Point(SlopeOf(x, pv, f, s, 0, n), SlopeOf(x, pv, f, s, n, n)),
                        Vector(x, pv, 3 * n + 2, 3 * n);
      && length * Cross(x, pv, f, s, n, dir) == a.x * b.y - a.y * b.x
      && (scale * Cross(x, pv, f, s, n, dir) == 0.0 <==> Aligned(a, b))
  {
    hide Cross, SlopeOf, Aligned, Vector;
    CrossIs(x, pv, f, s, n, dir);
    var a, b := Geometry.Point(SlopeOf(x, pv, f, s, 0, n), SlopeOf(x, pv, f, s, n, n)), Vector(x, pv, 3 * n + 2, 3 * n);
    var d := dir(b.x, b.y);
    AlongDirection(a, b, d.0, d.1, length);
    ScaledZero(scale, Cross(x, pv, f, s, n, dir));
  }

  lemma AlongDirection(a: Geometry.Point, b: Geometry.Point, p: real, q: real, length: real)
    requires b.x == length * p && b.y == length * q && length != 0.0
    ensures length * (a.x * q - a.y * p) == a.x * b.y - a.y * b.x
    ensures Aligned(a, b) <==> a.x * q - a.y * p == 0.0
  {
    AlignedCross(a, b);
    hide Aligned;
    Lengthened(a.x, a.y, p, q, length);
    ScaledZero(length, a.x * q - a.y * p);
  }

  lemma CrossIs(x: Values, pv: seq<Ptr>, f: seq<real>, s: seq<real>, n: nat, dir: Direction)
    requires KnotShaped(pv, f, s, n)
    ensures var l := Vector(x, pv, 3 * n + 2, 3 * n); var d := dir(l.x, l.y);
      Cross(x, pv, f, s, n, dir) == SlopeOf(x, pv, f, s, 0, n) * d.1 - SlopeOf(x, pv, f, s, n, n) * d.0
  {
    hide SlopeOf;
  }

  lemma Lengthened(u: real, v: real, p: real, q: real, length: real)
    ensures u * (length * q) - v * (length * p) == length * (u * q - v * p)
  {
  }
}
