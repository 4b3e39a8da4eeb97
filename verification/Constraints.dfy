/** The polynomial constraints of planegcs: `error` and `grad` are written separately; here they
    are compared.  A parameter is a pointer; a constraint reads the values behind its pointers,
    which may be equal. */
module Constraints {

  type Ptr = int

  type Values = Ptr -> real

  /** The values with h added behind the pointer p. */
  function Bump(x: Values, p: Ptr, h: real): (r: Values) {
    q => if q == p then x(q) + h else x(q)
  }

  function Hit(q: Ptr, p: Ptr): (r: real) {
    if q == p then 1.0 else 0.0
  }

  lemma BumpAt(x: Values, p: Ptr, h: real, q: Ptr)
    ensures Bump(x, p, h)(q) == x(q) + h * Hit(q, p)
  {
  }

  /** The base class: the pointers, redirected while a subsystem is solved, the mark that they have
      been, and the scale. */
  class Constraint {
    var origpvec: seq<Ptr>
    var pvec: seq<Ptr>
    var scale: real
    var pvecChangedFlag: bool

    constructor (given: seq<Ptr>)
      ensures pvec == given && origpvec == given && scale == 1.0 && pvecChangedFlag
    {
      origpvec, pvec, scale, pvecChangedFlag := given, given, 1.0, true;
    }

    /** Every pointer whose original is in the map is replaced; the others stay as they are. */
    method RedirectParams(redirection: map<Ptr, Ptr>)
      requires |pvec| == |origpvec|
      modifies `pvec, `pvecChangedFlag
      ensures pvec == Redirected(origpvec, old(pvec), redirection) && pvecChangedFlag
    {
      var i := 0;
      while i < |origpvec|
        invariant 0 <= i <= |origpvec| && |pvec| == |origpvec|
        invariant forall j | 0 <= j < |pvec| :: pvec[j] == if j < i then Redirected(origpvec, old(pvec), redirection)[j]
                                                else old(pvec)[j]
      {
        if origpvec[i] in redirection {
          pvec := pvec[i := redirection[origpvec[i]]];
        }
        i := i + 1;
      }
      pvecChangedFlag := true;
    }

    method RevertParams()
      modifies `pvec, `pvecChangedFlag
      ensures pvec == origpvec && pvecChangedFlag
    {
      pvec := origpvec;
      pvecChangedFlag := true;
    }

    method Rescale(coef: real)
      modifies `scale
      ensures scale == coef
    {
      scale := coef * 1.0;
    }

    /** The first place of a pointer, -1 when it is not there. */
    method FindParamInPvec(p: Ptr) returns (ret: int)
      ensures if p in pvec then 0 <= ret < |pvec| && pvec[ret] == p && p !in pvec[..ret] else ret == -1
    {
      ret := -1;
      var i := 0;
      while i < |pvec|
        invariant 0 <= i <= |pvec| && p !in pvec[..i]
      {
        if p == pvec[i] {
          return i;
        }
        i := i + 1;
      }
    }
  }

  function Redirected(orig: seq<Ptr>, pv: seq<Ptr>, m: map<Ptr, Ptr>): (r: seq<Ptr>)
    requires |pv| == |orig|
  {
    seq(|orig|, i requires 0 <= i < |orig| => if orig[i] in m then m[orig[i]] else pv[i])
  }

  /** After a revert the redirection depends on the original pointers only, whatever was there before;
      pointers that were equal stay equal. */
  lemma RedirectedFresh(orig: seq<Ptr>, m: map<Ptr, Ptr>, i: int, j: int)
    requires 0 <= i < |orig| && 0 <= j < |orig|
    ensures |Redirected(orig, orig, m)| == |orig|
      && (orig[i] == orig[j] ==> Redirected(orig, orig, m)[i] == Redirected(orig, orig, m)[j])
  {
  }

  // ---------------------------------------------------------------- two lines

  /** The difference of two coordinates of a line, and its rate of change with p. */
  function Side(x: Values, pv: seq<Ptr>, i: nat, j: nat): (r: real)
    requires i < |pv| && j < |pv|
  {
    x(pv[i]) - x(pv[j])
  }

  function Rate(pv: seq<Ptr>, i: nat, j: nat, p: Ptr): (r: real)
    requires i < |pv| && j < |pv|
  {
    Hit(pv[i], p) - Hit(pv[j], p)
  }

  lemma SideBump(x: Values, pv: seq<Ptr>, i: nat, j: nat, p: Ptr, h: real)
    requires i < |pv| && j < |pv|
    ensures Side(Bump(x, p, h), pv, i, j) == Side(x, pv, i, j) + h * Rate(pv, i, j, p)
  {
    BumpAt(x, p, h, pv[i]);
    BumpAt(x, p, h, pv[j]);
  }

  function Pick(b: bool, r: real): (res: real) {
    if b then r else 0.0
  }

  function ParallelError(x: Values, pv: seq<Ptr>, scale: real): (r: real)
    requires |pv| == 8
  {
    var dx1, dy1, dx2, dy2 := Side(x, pv, 0, 2), Side(x, pv, 1, 3), Side(x, pv, 4, 6), Side(x, pv, 5, 7);
    scale * (dx1 * dy2 - dy1 * dx2)
  }

  function ParallelGrad(x: Values, pv: seq<Ptr>, scale: real, p: Ptr): (r: real)
    requires |pv| == 8
  {
    var deriv := Pick(p == pv[0], Side(x, pv, 5, 7)) + Pick(p == pv[2], -Side(x, pv, 5, 7))
               + Pick(p == pv[1], -Side(x, pv, 4, 6)) + Pick(p == pv[3], Side(x, pv, 4, 6))
               + Pick(p == pv[4], -Side(x, pv, 1, 3)) + Pick(p == pv[6], Side(x, pv, 1, 3))
               + Pick(p == pv[5], Side(x, pv, 0, 2)) + Pick(p == pv[7], -Side(x, pv, 0, 2));
    scale * deriv
  }

  /** What is left over of second order: it depends on which pointers are equal, not on the values. */
  function ParallelCurve(pv: seq<Ptr>, p: Ptr): (r: real)
    requires |pv| == 8
  {
    Rate(pv, 0, 2, p) * Rate(pv, 5, 7, p) - Rate(pv, 1, 3, p) * Rate(pv, 4, 6, p)
  }

  lemma PickRate(pv: seq<Ptr>, i: nat, j: nat, p: Ptr, r: real)
    requires i < |pv| && j < |pv|
    ensures Pick(p == pv[i], r) + Pick(p == pv[j], -r) == Rate(pv, i, j, p) * r
    ensures Pick(p == pv[i], -r) + Pick(p == pv[j], r) == -(Rate(pv, i, j, p) * r)
  {
  }

  /** Two products of quantities that change at constant rates, added with the sign e and scaled. */
  lemma ProductsChange(s: real, e: real, a: real, b: real, c: real, d: real, ra: real, rb: real, rc: real, rd: real,
      h: real)
    ensures s * ((a + h * ra) * (b + h * rb) + e * ((c + h * rc) * (d + h * rd)))
         == s * (a * b + e * (c * d)) + h * (s * (ra * b + a * rb + e * (rc * d + c * rd)))
            + h * h * (s * (ra * rb + e * (rc * rd)))
  {
    ProductChange(a, b, ra, rb, h);
    ProductChange(c, d, rc, rd, h);
    Gather2(s, e, a * b, c * d, ra * b + a * rb, rc * d + c * rd, ra * rb, rc * rd, h);
  }

  lemma ProductChange(a: real, b: real, ra: real, rb: real, h: real)
    ensures (a + h * ra) * (b + h * rb) == a * b + h * (ra * b + a * rb) + h * h * (ra * rb)
  {
  }

  lemma Gather2(s: real, e: real, a: real, b: real, a1: real, b1: real, a2: real, b2: real, h: real)
    ensures s * ((a + h * a1 + h * h * a2) + e * (b + h * b1 + h * h * b2))
         == s * (a + e * b) + h * (s * (a1 + e * b1)) + h * h * (s * (a2 + e * b2))
  {
  }

  /** Whatever pointers are equal, `grad` is the exact first-order change of `error`. */
  lemma ParallelExact(x: Values, pv: seq<Ptr>, scale: real, p: Ptr, h: real)
    requires |pv| == 8
    ensures ParallelError(Bump(x, p, h), pv, scale)
         == ParallelError(x, pv, scale) + h * ParallelGrad(x, pv, scale, p) + h * h * (scale * ParallelCurve(pv, p))
  {
    hide Side, Rate, Bump, Pick;
    SideBump(x, pv, 0, 2, p, h);
    SideBump(x, pv, 1, 3, p, h);
    SideBump(x, pv, 4, 6, p, h);
    SideBump(x, pv, 5, 7, p, h);
    ProductsChange(scale, -1.0, Side(x, pv, 0, 2), Side(x, pv, 5, 7), Side(x, pv, 1, 3), Side(x, pv, 4, 6),
                   Rate(pv, 0, 2, p), Rate(pv, 5, 7, p), Rate(pv, 1, 3, p), Rate(pv, 4, 6, p), h);
    ParallelDeriv(x, pv, scale, p);
    hide ParallelGrad;
  }

  lemma ParallelDeriv(x: Values, pv: seq<Ptr>, scale: real, p: Ptr)
    requires |pv| == 8
    ensures ParallelGrad(x, pv, scale, p)
         == scale * (Rate(pv, 0, 2, p) * Side(x, pv, 5, 7) + Side(x, pv, 0, 2) * Rate(pv, 5, 7, p)
                     + -1.0 * (Rate(pv, 1, 3, p) * Side(x, pv, 4, 6) + Side(x, pv, 1, 3) * Rate(pv, 4, 6, p)))
  {
    hide Side, Rate, Pick;
    PickRate(pv, 0, 2, p, Side(x, pv, 5, 7));
    PickRate(pv, 1, 3, p, Side(x, pv, 4, 6));
    PickRate(pv, 4, 6, p, Side(x, pv, 1, 3));
    PickRate(pv, 5, 7, p, Side(x, pv, 0, 2));
  }

  function PerpendicularError(x: Values, pv: seq<Ptr>, scale: real): (r: real)
    requires |pv| == 8
  {
    var dx1, dy1, dx2, dy2 := Side(x, pv, 0, 2), Side(x, pv, 1, 3), Side(x, pv, 4, 6), Side(x, pv, 5, 7);
    scale * (dx1 * dx2 + dy1 * dy2)
  }

  function PerpendicularGrad(x: Values, pv: seq<Ptr>, scale: real, p: Ptr): (r: real)
    requires |pv| == 8
  {
    var deriv := Pick(p == pv[0], Side(x, pv, 4, 6)) + Pick(p == pv[2], -Side(x, pv, 4, 6))
               + Pick(p == pv[1], Side(x, pv, 5, 7)) + Pick(p == pv[3], -Side(x, pv, 5, 7))
               + Pick(p == pv[4], Side(x, pv, 0, 2)) + Pick(p == pv[6], -Side(x, pv, 0, 2))
               + Pick(p == pv[5], Side(x, pv, 1, 3)) + Pick(p == pv[7], -Side(x, pv, 1, 3));
    scale * deriv
  }

  function PerpendicularCurve(pv: seq<Ptr>, p: Ptr): (r: real)
    requires |pv| == 8
  {
    Rate(pv, 0, 2, p) * Rate(pv, 4, 6, p) + Rate(pv, 1, 3, p) * Rate(pv, 5, 7, p)
  }

  lemma PerpendicularExact(x: Values, pv: seq<Ptr>, scale: real, p: Ptr, h: real)
    requires |pv| == 8
    ensures PerpendicularError(Bump(x, p, h), pv, scale)
         == PerpendicularError(x, pv, scale) + h * PerpendicularGrad(x, pv, scale,
           p) + h * h * (scale * PerpendicularCurve(pv, p))
  {
    hide Side, Rate, Bump, Pick;
    SideBump(x, pv, 0, 2, p, h);
    SideBump(x, pv, 1, 3, p, h);
    SideBump(x, pv, 4, 6, p, h);
    SideBump(x, pv, 5, 7, p, h);
    ProductsChange(scale, 1.0, Side(x, pv, 0, 2), Side(x, pv, 4, 6), Side(x, pv, 1, 3), Side(x, pv, 5, 7),
                   Rate(pv, 0, 2, p), Rate(pv, 4, 6, p), Rate(pv, 1, 3, p), Rate(pv, 5, 7, p), h);
    PerpendicularDeriv(x, pv, scale, p);
    hide PerpendicularGrad;
  }

  lemma PerpendicularDeriv(x: Values, pv: seq<Ptr>, scale: real, p: Ptr)
    requires |pv| == 8
    ensures PerpendicularGrad(x, pv, scale, p)
         == scale * (Rate(pv, 0, 2, p) * Side(x, pv, 4, 6) + Side(x, pv, 0, 2) * Rate(pv, 4, 6, p)
                     + 1.0 * (Rate(pv, 1, 3, p) * Side(x, pv, 5, 7) + Side(x, pv, 1, 3) * Rate(pv, 5, 7, p)))
  {
    hide Side, Rate, Pick;
    PickRate(pv, 0, 2, p, Side(x, pv, 4, 6));
    PickRate(pv, 1, 3, p, Side(x, pv, 5, 7));
    PickRate(pv, 4, 6, p, Side(x, pv, 0, 2));
    PickRate(pv, 5, 7, p, Side(x, pv, 1, 3));
  }

  // ---------------------------------------------------------------- two circles

  /** Below this squared distance the circles count as concentric. */
  const NEAR: real := 0.00000000000001

  function Apart(x: Values, pv: seq<Ptr>): (r: real)
    requires |pv| == 6
  {
    Side(x, pv, 0, 2) * Side(x, pv, 0, 2) + Side(x, pv, 1, 3) * Side(x, pv, 1, 3)
  }

  /** The difference of the radii for inner tangency, their sum for outer. */
  function Reach(x: Values, pv: seq<Ptr>, inside: bool): (r: real)
    requires |pv| == 6
  {
    if inside then x(pv[4]) - x(pv[5]) else x(pv[4]) + x(pv[5])
  }

  function ReachRate(pv: seq<Ptr>, inside: bool, p: Ptr): (r: real)
    requires |pv| == 6
  {
    if inside then Hit(pv[4], p) - Hit(pv[5], p) else Hit(pv[4], p) + Hit(pv[5], p)
  }

  function TangentError(x: Values, pv: seq<Ptr>, scale: real, inside: bool): (r: real)
    requires |pv| == 6
  {
    var d := Apart(x, pv);
    if d < NEAR then scale * (x(pv[4]) - x(pv[5])) else scale * (d - Reach(x, pv, inside) * Reach(x, pv, inside))
  }

  function TangentGrad(x: Values, pv: seq<Ptr>, scale: real, inside: bool, p: Ptr): (r: real)
    requires |pv| == 6
  {
    var dx, dy := Side(x, pv, 0, 2), Side(x, pv, 1, 3);
    if p !in pv then scale * 0.0
    else if Apart(x, pv) < NEAR then scale * if p == pv[4] then 1.0 else if p == pv[5] then -1.0 else 0.0
    else scale * (Pick(p == pv[0], 2.0 * dx) + Pick(p == pv[1], 2.0 * dy) + Pick(p == pv[2], 2.0 * -dx) + Pick(p
         == pv[3], 2.0 * -dy)
                  + RadiusGrad(x, pv, inside, p))
  }

  function RadiusGrad(x: Values, pv: seq<Ptr>, inside: bool, p: Ptr): (r: real)
    requires |pv| == 6
  {
    if inside then Pick(p == pv[4], 2.0 * (x(pv[5]) - x(pv[4]))) + Pick(p == pv[5], 2.0 * (x(pv[4]) - x(pv[5])))
    else Pick(p == pv[4], -2.0 * (x(pv[4]) + x(pv[5]))) + Pick(p == pv[5], -2.0 * (x(pv[4]) + x(pv[5])))
  }

  function TangentCurve(pv: seq<Ptr>, inside: bool, p: Ptr): (r: real)
    requires |pv| == 6
  {
    Rate(pv, 0, 2, p) * Rate(pv, 0, 2, p) + Rate(pv, 1, 3, p) * Rate(pv, 1, 3, p) - ReachRate(pv, inside,
      p) * ReachRate(pv, inside, p)
  }

  lemma ReachBump(x: Values, pv: seq<Ptr>, inside: bool, p: Ptr, h: real)
    requires |pv| == 6
    ensures Reach(Bump(x, p, h), pv, inside) == Reach(x, pv, inside) + h * ReachRate(pv, inside, p)
  {
    BumpAt(x, p, h, pv[4]);
    BumpAt(x, p, h, pv[5]);
    hide Hit, Bump;
  }

  lemma RadiusDeriv(x: Values, pv: seq<Ptr>, inside: bool, p: Ptr)
    requires |pv| == 6
    ensures RadiusGrad(x, pv, inside, p) == -2.0 * (ReachRate(pv, inside, p) * Reach(x, pv, inside))
  {
  }

  lemma SquaresChange(s: real, a: real, b: real, c: real, ra: real, rb: real, rc: real, h: real)
    ensures s * ((a + h * ra) * (a + h * ra) + (b + h * rb) * (b + h * rb) - (c + h * rc) * (c + h * rc))
         == s * (a * a + b * b - c * c) + h * (s * (2.0 * (ra * a) + 2.0 * (rb * b) - 2.0 * (rc * c)))
            + h * h * (s * (ra * ra + rb * rb - rc * rc))
  {
    SquareChange(a, ra, h);
    SquareChange(b, rb, h);
    SquareChange(c, rc, h);
    Gather3(s, a * a, b * b, c * c, 2.0 * (ra * a), 2.0 * (rb * b), 2.0 * (rc * c), ra * ra, rb * rb, rc * rc, h);
  }

  lemma SquareChange(a: real, ra: real, h: real)
    ensures (a + h * ra) * (a + h * ra) == a * a + h * (2.0 * (ra * a)) + h * h * (ra * ra)
  {
  }

  lemma Gather3(s: real, a: real, b: real, c: real, a1: real, b1: real, c1: real, a2: real, b2: real, c2: real, h: real)
    ensures s * ((a + h * a1 + h * h * a2) + (b + h * b1 + h * h * b2) - (c + h * c1 + h * h * c2))
         == s * (a + b - c) + h * (s * (a1 + b1 - c1)) + h * h * (s * (a2 + b2 - c2))
  {
  }

  /** Away from concentric circles `grad` is exact, whatever pointers are equal. */
  lemma TangentExact(x: Values, pv: seq<Ptr>, scale: real, inside: bool, p: Ptr, h: real)
    requires |pv| == 6 && Apart(x, pv) >= NEAR && Apart(Bump(x, p, h), pv) >= NEAR
    ensures TangentError(Bump(x, p, h), pv, scale, inside)
         == TangentError(x, pv, scale, inside) + h * TangentGrad(x, pv, scale, inside,
           p) + h * h * (scale * TangentCurve(pv, inside, p))
  {
    hide Side, Rate, Bump, Reach, ReachRate, TangentGrad;
    SideBump(x, pv, 0, 2, p, h);
    SideBump(x, pv, 1, 3, p, h);
    ReachBump(x, pv, inside, p, h);
    SquaresChange(scale, Side(x, pv, 0, 2), Side(x, pv, 1, 3), Reach(x, pv, inside), Rate(pv, 0, 2, p),
      Rate(pv, 1, 3, p), ReachRate(pv, inside, p), h);
    TangentDeriv(x, pv, scale, inside, p);
  }

  lemma TangentDeriv(x: Values, pv: seq<Ptr>, scale: real, inside: bool, p: Ptr)
    requires |pv| == 6 && Apart(x, pv) >= NEAR
    ensures TangentGrad(x, pv, scale, inside, p)
         == scale * (2.0 * (Rate(pv, 0, 2, p) * Side(x, pv, 0, 2)) + 2.0 * (Rate(pv, 1, 3, p) * Side(x, pv, 1,
           3)) - 2.0 * (ReachRate(pv, inside, p) * Reach(x, pv, inside)))
  {
    hide Side, Reach, Apart, Rate, Pick, ReachRate, RadiusGrad;
    if p !in pv {
      NoRates(pv, inside, p);
    } else {
      PickRate(pv, 0, 2, p, 2.0 * Side(x, pv, 0, 2));
      PickRate(pv, 1, 3, p, 2.0 * Side(x, pv, 1, 3));
      RadiusDeriv(x, pv, inside, p);
    }
  }

  lemma NoRates(pv: seq<Ptr>, inside: bool, p: Ptr)
    requires |pv| == 6 && p !in pv
    ensures Rate(pv, 0, 2, p) == Rate(pv, 1, 3, p) == ReachRate(pv, inside, p) == 0.0
  {
    assert pv[0] in pv && pv[1] in pv && pv[2] in pv && pv[3] in pv && pv[4] in pv && pv[5] in pv;
  }

  /** For concentric circles `grad` is exact except in one case: the pointer is that of both radii. */
  lemma TangentNear(x: Values, pv: seq<Ptr>, scale: real, inside: bool, p: Ptr, h: real)
    requires |pv| == 6 && Apart(x, pv) < NEAR && Apart(Bump(x, p, h), pv) < NEAR && scale != 0.0 && h != 0.0
    ensures !(p == pv[4] && p == pv[5])
       <==> TangentError(Bump(x, p, h), pv, scale, inside) - TangentError(x, pv, scale, inside)
            == h * TangentGrad(x, pv, scale, inside, p)
  {
    hide Side, Apart, Bump, Reach;
    BumpAt(x, p, h, pv[4]);
    BumpAt(x, p, h, pv[5]);
    NearChange(scale, x(pv[4]), x(pv[5]), Hit(pv[4], p), Hit(pv[5], p), h);
    var g := if p == pv[4] then 1.0 else if p == pv[5] then -1.0 else 0.0;
    assert pv[4] in pv && pv[5] in pv;
    NonZeroProduct(scale, h);
    hide NEAR;
  }

  lemma NearChange(s: real, a: real, b: real, ra: real, rb: real, h: real)
    ensures s * ((a + h * ra) - (b + h * rb)) - s * (a - b) == h * (s * (ra - rb))
  {
  }

  lemma NonZeroProduct(a: real, b: real)
    requires a != 0.0 && b != 0.0
    ensures a * b != 0.0 && b * (a * 1.0) != 0.0 && b * (a * 0.0) == 0.0 && b * (a * -1.0) != 0.0
  {
  }

  // ---------------------------------------------------------------- difference and centre of gravity

  function DifferenceError(x: Values, pv: seq<Ptr>, scale: real): (r: real)
    requires |pv| == 3
  {
    scale * (x(pv[1]) - x(pv[0]) - x(pv[2]))
  }

  function DifferenceGrad(pv: seq<Ptr>, scale: real, p: Ptr): (r: real)
    requires |pv| == 3
  {
    scale * (Pick(p == pv[0], -1.0) + Pick(p == pv[1], 1.0) + Pick(p == pv[2], -1.0))
  }

  lemma DifferenceExact(x: Values, pv: seq<Ptr>, scale: real, p: Ptr, h: real)
    requires |pv| == 3
    ensures DifferenceError(Bump(x, p, h), pv, scale) == DifferenceError(x, pv, scale) + h * DifferenceGrad(pv, scale,
      p)
  {
    BumpAt(x, p, h, pv[0]);
    BumpAt(x, p, h, pv[1]);
    BumpAt(x, p, h, pv[2]);
    DifferenceScalar(scale, x(pv[0]), x(pv[1]), x(pv[2]), Hit(pv[0], p), Hit(pv[1], p), Hit(pv[2], p), h);
  }

  lemma DifferenceScalar(s: real, a: real, b: real, c: real, ra: real, rb: real, rc: real, h: real)
    ensures s * ((b + h * rb) - (a + h * ra) - (c + h * rc)) == s * (b - a - c) + h * (s * (rb - ra - rc))
  {
  }

  /** Member i of a list of factors. */
  function Nth(f: seq<real>, i: int): (r: real) {
    if 0 <= i < |f| then f[i] else 0.0
  }

  /** The value behind pointer number k. */
  function Val(x: Values, pv: seq<Ptr>, k: int): (r: real) {
    if 0 <= k < |pv| then x(pv[k]) else 0.0
  }

  function HitAt(pv: seq<Ptr>, k: int, p: Ptr): (r: real) {
    if 0 <= k < |pv| then Hit(pv[k], p) else 0.0
  }

  lemma ValBump(x: Values, pv: seq<Ptr>, k: int, p: Ptr, h: real)
    ensures Val(Bump(x, p, h), pv, k) == Val(x, pv, k) + h * HitAt(pv, k, p)
  {
    if 0 <= k < |pv| {
      BumpAt(x, p, h, pv[k]);
    }
  }

  /** The sum of the points with their weights. */
  function Centre(x: Values, pv: seq<Ptr>, w: seq<real>, n: nat): (r: real) {
    if n == 0 then 0.0 else Centre(x, pv, w, n - 1) + Val(x, pv, n) * Nth(w, n - 1)
  }

  method CentreError(x: Values, pv: seq<Ptr>, w: seq<real>, scale: real) returns (e: real)
    requires |pv| == |w| + 1
    ensures e == scale * Gap(x, pv, w)
  {
    var sum, i := 0.0, 0;
    while i < |w|
      invariant 0 <= i <= |w| && sum == Centre(x, pv, w, i)
    {
      sum := sum + x(pv[1 + i]) * w[i];
      i := i + 1;
    }
    e := scale * (x(pv[0]) - sum);
  }

  /** The factor that the code takes for p: the one of its last place. */
  function LastFactor(pv: seq<Ptr>, w: seq<real>, n: nat, p: Ptr): (r: real) {
    if n == 0 then HitAt(pv, 0, p) else if n < |pv| && p == pv[n] then -Nth(w, n - 1) else LastFactor(pv, w, n - 1, p)
  }

  /** The sum of the factors of all places of p. */
  function AllFactors(pv: seq<Ptr>, w: seq<real>, n: nat, p: Ptr): (r: real) {
    if n == 0 then HitAt(pv, 0, p) else AllFactors(pv, w, n - 1, p) - HitAt(pv, n, p) * Nth(w, n - 1)
  }

  method CentreGrad(pv: seq<Ptr>, w: seq<real>, scale: real, p: Ptr) returns (g: real)
    requires |pv| == |w| + 1
    ensures g == scale * LastFactor(pv, w, |w|, p)
  {
    var deriv, i := 0.0, 0;
    if p == pv[0] {
      deriv := 1.0;
    }
    while i < |w|
      invariant 0 <= i <= |w| && deriv == LastFactor(pv, w, i, p)
    {
      if p == pv[1 + i] {
        deriv := -w[i];
      }
      i := i + 1;
    }
    g := scale * deriv;
  }

  lemma {:induction false} CentreBump(x: Values, pv: seq<Ptr>, w: seq<real>, n: nat, p: Ptr, h: real)
    ensures Val(Bump(x, p, h), pv, 0) - Centre(Bump(x, p, h), pv, w, n) == Val(x, pv, 0) - Centre(x, pv, w,
      n) + h * AllFactors(pv, w, n, p)
  {
    hide Val, HitAt, Bump;
    if n == 0 {
      ValBump(x, pv, 0, p, h);
    } else {
      CentreBump(x, pv, w, n - 1, p, h);
      ValBump(x, pv, n, p, h);
      TermBump(Val(x, pv, n), HitAt(pv, n, p), Nth(w, n - 1), h, AllFactors(pv, w, n - 1, p));
    }
  }

  lemma TermBump(v: real, r: real, w: real, h: real, f: real)
    ensures (v + h * r) * w == v * w + h * (r * w) && h * (f - r * w) == h * f - h * (r * w)
  {
  }

  /** The centre less the sum. */
  function Gap(x: Values, pv: seq<Ptr>, w: seq<real>): (r: real) {
    Val(x, pv, 0) - Centre(x, pv, w, |w|)
  }

  /** `grad` is the exact difference quotient if and only if the factors of all places of the pointer
      add up to that of its last place, as for a pointer with one place. */
  lemma CentreExact(x: Values, pv: seq<Ptr>, w: seq<real>, scale: real, p: Ptr, h: real)
    requires |pv| == |w| + 1 && scale != 0.0 && h != 0.0
    ensures scale * Gap(Bump(x, p, h), pv, w) - scale * Gap(x, pv, w) == h * (scale * LastFactor(pv, w, |w|, p))
       <==> AllFactors(pv, w, |w|, p) == LastFactor(pv, w, |w|, p)
  {
    hide *;
    GapBump(x, pv, w, p, h);
    Cancel(scale, h, AllFactors(pv, w, |w|, p), LastFactor(pv, w, |w|, p), Gap(x, pv, w), Gap(Bump(x, p, h), pv, w));
  }

  lemma GapBump(x: Values, pv: seq<Ptr>, w: seq<real>, p: Ptr, h: real)
    ensures Gap(Bump(x, p, h), pv, w) == Gap(x, pv, w) + h * AllFactors(pv, w, |w|, p)
  {
    CentreBump(x, pv, w, |w|, p, h);
  }

  lemma Cancel(s: real, h: real, a: real, b: real, e: real, e': real)
    requires s != 0.0 && h != 0.0 && e' == e + h * a
    ensures s * e' - s * e == h * (s * b) <==> a == b
  {
    var d := a - b;
    assert s * e' - s * e - h * (s * b) == (h * s) * d;
    assert h * s != 0.0;
    assert (h * s) * d == 0.0 <==> d == 0.0;
  }

  /** p has at most one place. */
  predicate Single(pv: seq<Ptr>, p: Ptr) {
    forall i, j | 0 <= i < j < |pv| :: !(pv[i] == p && pv[j] == p)
  }

  lemma {:induction false} SingleFactor(pv: seq<Ptr>, w: seq<real>, n: nat, p: Ptr)
    requires n < |pv| && Single(pv, p)
    ensures AllFactors(pv, w, n, p) == LastFactor(pv, w, n, p)
    ensures p !in pv[..n + 1] ==> AllFactors(pv, w, n, p) == 0.0
  {
    if n > 0 {
      SingleFactor(pv, w, n - 1, p);
      assert pv[..n + 1] == pv[..n] + [pv[n]];
      if p == pv[n] {
        assert p !in pv[..n];
      }
    }
  }

  /** So it is for a pointer with at most one place. */
  lemma CentreSingle(x: Values, pv: seq<Ptr>, w: seq<real>, scale: real, p: Ptr, h: real)
    requires |pv| == |w| + 1 && Single(pv, p)
    ensures scale * Gap(Bump(x, p, h), pv, w) - scale * Gap(x, pv, w) == h * (scale * LastFactor(pv, w, |w|, p))
  {
    SingleFactor(pv, w, |w|, p);
    hide *;
    if scale != 0.0 && h != 0.0 {
      CentreExact(x, pv, w, scale, p, h);
    } else {
      GapBump(x, pv, w, p, h);
    }
  }
}
