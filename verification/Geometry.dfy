/** Signed areas, circumscribed circles and the paraboloid energy, over the reals. */
module Geometry {
  datatype Point = Point(x: real, y: real)

  /** `surtd2_`: the signed area of a triangle. */
  function Area(p: Point, q: Point, r: Point): (res: real) {
    ((q.x - p.x) * (r.y - p.y) - (q.y - p.y) * (r.x - p.x)) * 0.5
  }

  function Norm2(p: Point): (r: real) {
    p.x * p.x + p.y * p.y
  }

  function Dist2(p: Point, q: Point): (r: real) {
    (q.x - p.x) * (q.x - p.x) + (q.y - p.y) * (q.y - p.y)
  }

  function AbsR(x: real): (r: real) {
    if x >= 0.0 then x else -x
  }

  /** Three times the integral over the triangle of the paraboloid interpolated at its corners. */
  function Energy(p: Point, q: Point, r: Point): (res: real) {
    Area(p, q, r) * (Norm2(p) + Norm2(q) + Norm2(r))
  }

  /** `cenced_` finds the triangle too flat to have a circle. */
  predicate Flat(p: Point, q: Point, r: Point) {
    var x21, x31, y21, y31 := q.x - p.x, r.x - p.x, q.y - p.y, r.y - p.y;
    AbsR(x21 * y31 - x31 * y21) <= (AbsR(x21) + AbsR(x31)) * 0.0000001 * (AbsR(y21) + AbsR(y31))
  }

  /** Twice the area, as `cenced_` computes it. */
  function Aire2(p: Point, q: Point, r: Point): (d: real)
    ensures d == Area(p, q, r) * 2.0
  {
    (q.x - p.x) * (r.y - p.y) - (r.x - p.x) * (q.y - p.y)
  }

  /** Where the bisector of pr meets the one of pq. */
  function Rot(p: Point, q: Point, r: Point): (rot: real)
    requires Aire2(p, q, r) != 0.0
    ensures rot * (Aire2(p, q, r) * 2.0) == (q.x - r.x) * (q.x - p.x) + (q.y - r.y) * (q.y - p.y)
  {
    Quotient((q.x - r.x) * (q.x - p.x) + (q.y - r.y) * (q.y - p.y), Aire2(p, q, r) * 2.0);
    ((q.x - r.x) * (q.x - p.x) + (q.y - r.y) * (q.y - p.y)) / (Aire2(p, q, r) * 2.0)
  }

  lemma Quotient(n: real, d: real)
    requires d != 0.0
    ensures (n / d) * d == n
  {
  }

  /** `cenced_`: the centre of the circumscribed circle. */
  function Centre(p: Point, q: Point, r: Point): (res: Point)
    requires Area(p, q, r) != 0.0
  {
    Point((p.x + r.x) * 0.5 + Rot(p, q, r) * (r.y - p.y), (p.y + r.y) * 0.5 - Rot(p, q, r) * (r.x - p.x))
  }

  /** The square of the radius. */
  function Radius2(p: Point, q: Point, r: Point): (res: real)
    requires Area(p, q, r) != 0.0
  {
    Dist2(p, Centre(p, q, r))
  }

  lemma FlatArea(p: Point, q: Point, r: Point)
    requires !Flat(p, q, r)
    ensures Area(p, q, r) != 0.0
  {
    var a, b := (AbsR(q.x - p.x) + AbsR(r.x - p.x)) * 0.0000001, AbsR(q.y - p.y) + AbsR(r.y - p.y);
    assert a * b >= 0.0;
  }

  /** `cenced_` does give a point equidistant from the three corners. */
  lemma CentreEquidistant(p: Point, q: Point, r: Point)
    requires Area(p, q, r) != 0.0
    ensures Dist2(p, Centre(p, q, r)) == Dist2(q, Centre(p, q, r)) == Dist2(r, Centre(p, q, r))
  {
    hide Area, Dist2, Rot;
    CentreFromP(q.x - p.x, q.y - p.y, r.x - p.x, r.y - p.y, Rot(p, q, r), Aire2(p, q, r),
                (q.x - r.x) * (q.x - p.x) + (q.y - r.y) * (q.y - p.y));
    CentreMoved(p, q, r, Rot(p, q, r), Centre(p, q, r));
  }

  lemma CentreMoved(p: Point, q: Point, r: Point, rot: real, c: Point)
    requires c.x == (p.x + r.x) * 0.5 + rot * (r.y - p.y) && c.y == (p.y + r.y) * 0.5 - rot * (r.x - p.x)
    requires var x2, y2, x3, y3 := q.x - p.x, q.y - p.y, r.x - p.x, r.y - p.y;
             var cx, cy := x3 * 0.5 + rot * y3, y3 * 0.5 - rot * x3;
             && cx * cx + cy * cy == (cx - x3) * (cx - x3) + (cy - y3) * (cy - y3)
             && cx * cx + cy * cy == (cx - x2) * (cx - x2) + (cy - y2) * (cy - y2)
    ensures Dist2(p, c) == Dist2(q, c) == Dist2(r, c)
  {
    var x2, y2, x3, y3 := q.x - p.x, q.y - p.y, r.x - p.x, r.y - p.y;
    var cx, cy := x3 * 0.5 + rot * y3, y3 * 0.5 - rot * x3;
    assert c.x - p.x == cx && c.y - p.y == cy;
    assert c.x - q.x == cx - x2 && c.y - q.y == cy - y2;
    assert c.x - r.x == cx - x3 && c.y - r.y == cy - y3;
  }

  /** The same, with the first corner as origin. */
  lemma CentreFromP(x2: real, y2: real, x3: real, y3: real, rot: real, d: real, n: real)
    requires d == x2 * y3 - x3 * y2 && n == (x2 - x3) * x2 + (y2 - y3) * y2 && rot * (d * 2.0) == n
    ensures var cx, cy := x3 * 0.5 + rot * y3, y3 * 0.5 - rot * x3;
            && cx * cx + cy * cy == (cx - x3) * (cx - x3) + (cy - y3) * (cy - y3)
            && cx * cx + cy * cy == (cx - x2) * (cx - x2) + (cy - y2) * (cy - y2)
  {
    var cx, cy := x3 * 0.5 + rot * y3, y3 * 0.5 - rot * x3;
    assert cx * x3 + cy * y3 == (x3 * x3 + y3 * y3) * 0.5;
    assert cx * x2 + cy * y2 == (x3 * x2 + y3 * y2) * 0.5 + rot * d;
  }

  // ---------------------------------------------------------------- two triangles on a diagonal

  /** Exchanging the diagonal of 1-4-2-3 conserves the signed area. */
  lemma AreaExchange(p1: Point, p2: Point, p3: Point, p4: Point)
    ensures Area(p1, p2, p3) + Area(p1, p4, p2) == Area(p1, p4, p3) + Area(p2, p3, p4)
  {
  }

  /** The fourth corner as an affine combination of the other three. */
  lemma FourthCorner(p1: Point, p2: Point, p3: Point, p4: Point)
    ensures Area(p1, p2, p3) * p4.x == Area(p2, p3, p4) * p1.x + Area(p1, p4, p3) * p2.x - Area(p1, p4, p2) * p3.x
    ensures Area(p1, p2, p3) * p4.y == Area(p2, p3, p4) * p1.y + Area(p1, p4, p3) * p2.y - Area(p1, p4, p2) * p3.y
  {
  }

  /** What an exchange does to the energy, in terms of the power of the fourth corner. */
  lemma EnergyDrop(p1: Point, p2: Point, p3: Point, p4: Point)
    requires Area(p1, p2, p3) != 0.0
    ensures Energy(p1, p2, p3) + Energy(p1, p4, p2) - Energy(p1, p4, p3) - Energy(p2, p3, p4)
         == Area(p1, p2, p3) * (Radius2(p1, p2, p3) - Dist2(Centre(p1, p2, p3), p4))
  {
    hide Area, Norm2, Dist2, Centre;
    var a, a1, a2, a3 := Area(p1, p2, p3), Area(p2, p3, p4), Area(p1, p4, p3), Area(p1, p4, p2);
    var c := Centre(p1, p2, p3);
    AreaExchange(p1, p2, p3, p4);
    FourthCorner(p1, p2, p3, p4);
    CentreEquidistant(p1, p2, p3);
    var r2, s2 := Radius2(p1, p2, p3), Dist2(c, p4);
    assert r2 == Dist2(p1, c);
    DropFormula(a, a1, a2, a3, Norm2(p1), Norm2(p2), Norm2(p3), Norm2(p4));
    PowerFormula(a, a1, a2, a3, p1, p2, p3, p4, c);
  }

  lemma DropFormula(a: real, a1: real, a2: real, a3: real, n1: real, n2: real, n3: real, n4: real)
    requires a + a3 == a2 + a1
    ensures a * (n1 + n2 + n3) + a3 * (n1 + n4 + n2) - a2 * (n1 + n4 + n3) - a1 * (n2 + n3 + n4)
         == a1 * n1 + a2 * n2 - a3 * n3 - a * n4
  {
    assert a == a2 + a1 - a3;
  }

  lemma PowerFormula(a: real, a1: real, a2: real, a3: real, p1: Point, p2: Point, p3: Point, p4: Point, c: Point)
    requires a + a3 == a2 + a1
    requires a * p4.x == a1 * p1.x + a2 * p2.x - a3 * p3.x && a * p4.y == a1 * p1.y + a2 * p2.y - a3 * p3.y
    requires Dist2(p1, c) == Dist2(p2, c) == Dist2(p3, c)
    ensures a1 * Norm2(p1) + a2 * Norm2(p2) - a3 * Norm2(p3) - a * Norm2(p4) == a * (Dist2(p1, c) - Dist2(c, p4))
  {
    var k := Dist2(p1, c) - Norm2(c);
    NormFormula(p1, c, k);
    NormFormula(p2, c, k);
    NormFormula(p3, c, k);
    NormFormula(p4, c, Dist2(p4, c) - Norm2(c));
    assert Dist2(p4, c) == Dist2(c, p4);
    hide Norm2, Dist2;
    var l := Dist2(c, p4) - Norm2(c);
    LinearPart(a, a1, a2, a3, k, l, c.x, c.y, p1, p2, p3, p4);
  }

  lemma NormFormula(p: Point, c: Point, k: real)
    requires Dist2(p, c) == k + Norm2(c)
    ensures Norm2(p) == k + 2.0 * (c.x * p.x + c.y * p.y)
  {
  }

  lemma LinearPart(a: real, a1: real, a2: real, a3: real, k: real, l: real, cx: real, cy: real, p1: Point, p2: Point,
      p3: Point, p4: Point)
    requires a + a3 == a2 + a1
    requires a * p4.x == a1 * p1.x + a2 * p2.x - a3 * p3.x && a * p4.y == a1 * p1.y + a2 * p2.y - a3 * p3.y
    ensures a1 * (k + 2.0 * (cx * p1.x + cy * p1.y)) + a2 * (k + 2.0 * (cx * p2.x + cy * p2.y))
            - a3 * (k + 2.0 * (cx * p3.x + cy * p3.y))
          - a * (l + 2.0 * (cx * p4.x + cy * p4.y)) == a * (k - l)
  {
    var sx, sy := a1 * p1.x + a2 * p2.x - a3 * p3.x, a1 * p1.y + a2 * p2.y - a3 * p3.y;
    assert a1 * (k + 2.0 * (cx * p1.x + cy * p1.y)) + a2 * (k + 2.0 * (cx * p2.x + cy * p2.y))
            - a3 * (k + 2.0 * (cx * p3.x + cy * p3.y))
        == (a1 + a2 - a3) * k + 2.0 * cx * sx + 2.0 * cy * sy;
    assert a * (l + 2.0 * (cx * p4.x + cy * p4.y)) == a * l + 2.0 * cx * (a * p4.x) + 2.0 * cy * (a * p4.y);
    assert (a1 + a2 - a3) * k == a * k;
  }

  /** The tests tedela_ makes before it exchanges: the two triangles are not thin, the exchanged
      pair covers the same absolute area, the circle exists and holds the fourth corner. */
  predicate Thin(p1: Point, p2: Point, p3: Point, p4: Point) {
    AbsR(Area(p1, p2, p3)) + AbsR(Area(p1, p4, p2)) <= Dist2(p1, p2) * 0.001
  }

  predicate Convex(p1: Point, p2: Point, p3: Point, p4: Point) {
    AbsR(Area(p2, p3, p4)) + AbsR(Area(p1, p4, p3)) == AbsR(Area(p1, p2, p3)) + AbsR(Area(p1, p4, p2))
  }

  predicate InCircle(p1: Point, p2: Point, p3: Point, p4: Point)
    requires Area(p1, p2, p3) != 0.0
  {
    Dist2(Centre(p1, p2, p3), p4) < Radius2(p1, p2, p3)
  }

  predicate Wants(p1: Point, p2: Point, p3: Point, p4: Point) {
    && !Thin(p1, p2, p3, p4)
    && Convex(p1, p2, p3, p4)
    && !Flat(p1, p2, p3)
    && Area(p1, p2, p3) != 0.0
    && InCircle(p1, p2, p3, p4)
  }

  /** No circle through p1, p2, p3 has p4 inside. */
  ghost predicate EmptyCircle(p1: Point, p2: Point, p3: Point, p4: Point) {
    forall c: Point | Dist2(c, p1) == Dist2(c, p2) == Dist2(c, p3) :: Dist2(c, p4) >= Dist2(c, p1)
  }

  /** The quadrangle of the triangles 123 and 142 is strictly convex, not thinner than a thousandth of
      the squared diagonal, and 123 is not flat: twice its area is more than a ten millionth of the
      extent of its sides at p1. */
  predicate Exchangeable(p1: Point, p2: Point, p3: Point, p4: Point) {
    && Area(p1, p4, p3) > 0.0 && Area(p2, p3, p4) > 0.0
    && Area(p1, p2, p3) + Area(p1, p4, p2) > Dist2(p1, p2) * 0.001
    && Area(p1, p2,
      p3) * 2.0 > (AbsR(p2.x - p1.x) + AbsR(p3.x - p1.x)) * 0.0000001 * (AbsR(p2.y - p1.y) + AbsR(p3.y - p1.y))
  }

  lemma DistBack(p: Point, q: Point)
    ensures Dist2(p, q) == Dist2(q, p)
  {
  }

  /** What an exchange does to the energy, by any centre. */
  lemma EnergyDropAt(p1: Point, p2: Point, p3: Point, p4: Point, c: Point)
    requires Dist2(c, p1) == Dist2(c, p2) == Dist2(c, p3)
    ensures Energy(p1, p2, p3) + Energy(p1, p4, p2) - Energy(p1, p4, p3) - Energy(p2, p3, p4)
         == Area(p1, p2, p3) * (Dist2(c, p1) - Dist2(c, p4))
  {
    DistBack(c, p1);
    DistBack(c, p2);
    DistBack(c, p3);
    hide Area, Norm2, Dist2;
    var a, a1, a2, a3 := Area(p1, p2, p3), Area(p2, p3, p4), Area(p1, p4, p3), Area(p1, p4, p2);
    AreaExchange(p1, p2, p3, p4);
    FourthCorner(p1, p2, p3, p4);
    DropFormula(a, a1, a2, a3, Norm2(p1), Norm2(p2), Norm2(p3), Norm2(p4));
    PowerFormula(a, a1, a2, a3, p1, p2, p3, p4, c);
  }

  /** The tests of tedela_ turn down an exchangeable diagonal only when the circle of 123 is empty of
      vertex 4, and its exchange does not lower the energy. */
  lemma RefusedEmpty(p1: Point, p2: Point, p3: Point, p4: Point)
    requires Area(p1, p2, p3) > 0.0 && Area(p1, p4, p2) > 0.0 && Exchangeable(p1, p2, p3, p4) && !Wants(p1, p2, p3, p4)
    ensures EmptyCircle(p1, p2, p3, p4)
    ensures Energy(p1, p4, p3) + Energy(p2, p3, p4) >= Energy(p1, p2, p3) + Energy(p1, p4, p2)
  {
    AreaExchange(p1, p2, p3, p4);
    assert !Flat(p1, p2, p3);
    EnergyDrop(p1, p2, p3, p4);
    hide Area, Energy, Centre, Dist2;
    var a := Area(p1, p2, p3);
    NotPositive(a, Radius2(p1, p2, p3) - Dist2(Centre(p1, p2, p3), p4));
    forall c: Point | Dist2(c, p1) == Dist2(c, p2) == Dist2(c, p3) ensures Dist2(c, p4) >= Dist2(c, p1) {
      EnergyDropAt(p1, p2, p3, p4, c);
      Factor(a, Dist2(c, p1) - Dist2(c, p4));
    }
  }

  lemma NotPositive(a: real, w: real)
    requires a > 0.0 && w <= 0.0
    ensures a * w <= 0.0
  {
  }

  lemma Factor(a: real, w: real)
    requires a > 0.0 && a * w <= 0.0
    ensures w <= 0.0
  {
  }

  /** A fourth corner inside the circle is not on the line of a side: the area test means
      strict convexity. */
  lemma StrictlyConvex(p1: Point, p2: Point, p3: Point, p4: Point)
    requires Area(p1, p2, p3) > 0.0 && Area(p1, p4, p2) > 0.0
    requires Convex(p1, p2, p3, p4) && InCircle(p1, p2, p3, p4)
    ensures Area(p1, p4, p3) > 0.0 && Area(p2, p3, p4) > 0.0
  {
    hide Area, Norm2, Dist2, Centre;
    var a, a1, a2, a3 := Area(p1, p2, p3), Area(p2, p3, p4), Area(p1, p4, p3), Area(p1, p4, p2);
    AreaExchange(p1, p2, p3, p4);
    assert a1 >= 0.0 && a2 >= 0.0;
    var c := Centre(p1, p2, p3);
    FourthCorner(p1, p2, p3, p4);
    CentreEquidistant(p1, p2, p3);
    var w := Radius2(p1, p2, p3) - Dist2(c, p4);
    assert w == Dist2(p1, c) - Dist2(c, p4) && w > 0.0;
    PowerFormula(a, a1, a2, a3, p1, p2, p3, p4, c);
    if a2 == 0.0 {
      OnALine(a, a1, a3, p1, p3, p4, w);
    }
    if a1 == 0.0 {
      OnALine(a, a2, a3, p2, p3, p4, w);
    }
  }

  /** On two positive triangles the tests of tedela_ choose exactly the exchangeable diagonals with
      vertex 4 inside the circle of 123. */
  lemma WantsExact(p1: Point, p2: Point, p3: Point, p4: Point)
    requires Area(p1, p2, p3) > 0.0 && Area(p1, p4, p2) > 0.0
    ensures Wants(p1, p2, p3, p4) <==> Exchangeable(p1, p2, p3, p4) && !EmptyCircle(p1, p2, p3, p4)
  {
    if Wants(p1, p2, p3, p4) {
      StrictlyConvex(p1, p2, p3, p4);
      CentreEquidistant(p1, p2, p3);
      var c := Centre(p1, p2, p3);
      DistBack(c, p1);
      DistBack(c, p2);
      DistBack(c, p3);
      hide Area, Dist2, Centre;
      assert Dist2(c, p4) < Dist2(c, p1);
    } else if Exchangeable(p1, p2, p3, p4) {
      RefusedEmpty(p1, p2, p3, p4);
    }
  }

  /** A point of line pq beyond q has no negative power. */
  lemma OnALine(a: real, b: real, d: real, p: Point, q: Point, r: Point, w: real)
    requires a > 0.0 && b >= 0.0 && d > 0.0 && a + d == b
    requires a * r.x == b * p.x - d * q.x && a * r.y == b * p.y - d * q.y
    requires b * Norm2(p) - d * Norm2(q) - a * Norm2(r) == a * w
    ensures w <= 0.0
  {
    hide Norm2, Dist2;
    Chord(a, b, d, p, q, r);
    DistNonNegative(p, q);
    Sign(a, b, d, Dist2(p, q), w);
  }

  lemma DistNonNegative(p: Point, q: Point)
    ensures Dist2(p, q) >= 0.0
  {
  }

  lemma Sign(a: real, b: real, d: real, s: real, w: real)
    requires a > 0.0 && b >= 0.0 && d > 0.0 && s >= 0.0
    requires a * (a * w) == -(b * d) * s
    ensures w <= 0.0
  {
    var t, u := b * d, a * w;
    assert t >= 0.0;
    assert t * s >= 0.0;
    assert -t * s == -(t * s);
    assert a * u <= 0.0;
    assert u <= 0.0;
  }

  /** The power of a point of line pq. */
  lemma Chord(a: real, b: real, d: real, p: Point, q: Point, r: Point)
    requires a + d == b
    requires a * r.x == b * p.x - d * q.x && a * r.y == b * p.y - d * q.y
    ensures a * (b * Norm2(p) - d * Norm2(q) - a * Norm2(r)) == -(b * d) * Dist2(p, q)
  {
    ChordLine(a, b, d, p.x, q.x, r.x);
    ChordLine(a, b, d, p.y, q.y, r.y);
    SumOfLines(a, b, d, p.x * p.x, p.y * p.y, q.x * q.x, q.y * q.y, r.x * r.x, r.y * r.y,
               (q.x - p.x) * (q.x - p.x), (q.y - p.y) * (q.y - p.y));
  }

  lemma SumOfLines(a: real, b: real, d: real, px: real, py: real, qx: real, qy: real, rx: real, ry: real, sx: real,
      sy: real)
    requires a * (b * px - d * qx - a * rx) == -(b * d) * sx
    requires a * (b * py - d * qy - a * ry) == -(b * d) * sy
    ensures a * (b * (px + py) - d * (qx + qy) - a * (rx + ry)) == -(b * d) * (sx + sy)
  {
  }

  lemma ChordLine(a: real, b: real, d: real, p: real, q: real, r: real)
    requires a + d == b && a * r == b * p - d * q
    ensures a * (b * (p * p) - d * (q * q) - a * (r * r)) == -(b * d) * ((q - p) * (q - p))
  {
    assert a * (a * (r * r)) == (a * r) * (a * r);
  }

  /** A wanted exchange loses energy. */
  lemma WantsLoses(p1: Point, p2: Point, p3: Point, p4: Point)
    requires Area(p1, p2, p3) > 0.0 && Wants(p1, p2, p3, p4)
    ensures Energy(p1, p2, p3) + Energy(p1, p4, p2) > Energy(p1, p4, p3) + Energy(p2, p3, p4)
  {
    hide Area, Radius2, Centre, Dist2, Thin, Flat, Convex, Energy;
    EnergyDrop(p1, p2, p3, p4);
    Product(Area(p1, p2, p3), Radius2(p1, p2, p3) - Dist2(Centre(p1, p2, p3), p4));
  }

  lemma Product(a: real, b: real)
    requires a > 0.0 && b > 0.0
    ensures a * b > 0.0
  {
  }
}
