/** Triangles with disjoint interiors, and what the exchange of a diagonal does to them. */
module Planar {
  import opened Geometry

  /** z is strictly inside the positively oriented triangle pqr. */
  predicate Inside(z: Point, p: Point, q: Point, r: Point) {
    Area(p, q, z) > 0.0 && Area(q, r, z) > 0.0 && Area(r, p, z) > 0.0
  }

  ghost predicate Disjoint(p: Point, q: Point, r: Point, u: Point, v: Point, w: Point) {
    forall z :: !(Inside(z, p, q, r) && Inside(z, u, v, w))
  }

  /** The point a fraction e of the way from z to d. */
  function Towards(z: Point, d: Point, e: real): (r: Point) {
    Point(z.x + e * (d.x - z.x), z.y + e * (d.y - z.y))
  }

  lemma Affine(p: Point, q: Point, z: Point, d: Point, e: real)
    ensures Area(p, q, Towards(z, d, e)) == (1.0 - e) * Area(p, q, z) + e * Area(p, q, d)
  {
  }

  lemma Turned(p: Point, q: Point, r: Point)
    ensures Area(p, q, r) == Area(q, r, p) == Area(r, p, q) == -Area(q, p, r)
    ensures Area(p, q, p) == 0.0 && Area(p, q, q) == 0.0
  {
  }

  /** A step small enough to keep a positive. */
  lemma Step(a: real, b: real) returns (e: real)
    requires a > 0.0
    ensures 0.0 < e < 1.0 && (1.0 - e) * a + e * b > 0.0
  {
    var m := a + AbsR(b);
    e := a / (4.0 * m);
    assert e * (4.0 * m) == a;
    StepEnough(a, b, m, e);
  }

  lemma StepEnough(a: real, b: real, m: real, e: real)
    requires a > 0.0 && m == a + AbsR(b) && e * (4.0 * m) == a
    ensures 0.0 < e < 1.0 && (1.0 - e) * a + e * b > 0.0
  {
    assert m > 0.0;
    assert e <= 0.0 ==> e * m <= 0.0;
    assert e * m == e * a + e * AbsR(b);
    assert e * AbsR(b) >= 0.0 && e * a > 0.0;
    assert e >= 1.0 ==> e * m >= m;
    assert e * b >= -(e * AbsR(b));
  }

  /** A shorter step keeps it positive too. */
  lemma Shorter(a: real, b: real, e: real, f: real)
    requires a > 0.0 && 0.0 < f <= e && (1.0 - e) * a + e * b > 0.0
    ensures (1.0 - f) * a + f * b > 0.0
  {
    var v := (1.0 - f) * a + f * b;
    assert e * v == (e - f) * a + f * ((1.0 - e) * a + e * b);
    assert (e - f) * a >= 0.0 && f * ((1.0 - e) * a + e * b) > 0.0;
    assert v <= 0.0 ==> e * v <= 0.0;
  }

  /** A point inside a triangle stays inside after a small step towards d. */
  lemma Nudge(z: Point, d: Point, p: Point, q: Point, r: Point) returns (e: real)
    requires Inside(z, p, q, r)
    ensures 0.0 < e < 1.0 && Inside(Towards(z, d, e), p, q, r)
  {
    Affine(p, q, z, d, 0.0);
    hide Area;
    var e1 := Step(Area(p, q, z), Area(p, q, d));
    var e2 := Step(Area(q, r, z), Area(q, r, d));
    var e3 := Step(Area(r, p, z), Area(r, p, d));
    e := if e1 <= e2 && e1 <= e3 then e1 else if e2 <= e3 then e2 else e3;
    Shorter(Area(p, q, z), Area(p, q, d), e1, e);
    Shorter(Area(q, r, z), Area(q, r, d), e2, e);
    Shorter(Area(r, p, z), Area(r, p, d), e3, e);
    Affine(p, q, z, d, e);
    Affine(q, r, z, d, e);
    Affine(r, p, z, d, e);
  }

  /** An area seen from a point, by its barycentric coordinates in pqr. */
  lemma Barycentric(u: Point, v: Point, z: Point, p: Point, q: Point, r: Point)
    ensures Area(p, q, r) * Area(u, v, z) == Area(q, r, z) * Area(u, v, p) + Area(r, p, z) * Area(u, v, q) + Area(p, q,
      z) * Area(u, v, r)
  {
  }

  /** The four triangles of a strictly convex quadrangle 1-4-2-3 are positive. */
  predicate Quadrangle(p1: Point, p2: Point, p3: Point, p4: Point) {
    Area(p1, p2, p3) > 0.0 && Area(p1, p4, p2) > 0.0 && Area(p1, p4, p3) > 0.0 && Area(p2, p3, p4) > 0.0
  }

  lemma Positive(a: real, b: real, c: real, d: real, e: real, f: real)
    requires a > 0.0 && c > 0.0 && e > 0.0 && d >= 0.0 && f > 0.0
    requires a * b == c * d + e * f
    ensures b > 0.0
  {
    assert c * d >= 0.0 && e * f > 0.0;
    assert b <= 0.0 ==> a * b <= 0.0;
  }

  /** Seen from a point of 143, sides 23 and 42 are on the left. */
  lemma SidesInView(z: Point, p1: Point, p2: Point, p3: Point, p4: Point)
    requires Quadrangle(p1, p2, p3, p4) && Inside(z, p1, p4, p3)
    ensures Area(p2, p3, z) > 0.0 && Area(p4, p2, z) > 0.0
  {
    hide Area;
    Barycentric(p2, p3, z, p1, p4, p3);
    Turned(p2, p3, p1);
    Turned(p1, p2, p3);
    Turned(p2, p3, p4);
    Positive(Area(p1, p4, p3), Area(p2, p3, z), Area(p4, p3, z), Area(p2, p3, p1), Area(p3, p1, z), Area(p2, p3, p4));
    Barycentric(p4, p2, z, p1, p4, p3);
    Turned(p4, p2, p1);
    Turned(p4, p2, p3);
    Turned(p1, p4, p2);
    Positive(Area(p1, p4, p3), Area(p4, p2, z), Area(p4, p3, z), Area(p4, p2, p1), Area(p1, p4, z), Area(p4, p2, p3));
  }

  lemma Covered(z: Point, p1: Point, p2: Point, p3: Point, p4: Point)
    requires Quadrangle(p1, p2, p3, p4) && Inside(z, p1, p4, p3)
    ensures Inside(z, p1, p2, p3) || Inside(z, p1, p4, p2) || Area(p1, p2, z) == 0.0
  {
    hide Area;
    SidesInView(z, p1, p2, p3, p4);
    Turned(p1, p2, z);
  }

  /** Triangle 143 meets only what 123 or 142 met. */
  lemma ExchangeDisjoint(p1: Point, p2: Point, p3: Point, p4: Point, u: Point, v: Point, w: Point)
    requires Quadrangle(p1, p2, p3, p4)
    requires Disjoint(p1, p2, p3, u, v, w) && Disjoint(p1, p4, p2, u, v, w)
    ensures Disjoint(p1, p4, p3, u, v, w)
  {
    hide Area, Inside;
    forall z ensures !(Inside(z, p1, p4, p3) && Inside(z, u, v, w)) {
      if Inside(z, p1, p4, p3) && Inside(z, u, v, w) {
        Covered(z, p1, p2, p3, p4);
        var z' := OffDiagonal(z, p1, p2, p3, p4, u, v, w);
      }
    }
  }

  /** A common point on the old diagonal gives one just beside it, inside 123. */
  lemma OffDiagonal(z: Point, p1: Point, p2: Point, p3: Point, p4: Point, u: Point, v: Point, w: Point)
      returns (z': Point)
    requires Quadrangle(p1, p2, p3, p4) && Inside(z, p1, p4, p3) && Inside(z, u, v, w)
    ensures Area(p1, p2, z) == 0.0 ==> Inside(z', p1, p2, p3) && Inside(z', u, v, w)
  {
    hide Area;
    var e := Nudge(z, p3, u, v, w);
    z' := Towards(z, p3, e);
    SidesInView(z, p1, p2, p3, p4);
    Affine(p1, p2, z, p3, e);
    Affine(p2, p3, z, p3, e);
    Affine(p3, p1, z, p3, e);
    Turned(p2, p3, p1);
    Turned(p3, p1, p2);
    Product(1.0 - e, Area(p2, p3, z));
    Product(1.0 - e, Area(p3, p1, z));
    Product(e, Area(p1, p2, p3));
  }

  /** A triangle with a side ab that passes through the inside of pqr overlaps it. */
  lemma SideInside(a: Point, b: Point, w: Point, e: real, p: Point, q: Point, r: Point)
    requires Area(a, b, w) > 0.0 && 0.0 < e < 1.0 && Inside(Towards(a, b, e), p, q, r)
    ensures !Disjoint(a, b, w, p, q, r)
  {
    hide Area;
    var z := Towards(a, b, e);
    var f := Nudge(z, w, p, q, r);
    var z' := Towards(z, w, f);
    Affine(a, b, a, b, e);
    Affine(b, w, a, b, e);
    Affine(w, a, a, b, e);
    Affine(a, b, z, w, f);
    Affine(b, w, z, w, f);
    Affine(w, a, z, w, f);
    Turned(a, b, w);
    Turned(b, w, a);
    Turned(w, a, b);
    Product(f, Area(a, b, w));
    Product(1.0 - e, Area(b, w, a));
    Product(e, Area(w, a, b));
    Product(1.0 - f, Area(b, w, z));
    Product(1.0 - f, Area(w, a, z));
    assert Inside(z', a, b, w);
  }

  /** No other triangle can have the new diagonal 34, in either sense, as a side. */
  lemma DiagonalFree(p1: Point, p2: Point, p3: Point, p4: Point, w: Point)
    requires Quadrangle(p1, p2, p3, p4)
    ensures Area(p3, p4, w) > 0.0 ==> !Disjoint(p3, p4, w, p1, p2, p3)
    ensures Area(p4, p3, w) > 0.0 ==> !Disjoint(p4, p3, w, p1, p2, p3)
  {
    var e := Step(Area(p1, p2, p3), Area(p1, p2, p4));
    var z := Towards(p3, p4, e);
    assert z == Towards(p4, p3, 1.0 - e);
    hide Area;
    Affine(p1, p2, p3, p4, e);
    Affine(p2, p3, p3, p4, e);
    Affine(p3, p1, p3, p4, e);
    Turned(p2, p3, p4);
    Turned(p3, p1, p4);
    Turned(p1, p4, p3);
    Product(e, Area(p2, p3, p4));
    Product(e, Area(p3, p1, p4));
    assert Inside(z, p1, p2, p3);
    if Area(p3, p4, w) > 0.0 {
      SideInside(p3, p4, w, e, p1, p2, p3);
    }
    if Area(p4, p3, w) > 0.0 {
      SideInside(p4, p3, w, 1.0 - e, p1, p2, p3);
    }
  }
}
