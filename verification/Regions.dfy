/** The leaves of the tree as regions of the plane: two leaves have no inner point in common, and what
    lies in a leaf stays in it. */
module Regions {
  import opened Geometry
  import opened Planar
  import opened Delaunay
  import opened Lattice
  import opened Tree
  import opened Splitting
  import opened Leaves

  // ---------------------------------------------------------------- triangles in triangles

  lemma SumOfViews(z: Point, p: Point, q: Point, r: Point)
    ensures Area(p, q, z) + Area(q, r, z) + Area(r, p, z) == Area(p, q, r)
  {
  }

  /** A triangle without positive area has no inner point. */
  lemma FlatEmpty(z: Point, p: Point, q: Point, r: Point)
    requires Area(p, q, r) <= 0.0
    ensures !Inside(z, p, q, r)
  {
    SumOfViews(z, p, q, r);
  }

  /** Three points on the line pq make no area. */
  lemma OnLine(p: Point, q: Point, x: Point, y: Point, w: Point)
    requires p != q && Area(p, q, x) == 0.0 && Area(p, q, y) == 0.0 && Area(p, q, w) == 0.0
    ensures Area(x, y, w) == 0.0
  {
    var dx, dy := q.x - p.x, q.y - p.y;
    var ux, uy, vx, vy := y.x - x.x, y.y - x.y, w.x - x.x, w.y - x.y;
    assert dx * uy == dy * ux && dx * vy == dy * vx by {
      assert dx * (x.y - p.y) == dy * (x.x - p.x);
      assert dx * (y.y - p.y) == dy * (y.x - p.x);
      assert dx * (w.y - p.y) == dy * (w.x - p.x);
    }
    Parallel(dx, dy, ux, uy, vx, vy);
    assert Area(x, y, w) == 0.5 * (ux * vy - uy * vx);
  }

  lemma Parallel(dx: real, dy: real, ux: real, uy: real, vx: real, vy: real)
    requires dx != 0.0 || dy != 0.0
    requires dx * uy == dy * ux && dx * vy == dy * vx
    ensures ux * vy - uy * vx == 0.0
  {
    var d := ux * vy - uy * vx;
    assert dx * d == ux * (dx * vy) - (dx * uy) * vx;
    assert dx * d == ux * (dy * vx) - (dy * ux) * vx == 0.0;
    assert dy * d == (dy * ux) * vy - uy * (dy * vx);
    assert dy * d == (dx * uy) * vy - uy * (dx * vy) == 0.0;
    NonzeroFactor(dx, d);
    NonzeroFactor(dy, d);
  }

  lemma NonzeroFactor(x: real, d: real)
    requires x * d == 0.0
    ensures x == 0.0 || d == 0.0
  {
  }

  /** Seen from an inner point of xyw, a line with x, y, w on its left or on it. */
  lemma LeftOf(z: Point, p: Point, q: Point, x: Point, y: Point, w: Point)
    requires p != q && Area(p, q, x) >= 0.0 && Area(p, q, y) >= 0.0 && Area(p, q, w) >= 0.0
    requires Inside(z, x, y, w)
    ensures Area(p, q, z) > 0.0
  {
    SumOfViews(z, x, y, w);
    Barycentric(p, q, z, x, y, w);
    if Area(p, q, x) == 0.0 && Area(p, q, y) == 0.0 && Area(p, q, w) == 0.0 {
      OnLine(p, q, x, y, w);
    }
    hide Area;
    Weighted(Area(x, y, w), Area(p, q, z), Area(y, w, z), Area(w, x, z), Area(x, y, z), Area(p, q, x), Area(p, q, y),
      Area(p, q, w));
  }

  lemma Weighted(s: real, v: real, a: real, b: real, c: real, x: real, y: real, w: real)
    requires s > 0.0 && s * v == a * x + b * y + c * w && a > 0.0 && b > 0.0 && c > 0.0
    requires x >= 0.0 && y >= 0.0 && w >= 0.0 && (x > 0.0 || y > 0.0 || w > 0.0)
    ensures v > 0.0
  {
    assert a * x >= 0.0 && b * y >= 0.0 && c * w >= 0.0;
    assert x > 0.0 ==> a * x > 0.0;
    assert y > 0.0 ==> b * y > 0.0;
    assert w > 0.0 ==> c * w > 0.0;
    assert v <= 0.0 ==> s * v <= 0.0;
  }

  lemma Different(p: Point, q: Point, r: Point)
    requires Area(p, q, r) > 0.0
    ensures p != q && q != r && r != p
  {
    Turned(p, q, r);
  }

  /** A triangle with its corners in the positive triangle pqr lies in it. */
  lemma InsideOf(z: Point, p: Point, q: Point, r: Point, x: Point, y: Point, w: Point)
    requires Area(p, q, r) > 0.0 && In(x, p, q, r) && In(y, p, q, r) && In(w, p, q, r) && Inside(z, x, y, w)
    ensures Inside(z, p, q, r)
  {
    Different(p, q, r);
    hide Area;
    LeftOf(z, p, q, x, y, w);
    LeftOf(z, q, r, x, y, w);
    LeftOf(z, r, p, x, y, w);
  }

  /** The triangles on either side of a line have no inner point in common. */
  lemma Separated(z: Point, p: Point, q: Point, x: Point, y: Point, w: Point, x': Point, y': Point, w': Point)
    requires p != q && Area(p, q, x) >= 0.0 && Area(p, q, y) >= 0.0 && Area(p, q, w) >= 0.0
    requires Area(p, q, x') <= 0.0 && Area(p, q, y') <= 0.0 && Area(p, q, w') <= 0.0
    ensures !(Inside(z, x, y, w) && Inside(z, x', y', w'))
  {
    if Inside(z, x, y, w) && Inside(z, x', y', w') {
      LeftOf(z, p, q, x, y, w);
      Turned(q, p, x');
      Turned(q, p, y');
      Turned(q, p, w');
      Turned(q, p, z);
      hide Area;
      LeftOf(z, q, p, x', y', w');
      assert false;
    }
  }

  // ---------------------------------------------------------------- two triangles on one side

  /** Two positive triangles on the same side of xy have an inner point in common. */
  lemma SideShared(x: Point, y: Point, c: Point, d: Point) returns (z: Point)
    requires Area(x, y, c) > 0.0 && Area(x, y, d) > 0.0
    ensures Inside(z, x, y, c) && Inside(z, x, y, d)
  {
    var m := Middle(x, y);
    MiddleViewed(x, y, c);
    MiddleViewed(x, y, d);
    Turned(x, y, c);
    Turned(y, c, x);
    Turned(c, x, y);
    hide Area, Middle, Towards;
    var e1 := Step(Area(y, d, m), Area(y, d, c));
    var e2 := Step(Area(d, x, m), Area(d, x, c));
    var e := if e1 <= e2 then e1 else e2;
    Shorter(Area(y, d, m), Area(y, d, c), e1, e);
    Shorter(Area(d, x, m), Area(d, x, c), e2, e);
    z := Towards(m, c, e);
    Affine(x, y, m, c, e);
    Affine(y, c, m, c, e);
    Affine(c, x, m, c, e);
    Affine(y, d, m, c, e);
    Affine(d, x, m, c, e);
    Between(e, Area(x, y, m), Area(x, y, c));
    Between(e, Area(y, c, m), Area(y, c, c));
    Between(e, Area(c, x, m), Area(c, x, c));
    assert Area(x, y, z) > 0.0 && Area(y, c, z) > 0.0 && Area(c, x, z) > 0.0;
    assert Area(y, d, z) > 0.0 && Area(d, x, z) > 0.0;
  }

  lemma Between(e: real, u: real, v: real)
    requires 0.0 < e < 1.0 && u >= 0.0 && v >= 0.0 && (u > 0.0 || v > 0.0)
    ensures (1.0 - e) * u + e * v > 0.0
  {
    assert (1.0 - e) * u >= 0.0 && e * v >= 0.0;
    assert u > 0.0 ==> (1.0 - e) * u > 0.0;
    assert v > 0.0 ==> e * v > 0.0;
  }

  lemma MiddleViewed(x: Point, y: Point, c: Point)
    ensures Area(x, y, Middle(x, y)) == 0.0
    ensures Area(y, c, Middle(x, y)) == 0.5 * Area(x, y, c) && Area(c, x, Middle(x, y)) == 0.5 * Area(x, y, c)
    ensures Area(y, c, c) == 0.0 && Area(c, x, c) == 0.0
  {
  }

  // ---------------------------------------------------------------- the triangles of the tree

  /** z is an inner point of triangle t. */
  predicate InTe(P: seq<Point>, t: Te, z: Point) {
    Inside(z, PointOf(P, t.v1), PointOf(P, t.v2), PointOf(P, t.v3))
  }

  /** The quarter k of abc, m1, m2, m3 the middles of its sides. */
  predicate InQuarter(k: int, a: Point, b: Point, c: Point, m1: Point, m2: Point, m3: Point, z: Point) {
    if k == 1 then Inside(z, a, m1, m3) else if k == 2 then Inside(z, m1, b, m2)
    else if k == 3 then Inside(z, m3, m2, c) else Inside(z, m2, m3, m1)
  }

  /** A quarter lies in its triangle, and which one z is in shows from the sides. */
  lemma QuarterIn(k: int, a: Point, b: Point, c: Point, m1: Point, m2: Point, m3: Point, z: Point)
    requires m1 == Middle(a, b) && m2 == Middle(b, c) && m3 == Middle(c, a) && 0 <= k <= 3
    requires InQuarter(k, a, b, c, m1, m2, m3, z)
    ensures Inside(z, a, b, c)
    ensures k == 1 ==> Area(b, c, z) > 0.5 * Area(a, b, c)
    ensures k == 2 ==> Area(c, a, z) > 0.5 * Area(a, b, c)
    ensures k == 3 ==> Area(a, b, z) > 0.5 * Area(a, b, c)
    ensures k == 0 ==> Area(a, b, z) < 0.5 * Area(a, b, c) && Area(b, c, z) < 0.5 * Area(a, b, c)
                       && Area(c, a, z) < 0.5 * Area(a, b, c)
  {
    hide Area, Middle;
    QuarterViews(a, b, c, m1, m2, m3, z);
    MiddleViews(a, b, c, m1, m2, m3, z);
    AreaTurn(m1, m3, z);
    AreaTurn(m2, m1, z);
    AreaTurn(m3, m2, z);
    Turned(m1, m2, z);
  }

  lemma QuartersApart(k: int, l: int, a: Point, b: Point, c: Point, m1: Point, m2: Point, m3: Point, z: Point)
    requires m1 == Middle(a, b) && m2 == Middle(b, c) && m3 == Middle(c, a) && 0 <= k < l <= 3
    ensures !(InQuarter(k, a, b, c, m1, m2, m3, z) && InQuarter(l, a, b, c, m1, m2, m3, z))
  {
    hide Area, Middle, InQuarter;
    if InQuarter(k, a, b, c, m1, m2, m3, z) && InQuarter(l, a, b, c, m1, m2, m3, z) {
      QuarterIn(k, a, b, c, m1, m2, m3, z);
      QuarterIn(l, a, b, c, m1, m2, m3, z);
      SumOfViews(z, a, b, c);
      assert false;
    }
  }

  /** Sub-triangle k of j is the quarter k of it. */
  lemma KidQuarter(T: seq<Te>, S: Shape, P: seq<Point>, j: int, k: int, z: Point) returns (m1: Point, m2: Point,
      m3: Point)
    requires Woven(T, S) && Named(T, S) && Placed(T, S, P) && Inner(T, S, j) && 0 <= k <= 3
    ensures 1 < Sub(T[j], k) < |T| && Sub(T[j], k) in S.geo
    ensures var a, b, c := PointOf(P, T[j].v1), PointOf(P, T[j].v2), PointOf(P, T[j].v3);
      && m1 == Middle(a, b) && m2 == Middle(b, c) && m3 == Middle(c, a)
      && (InTe(P, T[Sub(T[j], k)], z) <==> InQuarter(k, a, b, c, m1, m2, m3, z))
  {
    hide Woven, Named, Placed, Inside, Middle, Child, PointOf;
    PlacedAt(T, S, P, j);
    KidCorners(T, S, j);
    ChildOf(T, S, j, 0);
    ChildOf(T, S, j, 1);
    ChildOf(T, S, j, 2);
    ChildOf(T, S, j, 3);
    var m := T[T[j].s0];
    m1, m2, m3 := PointOf(P, m.v3), PointOf(P, m.v1), PointOf(P, m.v2);
  }

  lemma KidInside(T: seq<Te>, S: Shape, P: seq<Point>, j: int, k: int, z: Point)
    requires Woven(T, S) && Named(T, S) && Placed(T, S, P) && Inner(T, S, j) && 0 <= k <= 3
    ensures 1 < Sub(T[j], k) < |T| && (InTe(P, T[Sub(T[j], k)], z) ==> InTe(P, T[j], z))
  {
    var m1, m2, m3 := KidQuarter(T, S, P, j, k, z);
    hide *;
    if InTe(P, T[Sub(T[j], k)], z) {
      QuarterIn(k, PointOf(P, T[j].v1), PointOf(P, T[j].v2), PointOf(P, T[j].v3), m1, m2, m3, z);
      InTeOf(P, T[j], z);
    }
  }

  lemma InTeOf(P: seq<Point>, t: Te, z: Point)
    ensures InTe(P, t, z) <==> Inside(z, PointOf(P, t.v1), PointOf(P, t.v2), PointOf(P, t.v3))
  {
  }

  lemma KidsDisjoint(T: seq<Te>, S: Shape, P: seq<Point>, j: int, k: int, l: int, z: Point)
    requires Woven(T, S) && Named(T, S) && Placed(T, S, P) && Inner(T, S, j) && 0 <= k <= 3 && 0 <= l <= 3 && k != l
    ensures 1 < Sub(T[j], k) < |T| && 1 < Sub(T[j], l) < |T|
    ensures !(InTe(P, T[Sub(T[j], k)], z) && InTe(P, T[Sub(T[j], l)], z))
  {
    var m1, m2, m3 := KidQuarter(T, S, P, j, k, z);
    var n1, n2, n3 := KidQuarter(T, S, P, j, l, z);
    hide *;
    QuartersApart(if k < l then k else l, if k < l then l else k, PointOf(P, T[j].v1), PointOf(P, T[j].v2),
      PointOf(P, T[j].v3), m1, m2, m3, z);
  }

  /** A triangle h levels up holds what is below it. */
  lemma {:induction false} UpHolds(T: seq<Te>, S: Shape, P: seq<Point>, j: int, h: nat, z: Point)
    requires Woven(T, S) && Named(T, S) && Placed(T, S, P) && j in S.geo && h <= S.geo[j].level
    requires 1 <= j < |T| && InTe(P, T[j], z)
    ensures Up(T, j, h) in S.geo && 1 <= Up(T, j, h) < |T| && S.geo[Up(T, j, h)].level == S.geo[j].level - h
    ensures InTe(P, T[Up(T, j, h)], z) && (h > 0 ==> Inner(T, S, Up(T, j, h)))
    decreases h
  {
    UpIn(T, S, j, 1, h);
    NodeIndex(T, S, Up(T, j, h));
    hide Woven, Named, Placed, Child, InTe;
    if h > 0 {
      RootLevel(T, S);
      ParentOf(T, S, j);
      KidInside(T, S, P, T[j].sur, T[j].kind, z);
      UpHolds(T, S, P, T[j].sur, h - 1, z);
    }
  }

  /** Two triangles of one level have no inner point in common. */
  lemma {:induction false} LevelApart(T: seq<Te>, S: Shape, P: seq<Point>, i: int, j: int, z: Point)
    requires Woven(T, S) && Named(T, S) && Placed(T, S, P) && i in S.geo && j in S.geo && i != j
    requires S.geo[i].level == S.geo[j].level && 1 <= i < |T| && 1 <= j < |T|
    ensures !(InTe(P, T[i], z) && InTe(P, T[j], z))
    decreases S.geo[i].level
  {
    hide Woven, Named, Placed, Child, InTe;
    if InTe(P, T[i], z) && InTe(P, T[j], z) {
      OneRoot(T, S, i, j);
      ParentOf(T, S, i);
      ParentOf(T, S, j);
      var p, q := T[i].sur, T[j].sur;
      if p == q {
        KidsDisjoint(T, S, P, p, T[i].kind, T[j].kind, z);
      } else {
        KidInside(T, S, P, p, T[i].kind, z);
        KidInside(T, S, P, q, T[j].kind, z);
        LevelApart(T, S, P, p, q, z);
      }
    }
  }

  /** Only the root is at level 0. */
  lemma OneRoot(T: seq<Te>, S: Shape, i: int, j: int)
    requires Woven(T, S) && i in S.geo && j in S.geo && i != j && S.geo[i].level == S.geo[j].level
    ensures i != 1 && j != 1
  {
    RootLevel(T, S);
    hide Woven, Child;
    if i == 1 {
      ParentOf(T, S, j);
    } else if j == 1 {
      ParentOf(T, S, i);
    }
  }

  /** Two leaves have no inner point in common. */
  lemma LeavesApart(T: seq<Te>, S: Shape, P: seq<Point>, i: int, j: int, z: Point)
    requires Woven(T, S) && Named(T, S) && Placed(T, S, P) && i in S.geo && j in S.geo && i != j
    requires !Inner(T, S, i) && !Inner(T, S, j) && 1 <= i < |T| && 1 <= j < |T|
    ensures !(InTe(P, T[i], z) && InTe(P, T[j], z))
  {
    hide Woven, Named, Placed, InTe;
    if InTe(P, T[i], z) && InTe(P, T[j], z) {
      if S.geo[i].level <= S.geo[j].level {
        UpHolds(T, S, P, j, S.geo[j].level - S.geo[i].level, z);
        LevelApart(T, S, P, i, Up(T, j, S.geo[j].level - S.geo[i].level), z);
      } else {
        UpHolds(T, S, P, i, S.geo[i].level - S.geo[j].level, z);
        LevelApart(T, S, P, Up(T, i, S.geo[i].level - S.geo[j].level), j, z);
      }
    }
  }
}
