/** The rectangle of `tehote_` and `tetrte_`: with few points it takes in every leaf. */
module Framing {
  import opened Geometry
  import opened Delaunay
  import opened Tree
  import opened Splitting
  import opened Leaves
  import opened Quadtree
  import opened Teajte
  import opened Tehote

  /** The rectangle around the points, whose box is b; for at most eight points the box of the root. */
  function Frame(p1: Point, p2: Point, p3: Point, b: Box, aretmx: real, nbarpi: int): (r: Box) {
    var a := aretmx * 0.01;
    if nbarpi <= 8 then Box(p1.x - a, p1.y - a, p2.x + a, p3.y + a)
    else Box(Min((p1.x + p3.x) * 0.5, b.xmin - aretmx) - a, b.ymin - aretmx,
             Max((p2.x + p3.x) * 0.5, b.xmax + aretmx) + a, Max((p1.y + p3.y) * 0.5, b.ymax + aretmx) + a)
  }

  /** For more than eight points the rectangle starts at the base of the root; the other sides are a
      hundredth of the wished length outside the farther of the box widened by that length and the
      middles of the slopes of the root. */
  lemma FrameExact(p1: Point, p2: Point, p3: Point, b: Box, aretmx: real, nbarpi: int)
    requires nbarpi > 8
    ensures var r := Frame(p1, p2, p3, b, aretmx, nbarpi); var a := aretmx * 0.01;
      && r.ymin == b.ymin - aretmx
      && 2.0 * (r.xmin + a) <= p1.x + p3.x && r.xmin + a <= b.xmin - aretmx
      && (2.0 * (r.xmin + a) == p1.x + p3.x || r.xmin + a == b.xmin - aretmx)
      && 2.0 * (r.xmax - a) >= p2.x + p3.x && r.xmax - a >= b.xmax + aretmx
      && (2.0 * (r.xmax - a) == p2.x + p3.x || r.xmax - a == b.xmax + aretmx)
      && 2.0 * (r.ymax - a) >= p1.y + p3.y && r.ymax - a >= b.ymax + aretmx
      && (2.0 * (r.ymax - a) == p1.y + p3.y || r.ymax - a == b.ymax + aretmx)
  {
  }

  /** The corners of t are in box b. */
  predicate Boxed(P: seq<Point>, t: Te, b: Box) {
    InBox(b, PointOf(P, t.v1)) && InBox(b, PointOf(P, t.v2)) && InBox(b, PointOf(P, t.v3))
  }

  lemma MidBoxed(b: Box, p: Point, q: Point)
    requires InBox(b, p) && InBox(b, q)
    ensures InBox(b, Middle(p, q))
  {
  }

  lemma KidBoxed(T: seq<Te>, S: Shape, P: seq<Point>, j: int, k: int, b: Box)
    requires Woven(T, S) && Named(T, S) && Placed(T, S, P) && Inner(T, S, j) && 0 <= k <= 3
    ensures 1 <= j < |T| && 1 < Sub(T[j], k) < |T| && (Boxed(P, T[j], b) ==> Boxed(P, T[Sub(T[j], k)], b))
  {
    hide Woven, Named, Placed, Middle, Lattice.Child, PointOf, InBox;
    PlacedAt(T, S, P, j);
    KidCorners(T, S, j);
    ChildOf(T, S, j, 0);
    ChildOf(T, S, j, 1);
    ChildOf(T, S, j, 2);
    ChildOf(T, S, j, 3);
    if Boxed(P, T[j], b) {
      MidBoxed(b, PointOf(P, T[j].v1), PointOf(P, T[j].v2));
      MidBoxed(b, PointOf(P, T[j].v2), PointOf(P, T[j].v3));
      MidBoxed(b, PointOf(P, T[j].v3), PointOf(P, T[j].v1));
    }
  }

  /** Every triangle of the tree is in the box of the root. */
  lemma {:induction false} AllBoxed(T: seq<Te>, S: Shape, P: seq<Point>, j: int, b: Box)
    requires Woven(T, S) && Named(T, S) && Placed(T, S, P) && j in S.geo && |T| > 1 && Boxed(P, T[1], b)
    ensures 1 <= j < |T| && Boxed(P, T[j], b)
    decreases S.geo[j].level
  {
    NodeIndex(T, S, j);
    hide Woven, Named, Placed, Boxed, Lattice.Child;
    if j != 1 {
      ParentOf(T, S, j);
      AllBoxed(T, S, P, T[j].sur, b);
      KidBoxed(T, S, P, T[j].sur, T[j].kind, b);
    }
  }

  /** The test of `tehote_` and `tetrte_`: one of the ends of the first side has its x, and one of the
      ends of the third side its y, in the range of the rectangle. */
  lemma RectExact(P: seq<Point>, r: Box, t: Te)
    ensures InRect(P, r, t) <==>
              (exists v :: (v == t.v1 || v == t.v2) && r.xmin <= PointOf(P, v).x <= r.xmax)
              && (exists v :: (v == t.v1 || v == t.v3) && r.ymin <= PointOf(P, v).y <= r.ymax)
  {
    hide PointOf;
  }

  lemma BoxedRect(P: seq<Point>, t: Te, t1: Te, b: Box, aretmx: real, nbarpi: int)
    requires nbarpi <= 8 && aretmx > 0.0 && Upright(P, t1)
    requires Boxed(P, t, Box(PointOf(P, t1.v1).x, PointOf(P, t1.v1).y, PointOf(P, t1.v2).x, PointOf(P, t1.v3).y))
    ensures InRect(P, FrameOf(P, t1, b, aretmx, nbarpi), t)
  {
    hide PointOf;
  }

  /** The rectangle for the root t1. */
  function FrameOf(P: seq<Point>, t1: Te, b: Box, aretmx: real, nbarpi: int): (r: Box) {
    Frame(PointOf(P, t1.v1), PointOf(P, t1.v2), PointOf(P, t1.v3), b, aretmx, nbarpi)
  }

  lemma RootBoxed(P: seq<Point>, t1: Te)
    requires Upright(P, t1)
    ensures Boxed(P, t1, Box(PointOf(P, t1.v1).x, PointOf(P, t1.v1).y, PointOf(P, t1.v2).x, PointOf(P, t1.v3).y))
  {
    hide PointOf;
  }

  // ---------------------------------------------------------------- where the leaf of a point is

  /** The first side of t is level, with the third corner over or under its middle, and at most w long. */
  predicate Level(P: seq<Point>, t: Te, w: real) {
    var p1, p2, p3 := PointOf(P, t.v1), PointOf(P, t.v2), PointOf(P, t.v3);
    p1.y == p2.y && p3.x * 2.0 == p1.x + p2.x && AbsR(p2.x - p1.x) <= w
  }

  lemma KidLevel(T: seq<Te>, S: Shape, P: seq<Point>, j: int, k: int, w: real)
    requires Woven(T, S) && Named(T, S) && Placed(T, S, P) && Inner(T, S, j) && 0 <= k <= 3
    ensures 1 <= j < |T| && 1 < Sub(T[j], k) < |T| && (Level(P, T[j], w) ==> Level(P, T[Sub(T[j], k)], w * 0.5))
  {
    hide Woven, Named, Placed, Lattice.Child, PointOf;
    PlacedAt(T, S, P, j);
    KidCorners(T, S, j);
    ChildOf(T, S, j, 0);
    ChildOf(T, S, j, 1);
    ChildOf(T, S, j, 2);
    ChildOf(T, S, j, 3);
  }

  /** The triangles below the root are at most half as wide. */
  lemma {:induction false} AllLevel(T: seq<Te>, S: Shape, P: seq<Point>, j: int, w: real)
    requires Woven(T, S) && Named(T, S) && Placed(T, S, P) && j in S.geo && |T| > 1 && Level(P, T[1], w) && w >= 0.0
    ensures 1 <= j < |T| && Level(P, T[j], if j == 1 then w else w * 0.5)
    decreases S.geo[j].level
  {
    NodeIndex(T, S, j);
    hide Woven, Named, Placed, Level, Lattice.Child;
    if j != 1 {
      ParentOf(T, S, j);
      var p := T[j].sur;
      AllLevel(T, S, P, p, w);
      KidLevel(T, S, P, p, T[j].kind, if p == 1 then w else w * 0.5);
      LevelMore(P, T[j], if p == 1 then w * 0.5 else w * 0.5 * 0.5, w * 0.5);
    }
  }

  lemma HalfDistances(a: Point, b: Point, c: Point)
    ensures Dist2(a, Middle(a, b)) == 0.25 * Dist2(a, b) && Dist2(Middle(a, b), b) == 0.25 * Dist2(a, b)
    ensures Dist2(Middle(a, b), Middle(a, c)) == 0.25 * Dist2(b, c)
  {
  }

  lemma Swapped(a: Point, b: Point)
    ensures Dist2(a, b) == Dist2(b, a) && Middle(a, b) == Middle(b, a)
  {
  }

  lemma KidEqual(T: seq<Te>, S: Shape, P: seq<Point>, j: int, k: int)
    requires Woven(T, S) && Named(T, S) && Placed(T, S, P) && Inner(T, S, j) && 0 <= k <= 3
    ensures 1 <= j < |T| && 1 < Sub(T[j], k) < |T| && (Equilateral(P, T[j]) ==> Equilateral(P, T[Sub(T[j], k)]))
  {
    hide Woven, Named, Placed, Lattice.Child, PointOf, Dist2, Middle;
    PlacedAt(T, S, P, j);
    KidCorners(T, S, j);
    ChildOf(T, S, j, 0);
    ChildOf(T, S, j, 1);
    ChildOf(T, S, j, 2);
    ChildOf(T, S, j, 3);
    var a, b, c := PointOf(P, T[j].v1), PointOf(P, T[j].v2), PointOf(P, T[j].v3);
    HalfDistances(a, b, c);
    HalfDistances(b, c, a);
    HalfDistances(c, a, b);
    Swapped(a, b);
    Swapped(b, c);
    Swapped(c, a);
    Swapped(Middle(a, b), Middle(b, c));
    Swapped(Middle(b, c), Middle(c, a));
    Swapped(Middle(c, a), Middle(a, b));
    Swapped(Middle(a, b), a);
    Swapped(Middle(a, b), b);
    Swapped(Middle(b, c), b);
    Swapped(Middle(b, c), c);
    Swapped(Middle(c, a), c);
    Swapped(Middle(c, a), a);
  }

  /** Every triangle of the tree is equilateral when the root is. */
  lemma {:induction false} AllEqual(T: seq<Te>, S: Shape, P: seq<Point>, j: int)
    requires Woven(T, S) && Named(T, S) && Placed(T, S, P) && j in S.geo && |T| > 1 && Equilateral(P, T[1])
    ensures 1 <= j < |T| && Equilateral(P, T[j])
    decreases S.geo[j].level
  {
    NodeIndex(T, S, j);
    hide Woven, Named, Placed, Equilateral, Lattice.Child;
    if j != 1 {
      ParentOf(T, S, j);
      AllEqual(T, S, P, T[j].sur);
      KidEqual(T, S, P, T[j].sur, T[j].kind);
    }
  }

  /** Every side of a leaf in the rectangle is at most 1.34 times the length wished for at each corner. */
  lemma LeafSides(T: seq<Te>, S: Shape, P: seq<Point>, r: Box, ideal: Point -> real, j: int, p: Point, q: Point,
      v: Point)
    requires Woven(T, S) && Named(T, S) && Placed(T, S, P) && j in S.geo && |T| > 1 && Equilateral(P, T[1])
    requires Good(T, S, P, r, ideal, j) && InRect(P, r, T[j])
    requires p != q && {p, q, v} <= {PointOf(P, T[j].v1), PointOf(P, T[j].v2), PointOf(P, T[j].v3)}
    ensures Dist2(p, q) <= 1.34 * ideal(v) * (1.34 * ideal(v))
  {
    hide *;
    AllEqual(T, S, P, j);
    GoodMeans(T, S, P, r, ideal, j);
    RectExact(P, r, T[j]);
    SidesEqual(P, T[j], p, q);
  }

  lemma SidesEqual(P: seq<Point>, t: Te, p: Point, q: Point)
    requires Equilateral(P, t) && p != q
    requires p in {PointOf(P, t.v1), PointOf(P, t.v2), PointOf(P, t.v3)}
      && q in {PointOf(P, t.v1), PointOf(P, t.v2), PointOf(P, t.v3)}
    ensures Dist2(p, q) == Dist2(PointOf(P, t.v1), PointOf(P, t.v2))
  {
    hide PointOf, Dist2;
    Swapped(PointOf(P, t.v1), PointOf(P, t.v2));
    Swapped(PointOf(P, t.v2), PointOf(P, t.v3));
    Swapped(PointOf(P, t.v3), PointOf(P, t.v1));
  }

  lemma LevelMore(P: seq<Point>, t: Te, v: real, w: real)
    requires Level(P, t, v) && v <= w
    ensures Level(P, t, w)
  {
    hide PointOf;
  }

  /** What a triangle holds is in each box with its corners. */
  lemma HeldBoxed(P: seq<Point>, t: Te, b: Box, z: Point)
    requires AreaOf(P, (t.v1, t.v2, t.v3)) > 0.0 && Boxed(P, t, b)
    requires In(z, PointOf(P, t.v1), PointOf(P, t.v2), PointOf(P, t.v3))
    ensures InBox(b, z)
  {
    var p1, p2, p3 := PointOf(P, t.v1), PointOf(P, t.v2), PointOf(P, t.v3);
    hide PointOf;
    var a, u, v, w := Area(p1, p2, p3), Area(p2, p3, z), Area(p3, p1, z), Area(p1, p2, z);
    assert a * z.x == u * p1.x + v * p2.x + w * p3.x && a * z.y == u * p1.y + v * p2.y + w * p3.y && a == u + v + w;
    hide Area;
    MeanBetween(u, v, w, p1.x, p2.x, p3.x, z.x, b.xmin, b.xmax);
    MeanBetween(u, v, w, p1.y, p2.y, p3.y, z.y, b.ymin, b.ymax);
  }

  lemma MeanBetween(u: real, v: real, w: real, x1: real, x2: real, x3: real, x: real, lo: real, hi: real)
    requires u >= 0.0 && v >= 0.0 && w >= 0.0 && u + v + w > 0.0 && (u + v + w) * x == u * x1 + v * x2 + w * x3
    requires lo <= x1 <= hi && lo <= x2 <= hi && lo <= x3 <= hi
    ensures lo <= x <= hi
  {
    NotNegative(u, x1 - lo);
    NotNegative(v, x2 - lo);
    NotNegative(w, x3 - lo);
    NotNegative(u, hi - x1);
    NotNegative(v, hi - x2);
    NotNegative(w, hi - x3);
    var s := u + v + w;
    assert s * (x - lo) == u * (x1 - lo) + v * (x2 - lo) + w * (x3 - lo);
    assert s * (hi - x) == u * (hi - x1) + v * (hi - x2) + w * (hi - x3);
    assert x < lo ==> s * (lo - x) > 0.0;
    assert x > hi ==> s * (x - hi) > 0.0;
  }

  lemma NotNegative(x: real, y: real)
    requires x >= 0.0 && y >= 0.0
    ensures x * y >= 0.0
  {
  }

  /** The smallest box around a level triangle. */
  function BoxOf(P: seq<Point>, t: Te): (b: Box) {
    var p1, p2, p3 := PointOf(P, t.v1), PointOf(P, t.v2), PointOf(P, t.v3);
    Box(Min(p1.x, p2.x), Min(p1.y, p3.y), Max(p1.x, p2.x), Max(p1.y, p3.y))
  }

  lemma LevelBoxed(P: seq<Point>, t: Te, w: real)
    requires Level(P, t, w)
    ensures Boxed(P, t, BoxOf(P, t)) && BoxOf(P, t).xmax - BoxOf(P, t).xmin <= w
  {
    hide PointOf;
  }

  /** A triangle not below the root's base, at most half as wide as the root, with a point of b in its box,
      passes the test. */
  lemma NearRect(P: seq<Point>, t: Te, t1: Te, b: Box, aretmx: real, nbarpi: int, z: Point, w: real)
    requires nbarpi > 8 && aretmx > 0.0 && Upright(P, t1) && PointOf(P, t1.v1).y == b.ymin - aretmx
    requires w == (PointOf(P, t1.v2).x - PointOf(P, t1.v1).x) * 0.5
    requires Level(P, t, w) && InBox(b, z) && InBox(BoxOf(P, t), z) && PointOf(P, t1.v1).y <= BoxOf(P, t).ymin
    ensures InRect(P, FrameOf(P, t1, b, aretmx, nbarpi), t)
  {
    LevelBoxed(P, t, w);
    hide PointOf, Level;
    var r, c := FrameOf(P, t1, b, aretmx, nbarpi), BoxOf(P, t);
    assert r.ymin <= c.ymin <= z.y <= r.ymax;
    assert r.xmin < z.x < r.xmax && r.xmax - r.xmin > w;
    assert r.xmin <= c.xmin || c.xmax <= r.xmax;
  }

  /** Every leaf below the root that holds a point of the box b meets the rectangle. */
  lemma LeafFramed(T: seq<Te>, S: Shape, P: seq<Point>, j: int, b: Box, aretmx: real, nbarpi: int, z: Point)
    requires Woven(T, S) && Named(T, S) && Placed(T, S, P) && j in S.geo && |T| > 1 && aretmx > 0.0
    requires Over(P, T[1], b, aretmx) && InBox(b, z) && (nbarpi <= 8 || j != 1)
    requires 1 <= j < |T| && In(z, PointOf(P, T[j].v1), PointOf(P, T[j].v2), PointOf(P, T[j].v3))
    ensures InRect(P, FrameOf(P, T[1], b, aretmx, nbarpi), T[j])
  {
    hide *;
    OverParts(P, T[1], b, aretmx);
    if nbarpi <= 8 {
      AllFramed(T, S, P, j, b, aretmx, nbarpi);
    } else {
      var w := PointOf(P, T[1].v2).x - PointOf(P, T[1].v1).x;
      var c := Box(PointOf(P, T[1].v1).x, PointOf(P, T[1].v1).y, PointOf(P, T[1].v2).x, PointOf(P, T[1].v3).y);
      RootLevelled(P, T[1]);
      AllLevel(T, S, P, j, w);
      RootBoxed(P, T[1]);
      AllBoxed(T, S, P, j, c);
      LevelBoxed(P, T[j], w * 0.5);
      PlacedArea(T, S, P, j);
      HeldBoxed(P, T[j], BoxOf(P, T[j]), z);
      BoxBase(P, T[j], c);
      NearRect(P, T[j], T[1], b, aretmx, nbarpi, z, w * 0.5);
    }
  }

  lemma OverParts(P: seq<Point>, t: Te, b: Box, aretmx: real)
    requires Over(P, t, b, aretmx)
    ensures Upright(P, t) && PointOf(P, t.v1).y == b.ymin - aretmx
    ensures forall z | InBox(b, z) :: In(z, PointOf(P, t.v1), PointOf(P, t.v2), PointOf(P, t.v3))
  {
    hide Upright, PointOf, In, InBox;
  }

  lemma RootLevelled(P: seq<Point>, t: Te)
    requires Upright(P, t)
    ensures PointOf(P, t.v2).x - PointOf(P, t.v1).x >= 0.0 && Level(P, t, PointOf(P, t.v2).x - PointOf(P, t.v1).x)
  {
    hide PointOf;
  }

  lemma PlacedArea(T: seq<Te>, S: Shape, P: seq<Point>, j: int)
    requires Placed(T, S, P) && j in S.geo && 0 <= j < |T|
    ensures AreaOf(P, (T[j].v1, T[j].v2, T[j].v3)) > 0.0
  {
    hide Area, PointOf;
  }

  lemma BoxBase(P: seq<Point>, t: Te, c: Box)
    requires Boxed(P, t, c)
    ensures c.ymin <= BoxOf(P, t).ymin
  {
    hide PointOf;
  }

  /** With at most eight points every leaf meets the rectangle. */
  lemma AllFramed(T: seq<Te>, S: Shape, P: seq<Point>, j: int, b: Box, aretmx: real, nbarpi: int)
    requires Woven(T, S) && Named(T, S) && Placed(T, S, P) && j in S.geo && |T| > 1 && nbarpi <= 8 && aretmx > 0.0
    requires Upright(P, T[1])
    ensures 1 <= j < |T| && InRect(P, FrameOf(P, T[1], b, aretmx, nbarpi), T[j])
  {
    hide *;
    var c := Box(PointOf(P, T[1].v1).x, PointOf(P, T[1].v1).y, PointOf(P, T[1].v2).x, PointOf(P, T[1].v3).y);
    RootBoxed(P, T[1]);
    AllBoxed(T, S, P, j, c);
    BoxedRect(P, T[j], T[1], b, aretmx, nbarpi);
  }

  // ---------------------------------------------------------------- the leaf of a place

  /** The coordinates with the place z as number 0, which no vertex has. */
  function WithPlace(P: seq<Point>, z: Point): (r: seq<Point>)
    requires |P| > 0
  {
    P[0 := z]
  }

  lemma PlacedStill(T: seq<Te>, S: Shape, P: seq<Point>, nb: int, z: Point)
    requires Woven(T, S) && Named(T, S) && Numbered(T, S, nb) && Placed(T, S, P) && |P| > 0
    ensures Placed(T, S, WithPlace(P, z))
  {
    var P' := WithPlace(P, z);
    forall j | j in S.geo && 0 <= j < |T| ensures HalvedAt(T, S, P', j)
      && AreaOf(P', (T[j].v1, T[j].v2, T[j].v3)) > 0.0 {
      PlacedOne(T, S, P, nb, z, j);
    }
  }

  lemma PlacedOne(T: seq<Te>, S: Shape, P: seq<Point>, nb: int, z: Point, j: int)
    requires Woven(T, S) && Named(T, S) && Numbered(T, S, nb) && Placed(T, S, P) && |P| > 0 && j in S.geo
      && 0 <= j < |T|
    ensures HalvedAt(T, S, WithPlace(P, z), j) && AreaOf(WithPlace(P, z), (T[j].v1, T[j].v2, T[j].v3)) > 0.0
  {
    hide *;
    PlacedAt(T, S, P, j);
    ExtendsNone(P, nb);
    SameCorners(T, S, P, P, nb, j);
    if Inner(T, S, j) {
      MiddleChild(T, S, j);
      SameCorners(T, S, P, P, nb, T[j].s0);
    }
    HalvedStill(T, S, P, z, j);
  }

  lemma MiddleChild(T: seq<Te>, S: Shape, j: int)
    requires Woven(T, S) && Inner(T, S, j) && 0 <= j < |T|
    ensures T[j].s0 in S.geo && 1 < T[j].s0 < |T|
  {
    ChildOf(T, S, j, 0);
    hide Woven, Lattice.Child;
  }

  lemma SamePoint(P: seq<Point>, z: Point, v: int)
    requires |P| > 0 && v >= 1
    ensures PointOf(WithPlace(P, z), v) == PointOf(P, v)
  {
  }

  lemma HalvedStill(T: seq<Te>, S: Shape, P: seq<Point>, z: Point, j: int)
    requires |P| > 0 && 0 <= j < |T| && HalvedAt(T, S, P, j) && AreaOf(P, (T[j].v1, T[j].v2, T[j].v3)) > 0.0
    requires T[j].v1 >= 1 && T[j].v2 >= 1 && T[j].v3 >= 1
    requires Inner(T, S, j) ==> 1 < T[j].s0 < |T| && T[T[j].s0].v1 >= 1 && T[T[j].s0].v2 >= 1 && T[T[j].s0].v3 >= 1
    ensures HalvedAt(T, S, WithPlace(P, z), j) && AreaOf(WithPlace(P, z), (T[j].v1, T[j].v2, T[j].v3)) > 0.0
  {
    SamePoint(P, z, T[j].v1);
    SamePoint(P, z, T[j].v2);
    SamePoint(P, z, T[j].v3);
    if Inner(T, S, j) {
      SamePoint(P, z, T[T[j].s0].v1);
      SamePoint(P, z, T[T[j].s0].v2);
      SamePoint(P, z, T[T[j].s0].v3);
    }
    hide Area, Middle, PointOf, WithPlace;
  }

  /** Every place of a triangle of the tree is in a leaf below it. */
  lemma {:induction false} LeafBelow(T: seq<Te>, S: Shape, P: seq<Point>, j: int, seen: set<int>) returns (n: int)
    requires Woven(T, S) && Named(T, S) && Placed(T, S, P) && j in S.geo && 1 <= j < |T| && Holds(P, T[j], 0)
    requires seen <= S.geo.Keys && forall i | i in seen :: S.geo[i].level < S.geo[j].level
    ensures n in S.geo && 1 <= n < |T| && !Inner(T, S, n) && Holds(P, T[n], 0)
    decreases S.geo.Keys - seen
  {
    hide Woven, Named, Placed, Holds;
    n := j;
    if Inner(T, S, j) {
      NosstrHolds(T, S, P, j, 0);
      var k := Nosstr(P, T[j], 0);
      Deeper(T, S, j, k);
      n := LeafBelow(T, S, P, Sub(T[j], k), seen + {j});
    }
  }

  lemma HoldsPlace(P: seq<Point>, t: Te, z: Point)
    requires |P| > 0 && t.v1 >= 1 && t.v2 >= 1 && t.v3 >= 1
    ensures Holds(WithPlace(P, z), t, 0) <==> In(z, PointOf(P, t.v1), PointOf(P, t.v2), PointOf(P, t.v3))
  {
    hide Area;
  }

  /** Every place in the root is in a leaf. */
  lemma LeafAt(T: seq<Te>, S: Shape, P: seq<Point>, nb: int, z: Point) returns (n: int)
    requires Woven(T, S) && Named(T, S) && Numbered(T, S, nb) && Placed(T, S, P) && |P| > 0 && |T| > 1
    requires In(z, PointOf(P, T[1].v1), PointOf(P, T[1].v2), PointOf(P, T[1].v3))
    ensures n in S.geo && 1 <= n < |T| && !Inner(T, S, n)
    ensures In(z, PointOf(P, T[n].v1), PointOf(P, T[n].v2), PointOf(P, T[n].v3))
  {
    hide *;
    RootLevel(T, S);
    SameCorners(T, S, P, P, nb, 1) by { ExtendsNone(P, nb); }
    HoldsPlace(P, T[1], z);
    PlacedStill(T, S, P, nb, z);
    n := LeafBelow(T, S, WithPlace(P, z), 1, {});
    SameCorners(T, S, P, P, nb, n) by { ExtendsNone(P, nb); }
    HoldsPlace(P, T[n], z);
  }

  // ---------------------------------------------------------------- the root is subdivided

  /** A root that is a leaf is the whole tree. */
  lemma LoneRoot(T: seq<Te>, S: Shape, j: int)
    requires Woven(T, S) && !Inner(T, S, 1) && j in S.geo
    ensures j == 1
    decreases S.geo[j].level
  {
    hide Woven, Lattice.Child;
    if j != 1 {
      ParentOf(T, S, j);
      LoneRoot(T, S, T[j].sur);
    }
  }

  /** Five points do not fit in the root. */
  lemma RootInner(T: seq<Te>, S: Shape, P: seq<Point>, nb: int, home: map<int, int>, n: int)
    requires Woven(T, S) && Stocked(T, S, P, nb, home) && n > 4 && forall q | 1 <= q <= n :: q in home
    ensures Inner(T, S, 1)
  {
    if !Inner(T, S, 1) {
      NodeIndex(T, S, 1);
      var q := FiveInFour(-T[1].s0, -T[1].s1, -T[1].s2, -T[1].s3);
      assert HomeOk(T, S, home, nb, q);
      hide Woven, Stocked;
      LoneRoot(T, S, home[q]);
    }
  }

  lemma FiveInFour(a: int, b: int, c: int, d: int) returns (q: int)
    ensures 1 <= q <= 5 && q != a && q != b && q != c && q != d
  {
    q := if 1 != a && 1 != b && 1 != c && 1 != d then 1 else if 2 != a && 2 != b && 2 != c && 2 != d then 2
      else if 3 != a && 3 != b && 3 != c && 3 != d then 3 else if 4 != a && 4 != b && 4 != c && 4 != d then 4 else 5;
  }
}
