/** The points in the leaves of the tree: which sub-triangle holds a point (`nosstr_`), and what the
    slots of the leaves say. */
module Leaves {
  import opened Geometry
  import opened Delaunay
  import opened Lattice
  import opened Tree
  import opened Splitting

  /** Point number q is in triangle t, sides included. */
  predicate Holds(P: seq<Point>, t: Te, q: int) {
    && AreaOf(P, (t.v1, t.v2, q)) >= 0.0 && AreaOf(P, (t.v2, t.v3, q)) >= 0.0 && AreaOf(P, (t.v3, t.v1, q)) >= 0.0
  }

  function Ratio(n: real, d: real): (r: real)
    requires d != 0.0
    ensures r * d == n
  {
    n / d
  }

  /** The cross product of the sides a-b and a-c. */
  function Cross(a: Point, b: Point, c: Point): (r: real)
    ensures r == 2.0 * Area(a, b, c)
  {
    (b.x - a.x) * (c.y - a.y) - (c.x - a.x) * (b.y - a.y)
  }

  function Choice(xe: real, ye: real): (r: int) {
    if xe > 0.5 then 2 else if ye > 0.5 then 3 else if xe + ye < 0.5 then 1 else 0
  }

  /** `nosstr_`: the sub-triangle of t for point q, by the coordinates of q along two sides of t. */
  function Nosstr(P: seq<Point>, t: Te, q: int): (r: int)
    requires AreaOf(P, (t.v1, t.v2, t.v3)) > 0.0
  {
    var p, a, b, c := PointOf(P, q), PointOf(P, t.v1), PointOf(P, t.v2), PointOf(P, t.v3);
    var d := Cross(a, b, c);
    Choice(Ratio(Cross(a, p, c), d), Ratio(Cross(a, b, p), d))
  }

  lemma RatioHalf(n: real, d: real)
    requires d > 0.0
    ensures Ratio(n, d) > 0.5 <==> n > 0.5 * d
  {
    var r := Ratio(n, d);
    if r > 0.5 {
      assert (r - 0.5) * d > 0.0;
    } else {
      assert (0.5 - r) * d >= 0.0;
    }
  }

  lemma RatioSum(m: real, n: real, d: real)
    requires d > 0.0
    ensures Ratio(m, d) + Ratio(n, d) < 0.5 <==> m + n < 0.5 * d
  {
    var r := Ratio(m, d) + Ratio(n, d);
    assert r * d == m + n;
    if r < 0.5 {
      assert (0.5 - r) * d > 0.0;
    } else {
      assert (r - 0.5) * d >= 0.0;
    }
  }

  /** The choice of `nosstr_` in terms of areas. */
  lemma NosstrAreas(P: seq<Point>, t: Te, q: int)
    requires AreaOf(P, (t.v1, t.v2, t.v3)) > 0.0
    ensures var w, u, v := AreaOf(P, (t.v1, t.v2, t.v3)), AreaOf(P, (t.v3, t.v1, q)), AreaOf(P, (t.v1, t.v2, q));
            Nosstr(P, t, q) == if u > 0.5 * w then 2 else if v > 0.5 * w then 3 else if u + v < 0.5 * w then 1 else 0
  {
    var p, a, b, c := PointOf(P, q), PointOf(P, t.v1), PointOf(P, t.v2), PointOf(P, t.v3);
    assert Area(a, p, c) == Area(c, a, p);
    hide Area, Cross, Ratio, Choice;
    ChoiceAreas(Cross(a, p, c), Cross(a, b, p), Cross(a, b, c), Area(c, a, p), Area(a, b, p), Area(a, b, c));
  }

  lemma ChoiceAreas(m: real, n: real, d: real, u: real, v: real, w: real)
    requires d > 0.0 && d == 2.0 * w && m == 2.0 * u && n == 2.0 * v
    ensures Choice(Ratio(m, d), Ratio(n, d)) == if u > 0.5 * w then 2
      else if v > 0.5 * w then 3 else if u + v < 0.5 * w then 1 else 0
  {
    RatioHalf(m, d);
    RatioHalf(n, d);
    RatioSum(m, n, d);
    hide Ratio;
  }

  /** Areas seen from a point of a triangle and of its four quarters. */
  lemma QuarterViews(a: Point, b: Point, c: Point, m1: Point, m2: Point, m3: Point, p: Point)
    requires m1 == Middle(a, b) && m2 == Middle(b, c) && m3 == Middle(c, a)
    ensures Area(a, b, p) + Area(b, c, p) + Area(c, a, p) == Area(a, b, c)
    ensures Area(a, m1, p) == 0.5 * Area(a, b, p) && Area(m1, b, p) == 0.5 * Area(a, b, p)
    ensures Area(b, m2, p) == 0.5 * Area(b, c, p) && Area(m2, c, p) == 0.5 * Area(b, c, p)
    ensures Area(c, m3, p) == 0.5 * Area(c, a, p) && Area(m3, a, p) == 0.5 * Area(c, a, p)
  {
  }

  /** The side between two middles separates by half the area. */
  lemma MiddleViews(a: Point, b: Point, c: Point, m1: Point, m2: Point, m3: Point, p: Point)
    requires m1 == Middle(a, b) && m2 == Middle(b, c) && m3 == Middle(c, a)
    ensures Area(m1, m3, p) == 0.5 * Area(b, c, p) - 0.25 * Area(a, b, c)
    ensures Area(m2, m1, p) == 0.5 * Area(c, a, p) - 0.25 * Area(a, b, c)
    ensures Area(m3, m2, p) == 0.5 * Area(a, b, p) - 0.25 * Area(a, b, c)
  {
  }

  lemma AreaTurn(a: Point, b: Point, p: Point)
    ensures Area(b, a, p) == -Area(a, b, p)
  {
  }

  /** The corners of the sub-triangles of j, by number. */
  lemma KidCorners(T: seq<Te>, S: Shape, j: int)
    requires Woven(T, S) && Named(T, S) && Inner(T, S, j)
    ensures 1 < T[j].s0 < |T| && 1 < T[j].s1 < |T| && 1 < T[j].s2 < |T| && 1 < T[j].s3 < |T|
    ensures var t, m := T[j], T[T[j].s0];
            && T[t.s1].v1 == t.v1 && T[t.s1].v2 == m.v3 && T[t.s1].v3 == m.v2
            && T[t.s2].v1 == m.v3 && T[t.s2].v2 == t.v2 && T[t.s2].v3 == m.v1
            && T[t.s3].v1 == m.v2 && T[t.s3].v2 == m.v1 && T[t.s3].v3 == t.v3
  {
    hide Woven, Corner;
    NodeAt(T, S, j);
    ChildCorners(S.geo[j], 0);
    ChildCorners(S.geo[j], 1);
    ChildCorners(S.geo[j], 2);
    ChildCorners(S.geo[j], 3);
    ChildOf(T, S, j, 0);
    ChildOf(T, S, j, 1);
    ChildOf(T, S, j, 2);
    ChildOf(T, S, j, 3);
    hide Child, Mid;
    assert CornersNamed(T, S, j);
    assert CornersNamed(T, S, T[j].s0) && CornersNamed(T, S, T[j].s1) && CornersNamed(T, S, T[j].s2)
      && CornersNamed(T, S, T[j].s3);
  }

  /** `nosstr_` goes to a sub-triangle that holds the point. */
  lemma NosstrHolds(T: seq<Te>, S: Shape, P: seq<Point>, j: int, q: int)
    requires Woven(T, S) && Named(T, S) && Placed(T, S, P) && Inner(T, S, j)
    ensures AreaOf(P, (T[j].v1, T[j].v2, T[j].v3)) > 0.0
    ensures var c := Sub(T[j], Nosstr(P, T[j], q));
      0 <= Nosstr(P, T[j], q) <= 3 && c in S.geo && 1 <= c < |T| && (Holds(P, T[j], q) ==> Holds(P, T[c], q))
  {
    hide Woven, Named, Placed, Nosstr, Area, Middle, Child, PointOf;
    PlacedAt(T, S, P, j);
    NosstrRange(P, T[j], q);
    ChildOf(T, S, j, 0);
    ChildOf(T, S, j, 1);
    ChildOf(T, S, j, 2);
    ChildOf(T, S, j, 3);
    if Holds(P, T[j], q) {
      KidCorners(T, S, j);
      NosstrAreas(P, T[j], q);
      var t, m := T[j], T[T[j].s0];
      var a, b, c, p := PointOf(P, t.v1), PointOf(P, t.v2), PointOf(P, t.v3), PointOf(P, q);
      QuarterHolds(a, b, c, PointOf(P, m.v3), PointOf(P, m.v1), PointOf(P, m.v2), p);
    }
  }

  lemma NosstrRange(P: seq<Point>, t: Te, q: int)
    requires AreaOf(P, (t.v1, t.v2, t.v3)) > 0.0
    ensures 0 <= Nosstr(P, t, q) <= 3
  {
    hide Ratio, PointOf, Cross;
  }

  lemma PlacedAt(T: seq<Te>, S: Shape, P: seq<Point>, j: int)
    requires Placed(T, S, P) && j in S.geo && 0 <= j < |T|
    ensures HalvedAt(T, S, P, j) && AreaOf(P, (T[j].v1, T[j].v2, T[j].v3)) > 0.0
  {
  }

  predicate In(p: Point, a: Point, b: Point, c: Point) {
    Area(a, b, p) >= 0.0 && Area(b, c, p) >= 0.0 && Area(c, a, p) >= 0.0
  }

  lemma QuarterHolds(a: Point, b: Point, c: Point, m1: Point, m2: Point, m3: Point, p: Point)
    requires m1 == Middle(a, b) && m2 == Middle(b, c) && m3 == Middle(c, a) && In(p, a, b, c)
    ensures var w, u, v := Area(a, b, c), Area(c, a, p), Area(a, b, p);
            if u > 0.5 * w then In(p, m1, b, m2) else if v > 0.5 * w then In(p, m3, m2, c)
            else if u + v < 0.5 * w then In(p, a, m1, m3) else In(p, m2, m3, m1)
  {
    hide Area, Middle;
    QuarterViews(a, b, c, m1, m2, m3, p);
    MiddleViews(a, b, c, m1, m2, m3, p);
    AreaTurn(m1, m3, p);
    AreaTurn(m2, m1, p);
    AreaTurn(m3, m2, p);
  }

  /** The points in the slots of leaf j: zeros only at the end, no point twice, each at home in j
      and inside it. */
  ghost predicate LeafOk(T: seq<Te>, P: seq<Point>, home: map<int, int>, j: int)
    requires 0 <= j < |T|
  {
    var t := T[j];
    t.s0 <= 0 ==>
      && t.s1 <= 0 && t.s2 <= 0 && t.s3 <= 0
      && (t.s0 == 0 ==> t.s1 == 0) && (t.s1 == 0 ==> t.s2 == 0) && (t.s2 == 0 ==> t.s3 == 0)
      && (t.s1 < 0 ==> t.s1 != t.s0) && (t.s2 < 0 ==> t.s2 != t.s0 && t.s2 != t.s1)
      && (t.s3 < 0 ==> t.s3 != t.s0 && t.s3 != t.s1 && t.s3 != t.s2)
      && forall k | 0 <= k <= 3 && Sub(t, k) < 0 :: -Sub(t, k) in home && home[-Sub(t, k)] == j
                                                    && Holds(P, t, -Sub(t, k))
  }

  /** Point q is in a slot of its home, which is a leaf. */
  ghost predicate HomeOk(T: seq<Te>, S: Shape, home: map<int, int>, nb: int, q: int)
    requires q in home
  {
    && 1 <= q <= nb && home[q] in S.geo && 1 <= home[q] < |T| && T[home[q]].s0 < 0
    && (T[home[q]].s0 == -q || T[home[q]].s1 == -q || T[home[q]].s2 == -q || T[home[q]].s3 == -q)
  }

  /** Every point is in one slot of one leaf, which holds it. */
  ghost predicate Stocked(T: seq<Te>, S: Shape, P: seq<Point>, nb: int, home: map<int, int>) {
    && (forall j | j in S.geo && 0 <= j < |T| :: LeafOk(T, P, home, j))
    && (forall q | q in home :: HomeOk(T, S, home, nb, q))
  }

  /** The point of slot k of leaf j, and nothing else, is moved out of or into the tree. */
  function SetSub(t: Te, k: int, x: int): (r: Te) {
    if k == 0 then t.(s0 := x) else if k == 1 then t.(s1 := x) else if k == 2 then t.(s2 := x) else t.(s3 := x)
  }

  /** A new point q in the first empty slot k of leaf j. */
  lemma PutStocked(T: seq<Te>, S: Shape, P: seq<Point>, nb: int, home: map<int, int>, j: int, k: int, q: int)
    requires Stocked(T, S, P, nb, home) && j in S.geo && 1 <= j < |T| && T[j].s0 <= 0 && 0 <= k <= 3
    requires Sub(T[j], k) == 0 && forall i | 0 <= i < k :: Sub(T[j], i) != 0
    requires q !in home && 1 <= q <= nb && Holds(P, T[j], q)
    ensures Stocked(T[j := SetSub(T[j], k, -q)], S, P, nb, home[q := j])
  {
    hide Holds;
    var T', home' := T[j := SetSub(T[j], k, -q)], home[q := j];
    assert LeafOk(T, P, home, j);
    assert k > 0 ==> Sub(T[j], 0) != 0;
    assert k > 1 ==> Sub(T[j], 1) != 0;
    assert k > 2 ==> Sub(T[j], 2) != 0;
    HoldsSub(P, T[j], k, -q);
    forall i | i in S.geo && 0 <= i < |T'| ensures LeafOk(T', P, home', i) {
      assert LeafOk(T, P, home, i);
    }
    forall p | p in home' ensures HomeOk(T', S, home', nb, p) {
      if p != q {
        assert HomeOk(T, S, home, nb, p);
      }
    }
  }

  lemma HoldsSub(P: seq<Point>, t: Te, k: int, x: int)
    ensures forall p :: Holds(P, SetSub(t, k, x), p) <==> Holds(P, t, p)
  {
  }
}
