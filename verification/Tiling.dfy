/** How the triangles of a leaf lie: in the leaf, without common inner points, and with what sides. */
module Tiling {
  import opened Lists
  import opened Geometry
  import opened Planar
  import opened Delaunay
  import opened Templates
  import opened Splitting
  import opened Leaves
  import opened Leafmesh
  import opened Regions

  /** Triangle t runs from x to y. */
  predicate SideAt(t: Tri3, x: int, y: int) {
    (x == t.0 && y == t.1) || (x == t.1 && y == t.2) || (x == t.2 && y == t.0)
  }

  predicate CornerAt(t: Tri3, x: int) {
    x == t.0 || x == t.1 || x == t.2
  }

  /** A triangle of ts runs from x to y. */
  ghost predicate RunsSide(ts: seq<Tri3>, x: int, y: int) {
    exists k :: 0 <= k < |ts| && SideAt(ts[k], x, y)
  }

  ghost predicate CornerIn(ts: seq<Tri3>, x: int) {
    exists k :: 0 <= k < |ts| && CornerAt(ts[k], x)
  }

  /** No two triangles have an inner point in common. */
  ghost predicate ApartAll(P: seq<Point>, ts: seq<Tri3>) {
    forall i, j | 0 <= i < |ts| && 0 <= j < |ts| && i != j :: Apart(P, ts[i], ts[j])
  }

  /** The corners of t are in triangle v. */
  predicate TriWithin(P: seq<Point>, t: Tri3, v: Tri3) {
    && In(PointOf(P, t.0), PointOf(P, v.0), PointOf(P, v.1), PointOf(P, v.2))
    && In(PointOf(P, t.1), PointOf(P, v.0), PointOf(P, v.1), PointOf(P, v.2))
    && In(PointOf(P, t.2), PointOf(P, v.0), PointOf(P, v.1), PointOf(P, v.2))
  }

  ghost predicate AllWithin(P: seq<Point>, ts: seq<Tri3>, v: Tri3) {
    forall k | 0 <= k < |ts| :: TriWithin(P, ts[k], v)
  }

  /** What the triangles ts of the leaf v keep of those of its template, ts0, when points are added:
      old vertices keep the sides between them, and every old side is still one. */
  ghost predicate Refines(ts0: seq<Tri3>, ts: seq<Tri3>, points: set<int>) {
    && (forall x | CornerIn(ts, x) :: x in points || CornerIn(ts0, x))
    && (forall x, y | RunsSide(ts, x, y) :: x in points || y in points || RunsSide(ts0, x, y))
    && (forall x, y | RunsSide(ts0, x, y) :: RunsSide(ts, x, y))
  }

  lemma RefinesNone(ts: seq<Tri3>, points: set<int>)
    ensures Refines(ts, ts, points)
  {
  }

  // ---------------------------------------------------------------- triangles side by side

  /** Triangles that run one side both ways have no inner point in common. */
  lemma ReversedApart(P: seq<Point>, s: Tri3, t: Tri3, x: int, y: int)
    requires SideAt(s, x, y) && SideAt(t, y, x)
    ensures Apart(P, s, t) && Apart(P, t, s)
  {
    var p, q := PointOf(P, x), PointOf(P, y);
    forall z ensures !(Inside(z, PointOf(P, s.0), PointOf(P, s.1), PointOf(P, s.2))
      && Inside(z, PointOf(P, t.0), PointOf(P, t.1), PointOf(P, t.2)))
    {
      Turned(p, q, z);
    }
    hide Area;
  }

  lemma TriInside(P: seq<Point>, t: Tri3, v: Tri3, z: Point)
    requires AreaOf(P, v) > 0.0 && TriWithin(P, t, v)
    requires Inside(z, PointOf(P, t.0), PointOf(P, t.1), PointOf(P, t.2))
    ensures Inside(z, PointOf(P, v.0), PointOf(P, v.1), PointOf(P, v.2))
  {
    hide Area, Inside;
    InsideOf(z, PointOf(P, v.0), PointOf(P, v.1), PointOf(P, v.2), PointOf(P, t.0), PointOf(P, t.1), PointOf(P, t.2));
  }

  /** What is in v is apart from what is apart from v. */
  lemma ApartWithin(P: seq<Point>, t: Tri3, v: Tri3, s: Tri3)
    requires Apart(P, v, s) && AreaOf(P, v) > 0.0 && TriWithin(P, t, v)
    ensures Apart(P, t, s) && Apart(P, s, t)
  {
    hide Area, Inside, TriWithin;
    forall z | Inside(z, PointOf(P, t.0), PointOf(P, t.1), PointOf(P, t.2))
      ensures Inside(z, PointOf(P, v.0), PointOf(P, v.1), PointOf(P, v.2))
    {
      TriInside(P, t, v, z);
    }
  }

  /** A triangle without positive area is apart from all others. */
  lemma FlatApart(P: seq<Point>, t: Tri3, s: Tri3)
    requires AreaOf(P, t) <= 0.0
    ensures Apart(P, t, s) && Apart(P, s, t)
  {
    forall z ensures !Inside(z, PointOf(P, t.0), PointOf(P, t.1), PointOf(P, t.2)) {
      FlatEmpty(z, PointOf(P, t.0), PointOf(P, t.1), PointOf(P, t.2));
    }
    hide Area, Inside;
  }

  // ---------------------------------------------------------------- the star of a point

  /** The corners after the star of q in triangle n of the list. */
  function StarList(ts: seq<Tri3>, n: int, q: int): (r: seq<Tri3>)
    requires 0 <= n < |ts|
  {
    var t := ts[n];
    ts[n := (t.2, t.0, q)] + [(t.0, t.1, q), (t.1, t.2, q)]
  }

  /** q is in t, and the triangles of its star have no negative area. */
  ghost predicate StarFits(P: seq<Point>, t: Tri3, q: int) {
    && AreaOf(P, t) >= 0.0
    && (AreaOf(P, t) > 0.0 ==> In(PointOf(P, q), PointOf(P, t.0), PointOf(P, t.1), PointOf(P, t.2)))
    && AreaOf(P, (t.0, t.1, q)) >= 0.0 && AreaOf(P, (t.1, t.2, q)) >= 0.0 && AreaOf(P, (t.2, t.0, q)) >= 0.0
  }

  /** A triangle of the star is apart from what the old one is apart from. */
  lemma StarPart(P: seq<Point>, t: Tri3, q: int, u: Tri3, s: Tri3)
    requires StarFits(P, t, q) && Apart(P, t, s)
    requires u == (t.2, t.0, q) || u == (t.0, t.1, q) || u == (t.1, t.2, q)
    ensures Apart(P, u, s) && Apart(P, s, u)
  {
    if AreaOf(P, t) > 0.0 {
      CornersWithin(P, t);
      hide Area;
      ApartWithin(P, u, t, s);
    } else {
      SumOfViews(PointOf(P, q), PointOf(P, t.0), PointOf(P, t.1), PointOf(P, t.2));
      hide Area;
      FlatApart(P, u, s);
    }
  }

  lemma CornersWithin(P: seq<Point>, t: Tri3)
    requires AreaOf(P, t) > 0.0
    ensures TriWithin(P, t, t)
  {
    Turned(PointOf(P, t.0), PointOf(P, t.1), PointOf(P, t.2));
    Turned(PointOf(P, t.1), PointOf(P, t.2), PointOf(P, t.0));
    Turned(PointOf(P, t.2), PointOf(P, t.0), PointOf(P, t.1));
    hide Area;
  }

  lemma StarApart(P: seq<Point>, ts: seq<Tri3>, n: int, q: int)
    requires 0 <= n < |ts| && ApartAll(P, ts) && StarFits(P, ts[n], q)
    ensures ApartAll(P, StarList(ts, n, q))
  {
    var us, t, m := StarList(ts, n, q), ts[n], |ts|;
    assert us[n] == (t.2, t.0, q) && us[m] == (t.0, t.1, q) && us[m + 1] == (t.1, t.2, q);
    ReversedApart(P, us[n], us[m], t.0, q);
    ReversedApart(P, us[m], us[m + 1], t.1, q);
    ReversedApart(P, us[m + 1], us[n], t.2, q);
    hide Apart, StarFits;
    forall i, j | 0 <= i < |us| && 0 <= j < |us| && i != j ensures Apart(P, us[i], us[j]) {
      if i < m && i != n {
        assert us[i] == ts[i];
        if j < m && j != n {
          assert us[j] == ts[j];
        } else {
          ApartBack(P, ts[i], t);
          StarPart(P, t, q, us[j], ts[i]);
        }
      } else if j < m && j != n {
        assert us[j] == ts[j];
        StarPart(P, t, q, us[i], ts[j]);
      }
    }
  }

  lemma ApartBack(P: seq<Point>, s: Tri3, t: Tri3)
    ensures Apart(P, s, t) <==> Apart(P, t, s)
  {
  }

  lemma StarWithin(P: seq<Point>, ts: seq<Tri3>, n: int, q: int, v: Tri3)
    requires 0 <= n < |ts| && AllWithin(P, ts, v)
      && In(PointOf(P, q), PointOf(P, v.0), PointOf(P, v.1), PointOf(P, v.2))
    ensures AllWithin(P, StarList(ts, n, q), v)
  {
    var us, t, m := StarList(ts, n, q), ts[n], |ts|;
    assert TriWithin(P, t, v);
    assert us[n] == (t.2, t.0, q) && us[m] == (t.0, t.1, q) && us[m + 1] == (t.1, t.2, q);
    hide In;
    forall k | 0 <= k < |us| ensures TriWithin(P, us[k], v) {
      if k < m && k != n {
        assert us[k] == ts[k];
      }
    }
  }

  lemma StarRefines(ts0: seq<Tri3>, ts: seq<Tri3>, n: int, q: int, points: set<int>)
    requires 0 <= n < |ts| && Refines(ts0, ts, points) && q in points
    ensures Refines(ts0, StarList(ts, n, q), points)
  {
    var us, t, m := StarList(ts, n, q), ts[n], |ts|;
    assert us[n] == (t.2, t.0, q) && us[m] == (t.0, t.1, q) && us[m + 1] == (t.1, t.2, q);
    forall x | CornerIn(us, x) ensures x in points || CornerIn(ts0, x) {
      var k :| 0 <= k < |us| && CornerAt(us[k], x);
      if x != q {
        assert CornerAt(ts[if k < m then k else n], x);
        assert CornerIn(ts, x);
      }
    }
    forall x, y | RunsSide(us, x, y) ensures x in points || y in points || RunsSide(ts0, x, y) {
      var k :| 0 <= k < |us| && SideAt(us[k], x, y);
      if x != q && y != q {
        assert SideAt(ts[if k < m then k else n], x, y);
        assert RunsSide(ts, x, y);
      }
    }
    forall x, y | RunsSide(ts, x, y) ensures RunsSide(us, x, y) {
      var k :| 0 <= k < |ts| && SideAt(ts[k], x, y);
      var k' := if k != n then k else if x == t.0 && y == t.1 then m else if x == t.1 && y == t.2 then m + 1 else n;
      assert k != n ==> us[k] == ts[k];
      assert SideAt(us[k'], x, y);
    }
  }

  /** A star takes in its point and gives up no corner. */
  lemma StarCorners(ts: seq<Tri3>, n: int, q: int)
    requires 0 <= n < |ts|
    ensures CornerIn(StarList(ts, n, q), q) && forall x | CornerIn(ts, x) :: CornerIn(StarList(ts, n, q), x)
  {
    var us, t, m := StarList(ts, n, q), ts[n], |ts|;
    assert us[n] == (t.2, t.0, q) && us[m] == (t.0, t.1, q);
    assert CornerAt(us[n], q);
    forall x | CornerIn(ts, x) ensures CornerIn(us, x) {
      var k :| 0 <= k < |ts| && CornerAt(ts[k], x);
      assert k != n ==> us[k] == ts[k];
      assert CornerAt(us[if k != n then k else if x == t.1 then m else n], x);
    }
  }

  // ---------------------------------------------------------------- the templates

  lemma MiddleIn(a: Point, b: Point, c: Point)
    requires Area(a, b, c) > 0.0
    ensures In(a, a, b, c) && In(Middle(a, b), a, b, c)
  {
  }

  lemma AllIn(a: Point, b: Point, c: Point)
    requires Area(a, b, c) > 0.0
    ensures In(a, a, b, c) && In(b, a, b, c) && In(c, a, b, c)
    ensures In(Middle(a, b), a, b, c) && In(Middle(b, c), a, b, c) && In(Middle(c, a), a, b, c)
  {
    TurnAreas(a, b, c);
    MiddleIn(a, b, c);
    MiddleIn(b, c, a);
    MiddleIn(c, a, b);
    hide Area, Middle;
  }

  /** The two middles of a template with two: the line through them separates. */
  lemma MiddleLine(P: seq<Point>, s1: int, s2: int, s3: int, nm2: int, nm3: int)
    requires AreaOf(P, (s1, s2, s3)) > 0.0 && PointOf(P, nm2) == Middle(PointOf(P, s2), PointOf(P, s3))
      && PointOf(P, nm3) == Middle(PointOf(P, s3), PointOf(P, s1))
    ensures Apart(P, (s1, s2, nm2), (nm3, nm2, s3)) && Apart(P, (nm3, nm2, s3), (s1, s2, nm2))
  {
    var a, b, c, m2, m3 := PointOf(P, s1), PointOf(P, s2), PointOf(P, s3), PointOf(P, nm2), PointOf(P, nm3);
    var m1 := Middle(a, b);
    MiddleViews(a, b, c, m1, m2, m3, a);
    MiddleViews(a, b, c, m1, m2, m3, b);
    MiddleViews(a, b, c, m1, m2, m3, c);
    Turned(a, b, c);
    Turned(m3, m2, m2);
    Turned(m3, m2, m3);
    Turned(a, b, a);
    assert Area(m3, m2, m2) == 0.0 && Area(m3, m2, m3) == 0.0;
    assert Area(m3, m2, c) > 0.0 && Area(m3, m2, a) < 0.0 && Area(m3, m2, b) < 0.0;
    hide Area, Middle;
    Different(m3, m2, c);
    forall z ensures !(Inside(z, m3, m2, c) && Inside(z, a, b, m2)) {
      Separated(z, m3, m2, m3, m2, c, a, b, m2);
    }
  }

  lemma F1Apart(P: seq<Point>, s1: int, s2: int, s3: int, nm: int)
    ensures ApartAll(P, [(s1, s2, nm), (s2, s3, nm)])
  {
    var ts := [(s1, s2, nm), (s2, s3, nm)];
    ReversedApart(P, ts[0], ts[1], s2, nm);
    hide Apart;
  }

  lemma F2Apart(P: seq<Point>, s1: int, s2: int, s3: int, nm2: int, nm3: int)
    requires AreaOf(P, (s1, s2, s3)) > 0.0 && PointOf(P, nm2) == Middle(PointOf(P, s2), PointOf(P, s3))
      && PointOf(P, nm3) == Middle(PointOf(P, s3), PointOf(P, s1))
    ensures ApartAll(P, [(s1, s2, nm2), (s1, nm2, nm3), (nm3, nm2, s3)])
  {
    var ts := [(s1, s2, nm2), (s1, nm2, nm3), (nm3, nm2, s3)];
    ReversedApart(P, ts[0], ts[1], nm2, s1);
    ReversedApart(P, ts[1], ts[2], nm2, nm3);
    MiddleLine(P, s1, s2, s3, nm2, nm3);
    hide Apart, Area;
    forall i, j | 0 <= i < 3 && 0 <= j < 3 && i != j ensures Apart(P, ts[i], ts[j]) {
      assert i == 0 || i == 1 || i == 2;
      assert j == 0 || j == 1 || j == 2;
    }
  }

  lemma F3Apart(P: seq<Point>, s1: int, s2: int, s3: int, n1: int, n2: int, n3: int)
    requires PointOf(P, n1) == Middle(PointOf(P, s1), PointOf(P, s2))
      && PointOf(P, n2) == Middle(PointOf(P, s2), PointOf(P, s3)) && PointOf(P, n3) == Middle(PointOf(P, s3),
        PointOf(P, s1))
    ensures ApartAll(P, [(s1, n1, n3), (s2, n2, n1), (s3, n3, n2), (n3, n1, n2)])
  {
    var ts := [(s1, n1, n3), (s2, n2, n1), (s3, n3, n2), (n3, n1, n2)];
    ReversedApart(P, ts[0], ts[3], n1, n3);
    ReversedApart(P, ts[1], ts[3], n2, n1);
    ReversedApart(P, ts[2], ts[3], n3, n2);
    CornerKids(P, s1, s2, s3, n1, n2, n3);
    hide Apart, Middle;
    forall i, j | 0 <= i < 4 && 0 <= j < 4 && i != j ensures Apart(P, ts[i], ts[j]) {
      assert i == 0 || i == 1 || i == 2 || i == 3;
      assert j == 0 || j == 1 || j == 2 || j == 3;
    }
  }

  lemma CornerKids(P: seq<Point>, s1: int, s2: int, s3: int, n1: int, n2: int, n3: int)
    requires PointOf(P, n1) == Middle(PointOf(P, s1), PointOf(P, s2))
      && PointOf(P, n2) == Middle(PointOf(P, s2), PointOf(P, s3)) && PointOf(P, n3) == Middle(PointOf(P, s3),
        PointOf(P, s1))
    ensures Apart(P, (s1, n1, n3), (s2, n2, n1)) && Apart(P, (s2, n2, n1), (s1, n1, n3))
    ensures Apart(P, (s2, n2, n1), (s3, n3, n2)) && Apart(P, (s3, n3, n2), (s2, n2, n1))
    ensures Apart(P, (s1, n1, n3), (s3, n3, n2)) && Apart(P, (s3, n3, n2), (s1, n1, n3))
  {
    var a, b, c, m1, m2, m3 := PointOf(P, s1), PointOf(P, s2), PointOf(P, s3), PointOf(P, n1), PointOf(P, n2),
      PointOf(P, n3);
    hide Area, Middle;
    forall z
      ensures !(Inside(z, a, m1, m3) && Inside(z, b, m2, m1)) && !(Inside(z, b, m2, m1) && Inside(z, c, m3, m2))
      ensures !(Inside(z, a, m1, m3) && Inside(z, c, m3, m2))
    {
      QuartersApart(1, 2, a, b, c, m1, m2, m3, z);
      QuartersApart(2, 3, a, b, c, m1, m2, m3, z);
      QuartersApart(1, 3, a, b, c, m1, m2, m3, z);
    }
  }

  lemma TurnedAll(P: seq<Point>, v1: int, v2: int, v3: int)
    ensures AreaOf(P, (v2, v3, v1)) == AreaOf(P, (v1, v2, v3)) == AreaOf(P, (v3, v1, v2))
  {
    TurnAreas(PointOf(P, v1), PointOf(P, v2), PointOf(P, v3));
  }

  lemma F0Apart(P: seq<Point>, t: Tri3)
    ensures ApartAll(P, [t])
  {
  }

  /** The triangles of a template lie in the leaf, and side by side. */
  lemma TemplateLies(P: seq<Point>, v1: int, v2: int, v3: int, m1: int, m2: int, m3: int)
    requires LeafVertices(v1, v2, v3, m1, m2, m3) && AreaOf(P, (v1, v2, v3)) > 0.0
    requires m1 > 0 ==> PointOf(P, m1) == Middle(PointOf(P, v1), PointOf(P, v2))
    requires m2 > 0 ==> PointOf(P, m2) == Middle(PointOf(P, v2), PointOf(P, v3))
    requires m3 > 0 ==> PointOf(P, m3) == Middle(PointOf(P, v3), PointOf(P, v1))
    ensures var ts := CornersOfTemplate(TemplateOf(v1, v2, v3, m1, m2, m3));
      ApartAll(P, ts) && AllWithin(P, ts, (v1, v2, v3))
  {
    TurnedAll(P, v1, v2, v3);
    AllIn(PointOf(P, v1), PointOf(P, v2), PointOf(P, v3));
    hide PointOf, Area, Middle, In, ApartAll;
    var ts := CornersOfTemplate(TemplateOf(v1, v2, v3, m1, m2, m3));
    if m1 == 0 && m2 == 0 && m3 == 0 {
      assert ts == [(v1, v2, v3)];
      F0Apart(P, (v1, v2, v3));
    } else if m2 == 0 && m3 == 0 {
      assert ts == [(v2, v3, m1), (v3, v1, m1)];
      F1Apart(P, v2, v3, v1, m1);
    } else if m1 == 0 && m3 == 0 {
      assert ts == [(v3, v1, m2), (v1, v2, m2)];
      F1Apart(P, v3, v1, v2, m2);
    } else if m1 == 0 && m2 == 0 {
      assert ts == [(v1, v2, m3), (v2, v3, m3)];
      F1Apart(P, v1, v2, v3, m3);
    } else if m1 == 0 {
      assert ts == [(v1, v2, m2), (v1, m2, m3), (m3, m2, v3)];
      F2Apart(P, v1, v2, v3, m2, m3);
    } else if m3 == 0 {
      assert ts == [(v3, v1, m1), (v3, m1, m2), (m2, m1, v2)];
      F2Apart(P, v3, v1, v2, m1, m2);
    } else if m2 == 0 {
      assert ts == [(v2, v3, m3), (v2, m3, m1), (m1, m3, v1)];
      F2Apart(P, v2, v3, v1, m3, m1);
    } else {
      assert ts == [(v1, m1, m3), (v2, m2, m1), (v3, m3, m2), (m3, m1, m2)];
      F3Apart(P, v1, v2, v3, m1, m2, m3);
    }
  }

  // ---------------------------------------------------------------- the border

  /** The side from u to v, with its middle m or 0, runs from x to y. */
  predicate HalfOf(u: int, v: int, m: int, x: int, y: int) {
    if m == 0 then x == u && y == v else (x == u && y == m) || (x == m && y == v)
  }

  lemma AllRun(ts: seq<Tri3>)
    ensures forall k {:trigger ts[k]} | 0 <= k < |ts| ::
      RunsSide(ts, ts[k].0, ts[k].1) && RunsSide(ts, ts[k].1, ts[k].2) && RunsSide(ts, ts[k].2, ts[k].0)
  {
    forall k | 0 <= k < |ts|
      ensures RunsSide(ts, ts[k].0, ts[k].1) && RunsSide(ts, ts[k].1, ts[k].2) && RunsSide(ts, ts[k].2, ts[k].0)
    {
      assert SideAt(ts[k], ts[k].0, ts[k].1) && SideAt(ts[k], ts[k].1, ts[k].2) && SideAt(ts[k], ts[k].2, ts[k].0);
    }
  }

  /** The triangles of a template run along each side of the leaf. */
  lemma BorderRuns(v1: int, v2: int, v3: int, m1: int, m2: int, m3: int, x: int, y: int)
    requires LeafVertices(v1, v2, v3, m1, m2, m3)
    requires HalfOf(v1, v2, m1, x, y) || HalfOf(v2, v3, m2, x, y) || HalfOf(v3, v1, m3, x, y)
    ensures RunsSide(CornersOfTemplate(TemplateOf(v1, v2, v3, m1, m2, m3)), x, y)
  {
    var ts := CornersOfTemplate(TemplateOf(v1, v2, v3, m1, m2, m3));
    AllRun(ts);
    hide RunsSide;
    if m1 == 0 && m2 == 0 && m3 == 0 {
      assert ts == [(v1, v2, v3)];
      assert ts[0] == (v1, v2, v3);
    } else if m2 == 0 && m3 == 0 {
      assert ts == [(v2, v3, m1), (v3, v1, m1)];
      assert ts[0] == (v2, v3, m1) && ts[1] == (v3, v1, m1);
    } else if m1 == 0 && m3 == 0 {
      assert ts == [(v3, v1, m2), (v1, v2, m2)];
      assert ts[0] == (v3, v1, m2) && ts[1] == (v1, v2, m2);
    } else if m1 == 0 && m2 == 0 {
      assert ts == [(v1, v2, m3), (v2, v3, m3)];
      assert ts[0] == (v1, v2, m3) && ts[1] == (v2, v3, m3);
    } else if m1 == 0 {
      assert ts == [(v1, v2, m2), (v1, m2, m3), (m3, m2, v3)];
      assert ts[0] == (v1, v2, m2) && ts[1] == (v1, m2, m3) && ts[2] == (m3, m2, v3);
    } else if m3 == 0 {
      assert ts == [(v3, v1, m1), (v3, m1, m2), (m2, m1, v2)];
      assert ts[0] == (v3, v1, m1) && ts[1] == (v3, m1, m2) && ts[2] == (m2, m1, v2);
    } else if m2 == 0 {
      assert ts == [(v2, v3, m3), (v2, m3, m1), (m1, m3, v1)];
      assert ts[0] == (v2, v3, m3) && ts[1] == (v2, m3, m1) && ts[2] == (m1, m3, v1);
    } else {
      assert ts == [(v1, m1, m3), (v2, m2, m1), (v3, m3, m2), (m3, m1, m2)];
      assert ts[0] == (v1, m1, m3) && ts[1] == (v2, m2, m1) && ts[2] == (v3, m3, m2) && ts[3] == (m3, m1, m2);
    }
  }
}
