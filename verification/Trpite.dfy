/** `trpite_` and `f0trte_`..`f3trte_` on the arrays. */
module Trpite {
  import opened Lists
  import opened Geometry
  import opened Delaunay
  import opened EdgeTable
  import opened Mesh
  import opened Exchange
  import opened Contours
  import opened Triangles
  import opened Patch
  import opened Templates
  import opened Tree
  import opened Splitting
  import opened Leaves
  import opened Star
  import opened Tr3str
  import opened Areas
  import opened Leafmesh
  import opened Regions
  import opened Tiling

  /** One test of `ptdatr_` on a triangle without area: point q lies on the line n1 n2 when n3 does,
      and on the side of n3 otherwise. */
  predicate SameSide(P: seq<Point>, q: int, n1: int, n2: int, n3: int) {
    var d, dd := Cross(PointOf(P, n1), PointOf(P, n2), PointOf(P, q)),
      Cross(PointOf(P, n1), PointOf(P, n2), PointOf(P, n3));
    if dd == 0.0 then d == 0.0 else d * dd >= 0.0
  }

  /** `ptdatr_`: point q is in triangle t, by its barycentric coordinates when t has a positive area. */
  predicate Ptdatr(P: seq<Point>, q: int, t: Tri3) {
    var p, a, b, c := PointOf(P, q), PointOf(P, t.0), PointOf(P, t.1), PointOf(P, t.2);
    var d := Cross(a, b, c);
    if d > 0.0 then
      var cb1, cb2 := Ratio(Cross(p, b, c), d), Ratio(Cross(p, c, a), d);
      var cb3 := 1.0 - cb1 - cb2;
      0.0 <= cb1 <= 1.0 && 0.0 <= cb2 <= 1.0 && 0.0 <= cb3 <= 1.0
    else
      SameSide(P, q, t.0, t.1, t.2) && SameSide(P, q, t.1, t.2, t.0) && SameSide(P, q, t.2, t.0, t.1)
  }

  lemma BaryIn(u: real, v: real, w: real, d: real)
    requires d > 0.0 && u + v + w == d
    ensures var cb1, cb2 := Ratio(u, d), Ratio(v, d);
            (0.0 <= cb1 <= 1.0 && 0.0 <= cb2 <= 1.0 && 0.0 <= 1.0 - cb1 - cb2 <= 1.0) <==>
              (u >= 0.0 && v >= 0.0 && w >= 0.0)
  {
    var cb1, cb2 := Ratio(u, d), Ratio(v, d);
    hide Ratio;
    SignTimes(cb1, d);
    SignTimes(cb2, d);
    SignTimes(1.0 - cb1 - cb2, d);
    assert (1.0 - cb1 - cb2) * d == w;
  }

  lemma SignTimes(x: real, d: real)
    requires d > 0.0
    ensures x >= 0.0 <==> x * d >= 0.0
  {
  }

  /** On a triangle with area, the test is exact. */
  lemma PtdatrIn(P: seq<Point>, q: int, t: Tri3)
    requires AreaOf(P, t) > 0.0
    ensures Ptdatr(P, q, t) <==> In(PointOf(P, q), PointOf(P, t.0), PointOf(P, t.1), PointOf(P, t.2))
  {
    var p, a, b, c := PointOf(P, q), PointOf(P, t.0), PointOf(P, t.1), PointOf(P, t.2);
    Shares(a, b, c, p);
    TurnAreas(p, b, c);
    TurnAreas(p, c, a);
    hide Area, Cross, Ratio, PointOf;
    BaryIn(Cross(p, b, c), Cross(p, c, a), Cross(a, b, p), Cross(a, b, c));
  }

  /** The three triangles of a star around a point that passes the test have no negative area. */
  lemma StarAreas(P: seq<Point>, q: int, t: Tri3)
    requires AreaOf(P, t) >= 0.0 && Ptdatr(P, q, t)
    ensures AreaOf(P, (t.0, t.1, q)) >= 0.0 && AreaOf(P, (t.1, t.2, q)) >= 0.0 && AreaOf(P, (t.2, t.0, q)) >= 0.0
  {
    if AreaOf(P, t) > 0.0 {
      PtdatrIn(P, q, t);
    } else {
      var a, b, c := PointOf(P, t.0), PointOf(P, t.1), PointOf(P, t.2);
      TurnAreas(a, b, c);
      hide Area;
      assert Cross(a, b, c) == 0.0 && Cross(b, c, a) == 0.0 && Cross(c, a, b) == 0.0;
    }
  }

  // ---------------------------------------------------------------- the list of triangles

  /** nutr lists triangles of the mesh with the corners ts. */
  ghost predicate Tiled(E: Edges, T: seq<Tri>, nutr: seq<int>, ts: seq<Tri3>) {
    && |nutr| == |ts| && Unique(nutr)
    && forall k {:trigger nutr[k]} {:trigger ts[k]} | 0 <= k < |nutr| ::
      Active(T, nutr[k]) && Verts(E, T[nutr[k]]) == ts[k]
  }

  ghost predicate NoneNegative(P: seq<Point>, ts: seq<Tri3>) {
    forall k | 0 <= k < |ts| :: AreaOf(P, ts[k]) >= 0.0
  }

  /** The active triangles outside the list are the same as before, and none is new. */
  ghost predicate OnlyLeaf(T: seq<Tri>, T': seq<Tri>, nutr: seq<int>, nutr': seq<int>) {
    && |T'| == |T|
    && (forall t | 0 <= t < |T| && t !in nutr && T[t].a1 != 0 :: T'[t] == T[t] && t !in nutr')
    && (forall t | 1 <= t < |T| && T'[t].a1 != 0 :: t in nutr' || (t !in nutr && T[t].a1 != 0))
  }

  function NumberList(nutr: seq<int>, n: int, three: seq<int>): (r: seq<int>)
    requires 0 <= n < |nutr| && |three| == 3
  {
    nutr[n := three[2]] + [three[0], three[1]]
  }

  function Around3(f: (int, int) -> real, t: Tri3): (r: real) {
    f(t.0, t.1) + f(t.1, t.2) + f(t.2, t.0)
  }

  lemma {:induction false} TrisAdd(f: (int, int) -> real, a: seq<Tri3>, b: seq<Tri3>)
    ensures OfTriangles(f, a + b) == OfTriangles(f, a) + OfTriangles(f, b)
  {
    if b == [] {
      assert a + b == a;
    } else {
      TrisAdd(f, a, b[..|b| - 1]);
      assert (a + b)[..|a + b| - 1] == a + b[..|b| - 1];
    }
  }

  lemma TrisAt(f: (int, int) -> real, ts: seq<Tri3>, n: int)
    requires 0 <= n < |ts|
    ensures OfTriangles(f, ts) == OfTriangles(f, ts[..n]) + Around3(f, ts[n]) + OfTriangles(f, ts[n + 1..])
  {
    hide OfTriangles;
    var a, b, c := ts[..n], [ts[n]], ts[n + 1..];
    assert ts == a + (b + c);
    Tris1(f, ts[n]);
    TrisAdd(f, a, b + c);
    TrisAdd(f, b, c);
  }

  /** A star bounds what its triangle bounds. */
  lemma StarBounds(f: (int, int) -> real, ts: seq<Tri3>, n: int, q: int)
    requires 0 <= n < |ts| && Odd(f)
    ensures OfTriangles(f, StarList(ts, n, q)) == OfTriangles(f, ts)
  {
    var t := ts[n];
    var us := ts[n := (t.2, t.0, q)];
    TrisAt(f, ts, n);
    TrisAt(f, us, n);
    assert us[..n] == ts[..n] && us[n + 1..] == ts[n + 1..];
    TrisAdd(f, us, [(t.0, t.1, q), (t.1, t.2, q)]);
    TrisAdd(f, [(t.0, t.1, q)], [(t.1, t.2, q)]);
    assert [(t.0, t.1, q)] + [(t.1, t.2, q)] == [(t.0, t.1, q), (t.1, t.2, q)];
    Tris1(f, (t.0, t.1, q));
    Tris1(f, (t.1, t.2, q));
    assert f(t.1, q) == -f(q, t.1) && f(t.2, q) == -f(q, t.2) && f(t.0, q) == -f(q, t.0);
    hide OfTriangles;
  }

  lemma StarCover(P: seq<Point>, ts: seq<Tri3>, n: int, q: int, a: Point, b: Point, c: Point)
    requires 0 <= n < |ts| && Covers(P, ts, a, b, c) && Ptdatr(P, q, ts[n])
    ensures Covers(P, StarList(ts, n, q), a, b, c)
  {
    var us, t := StarList(ts, n, q), ts[n];
    var x, y, w, p := PointOf(P, t.0), PointOf(P, t.1), PointOf(P, t.2), PointOf(P, q);
    assert us[n] == (t.2, t.0, q) && us[|ts|] == (t.0, t.1, q) && us[|ts| + 1] == (t.1, t.2, q);
    forall z | In(z, a, b, c) ensures exists k :: 0 <= k < |us| && InProper(P, us[k], z) {
      var k :| 0 <= k < |ts| && InProper(P, ts[k], z);
      if k == n {
        PtdatrIn(P, q, t);
        hide Area, In, Ptdatr;
        StarCovers(x, y, w, p, z);
        if Area(x, y, p) > 0.0 && In(z, x, y, p) {
          CoverWith(P, us, |ts|, z);
        } else if Area(y, w, p) > 0.0 && In(z, y, w, p) {
          CoverWith(P, us, |ts| + 1, z);
        } else {
          CoverWith(P, us, n, z);
        }
      } else {
        assert us[k] == ts[k];
        CoverWith(P, us, k, z);
      }
    }
  }

  lemma StarNonNegative(P: seq<Point>, ts: seq<Tri3>, n: int, q: int)
    requires 0 <= n < |ts| && NoneNegative(P, ts) && Ptdatr(P, q, ts[n])
    ensures NoneNegative(P, StarList(ts, n, q))
  {
    var us, t := StarList(ts, n, q), ts[n];
    StarAreas(P, q, t);
    TurnAreas(PointOf(P, t.2), PointOf(P, t.0), PointOf(P, q));
    hide Area, Ptdatr;
    forall k | 0 <= k < |us| ensures AreaOf(P, us[k]) >= 0.0 {
      assert k < |ts| && k != n ==> us[k] == ts[k];
    }
  }

  lemma StarTiled(E: Edges, T: seq<Tri>, E': Edges, T': seq<Tri>, nutr: seq<int>, ts: seq<Tri3>, n: int, q: int,
      three: seq<int>)
    requires Tiled(E, T, nutr, ts) && 0 <= n < |nutr| && Grows(E, E') && MeshInv(E, T)
      && StarDrawn(E, T, E', T', nutr[n], q, three)
    ensures Tiled(E', T', NumberList(nutr, n, three), StarList(ts, n, q))
    ensures OnlyLeaf(T, T', nutr, NumberList(nutr, n, three))
  {
    var nutr', ts' := NumberList(nutr, n, three), StarList(ts, n, q);
    var m := |nutr|;
    assert nutr'[n] == three[2] && nutr'[m] == three[0] && nutr'[m + 1] == three[1];
    assert ts'[n] == (ts[n].2, ts[n].0, q) && ts'[m] == (ts[n].0, ts[n].1, q) && ts'[m + 1] == (ts[n].1, ts[n].2, q);
    assert forall j | 0 <= j < 3 :: three[j] !in nutr by {
      assert forall k | 0 <= k < m :: Active(T, nutr[k]);
    }
    forall k | 0 <= k < |nutr'| ensures Active(T', nutr'[k]) && Verts(E', T'[nutr'[k]]) == ts'[k] {
      if k < m && k != n {
        KeptTriangle(E, T, E', T', nutr, n, q, three, k);
      }
    }
    StarUnique(nutr, n, three);
    StarOnly(E, T, E', T', nutr, n, q, three);
  }

  lemma KeptTriangle(E: Edges, T: seq<Tri>, E': Edges, T': seq<Tri>, nutr: seq<int>, n: int, q: int, three: seq<int>,
      k: int)
    requires MeshInv(E, T) && Grows(E, E') && 0 <= n < |nutr| && 0 <= k < |nutr| && k != n && Unique(nutr)
      && Active(T, nutr[k])
    requires StarDrawn(E, T, E', T', nutr[n], q, three) && nutr[k] !in three
    ensures Active(T', nutr[k]) && Verts(E', T'[nutr[k]]) == Verts(E, T[nutr[k]])
  {
    assert nutr[k] != nutr[n];
    assert TriOk(E, T, nutr[k]);
    hide MeshInv, Unique;
    var x := T[nutr[k]];
    assert T'[nutr[k]] == x;
  }

  lemma StarUnique(nutr: seq<int>, n: int, three: seq<int>)
    requires Unique(nutr) && 0 <= n < |nutr| && |three| == 3 && Unique(three) && forall j | 0 <= j < 3 ::
      three[j] !in nutr
    ensures Unique(NumberList(nutr, n, three))
  {
    var l, m := NumberList(nutr, n, three), |nutr|;
    assert l[m] == three[0] && l[m + 1] == three[1] && l[n] == three[2];
    forall i, j | 0 <= i < j < |l| ensures l[i] != l[j] {
      assert i < m && i != n ==> l[i] == nutr[i] && nutr[i] in nutr;
      assert j < m && j != n ==> l[j] == nutr[j] && nutr[j] in nutr;
    }
  }

  lemma StarOnly(E: Edges, T: seq<Tri>, E': Edges, T': seq<Tri>, nutr: seq<int>, n: int, q: int, three: seq<int>)
    requires 0 <= n < |nutr| && StarDrawn(E, T, E', T', nutr[n], q, three)
    ensures OnlyLeaf(T, T', nutr, NumberList(nutr, n, three))
  {
    var l, m := NumberList(nutr, n, three), |nutr|;
    assert l[m] == three[0] && l[m + 1] == three[1] && l[n] == three[2];
    forall t | 0 <= t < |T| && t !in nutr && T[t].a1 != 0 ensures T'[t] == T[t] && t !in l {
      assert t != nutr[n];
      assert t !in three;
      NotListed(nutr, n, three, t);
    }
    forall t | 1 <= t < |T| && T'[t].a1 != 0 ensures t in l || (t !in nutr && T[t].a1 != 0) {
      if t in three {
        assert t == three[0] || t == three[1] || t == three[2];
      } else if t in nutr {
        var k :| 0 <= k < |nutr| && nutr[k] == t;
        assert t != nutr[n];
        assert l[k] == t;
      }
    }
  }

  lemma NotListed(nutr: seq<int>, n: int, three: seq<int>, t: int)
    requires 0 <= n < |nutr| && |three| == 3 && t !in nutr && t !in three
    ensures t !in NumberList(nutr, n, three)
  {
    var l := NumberList(nutr, n, three);
    forall k | 0 <= k < |l| ensures l[k] != t {
      assert l[k] in nutr || l[k] in three;
    }
  }

  lemma OnlyTwice(T: seq<Tri>, T1: seq<Tri>, T2: seq<Tri>, l: seq<int>, l1: seq<int>, l2: seq<int>)
    requires OnlyLeaf(T, T1, l, l1) && OnlyLeaf(T1, T2, l1, l2)
    ensures OnlyLeaf(T, T2, l, l2)
  {
  }

  /** What the points do to a leaf: they keep its border, its cover and the sign of its areas. */
  ghost predicate SameLeaf(P: seq<Point>, ts: seq<Tri3>, ts': seq<Tri3>, a: Point, b: Point, c: Point) {
    && (forall f: (int, int) -> real | Odd(f) :: OfTriangles(f, ts') == OfTriangles(f, ts))
    && Covers(P, ts', a, b, c) && NoneNegative(P, ts')
  }

  lemma SameLeafStar(P: seq<Point>, ts0: seq<Tri3>, ts: seq<Tri3>, n: int, q: int, a: Point, b: Point, c: Point)
    requires SameLeaf(P, ts0, ts, a, b, c) && 0 <= n < |ts| && Ptdatr(P, q, ts[n])
    ensures SameLeaf(P, ts0, StarList(ts, n, q), a, b, c)
  {
    hide Covers, NoneNegative, Ptdatr, Odd, OfTriangles, StarList;
    StarCover(P, ts, n, q, a, b, c);
    StarNonNegative(P, ts, n, q);
    forall f: (int, int) -> real | Odd(f) ensures OfTriangles(f, StarList(ts, n, q)) == OfTriangles(f, ts0) {
      StarBounds(f, ts, n, q);
    }
  }

  /** The points of leaf t. */
  ghost function PointsOf(t: Te): (r: set<int>) {
    set k | 0 <= k <= 3 && Sub(t, k) != 0 :: -Sub(t, k)
  }

  /** The triangles ts lie in leaf t side by side, and have the sides of ts0 between old vertices. */
  ghost predicate Lies(P: seq<Point>, ts0: seq<Tri3>, ts: seq<Tri3>, t: Te) {
    Refines(ts0, ts, PointsOf(t)) && ApartAll(P, ts) && AllWithin(P, ts, (t.v1, t.v2, t.v3))
  }

  lemma LiesNone(P: seq<Point>, ts: seq<Tri3>, t: Te)
    requires ApartAll(P, ts) && AllWithin(P, ts, (t.v1, t.v2, t.v3))
    ensures Lies(P, ts, ts, t)
  {
    RefinesNone(ts, PointsOf(t));
    hide ApartAll, AllWithin, Refines;
  }

  lemma LiesStar(P: seq<Point>, ts0: seq<Tri3>, ts: seq<Tri3>, t: Te, n: int, k: int)
    requires Lies(P, ts0, ts, t) && NoneNegative(P, ts) && 0 <= n < |ts| && 0 <= k <= 3 && Sub(t, k) != 0
    requires Ptdatr(P, -Sub(t, k), ts[n]) && Holds(P, t, -Sub(t, k))
    ensures Lies(P, ts0, StarList(ts, n, -Sub(t, k)), t)
  {
    var q := -Sub(t, k);
    if AreaOf(P, ts[n]) > 0.0 {
      PtdatrIn(P, q, ts[n]);
    }
    StarAreas(P, q, ts[n]);
    hide Ptdatr, ApartAll, AllWithin, Refines, Area, StarList;
    StarApart(P, ts, n, q);
    StarWithin(P, ts, n, q, (t.v1, t.v2, t.v3));
    StarRefines(ts0, ts, n, q, PointsOf(t));
  }

  /** Every triangle has a positive area. */
  ghost predicate Sharp(P: seq<Point>, ts: seq<Tri3>) {
    forall k {:trigger ts[k]} | 0 <= k < |ts| :: AreaOf(P, ts[k]) > 0.0
  }

  /** A corner of ts or one of the points. */
  ghost predicate Among(ts: seq<Tri3>, points: set<int>, x: int) {
    x in points || CornerIn(ts, x)
  }

  /** No point lies on a line through two others of the points and the corners of ts. */
  ghost predicate Scattered(P: seq<Point>, ts: seq<Tri3>, points: set<int>) {
    forall x, y, q | Among(ts, points, x) && Among(ts, points, y) && q in points && x != y && x != q && y != q ::
      AreaOf(P, (x, y, q)) != 0.0
  }

  /** Then the star of point q has positive areas. */
  lemma StarSharp(P: seq<Point>, ts0: seq<Tri3>, ts: seq<Tri3>, n: int, q: int, points: set<int>)
    requires Sharp(P, ts) && Scattered(P, ts0, points) && Refines(ts0, ts, points) && q in points
    requires 0 <= n < |ts| && Ptdatr(P, q, ts[n]) && !CornerAt(ts[n], q)
    ensures Sharp(P, StarList(ts, n, q))
  {
    var us := StarList(ts, n, q);
    var (a, b, c) := ts[n];
    StarAreas(P, q, ts[n]);
    assert CornerIn(ts, a) && CornerIn(ts, b) && CornerIn(ts, c) by {
      assert CornerAt(ts[n], a) && CornerAt(ts[n], b) && CornerAt(ts[n], c);
    }
    assert Among(ts0, points, a) && Among(ts0, points, b) && Among(ts0, points, c);
    assert a != b && b != c && c != a by {
      Different(PointOf(P, a), PointOf(P, b), PointOf(P, c));
    }
    hide Ptdatr, Area, CornerIn, Among, Refines;
    assert AreaOf(P, (a, b, q)) != 0.0 && AreaOf(P, (b, c, q)) != 0.0 && AreaOf(P, (c, a, q)) != 0.0;
    forall k | 0 <= k < |us| ensures AreaOf(P, us[k]) > 0.0 {
      assert k < |ts| && k != n ==> us[k] == ts[k];
    }
  }

  lemma NotCorner(E: Edges, T: seq<Tri>, nutr: seq<int>, ts: seq<Tri3>, n: int, q: int)
    requires MeshInv(E, T) && Tiled(E, T, nutr, ts) && 0 <= n < |ts| && Lone(E, q)
    ensures !CornerAt(ts[n], q)
  {
    var t := nutr[n];
    assert Active(T, t) && Verts(E, T[t]) == ts[n];
    assert TriOk(E, T, t);
    GrowsNone(E);
    hide MeshInv, Tiled;
    SideOfLone(E, E, T[t], t, q);
  }

  /** The search of `trpite_` for a triangle that holds point np. */
  method FindTriangle(table: Table, store: Store, P: seq<Point>, np: int, nutr: seq<int>, ghost ts: seq<Tri3>,
      ghost a: Point, ghost b: Point, ghost c: Point) returns (n: int)
    requires Sound(table, store.noartr) && Tiled(table.Live(), store.noartr[..], nutr, ts)
    requires Covers(P, ts, a, b, c) && In(PointOf(P, np), a, b, c)
    ensures 0 <= n < |nutr| && Ptdatr(P, np, ts[n])
  {
    hide TableInv, LiveEdges, MeshInv, Anchored, Bounded, Ptdatr, In;
    ghost var k :| 0 <= k < |ts| && InProper(P, ts[k], PointOf(P, np));
    PtdatrIn(P, np, ts[k]);
    n := 0;
    while n < |nutr|
      invariant 0 <= n <= k
    {
      var s1, s2, s3 := Nusotr(table, store.noartr, nutr[n]);
      assert (s1, s2, s3) == ts[n];
      if Ptdatr(P, np, (s1, s2, s3)) {
        return;
      }
      n := n + 1;
    }
    assert false;
  }

  /** What `trpite_` asks of the points of leaf t: new vertices, inside it, none twice, zeros last. */
  ghost predicate PointsOk(E: Edges, P: seq<Point>, t: Te, mx: int, k: int) {
    && (forall i | k <= i <= 3 && 0 <= i && Sub(t, i) != 0 :: Sub(t, i) < 0 && -Sub(t, i) <= mx && Lone(E, -Sub(t, i))
                                                              && Holds(P, t, -Sub(t, i)))
    && (forall i, j | k <= i < j <= 3 && 0 <= i && Sub(t, i) != 0 :: Sub(t, i) != Sub(t, j))
  }

  /** The number of points before the first empty slot. */
  function PointCount(t: Te): (r: nat)
    ensures r <= 4 && (forall i | 0 <= i < r :: Sub(t, i) != 0) && (r < 4 ==> Sub(t, r) == 0)
  {
    if t.s0 == 0 then 0 else if t.s1 == 0 then 1 else if t.s2 == 0 then 2 else if t.s3 == 0 then 3 else 4
  }

  lemma PointsNext(E: Edges, E': Edges, P: seq<Point>, t: Te, mx: int, k: int)
    requires PointsOk(E, P, t, mx, k) && 0 <= k <= 3 && Sub(t, k) != 0 && LonesKept(E, E', -Sub(t, k))
    ensures PointsOk(E', P, t, mx, k + 1)
  {
    hide Lone, Holds;
  }

  /** `trpite_`: the points of leaf t become vertices of its triangles nutr.  A point is never outside
      all of them, and each one adds two triangles. */
  method Trpite(table: Table, store: Store, P: seq<Point>, t: Te, nutr0: seq<int>, ghost ts0: seq<Tri3>)
      returns (nutr: seq<int>, ierr: int, ghost ts: seq<Tri3>)
    requires Sound(table, store.noartr) && store.Valid() && Tiled(table.Live(), store.noartr[..], nutr0, ts0)
      && NoneNegative(P, ts0)
    requires Covers(P, ts0, PointOf(P, t.v1), PointOf(P, t.v2), PointOf(P, t.v3))
      && PointsOk(table.Live(), P, t, table.mxsomm, 0)
    requires ApartAll(P, ts0) && AllWithin(P, ts0, (t.v1, t.v2, t.v3))
    modifies table`n1soar, table`plan, table.nosoar, table.noarst, store`n1artr, store`vacant, store.noartr
    ensures ierr == 0 || ierr == 1 || ierr == 2
    ensures ierr == 1 ==> Dry(table.n1soar, Spare(old(table.plan)), 3 * PointCount(t))
    ensures ierr == 2 ==> PointCount(t) > 0 && |old(store.vacant)| <= 2 * PointCount(t)
    ensures ierr == 0 ==> Sound(table, store.noartr) && store.Valid() && Tiled(table.Live(), store.noartr[..], nutr, ts)
    ensures ierr == 0 ==> |nutr| == |nutr0| + 2 * PointCount(t)
                          && OnlyLeaf(old(store.noartr[..]), store.noartr[..], nutr0, nutr)
    ensures ierr == 0 ==> SameLeaf(P, ts0, ts, PointOf(P, t.v1), PointOf(P, t.v2), PointOf(P, t.v3))
    ensures ierr == 0 ==> Lies(P, ts0, ts, t) && Grows(old(table.Live()), table.Live())
                          && LinesKept(old(table.Live()), table.Live())
    ensures ierr == 0 && Sharp(P, ts0) && Scattered(P, ts0, PointsOf(t)) ==> Sharp(P, ts)
    ensures ierr == 0 ==> Taken(t, ts, 4)
    ensures ierr == 0 ==> Spare(table.plan) + 3 * PointCount(t) >= Spare(old(table.plan))
                          && |store.vacant| + 2 * PointCount(t) == |old(store.vacant)|
  {
    hide TableInv, LiveEdges, MeshInv, Anchored, Bounded, Vacancy, Tiled, Covers, NoneNegative, Lone, LonesKept, Holds,
      Ptdatr, In, StarDrawn, SameLeaf, OnlyLeaf, StarList, NumberList, PointsOk, Spare,
      Lies, ApartAll, AllWithin, Grows, LinesKept,
      Sharp, Scattered, Taken;
    ghost var T0, a, b, c := store.noartr[..], PointOf(P, t.v1), PointOf(P, t.v2), PointOf(P, t.v3);
    nutr, ierr, ts := nutr0, 0, ts0;
    LeafStart(P, T0, nutr0, ts0, a, b, c);
    LiesNone(P, ts0, t);
    GrowsNone(table.Live());
    LinesNone(table.Live());
    TakenNone(t, ts0);
    if t.s0 == 0 {
      TakenAll(t, ts0, 0);
      return;
    }
    var k := 0;
    while k <= 3
      invariant 0 <= k <= 4 && |nutr| == |nutr0| + 2 * k && k <= PointCount(t)
      invariant Sound(table, store.noartr) && store.Valid() && Tiled(table.Live(), store.noartr[..], nutr, ts)
      invariant SameLeaf(P, ts0, ts, a, b, c) && PointsOk(table.Live(), P, t, table.mxsomm, k)
        && OnlyLeaf(T0, store.noartr[..], nutr0, nutr)
      invariant ierr == 0 && Spare(table.plan) + 3 * k >= Spare(old(table.plan))
      invariant |store.vacant| + 2 * k == |old(store.vacant)|
      invariant Sharp(P, ts0) && Scattered(P, ts0, PointsOf(t)) ==> Sharp(P, ts)
      invariant Taken(t, ts, k)
      invariant Lies(P, ts0, ts, t) && Grows(old(table.Live()), table.Live())
        && LinesKept(old(table.Live()), table.Live())
    {
      var np := -Sub(t, k);
      if np == 0 {
        TakenAll(t, ts, k);
        return;
      }
      ghost var E, T := table.Live(), store.noartr[..];
      PointFacts(E, P, t, table.mxsomm, k, ts0, ts);
      TiledSizes(E, T, nutr, ts);
      var n := FindTriangle(table, store, P, np, nutr, ts, a, b, c);
      TiledAt(E, T, nutr, ts, n);
      var three;
      three, ierr := Tr3str.Tr3str(table, store, np, nutr[n]);
      if ierr != 0 {
        return;
      }
      StarTiled(E, T, table.Live(), store.noartr[..], nutr, ts, n, np, three);
      StarSizes(E, T, table.Live(), store.noartr[..], nutr, n, np, three);
      OnlyTwice(T0, T, store.noartr[..], nutr0, nutr, NumberList(nutr, n, three));
      SharpLater(E, T, P, ts0, nutr, ts, t, n, k);
      SameLeafStar(P, ts0, ts, n, np, a, b, c);
      SameLeafSigns(P, ts0, ts, a, b, c);
      PointHeld(E, P, t, table.mxsomm, k);
      LiesStar(P, ts0, ts, t, n, k);
      GrowsTwice(old(table.Live()), E, table.Live());
      LinesTwice(old(table.Live()), E, table.Live());
      PointsNext(E, table.Live(), P, t, table.mxsomm, k);
      TakenNext(t, ts, n, k);
      ts := StarList(ts, n, np);
      nutr := NumberList(nutr, n, three);
      k := k + 1;
    }
  }

  /** The points of the slots before the first empty one are corners of triangles. */
  ghost predicate Taken(t: Te, ts: seq<Tri3>, k: int) {
    forall i | 0 <= i < k && i <= 3 && (forall j | 0 <= j <= i :: Sub(t, j) != 0) :: CornerIn(ts, -Sub(t, i))
  }

  lemma TakenNext(t: Te, ts: seq<Tri3>, n: int, k: int)
    requires Taken(t, ts, k) && 0 <= n < |ts| && 0 <= k
    ensures Taken(t, StarList(ts, n, -Sub(t, k)), k + 1)
  {
    StarCorners(ts, n, -Sub(t, k));
    hide CornerIn, StarList, Sub;
  }

  lemma TakenAll(t: Te, ts: seq<Tri3>, k: int)
    requires Taken(t, ts, k) && 0 <= k && (k <= 3 ==> Sub(t, k) == 0)
    ensures Taken(t, ts, 4)
  {
    hide CornerIn, Sub;
  }

  lemma TakenNone(t: Te, ts: seq<Tri3>)
    ensures Taken(t, ts, 0)
  {
  }

  lemma SharpLater(E: Edges, T: seq<Tri>, P: seq<Point>, ts0: seq<Tri3>, nutr: seq<int>, ts: seq<Tri3>, t: Te, n: int,
      k: int)
    requires MeshInv(E, T) && Tiled(E, T, nutr, ts) && Lone(E, -Sub(t, k)) && Lies(P, ts0, ts, t)
    requires 0 <= n < |ts| && Ptdatr(P, -Sub(t, k), ts[n]) && 0 <= k <= 3 && Sub(t, k) != 0
    ensures Sharp(P, ts) && Scattered(P, ts0, PointsOf(t)) ==> Sharp(P, StarList(ts, n, -Sub(t, k)))
  {
    hide MeshInv, Tiled, Lone, ApartAll, AllWithin, Refines, Ptdatr, Sharp, Scattered, CornerAt, StarList;
    NotCorner(E, T, nutr, ts, n, -Sub(t, k));
    if Sharp(P, ts) && Scattered(P, ts0, PointsOf(t)) {
      StarSharp(P, ts0, ts, n, -Sub(t, k), PointsOf(t));
    }
  }

  lemma PointHeld(E: Edges, P: seq<Point>, t: Te, mx: int, k: int)
    requires PointsOk(E, P, t, mx, k) && 0 <= k <= 3 && Sub(t, k) != 0
    ensures Holds(P, t, -Sub(t, k))
  {
    hide Lone, Holds;
  }

  lemma GrowsNone(E: Edges)
    ensures Grows(E, E)
  {
  }

  lemma SameLeafSigns(P: seq<Point>, ts0: seq<Tri3>, ts: seq<Tri3>, a: Point, b: Point, c: Point)
    requires SameLeaf(P, ts0, ts, a, b, c)
    ensures NoneNegative(P, ts)
  {
  }

  lemma LeafStart(P: seq<Point>, T: seq<Tri>, nutr: seq<int>, ts: seq<Tri3>, a: Point, b: Point, c: Point)
    requires Covers(P, ts, a, b, c) && NoneNegative(P, ts)
    ensures SameLeaf(P, ts, ts, a, b, c) && OnlyLeaf(T, T, nutr, nutr)
  {
  }

  lemma PointFacts(E: Edges, P: seq<Point>, t: Te, mx: int, k: int, ts0: seq<Tri3>, ts: seq<Tri3>)
    requires PointsOk(E, P, t, mx, k) && 0 <= k <= 3 && Sub(t, k) != 0
    requires SameLeaf(P, ts0, ts, PointOf(P, t.v1), PointOf(P, t.v2), PointOf(P, t.v3))
    ensures 1 <= -Sub(t, k) <= mx && Lone(E, -Sub(t, k))
      && In(PointOf(P, -Sub(t, k)), PointOf(P, t.v1), PointOf(P, t.v2), PointOf(P, t.v3))
    ensures Covers(P, ts, PointOf(P, t.v1), PointOf(P, t.v2), PointOf(P, t.v3))
  {
    hide Lone, Covers, NoneNegative;
    assert Holds(P, t, -Sub(t, k));
  }

  lemma TiledSizes(E: Edges, T: seq<Tri>, nutr: seq<int>, ts: seq<Tri3>)
    requires Tiled(E, T, nutr, ts)
    ensures |nutr| == |ts|
  {
  }

  lemma TiledAt(E: Edges, T: seq<Tri>, nutr: seq<int>, ts: seq<Tri3>, n: int)
    requires Tiled(E, T, nutr, ts) && 0 <= n < |nutr|
    ensures Active(T, nutr[n]) && n < |ts|
  {
  }

  lemma StarSizes(E: Edges, T: seq<Tri>, E': Edges, T': seq<Tri>, nutr: seq<int>, n: int, q: int, three: seq<int>)
    requires 0 <= n < |nutr| && StarDrawn(E, T, E', T', nutr[n], q, three)
    ensures |three| == 3 && |NumberList(nutr, n, three)| == |nutr| + 2
  {
  }

  // ---------------------------------------------------------------- a leaf

  /** What a leaf t with the middles m1, m2, m3 of its sides (0: none) must look like. */
  ghost predicate LeafOk3(P: seq<Point>, t: Te, m1: int, m2: int, m3: int) {
    && LeafVertices(t.v1, t.v2, t.v3, m1, m2, m3) && AreaOf(P, (t.v1, t.v2, t.v3)) > 0.0
    && (m1 > 0 ==> PointOf(P, m1) == Middle(PointOf(P, t.v1), PointOf(P, t.v2)))
    && (m2 > 0 ==> PointOf(P, m2) == Middle(PointOf(P, t.v2), PointOf(P, t.v3)))
    && (m3 > 0 ==> PointOf(P, m3) == Middle(PointOf(P, t.v3), PointOf(P, t.v1)))
    && forall k | 0 <= k <= 3 && Sub(t, k) != 0 :: -Sub(t, k) !in [t.v1, t.v2, t.v3, m1, m2, m3]
  }

  /** The mesh of a leaf: the triangles nutr with the corners ts run round the border of the leaf with
      its middles, have no negative area and its area in all, and cover it. */
  ghost predicate LeafMeshed(P: seq<Point>, t: Te, m1: int, m2: int, m3: int, ts: seq<Tri3>) {
    && (forall f: (int, int) -> real | Odd(f) ::
      OfTriangles(f, ts) == Contours.Along(f, Closed(Border(t.v1, t.v2, t.v3, m1, m2, m3))))
    && NoneNegative(P, ts) && TrianglesArea(P, ts) == AreaOf(P, (t.v1, t.v2, t.v3))
    && Covers(P, ts, PointOf(P, t.v1), PointOf(P, t.v2), PointOf(P, t.v3))
  }

  /** The sixth call of `fasoar_` in `f2trte_`, and only that one, finds neither its edge nor a column
      for it: the first five have left no free column, its bucket head is in use, and the seventh
      edge is there already or has a bucket head to revive. */
  ghost predicate SixthLost(table: Table, t: Te, m1: int, m2: int, m3: int)
    reads table, table.nosoar
  {
    |Opt(m1)| + |Opt(m2)| + |Opt(m3)| == 2 && LostAt(table.StockOf(), TemplateOf(t.v1, t.v2, t.v3, m1, m2, m3).entries,
      5)
  }

  /** Then there are at most five free columns. */
  lemma SixthSpare(table: Table, t: Te, m1: int, m2: int, m3: int)
    requires SixthLost(table, t, m1, m2, m3)
    ensures Spare(table.plan) <= 5
  {
    if Spare(table.plan) > 5 {
      EnoughSpare(table.StockOf(), TemplateOf(t.v1, t.v2, t.v3, m1, m2, m3).entries, 5);
      assert false;
    }
  }

  /** The triangles of the template of a leaf with these middles. */
  function Parts(m1: int, m2: int, m3: int): (n: nat) {
    1 + |Opt(m1)| + |Opt(m2)| + |Opt(m3)|
  }

  /** The table does not have the columns for the template, or after it not those for the points. */
  ghost predicate LeafDry(s: Stock, t: Te, m1: int, m2: int, m3: int, n1soar: int) {
    var es := TemplateOf(t.v1, t.v2, t.v3, m1, m2, m3).entries;
    || !FoundBut(s, es, |es|, if Parts(m1, m2, m3) == 3 then 5 else -1)
    || Dry(n1soar, TookAll(s, es, |es|).spare, 3 * PointCount(t))
  }

  /** Columns for the nine edges and four triangles of a template, and for three edges and two more
      triangles a point. */
  ghost predicate LeafAmple(s: Stock, t: Te, m1: int, m2: int, m3: int, vacant: nat) {
    s.spare >= 9 + 3 * PointCount(t) && vacant > Parts(m1, m2, m3) + 2 * PointCount(t)
  }

  lemma AmpleNotDry(s: Stock, t: Te, m1: int, m2: int, m3: int, vacant: nat, n1soar: int)
    requires LeafAmple(s, t, m1, m2, m3, vacant)
    ensures !LeafDry(s, t, m1, m2, m3, n1soar)
    ensures !LostAt(s, TemplateOf(t.v1, t.v2, t.v3, m1, m2, m3).entries, 5)
  {
    var es := TemplateOf(t.v1, t.v2, t.v3, m1, m2, m3).entries;
    assert |es| <= 9;
    hide TemplateOf, TookAll, Finds, FoundAt, PointCount;
    SpareLeft(s, es, |es|);
    forall j | 0 <= j < |es| ensures FoundAt(s, es, j) {
      EnoughSpare(s, es, j);
    }
  }

  /** No point of leaf t lies on a line through two others of its points, corners and middles. */
  ghost predicate ScatteredLeaf(P: seq<Point>, t: Te, m1: int, m2: int, m3: int) {
    forall x, y, q | OfLeafOrPoint(t, m1, m2, m3, x) && OfLeafOrPoint(t, m1, m2, m3, y) && q in PointsOf(t)
                     && x != y && x != q && y != q :: AreaOf(P, (x, y, q)) != 0.0
  }

  ghost predicate OfLeafOrPoint(t: Te, m1: int, m2: int, m3: int, x: int) {
    x in PointsOf(t) || x in [t.v1, t.v2, t.v3, m1, m2, m3]
  }

  lemma ScatteredTemplate(P: seq<Point>, t: Te, m1: int, m2: int, m3: int)
    requires LeafVertices(t.v1, t.v2, t.v3, m1, m2, m3)
    requires TilesLeaf(P, CornersOfTemplate(TemplateOf(t.v1, t.v2, t.v3, m1, m2, m3)), (t.v1, t.v2, t.v3))
    ensures var ts := CornersOfTemplate(TemplateOf(t.v1, t.v2, t.v3, m1, m2, m3));
      Sharp(P, ts) && (ScatteredLeaf(P, t, m1, m2, m3) ==> Scattered(P, ts, PointsOf(t)))
  {
    var tp := TemplateOf(t.v1, t.v2, t.v3, m1, m2, m3);
    var ts := CornersOfTemplate(tp);
    hide Covers, LeafVertices, TemplateOf, CornersAt, Area, PointsOf;
    forall x | Among(ts, PointsOf(t), x) ensures OfLeafOrPoint(t, m1, m2, m3, x) {
      if x !in PointsOf(t) {
        var k :| 0 <= k < |ts| && CornerAt(ts[k], x);
        if x !in [t.v1, t.v2, t.v3, m1, m2, m3] {
          CornersOnly(t.v1, t.v2, t.v3, m1, m2, m3, k, x);
          assert false;
        }
      }
    }
  }

  /** `f0trte_`..`f3trte_`, by the number of middles: the template of leaf t, then its points.  lost:
      `f2trte_` did not look at the error of its sixth edge, and there was one; it reports no error
      and the mesh is broken. */
  method Ftrte(table: Table, store: Store, P: seq<Point>, t: Te, m1: int, m2: int, m3: int)
      returns (nutr: seq<int>, ierr: int, lost: bool, ghost ts: seq<Tri3>)
    requires Fitting(table, store, TemplateOf(t.v1, t.v2, t.v3, m1, m2, m3)) && LeafOk3(P, t, m1, m2, m3)
    requires PointsOk(table.Live(), P, t, table.mxsomm, 0)
    modifies table`n1soar, table`plan, table.nosoar, table.noarst, store`n1artr, store`vacant, store.noartr
    ensures lost <==> old(SixthLost(table, t, m1, m2, m3)) && |old(store.vacant)| >= 3
    ensures lost ==> ierr == 0 && !MeshInv(table.Live(), store.noartr[..])
    ensures ierr == 0 && !lost ==> Sound(table, store.noartr) && store.Valid()
                                   && Tiled(table.Live(), store.noartr[..], nutr, ts)
    ensures ierr == 0 && !lost ==> |nutr| == 1 + |Opt(m1)| + |Opt(m2)| + |Opt(m3)| + 2 * PointCount(t)
    ensures ierr == 0 && !lost ==> OnlyLeaf(old(store.noartr[..]), store.noartr[..], [], nutr)
                                   && LeafMeshed(P, t, m1, m2, m3, ts)
    ensures ierr == 0 && !lost ==> Lies(P, CornersOfTemplate(TemplateOf(t.v1, t.v2, t.v3, m1, m2, m3)), ts, t)
                                   && Grows(old(table.Live()), table.Live())
                                   && LinesKept(old(table.Live()), table.Live())
    ensures ierr == 0 && !lost && ScatteredLeaf(P, t, m1, m2, m3) ==> Sharp(P, ts)
    ensures ierr == 0 && !lost ==> Taken(t, ts, 4)
    ensures ierr == 0 || ierr == 1 || ierr == 2
    ensures ierr == 1 ==> LeafDry(old(table.StockOf()), t, m1, m2, m3, table.n1soar)
    ensures ierr == 2 ==> |old(store.vacant)| < Parts(m1, m2, m3)
                          || (PointCount(t) > 0 && |old(store.vacant)| <= Parts(m1, m2, m3) + 2 * PointCount(t))
    ensures LeafAmple(old(table.StockOf()), t, m1, m2, m3, old(|store.vacant|)) ==> ierr == 0 && !lost
    ensures ierr == 0 && !lost ==> Spare(table.plan) + 9 + 3 * PointCount(t) >= Spare(old(table.plan))
                                   && |store.vacant| + Parts(m1, m2, m3) + 2 * PointCount(t) == |old(store.vacant)|
  {
    hide TableInv, LiveEdges, MeshInv, Anchored, Bounded, Vacancy, Fits, RoomFor, Tiled, Covers, NoneNegative, Lone,
      Holds, OnlyLeaf, PointsOk, Drawn, TilesLeaf, LeafMeshed, SameLeaf, Spare, TemplateOf, CornersOfTemplate, FoundBut,
      LostAt, TookAll, Heads, Lies, ApartAll, AllWithin, Grows,
      LinesKept, Sharp, Scattered, ScatteredLeaf, Taken;
    var tp := TemplateOf(t.v1, t.v2, t.v3, m1, m2, m3);
    ghost var E, T := table.Live(), store.noartr[..];
    Fit(t.v1, t.v2, t.v3, m1, m2, m3);
    TemplateTiles(P, t.v1, t.v2, t.v3, m1, m2, m3);
    TemplateLies(P, t.v1, t.v2, t.v3, m1, m2, m3);
    ScatteredTemplate(P, t, m1, m2, m3);
    ts := CornersOfTemplate(tp);
    var skip := if |tp.tris| == 3 then 5 else -1;
    SkipSide(t.v1, t.v2, t.v3, m1, m2, m3);
    SkipLost(table.StockOf(), tp.entries);
    ghost var s0, vacant := table.StockOf(), |store.vacant|;
    nutr, ierr, lost := Build(table, store, tp, skip);
    lost := lost && ierr == 0;
    if LeafAmple(s0, t, m1, m2, m3, vacant) {
      AmpleNotDry(s0, t, m1, m2, m3, vacant, table.n1soar);
    }
    if ierr != 0 || lost {
      return;
    }
    ghost var s1, E1 := table.StockOf(), table.Live();
    SpareAfter(s0, s1, t, m1, m2, m3);
    DrawnGrows(E, T, E1, store.noartr[..], tp, nutr);
    DrawnLeaf(E, T, table.Live(), store.noartr[..], P, t, m1, m2, m3, nutr, table.mxsomm);
    ghost var T1, nutr1, ts1 := store.noartr[..], nutr, ts;
    nutr, ierr, ts := Trpite(table, store, P, t, nutr, ts);
    if ierr == 1 {
      DryLater(s0, s1, t, m1, m2, m3, table.n1soar);
      if LeafAmple(s0, t, m1, m2, m3, vacant) {
        AmpleNotDry(s0, t, m1, m2, m3, vacant, table.n1soar);
      }
    }
    if ierr == 0 {
      GrowsTwice(E, E1, table.Live());
      LinesTwice(E, E1, table.Live());
      OnlyTwice(T, T1, store.noartr[..], [], nutr1, nutr);
      LeafDone(P, t, m1, m2, m3, ts1, ts);
    }
  }

  lemma SpareAfter(s: Stock, s1: Stock, t: Te, m1: int, m2: int, m3: int)
    requires var es := TemplateOf(t.v1, t.v2, t.v3, m1, m2, m3).entries; s1 == TookAll(s, es, |es|)
    ensures s1.spare + 9 >= s.spare
  {
    hide *;
    NineEdges(t.v1, t.v2, t.v3, m1, m2, m3);
    var es := TemplateOf(t.v1, t.v2, t.v3, m1, m2, m3).entries;
    SpareLeft(s, es, |es|);
  }

  lemma NineEdges(v1: int, v2: int, v3: int, m1: int, m2: int, m3: int)
    ensures |TemplateOf(v1, v2, v3, m1, m2, m3).entries| <= 9
  {
  }

  lemma DryLater(s: Stock, s1: Stock, t: Te, m1: int, m2: int, m3: int, n1soar: int)
    requires var es := TemplateOf(t.v1, t.v2, t.v3, m1, m2, m3).entries;
      s1 == TookAll(s, es, |es|) && Dry(n1soar, s1.spare, 3 * PointCount(t))
    ensures LeafDry(s, t, m1, m2, m3, n1soar)
  {
  }

  lemma DrawnGrows(E: Edges, T: seq<Tri>, E': Edges, T': seq<Tri>, tp: Template, nutr: seq<int>)
    requires Drawn(E, T, E', T', tp, nutr)
    ensures Grows(E, E')
  {
  }

  lemma SkipLost(s: Stock, es: seq<Entry>)
    ensures LostAt(s, es, 5) ==> FoundBut(s, es, |es|, 5)
    ensures !LostAt(s, es, -1)
  {
  }

  /** Only `f2trte_` ignores an error, and the edge is the first side of no triangle. */
  lemma SkipSide(v1: int, v2: int, v3: int, m1: int, m2: int, m3: int)
    ensures var tp := TemplateOf(v1, v2, v3, m1, m2, m3);
            && (forall k {:trigger tp.tris[k]} | 0 <= k < |tp.tris| ::
              tp.tris[k].a.e != if |tp.tris| == 3 then 5 else -1)
            && |tp.tris| == 1 + |Opt(m1)| + |Opt(m2)| + |Opt(m3)|
              && (if |tp.tris| == 3 then 5 else -1) < |tp.entries| - 1
  {
  }

  lemma CornersOnly(v1: int, v2: int, v3: int, m1: int, m2: int, m3: int, k: int, q: int)
    requires LeafVertices(v1, v2, v3, m1, m2, m3)
    requires var tp := TemplateOf(v1, v2, v3, m1, m2, m3); 0 <= k < |tp.tris| && q !in [v1, v2, v3, m1, m2, m3]
    ensures var c := CornersAt(TemplateOf(v1, v2, v3, m1, m2, m3), k); q != c.0 && q != c.1 && q != c.2
  {
    var l := [v1, v2, v3, m1, m2, m3];
    assert l[0] == v1 && l[1] == v2 && l[2] == v3 && l[3] == m1 && l[4] == m2 && l[5] == m3;
  }

  /** A vertex that is no corner of the template stays without triangles. */
  lemma LoneDrawn(E: Edges, T: seq<Tri>, E': Edges, T': seq<Tri>, tp: Template, nutr: seq<int>, q: int)
    requires MeshInv(E, T) && MeshInv(E', T') && Drawn(E, T, E', T', tp, nutr) && Lone(E, q)
    requires forall k | 0 <= k < |tp.tris| :: q != CornersAt(tp, k).0 && q != CornersAt(tp, k).1
                                              && q != CornersAt(tp, k).2
    ensures Lone(E', q)
  {
    forall i | i in E' && (E'[i].st1 == q || E'[i].st2 == q) ensures E'[i].tr1 <= 0 && E'[i].tr2 <= 0 {
      LoneTriangle(E, T, E', T', tp, nutr, q, i, E'[i].tr1);
      LoneTriangle(E, T, E', T', tp, nutr, q, i, E'[i].tr2);
    }
  }

  lemma LoneTriangle(E: Edges, T: seq<Tri>, E': Edges, T': seq<Tri>, tp: Template, nutr: seq<int>, q: int, i: int,
      u: int)
    requires MeshInv(E, T) && MeshInv(E', T') && Drawn(E, T, E', T', tp, nutr) && Lone(E, q)
    requires i in E' && Listed(E'[i], u) && (E'[i].st1 == q || E'[i].st2 == q)
    requires forall k | 0 <= k < |tp.tris| :: q != CornersAt(tp, k).0 && q != CornersAt(tp, k).1
                                              && q != CornersAt(tp, k).2
    ensures u <= 0
  {
    if u > 0 {
      assert EdgeOk(E', T', i);
      if u !in nutr {
        assert T'[u] == T[u];
        assert TriOk(E, T, u);
        SideOfLone(E, E', T[u], u, q);
      }
      hide MeshInv;
      CornerOfSide(E', T', u, i, q);
    }
  }

  /** The ends of a side of a triangle are corners of it. */
  lemma CornerOfSide(E: Edges, T: seq<Tri>, u: int, i: int, q: int)
    requires MeshInv(E, T) && Active(T, u) && i in E && i > 0 && (Uses(T[u], i) || Uses(T[u], -i))
      && (E[i].st1 == q || E[i].st2 == q)
    ensures var (a, b, c) := Verts(E, T[u]); q == a || q == b || q == c
  {
    var x := T[u];
    assert TriOk(E, T, u) && EdgeOk(E, T, Abs(x.a1)) && EdgeOk(E, T, Abs(x.a2)) && EdgeOk(E, T, Abs(x.a3)) && 0 !in E;
    hide MeshInv;
    SideEnds(E, x);
  }

  lemma StartEnd(E: Edges, a: int)
    requires Abs(a) in E
    ensures Start(E, a) == E[Abs(a)].st1 || Start(E, a) == E[Abs(a)].st2
  {
  }

  lemma SideOfLone(E: Edges, E': Edges, x: Tri, u: int, q: int)
    requires Cycle(E, x) && Grows(E, E') && Lone(E, q) && u > 0
    requires Listed(E[Abs(x.a1)], u) && Listed(E[Abs(x.a2)], u) && Listed(E[Abs(x.a3)], u)
    ensures var (a, b, c) := Verts(E', x); q != a && q != b && q != c
  {
    StartEnd(E, x.a1);
    StartEnd(E, x.a2);
    StartEnd(E, x.a3);
    assert Start(E', x.a1) == Start(E, x.a1) && Start(E', x.a2) == Start(E, x.a2) && Start(E', x.a3) == Start(E, x.a3);
    hide Cycle, Start;
  }

  /** The template drawn is ready for the points. */
  lemma DrawnLeaf(E: Edges, T: seq<Tri>, E': Edges, T': seq<Tri>, P: seq<Point>, t: Te, m1: int, m2: int, m3: int,
      nutr: seq<int>, mx: int)
    requires MeshInv(E, T) && MeshInv(E', T') && Drawn(E, T, E', T', TemplateOf(t.v1, t.v2, t.v3, m1, m2, m3), nutr)
    requires LeafOk3(P, t, m1, m2, m3) && PointsOk(E, P, t, mx, 0)
    requires TilesLeaf(P, CornersOfTemplate(TemplateOf(t.v1, t.v2, t.v3, m1, m2, m3)), (t.v1, t.v2, t.v3))
    ensures var ts := CornersOfTemplate(TemplateOf(t.v1, t.v2, t.v3, m1, m2, m3));
            && Tiled(E', T', nutr, ts) && NoneNegative(P, ts)
              && Covers(P, ts, PointOf(P, t.v1), PointOf(P, t.v2), PointOf(P, t.v3))
    ensures PointsOk(E', P, t, mx, 0) && OnlyLeaf(T, T', [], nutr)
  {
    var tp := TemplateOf(t.v1, t.v2, t.v3, m1, m2, m3);
    hide MeshInv, TemplateOf, AreaOf, Covers, Lone, Holds, Verts, CornersAt, LeafVertices;
    assert NoneNegative(P, CornersOfTemplate(tp));
    forall k | 0 <= k <= 3 && Sub(t, k) != 0 ensures Lone(E', -Sub(t, k)) {
      forall j | 0 <= j < |tp.tris| ensures -Sub(t, k) != CornersAt(tp, j).0 && -Sub(t, k) != CornersAt(tp, j).1
        && -Sub(t, k) != CornersAt(tp, j).2 {
        CornersOnly(t.v1, t.v2, t.v3, m1, m2, m3, j, -Sub(t, k));
      }
      LoneDrawn(E, T, E', T', tp, nutr, -Sub(t, k));
    }
  }

  lemma LeafDone(P: seq<Point>, t: Te, m1: int, m2: int, m3: int, ts1: seq<Tri3>, ts: seq<Tri3>)
    requires LeafVertices(t.v1, t.v2, t.v3, m1, m2, m3)
      && ts1 == CornersOfTemplate(TemplateOf(t.v1, t.v2, t.v3, m1, m2, m3))
    requires TilesLeaf(P, ts1, (t.v1, t.v2, t.v3))
      && SameLeaf(P, ts1, ts, PointOf(P, t.v1), PointOf(P, t.v2), PointOf(P, t.v3))
    ensures LeafMeshed(P, t, m1, m2, m3, ts)
  {
    hide Covers, NoneNegative, AreaOf, TemplateOf, LeafVertices;
    forall f: (int, int) -> real | Odd(f) ensures OfTriangles(f, ts)
      == Contours.Along(f, Closed(Border(t.v1, t.v2, t.v3, m1, m2, m3))) {
      TemplateBounds(f, t.v1, t.v2, t.v3, m1, m2, m3);
    }
    ShoelaceOdd(P);
    ShoelaceTriangles(P, ts1);
    ShoelaceTriangles(P, ts);
    assert OfTriangles(Shoelace(P), ts) == OfTriangles(Shoelace(P), ts1);
  }
}
