/** One leaf more in the mosaic: its triangles join those of the other leaves, and its border theirs. */
module Paving {
  import opened Lists
  import opened Geometry
  import opened Delaunay
  import opened EdgeTable
  import opened Mesh
  import opened Exchange
  import opened Contours
  import opened Flows
  import opened Triangles
  import opened Templates
  import opened Tree
  import Lattice
  import opened Splitting
  import opened Leaves
  import opened Star
  import opened Areas
  import opened Leafmesh
  import opened Regions
  import opened Tiling
  import opened Trpite
  import opened Mosaic

  // ---------------------------------------------------------------- one leaf more

  /** The old triangles stay, and the new ones join the list. */
  lemma TiledJoin(E: Edges, M: seq<Tri>, E': Edges, M': seq<Tri>, nutr: seq<int>, ts: seq<Tri3>, nutr': seq<int>,
      ts': seq<Tri3>)
    requires MeshInv(E, M) && Tiled(E, M, nutr, ts) && Tiled(E', M', nutr', ts')
    requires OnlyLeaf(M, M', [], nutr') && Grows(E, E')
    ensures Tiled(E', M', nutr + nutr', ts + ts')
  {
    var l, us := nutr + nutr', ts + ts';
    forall k | 0 <= k < |nutr|
      ensures Active(M', nutr[k]) && Verts(E', M'[nutr[k]]) == ts[k] && nutr[k] !in nutr'
    {
      assert TriOk(E, M, nutr[k]);
      assert M'[nutr[k]] == M[nutr[k]];
      SameVerts(E, E', M[nutr[k]]);
    }
    hide MeshInv, OnlyLeaf, Grows, Verts, Active;
    forall k | 0 <= k < |l| ensures Active(M', l[k]) && Verts(E', M'[l[k]]) == us[k] {
      if k >= |nutr| {
        assert l[k] == nutr'[k - |nutr|] && us[k] == ts'[k - |nutr|];
      }
    }
    JoinUnique(nutr, nutr');
  }

  lemma JoinUnique(a: seq<int>, b: seq<int>)
    requires Unique(a) && Unique(b) && forall k | 0 <= k < |a| :: a[k] !in b
    ensures Unique(a + b)
  {
    forall i, j | 0 <= i < j < |a + b| ensures (a + b)[i] != (a + b)[j] {
      if i < |a| && j >= |a| {
        assert (a + b)[j] == b[j - |a|] && b[j - |a|] in b;
      }
    }
  }

  lemma SameVerts(E: Edges, E': Edges, x: Tri)
    requires Cycle(E, x) && Grows(E, E')
    ensures Verts(E', x) == Verts(E, x)
  {
  }

  lemma ActiveJoin(M: seq<Tri>, M': seq<Tri>, nutr: seq<int>, nutr': seq<int>, t: int)
    requires OnlyLeaf(M, M', [], nutr') && Active(M', t) && forall u | Active(M, u) :: u in nutr
    ensures t in nutr + nutr'
  {
    if t !in nutr' {
      assert Active(M, t);
    }
  }

  /** The triangles of leaf j keep to it. */
  lemma NewOfLeaf(g: Grove, nb: int, j: int, m1: int, m2: int, m3: int, ts: seq<Tri3>, k: int)
    requires GroveOk(g, nb) && IsLeaf(g, j) && Middles(g, j, m1, m2, m3)
    requires var t := g.T[j]; Lies(g.P, CornersOfTemplate(TemplateOf(t.v1, t.v2, t.v3, m1, m2, m3)), ts, t)
    requires NoneNegative(g.P, ts) && 0 <= k < |ts|
    ensures OfLeaf(g, j, ts[k])
  {
    hide *;
    LeafIndex(g, j);
    var t := g.T[j];
    var ts0 := CornersOfTemplate(TemplateOf(t.v1, t.v2, t.v3, m1, m2, m3));
    LiesAt(g.P, ts0, ts, t, k);
    forall x | CornerAt(ts[k], x) ensures (x in g.home && g.home[x] == j) || x in g.S.pt {
      if x in PointsOf(t) {
        PointHome(g, nb, j, x);
      } else {
        TemplateCorners(g, nb, j, m1, m2, m3, x);
      }
    }
    forall x, y | SideAt(ts[k], x, y) ensures x in g.home || y in g.home || SideIn(g.P, t, x, y) {
      if x in PointsOf(t) {
        PointHome(g, nb, j, x);
      } else if y in PointsOf(t) {
        PointHome(g, nb, j, y);
      } else {
        TemplateRuns(g, nb, j, m1, m2, m3, x, y);
      }
    }
    OfLeafFrom(g, j, ts[k]);
  }

  lemma LiesAt(P: seq<Point>, ts0: seq<Tri3>, ts: seq<Tri3>, t: Te, k: int)
    requires Lies(P, ts0, ts, t) && NoneNegative(P, ts) && 0 <= k < |ts|
    ensures AreaOf(P, ts[k]) >= 0.0 && TriWithin(P, ts[k], TeTri(t))
    ensures forall x | CornerAt(ts[k], x) :: x in PointsOf(t) || CornerIn(ts0, x)
    ensures forall x, y | SideAt(ts[k], x, y) :: x in PointsOf(t) || y in PointsOf(t) || RunsSide(ts0, x, y)
  {
    hide ApartAll, TriWithin, CornerAt, SideAt, PointsOf, Area;
    assert forall x | CornerAt(ts[k], x) :: CornerIn(ts, x);
    assert forall x, y | SideAt(ts[k], x, y) :: RunsSide(ts, x, y);
    hide CornerIn, RunsSide;
  }

  lemma PointHome(g: Grove, nb: int, j: int, x: int)
    requires GroveOk(g, nb) && IsLeaf(g, j) && 0 <= j < |g.T| && x in PointsOf(g.T[j])
    ensures x in g.home && g.home[x] == j
  {
    hide *;
    SlotFacts(g, nb, j);
    var k := PointSlot(g.T[j], x);
    SlotHome(g, nb, j, k);
  }

  lemma PointSlot(t: Te, x: int) returns (k: int)
    requires x in PointsOf(t)
    ensures 0 <= k <= 3 && Sub(t, k) != 0 && x == -Sub(t, k)
  {
    k :| 0 <= k <= 3 && Sub(t, k) != 0 && x == -Sub(t, k);
  }

  lemma TemplateRuns(g: Grove, nb: int, j: int, m1: int, m2: int, m3: int, x: int, y: int)
    requires GroveOk(g, nb) && IsLeaf(g, j) && Middles(g, j, m1, m2, m3) && 0 <= j < |g.T|
    requires var t := g.T[j]; RunsSide(CornersOfTemplate(TemplateOf(t.v1, t.v2, t.v3, m1, m2, m3)), x, y)
    ensures SideIn(g.P, g.T[j], x, y)
  {
    LeafTemplate(g, nb, j, m1, m2, m3);
    var t := g.T[j];
    hide GroveOk, IsLeaf, Middles, TemplateOf, LeafVertices, Area, TriWithin, Fits, ApartAll, AllWithin, SideAt, SideIn,
      CornersAt;
    var tp := TemplateOf(t.v1, t.v2, t.v3, m1, m2, m3);
    var cs := CornersOfTemplate(tp);
    var k :| 0 <= k < |cs| && SideAt(cs[k], x, y);
    CornersSide(g.P, t, CornersAt(tp, k), x, y);
  }

  lemma OfLeafFrom(g: Grove, j: int, c: Tri3)
    requires 0 <= j < |g.T| && AreaOf(g.P, c) >= 0.0 && TriWithin(g.P, c, TeTri(g.T[j]))
    requires forall x | CornerAt(c, x) :: (x in g.home && g.home[x] == j) || x in g.S.pt
    requires forall x, y | SideAt(c, x, y) :: x in g.home || y in g.home || SideIn(g.P, g.T[j], x, y)
    ensures OfLeaf(g, j, c)
  {
  }

  /** No triangle of another leaf has an inner point in common with those of j. */
  lemma ApartJoin(g: Grove, nb: int, D: seq<int>, ts: seq<Tri3>, own: seq<int>, j: int, ts': seq<Tri3>)
    requires GroveOk(g, nb) && IsLeaf(g, j) && j !in D && |own| == |ts| && ApartAll(g.P, ts) && ApartAll(g.P, ts')
    requires forall k {:trigger own[k]} | 0 <= k < |own| :: own[k] in D && IsLeaf(g, own[k]) && OfLeaf(g, own[k], ts[k])
    requires forall k {:trigger ts'[k]} | 0 <= k < |ts'| :: OfLeaf(g, j, ts'[k])
    ensures ApartAll(g.P, ts + ts')
  {
    var us := ts + ts';
    hide GroveOk, IsLeaf, Apart;
    forall a, b | 0 <= a < |ts| && 0 <= b < |ts'| ensures Apart(g.P, ts[a], ts'[b]) && Apart(g.P, ts'[b], ts[a]) {
      assert own[a] in D && OfLeaf(g, own[a], ts[a]) && OfLeaf(g, j, ts'[b]);
      OfLeafIn(g, own[a], ts[a]);
      OfLeafIn(g, j, ts'[b]);
      hide *;
      LeavesTriangles(g, nb, own[a], j, ts[a], ts'[b]);
    }
    hide OfLeaf;
    forall a, b | 0 <= a < |us| && 0 <= b < |us| && a != b ensures Apart(g.P, us[a], us[b]) {
      if a < |ts| {
        assert us[a] == ts[a];
        assert b >= |ts| ==> us[b] == ts'[b - |ts|];
      } else {
        assert us[a] == ts'[a - |ts|];
        assert b >= |ts| ==> us[b] == ts'[b - |ts|];
      }
    }
  }

  lemma OfLeafIn(g: Grove, j: int, c: Tri3)
    requires OfLeaf(g, j, c)
    ensures 0 <= j < |g.T| && TriWithin(g.P, c, TeTri(g.T[j]))
  {
  }

  /** What `Ftrte` leaves of leaf j is one leaf more. */
  ghost predicate LeafDrawn(g: Grove, M: seq<Tri>, E: Edges, E': Edges, M': seq<Tri>, j: int, m1: int, m2: int, m3: int,
      nutr: seq<int>, ts: seq<Tri3>) {
    && Tiled(E', M', nutr, ts) && OnlyLeaf(M, M', [], nutr) && Grows(E, E') && NoneNegative(g.P, ts)
    && 0 <= j < |g.T|
    && var t := g.T[j]; Lies(g.P, CornersOfTemplate(TemplateOf(t.v1, t.v2, t.v3, m1, m2, m3)), ts, t)
  }

  function Again(j: int, n: nat): (r: seq<int>) {
    seq(n, _ => j)
  }

  lemma LaidNext(g: Grove, nb: int, E: Edges, M: seq<Tri>, E': Edges, M': seq<Tri>, D: seq<int>, nutr: seq<int>,
      ts: seq<Tri3>, own: seq<int>, j: int, m1: int, m2: int, m3: int, nutr': seq<int>, ts': seq<Tri3>)
    requires GroveOk(g, nb) && MeshInv(E, M) && Laid(g, E, M, D, nutr, ts, own) && IsLeaf(g, j) && j !in D
    requires Middles(g, j, m1, m2, m3) && LeafDrawn(g, M, E, E', M', j, m1, m2, m3, nutr', ts')
    ensures Laid(g, E', M', D + [j], nutr + nutr', ts + ts', own + Again(j, |ts'|))
  {
    hide *;
    LaidParts(g, E, M, D, nutr, ts, own);
    DrawnParts(g, M, E, E', M', j, m1, m2, m3, nutr', ts');
    TiledJoin(E, M, E', M', nutr, ts, nutr', ts');
    forall t | Active(M', t) ensures t in nutr + nutr' {
      ActiveJoin(M, M', nutr, nutr', t);
    }
    forall k {:trigger ts'[k]} | 0 <= k < |ts'| ensures OfLeaf(g, j, ts'[k]) {
      NewOfLeaf(g, nb, j, m1, m2, m3, ts', k);
    }
    ApartJoin(g, nb, D, ts, own, j, ts');
    OwnersJoin(g, D, ts, own, j, ts');
    LaidFrom(g, E', M', D + [j], nutr + nutr', ts + ts', own + Again(j, |ts'|));
  }

  lemma LaidParts(g: Grove, E: Edges, M: seq<Tri>, D: seq<int>, nutr: seq<int>, ts: seq<Tri3>, own: seq<int>)
    requires Laid(g, E, M, D, nutr, ts, own)
    ensures Tiled(E, M, nutr, ts) && |own| == |ts| && ApartAll(g.P, ts) && forall t | Active(M, t) :: t in nutr
    ensures forall k {:trigger own[k]} | 0 <= k < |own| :: own[k] in D && IsLeaf(g, own[k]) && OfLeaf(g, own[k], ts[k])
  {
    hide Tiled, ApartAll, IsLeaf, OfLeaf, Active;
  }

  lemma DrawnParts(g: Grove, M: seq<Tri>, E: Edges, E': Edges, M': seq<Tri>, j: int, m1: int, m2: int, m3: int,
      nutr: seq<int>, ts: seq<Tri3>)
    requires LeafDrawn(g, M, E, E', M', j, m1, m2, m3, nutr, ts)
    ensures Tiled(E', M', nutr, ts) && OnlyLeaf(M, M', [], nutr) && Grows(E, E') && NoneNegative(g.P, ts)
    ensures 0 <= j < |g.T| && ApartAll(g.P, ts)
    ensures var t := g.T[j]; Lies(g.P, CornersOfTemplate(TemplateOf(t.v1, t.v2, t.v3, m1, m2, m3)), ts, t)
  {
    hide Tiled, ApartAll, OnlyLeaf, Grows, NoneNegative, Refines, AllWithin, TemplateOf, CornersOfTemplate;
  }

  lemma OwnersJoin(g: Grove, D: seq<int>, ts: seq<Tri3>, own: seq<int>, j: int, ts': seq<Tri3>)
    requires |own| == |ts| && IsLeaf(g, j)
    requires forall k {:trigger own[k]} | 0 <= k < |own| :: own[k] in D && IsLeaf(g, own[k]) && OfLeaf(g, own[k], ts[k])
    requires forall k {:trigger ts'[k]} | 0 <= k < |ts'| :: OfLeaf(g, j, ts'[k])
    ensures var o := own + Again(j, |ts'|);
      |o| == |ts + ts'|
      && forall k {:trigger o[k]} | 0 <= k < |o| :: o[k] in D + [j] && IsLeaf(g, o[k]) && OfLeaf(g, o[k], (ts + ts')[k])
  {
    hide IsLeaf, OfLeaf;
    var o, us := own + Again(j, |ts'|), ts + ts';
    forall k | 0 <= k < |o| ensures o[k] in D + [j] && IsLeaf(g, o[k]) && OfLeaf(g, o[k], us[k]) {
      if k < |own| {
        assert own[k] in D && us[k] == ts[k];
      } else {
        assert us[k] == ts'[k - |ts|] && o[k] == j;
        assert (D + [j])[|D|] == j;
      }
    }
  }

  lemma LaidFrom(g: Grove, E: Edges, M: seq<Tri>, D: seq<int>, nutr: seq<int>, ts: seq<Tri3>, own: seq<int>)
    requires Tiled(E, M, nutr, ts) && |own| == |ts| && ApartAll(g.P, ts) && forall t | Active(M, t) :: t in nutr
    requires forall k {:trigger own[k]} | 0 <= k < |own| :: own[k] in D && IsLeaf(g, own[k]) && OfLeaf(g, own[k], ts[k])
    ensures Laid(g, E, M, D, nutr, ts, own)
  {
    hide Tiled, ApartAll, IsLeaf, OfLeaf, Active;
  }

  lemma LaidNone(g: Grove, E: Edges, M: seq<Tri>)
    requires forall t :: !Active(M, t)
    ensures Laid(g, E, M, [], [], [], [])
  {
  }

  // ---------------------------------------------------------------- the border of the leaves

  /** The vertex in the middle of side l of leaf j, 0 when there is none. */
  ghost function MidNo(g: Grove, j: int, l: int): (r: int) {
    if j in g.S.geo && Lattice.Mid(g.S.geo[j], l) in g.S.num then g.S.num[Lattice.Mid(g.S.geo[j], l)] else 0
  }

  /** The border of leaf j with its middles. */
  ghost function LeafBorder(g: Grove, j: int): (r: seq<int>) {
    if 0 <= j < |g.T|
    then Border(g.T[j].v1, g.T[j].v2, g.T[j].v3, MidNo(g, j, 1), MidNo(g, j, 2), MidNo(g, j, 3)) else []
  }

  ghost function BorderSum(f: (int, int) -> real, g: Grove, D: seq<int>): (r: real) {
    if D == [] then 0.0 else BorderSum(f, g, D[..|D| - 1]) + Contours.Along(f, Closed(LeafBorder(g, D[|D| - 1])))
  }

  ghost function LeafArea(g: Grove, j: int): (r: real) {
    if 0 <= j < |g.T| then AreaOf(g.P, TeTri(g.T[j])) else 0.0
  }

  ghost function LeavesArea(g: Grove, D: seq<int>): (r: real) {
    if D == [] then 0.0 else LeavesArea(g, D[..|D| - 1]) + LeafArea(g, D[|D| - 1])
  }

  /** Point z is in leaf j. */
  ghost predicate InLeaf(g: Grove, j: int, z: Point) {
    && 0 <= j < |g.T|
    && In(z, PointOf(g.P, g.T[j].v1), PointOf(g.P, g.T[j].v2), PointOf(g.P, g.T[j].v3))
  }

  /** Every point of the leaves D is in a triangle with area. */
  ghost predicate CoversLeaves(g: Grove, D: seq<int>, ts: seq<Tri3>) {
    forall j, z | j in D && InLeaf(g, j, z) :: exists k :: 0 <= k < |ts| && InProper(g.P, ts[k], z)
  }

  /** The triangles ts run round the leaves D, have their area and cover them. */
  ghost predicate Paves(g: Grove, D: seq<int>, ts: seq<Tri3>) {
    && (forall f: (int, int) -> real | Odd(f) :: OfTriangles(f, ts) == BorderSum(f, g, D))
    && TrianglesArea(g.P, ts) == LeavesArea(g, D) && CoversLeaves(g, D, ts)
  }

  lemma PavesNone(g: Grove)
    ensures Paves(g, [], [])
  {
  }

  lemma PavesNext(g: Grove, D: seq<int>, ts: seq<Tri3>, j: int, ts': seq<Tri3>)
    requires Paves(g, D, ts) && 0 <= j < |g.T|
    requires LeafMeshed(g.P, g.T[j], MidNo(g, j, 1), MidNo(g, j, 2), MidNo(g, j, 3), ts')
    ensures Paves(g, D + [j], ts + ts')
  {
    hide *;
    MeshedParts(g, j, ts');
    PavesParts(g, D, ts);
    assert (D + [j])[..|D + [j]| - 1] == D && (D + [j])[|D + [j]| - 1] == j;
    forall f: (int, int) -> real | Odd(f) ensures OfTriangles(f, ts + ts') == BorderSum(f, g, D + [j]) {
      TrisAdd(f, ts, ts');
      SumStep(f, g, D + [j]);
    }
    AreasAdd(g.P, ts, ts');
    LeavesStep(g, D + [j]);
    CoversJoin(g, D, ts, j, ts');
    PavesFrom(g, D + [j], ts + ts');
  }

  lemma PavesParts(g: Grove, D: seq<int>, ts: seq<Tri3>)
    requires Paves(g, D, ts)
    ensures forall f: (int, int) -> real | Odd(f) :: OfTriangles(f, ts) == BorderSum(f, g, D)
    ensures TrianglesArea(g.P, ts) == LeavesArea(g, D) && CoversLeaves(g, D, ts)
  {
    hide Odd, OfTriangles, BorderSum, TrianglesArea, LeavesArea, CoversLeaves;
  }

  lemma PavesFrom(g: Grove, D: seq<int>, ts: seq<Tri3>)
    requires forall f: (int, int) -> real | Odd(f) :: OfTriangles(f, ts) == BorderSum(f, g, D)
    requires TrianglesArea(g.P, ts) == LeavesArea(g, D) && CoversLeaves(g, D, ts)
    ensures Paves(g, D, ts)
  {
    hide Odd, OfTriangles, BorderSum, TrianglesArea, LeavesArea, CoversLeaves;
  }

  lemma MeshedParts(g: Grove, j: int, ts: seq<Tri3>)
    requires 0 <= j < |g.T|
    requires LeafMeshed(g.P, g.T[j], MidNo(g, j, 1), MidNo(g, j, 2), MidNo(g, j, 3), ts)
    ensures forall f: (int, int) -> real | Odd(f) :: OfTriangles(f, ts) == Contours.Along(f, Closed(LeafBorder(g, j)))
    ensures NoneNegative(g.P, ts) && TrianglesArea(g.P, ts) == LeafArea(g, j)
    ensures forall z | InLeaf(g, j, z) :: exists k :: 0 <= k < |ts| && InProper(g.P, ts[k], z)
  {
    hide Odd, OfTriangles, Contours.Along, Closed, TrianglesArea, Area, NoneNegative, InProper, In, Border, MidNo;
  }

  lemma SumStep(f: (int, int) -> real, g: Grove, D: seq<int>)
    requires |D| > 0
    ensures BorderSum(f, g, D) == BorderSum(f, g, D[..|D| - 1]) + Contours.Along(f, Closed(LeafBorder(g, D[|D| - 1])))
  {
    hide Contours.Along, Closed, LeafBorder;
  }

  lemma LeavesStep(g: Grove, D: seq<int>)
    requires |D| > 0
    ensures LeavesArea(g, D) == LeavesArea(g, D[..|D| - 1]) + LeafArea(g, D[|D| - 1])
  {
    hide LeafArea;
  }

  lemma {:induction false} AreasAdd(P: seq<Point>, a: seq<Tri3>, b: seq<Tri3>)
    ensures TrianglesArea(P, a + b) == TrianglesArea(P, a) + TrianglesArea(P, b)
  {
    hide Area;
    if b == [] {
      assert a + b == a;
    } else {
      AreasAdd(P, a, b[..|b| - 1]);
      assert (a + b)[..|a + b| - 1] == a + b[..|b| - 1];
    }
  }

  lemma CoversJoin(g: Grove, D: seq<int>, ts: seq<Tri3>, j: int, ts': seq<Tri3>)
    requires CoversLeaves(g, D, ts)
    requires forall z | InLeaf(g, j, z) :: exists k :: 0 <= k < |ts'| && InProper(g.P, ts'[k], z)
    ensures CoversLeaves(g, D + [j], ts + ts')
  {
    hide InLeaf, InProper;
    var us := ts + ts';
    forall i, z | i in D + [j] && InLeaf(g, i, z) ensures exists k :: 0 <= k < |us| && InProper(g.P, us[k], z) {
      if i in D {
        var k :| 0 <= k < |ts| && InProper(g.P, ts[k], z);
        assert us[k] == ts[k];
      } else {
        assert i == j;
        var k :| 0 <= k < |ts'| && InProper(g.P, ts'[k], z);
        assert us[|ts| + k] == ts'[k];
      }
    }
  }

  // ---------------------------------------------------------------- the sides of the leaves

  /** Side l of leaf j, with its middle, runs from x to y. */
  ghost predicate SideRun(g: Grove, j: int, l: int, x: int, y: int) {
    && 0 <= j < |g.T| && 1 <= l <= 3
    && HalfOf(Tree.Som(g.T[j], l), Tree.Som(g.T[j], Lattice.Suiv(l)), MidNo(g, j, l), x, y)
  }

  /** A triangle runs along each side of each leaf of D. */
  ghost predicate RunsAll(g: Grove, D: seq<int>, ts: seq<Tri3>) {
    forall j, l, x, y | j in D && SideRun(g, j, l, x, y) :: RunsSide(ts, x, y)
  }

  lemma RunsNone(g: Grove)
    ensures RunsAll(g, [], [])
  {
  }

  lemma RunsNext(g: Grove, nb: int, M: seq<Tri>, E: Edges, E': Edges, M': seq<Tri>, D: seq<int>, ts: seq<Tri3>, j: int,
      nutr': seq<int>, ts': seq<Tri3>)
    requires GroveOk(g, nb) && IsLeaf(g, j) && RunsAll(g, D, ts)
    requires Middles(g, j, MidNo(g, j, 1), MidNo(g, j, 2), MidNo(g, j, 3))
    requires LeafDrawn(g, M, E, E', M', j, MidNo(g, j, 1), MidNo(g, j, 2), MidNo(g, j, 3), nutr', ts')
    ensures RunsAll(g, D + [j], ts + ts')
  {
    hide *;
    LeafIndex(g, j);
    var t, m1, m2, m3 := g.T[j], MidNo(g, j, 1), MidNo(g, j, 2), MidNo(g, j, 3);
    LeafReady(g, nb, j, m1, m2, m3);
    LeafParts(g.P, t, m1, m2, m3);
    DrawnParts(g, M, E, E', M', j, m1, m2, m3, nutr', ts');
    forall l, x, y | SideRun(g, j, l, x, y) ensures RunsSide(ts', x, y) {
      SideHalf(g, j, l, x, y);
      BorderRuns(t.v1, t.v2, t.v3, m1, m2, m3, x, y);
      LiesRuns(g.P, CornersOfTemplate(TemplateOf(t.v1, t.v2, t.v3, m1, m2, m3)), ts', t, x, y);
    }
    RunsJoin(g, D, ts, j, ts');
  }

  lemma SideHalf(g: Grove, j: int, l: int, x: int, y: int)
    requires SideRun(g, j, l, x, y)
    ensures 0 <= j < |g.T|
    ensures var t, m1, m2, m3 := g.T[j], MidNo(g, j, 1), MidNo(g, j, 2), MidNo(g, j, 3);
      HalfOf(t.v1, t.v2, m1, x, y) || HalfOf(t.v2, t.v3, m2, x, y) || HalfOf(t.v3, t.v1, m3, x, y)
  {
    hide MidNo, HalfOf;
  }

  lemma LiesRuns(P: seq<Point>, ts0: seq<Tri3>, ts: seq<Tri3>, t: Te, x: int, y: int)
    requires Lies(P, ts0, ts, t) && RunsSide(ts0, x, y)
    ensures RunsSide(ts, x, y)
  {
    hide RunsSide, ApartAll, AllWithin, CornerIn, PointsOf;
  }

  lemma RunsJoin(g: Grove, D: seq<int>, ts: seq<Tri3>, j: int, ts': seq<Tri3>)
    requires RunsAll(g, D, ts) && forall l, x, y | SideRun(g, j, l, x, y) :: RunsSide(ts', x, y)
    ensures RunsAll(g, D + [j], ts + ts')
  {
    hide SideRun, SideAt;
    var us := ts + ts';
    forall i, l, x, y | i in D + [j] && SideRun(g, i, l, x, y) ensures RunsSide(us, x, y) {
      if i in D {
        var k :| 0 <= k < |ts| && SideAt(ts[k], x, y);
        assert SideAt(us[k], x, y);
      } else {
        var k :| 0 <= k < |ts'| && SideAt(ts'[k], x, y);
        assert SideAt(us[|ts| + k], x, y);
      }
    }
  }

  // ---------------------------------------------------------------- the points of the leaves

  /** The points at home in the leaves D are corners of triangles. */
  ghost predicate PointsIn(g: Grove, D: seq<int>, ts: seq<Tri3>) {
    forall q | q in g.home && g.home[q] in D :: CornerIn(ts, q)
  }

  lemma PointsInNone(g: Grove)
    ensures PointsIn(g, [], [])
  {
  }

  /** A point is in a slot of its leaf, and the slots before it are taken. */
  lemma HomeSlot(T: seq<Te>, S: Shape, P: seq<Point>, nb: int, home: map<int, int>, q: int) returns (k: int)
    requires Stocked(T, S, P, nb, home) && q in home && 0 <= home[q] < |T| && home[q] in S.geo && T[home[q]].s0 <= 0
    ensures 0 <= k <= 3 && Sub(T[home[q]], k) == -q && forall j | 0 <= j <= k :: Sub(T[home[q]], j) != 0
  {
    hide Holds;
    assert HomeOk(T, S, home, nb, q) && LeafOk(T, P, home, home[q]);
    var t := T[home[q]];
    k := if t.s0 == -q then 0 else if t.s1 == -q then 1 else if t.s2 == -q then 2 else 3;
  }

  lemma PointsInNext(g: Grove, nb: int, D: seq<int>, ts: seq<Tri3>, j: int, ts': seq<Tri3>)
    requires GroveOk(g, nb) && IsLeaf(g, j) && PointsIn(g, D, ts) && 0 <= j < |g.T| && Taken(g.T[j], ts', 4)
    ensures PointsIn(g, D + [j], ts + ts')
  {
    hide *;
    GroveStocked(g, nb, j);
    forall q | q in g.home && g.home[q] == j ensures CornerIn(ts', q) {
      var k := HomeSlot(g.T, g.S, g.P, nb, g.home, q);
      TakenAt(g.T[j], ts', k);
    }
    PointsInJoin(g, D, ts, j, ts');
  }

  lemma TakenAt(t: Te, ts: seq<Tri3>, k: int)
    requires Taken(t, ts, 4) && 0 <= k <= 3 && forall j | 0 <= j <= k :: Sub(t, j) != 0
    ensures CornerIn(ts, -Sub(t, k))
  {
    hide CornerIn, Sub;
  }

  lemma PointsInJoin(g: Grove, D: seq<int>, ts: seq<Tri3>, j: int, ts': seq<Tri3>)
    requires PointsIn(g, D, ts) && forall q | q in g.home && g.home[q] == j :: CornerIn(ts', q)
    ensures PointsIn(g, D + [j], ts + ts')
  {
    hide CornerAt;
    var us := ts + ts';
    forall q | q in g.home && g.home[q] in D + [j] ensures CornerIn(us, q) {
      if g.home[q] in D {
        var k :| 0 <= k < |ts| && CornerAt(ts[k], q);
        assert us[k] == ts[k];
      } else {
        var k :| 0 <= k < |ts'| && CornerAt(ts'[k], q);
        assert us[|ts| + k] == ts'[k];
      }
    }
  }

  // ---------------------------------------------------------------- where the mesh ends

  lemma {:induction false} SidesCount(ts: seq<Tri3>, x: int, y: int)
    ensures SidesFrom(ts, x, y) > 0 <==> RunsSide(ts, x, y)
  {
    if ts != [] {
      var r, t := ts[..|ts| - 1], ts[|ts| - 1];
      SidesCount(r, x, y);
      if RunsSide(ts, x, y) {
        var k :| 0 <= k < |ts| && SideAt(ts[k], x, y);
        assert k < |r| ==> SideAt(r[k], x, y);
      }
      if RunsSide(r, x, y) {
        var k :| 0 <= k < |r| && SideAt(r[k], x, y);
        assert SideAt(ts[k], x, y);
      }
      assert SideAt(t, x, y) ==> SideAt(ts[|ts| - 1], x, y);
    }
  }

  /** A leaf whose border carries the flow. */
  lemma {:induction false} BorderStep(g: Grove, D: seq<int>, x: int, y: int) returns (j: int)
    requires BorderSum(Flow(x, y), g, D) != 0.0
    ensures j in D && !Avoids(Closed(LeafBorder(g, j)), x, y)
  {
    hide Flow, Closed, LeafBorder, Avoids;
    if Avoids(Closed(LeafBorder(g, D[|D| - 1])), x, y) {
      FlowAlong(Closed(LeafBorder(g, D[|D| - 1])), x, y);
      j := BorderStep(g, D[..|D| - 1], x, y);
    } else {
      j := D[|D| - 1];
    }
  }

  /** The steps round a leaf are its sides. */
  lemma ClosedSteps(v1: int, v2: int, v3: int, m1: int, m2: int, m3: int, x: int, y: int)
    ensures var p := Closed(Border(v1, v2, v3, m1, m2, m3));
      forall i | 0 <= i < |p| - 1 && p[i] == x && p[i + 1] == y ::
        HalfOf(v1, v2, m1, x, y) || HalfOf(v2, v3, m2, x, y) || HalfOf(v3, v1, m3, x, y)
  {
  }

  lemma SideOfHalf(g: Grove, j: int, x: int, y: int) returns (l: int)
    requires 0 <= j < |g.T|
    requires var t, m1, m2, m3 := g.T[j], MidNo(g, j, 1), MidNo(g, j, 2), MidNo(g, j, 3);
      HalfOf(t.v1, t.v2, m1, x, y) || HalfOf(t.v2, t.v3, m2, x, y) || HalfOf(t.v3, t.v1, m3, x, y)
    ensures SideRun(g, j, l, x, y)
  {
    hide HalfOf, MidNo;
    var t := g.T[j];
    l := if HalfOf(t.v1, t.v2, MidNo(g, j, 1), x, y) then 1
      else if HalfOf(t.v2, t.v3, MidNo(g, j, 2), x, y) then 2 else 3;
  }

  lemma SidesOfBorder(g: Grove, j: int, x: int, y: int) returns (l: int, back: bool)
    requires !Avoids(Closed(LeafBorder(g, j)), x, y)
    ensures if back then SideRun(g, j, l, y, x) else SideRun(g, j, l, x, y)
  {
    hide MidNo, HalfOf, Border;
    var p := Closed(LeafBorder(g, j));
    var i :| 0 <= i < |p| - 1 && ((p[i] == x && p[i + 1] == y) || (p[i] == y && p[i + 1] == x));
    back := !(p[i] == x && p[i + 1] == y);
    var t := g.T[j];
    ClosedSteps(t.v1, t.v2, t.v3, MidNo(g, j, 1), MidNo(g, j, 2), MidNo(g, j, 3), x, y);
    ClosedSteps(t.v1, t.v2, t.v3, MidNo(g, j, 1), MidNo(g, j, 2), MidNo(g, j, 3), y, x);
    if back {
      l := SideOfHalf(g, j, y, x);
    } else {
      l := SideOfHalf(g, j, x, y);
    }
  }

  /** A side of a triangle that no triangle runs the other way is a side of a leaf. */
  lemma EndsAtLeaf(g: Grove, D: seq<int>, ts: seq<Tri3>, x: int, y: int) returns (j: int, l: int)
    requires Paves(g, D, ts) && RunsAll(g, D, ts) && RunsSide(ts, x, y) && !RunsSide(ts, y, x)
    ensures j in D && SideRun(g, j, l, x, y)
  {
    hide *;
    PavesParts(g, D, ts);
    FlowOdd(x, y);
    FlowTriangles(ts, x, y);
    SidesCount(ts, x, y);
    SidesCount(ts, y, x);
    j := BorderStep(g, D, x, y);
    var back;
    l, back := SidesOfBorder(g, j, x, y);
    if back {
      RunsAt(g, D, ts, j, l, y, x);
    }
  }

  lemma FlowOdd(x: int, y: int)
    ensures Odd(Flow(x, y))
  {
  }

  lemma RunsAt(g: Grove, D: seq<int>, ts: seq<Tri3>, j: int, l: int, x: int, y: int)
    requires RunsAll(g, D, ts) && j in D && SideRun(g, j, l, x, y)
    ensures RunsSide(ts, x, y)
  {
    hide SideRun, RunsSide;
  }
}
