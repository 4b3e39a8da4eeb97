/** A leaf with a point on one of its sides: its triangles cannot all be positive. */
module Flat {
  import opened Geometry
  import opened Delaunay
  import opened EdgeTable
  import opened Mesh
  import opened Exchange
  import opened Contours
  import opened Triangles
  import opened Patch
  import opened Templates
  import opened Tree
  import opened Leaves
  import opened Star
  import opened Areas
  import opened Leafmesh
  import opened Regions
  import opened Tiling
  import opened Trpite

  /** The leaf 1, 2, 3 with point 4 on its first side. */
  function Plane(): (r: seq<Point>) {
    [Point(0.0, 0.0), Point(0.0, 0.0), Point(4.0, 0.0), Point(0.0, 4.0), Point(2.0, 0.0)]
  }

  function Leaf(): (r: Te) {
    Te(-4, 0, 0, 0, 0, 0, 1, 2, 3)
  }

  lemma LeafFacts()
    ensures LeafOk3(Plane(), Leaf(), 0, 0, 0) && PointsOf(Leaf()) == {4} && PointCount(Leaf()) == 1
    ensures forall E: Edges | E == map[] :: PointsOk(E, Plane(), Leaf(), 4, 0)
    ensures CornersOfTemplate(TemplateOf(1, 2, 3, 0, 0, 0)) == [(1, 2, 3)] && Fits(TemplateOf(1, 2, 3, 0, 0, 0))
    ensures |TemplateOf(1, 2, 3, 0, 0, 0).tris| == 1
  {
    LeafSlots();
    LeafPoint();
    FirstSideAreas();
    LeafShape();
    hide Plane, Area, In, Holds, Fits, CornersAt, Leaf;
  }

  lemma LeafSlots()
    ensures PointsOf(Leaf()) == {4} && PointCount(Leaf()) == 1
    ensures forall k | 0 <= k <= 3 :: Sub(Leaf(), k) == if k == 0 then -4 else 0
  {
    var t := Leaf();
    assert Sub(t, 0) == -4 && Sub(t, 1) == 0 && Sub(t, 2) == 0 && Sub(t, 3) == 0;
    assert forall k | 0 <= k <= 3 :: Sub(t, k) == if k == 0 then -4 else 0;
    hide Sub;
    assert forall q | q in PointsOf(t) :: q == 4;
    assert 4 in PointsOf(t) by {
      assert -Sub(t, 0) == 4;
    }
  }

  lemma LeafPoint()
    ensures Holds(Plane(), Leaf(), 4) && AreaOf(Plane(), (Leaf().v1, Leaf().v2, Leaf().v3)) > 0.0
    ensures Leaf().v1 == 1 && Leaf().v2 == 2 && Leaf().v3 == 3
  {
  }

  lemma LeafShape()
    ensures CornersOfTemplate(TemplateOf(1, 2, 3, 0, 0, 0)) == [(1, 2, 3)] && Fits(TemplateOf(1, 2, 3, 0, 0, 0))
    ensures |TemplateOf(1, 2, 3, 0, 0, 0).tris| == 1
  {
    Fit(1, 2, 3, 0, 0, 0);
    hide Fits;
  }

  /** Three triangles with the sides of the leaf, corners among 1 to 4 and the area of the leaf are not
      all positive. */
  lemma NotSharp(ts: seq<Tri3>)
    requires |ts| == 3 && Lies(Plane(), [(1, 2, 3)], ts, Leaf()) && TrianglesArea(Plane(), ts) == 8.0
    requires PointsOf(Leaf()) == {4}
    ensures !Sharp(Plane(), ts)
  {
    hide *;
    LiesRunsFirst(ts);
    var k, w := FirstTriangle(ts);
    CornersOfLies(ts, k, w);
    SumOfThree(Plane(), ts);
    FirstSideAreas();
    if Sharp(Plane(), ts) {
      SharpAt(Plane(), ts, 0);
      SharpAt(Plane(), ts, 1);
      SharpAt(Plane(), ts, 2);
      SharpAt(Plane(), ts, k);
    }
  }

  /** The triangle on the first side, and its third corner. */
  lemma FirstTriangle(ts: seq<Tri3>) returns (k: int, w: int)
    requires RunsSide(ts, 1, 2)
    ensures 0 <= k < |ts| && CornerAt(ts[k], w) && AreaOf(Plane(), ts[k]) == AreaOf(Plane(), (1, 2, w))
  {
    k :| 0 <= k < |ts| && SideAt(ts[k], 1, 2);
    var t := ts[k];
    w := if t.0 == 1 && t.1 == 2 then t.2 else if t.1 == 1 && t.2 == 2 then t.0 else t.1;
    TurnedAll(Plane(), t.0, t.1, t.2);
    hide Area, Plane;
  }

  lemma SharpAt(P: seq<Point>, ts: seq<Tri3>, k: int)
    requires Sharp(P, ts) && 0 <= k < |ts|
    ensures AreaOf(P, ts[k]) > 0.0
  {
    hide Area;
  }

  lemma FirstSideAreas()
    ensures AreaOf(Plane(), (1, 2, 1)) == 0.0 && AreaOf(Plane(), (1, 2, 2)) == 0.0 && AreaOf(Plane(), (1, 2, 4)) == 0.0
    ensures AreaOf(Plane(), (1, 2, 3)) == 8.0
  {
  }

  lemma LiesRunsFirst(ts: seq<Tri3>)
    requires Lies(Plane(), [(1, 2, 3)], ts, Leaf())
    ensures RunsSide(ts, 1, 2)
  {
    var ts0 := [(1, 2, 3)];
    assert SideAt(ts0[0], 1, 2);
    assert RunsSide(ts0, 1, 2);
    hide RunsSide, ApartAll, AllWithin, CornerIn, PointsOf;
  }

  lemma CornersOfLies(ts: seq<Tri3>, k: int, w: int)
    requires Lies(Plane(), [(1, 2, 3)], ts, Leaf()) && 0 <= k < |ts| && CornerAt(ts[k], w)
    requires PointsOf(Leaf()) == {4}
    ensures w == 1 || w == 2 || w == 3 || w == 4
  {
    hide RunsSide, ApartAll, AllWithin, PointsOf;
    assert CornerIn(ts, w);
    if w != 4 {
      var ts0 := [(1, 2, 3)];
      var m :| 0 <= m < |ts0| && CornerAt(ts0[m], w);
    }
  }

  lemma SumOfThree(P: seq<Point>, ts: seq<Tri3>)
    requires |ts| == 3
    ensures TrianglesArea(P, ts) == AreaOf(P, ts[0]) + AreaOf(P, ts[1]) + AreaOf(P, ts[2])
  {
    hide Area;
    assert ts[..2][..1] == ts[..1] && ts[..1][..0] == [];
    assert TrianglesArea(P, ts[..1]) == AreaOf(P, ts[0]);
    assert TrianglesArea(P, ts[..2]) == TrianglesArea(P, ts[..1]) + AreaOf(P, ts[1]);
  }

  /** An empty table and store are ready for the leaf. */
  lemma FreshReady(table: Table, store: Store)
    requires table.Valid() && table.Live() == map[] && table.mxsomm == 4
    requires forall s | 0 <= s < table.noarst.Length :: table.noarst[s] == 0
    requires store.Valid() && store.noartr.Length == 8 && forall t | 1 <= t <= 7 :: !Active(store.noartr[..], t)
    requires Fits(TemplateOf(1, 2, 3, 0, 0, 0)) && |TemplateOf(1, 2, 3, 0, 0, 0).tris| == 1
    ensures Fitting(table, store, TemplateOf(1, 2, 3, 0, 0, 0))
  {
    hide TableInv, LiveEdges, Vacancy, Fits, Room;
    var tp := TemplateOf(1, 2, 3, 0, 0, 0);
    assert tp.entries == [Entry(1, 2, 0, -1, true), Entry(2, 3, 0, -1, true), Entry(3, 1, 0, -1, true)];
    assert MeshInv(table.Live(), store.noartr[..]);
  }

  lemma FreshAmple(table: Table, store: Store)
    requires Spare(table.plan) == 12 && |store.vacant| == 7 && PointCount(Leaf()) == 1
    ensures LeafAmple(table.StockOf(), Leaf(), 0, 0, 0, |store.vacant|)
  {
  }

  lemma FlatFound(E: Edges, M: seq<Tri>, nutr: seq<int>, ts: seq<Tri3>)
    requires Tiled(E, M, nutr, ts) && !Sharp(Plane(), ts) && NoneNegative(Plane(), ts)
    ensures exists k :: 0 <= k < |nutr| && Active(M, nutr[k]) && AreaOf(Plane(), Verts(E, M[nutr[k]])) == 0.0
  {
    hide Plane, Area, Verts;
    var k :| 0 <= k < |ts| && AreaOf(Plane(), ts[k]) <= 0.0;
    assert Active(M, nutr[k]) && Verts(E, M[nutr[k]]) == ts[k];
    assert AreaOf(Plane(), ts[k]) >= 0.0;
    FlatAt(E, M, nutr, k);
  }

  lemma FlatAt(E: Edges, M: seq<Tri>, nutr: seq<int>, k: int)
    requires 0 <= k < |nutr| && Active(M, nutr[k]) && AreaOf(Plane(), Verts(E, M[nutr[k]])) == 0.0
    ensures exists m :: 0 <= m < |nutr| && Active(M, nutr[m]) && AreaOf(Plane(), Verts(E, M[nutr[m]])) == 0.0
  {
  }

  lemma LeafSums(ts: seq<Tri3>)
    requires LeafMeshed(Plane(), Leaf(), 0, 0, 0, ts)
    ensures NoneNegative(Plane(), ts) && TrianglesArea(Plane(), ts) == 8.0
  {
    FirstSideAreas();
    hide Odd, Covers, NoneNegative, TrianglesArea, OfTriangles, Area;
  }

  /** `f0trte_` on that leaf, with room for everything, leaves a triangle without area and no error. */
  method PointOnSide() returns (table: Table, store: Store, nutr: seq<int>, ierr: int)
    ensures ierr == 0 && Sound(table, store.noartr)
    ensures exists k :: 0 <= k < |nutr| && Active(store.noartr[..], nutr[k])
                        && AreaOf(Plane(), Verts(table.Live(), store.noartr[nutr[k]])) == 0.0
  {
    hide TableInv, LiveEdges, MeshInv, Bounded, Anchored, Spare, Vacancy, Lies, LeafMeshed, Sharp, Plane,
      LeafOk3, PointsOk, TemplateOf, CornersOfTemplate, PointCount, Fits, PointsOf, OnlyLeaf, Fitting, LeafAmple,
      SixthLost, LeafDry, Tiled, NoneNegative;
    table := new Table(4, 16);
    store := new Store(7);
    LeafFacts();
    FreshReady(table, store);
    FreshAmple(table, store);
    ghost var ts;
    var lost;
    nutr, ierr, lost, ts := Ftrte(table, store, Plane(), Leaf(), 0, 0, 0);
    LeafSums(ts);
    TiledSizes(table.Live(), store.noartr[..], nutr, ts);
    NotSharp(ts);
    FlatFound(table.Live(), store.noartr[..], nutr, ts);
  }
}
