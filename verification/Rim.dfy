/** The edges of the mesh with only one triangle: they lie on the rim of the meshed leaves. */
module Rim {
  import opened Lists
  import opened Delaunay
  import opened EdgeTable
  import opened Mesh
  import opened Triangles
  import opened Patch
  import opened Leafmesh
  import opened Tiling
  import opened Trpite
  import opened Mosaic
  import opened Paving
  import opened Tetrte
  import opened Conform
  import opened Sides
  import opened Teajte
  import opened Tehote
  import opened Tree
  import Lattice

  /** Edge i lists one triangle only. */
  ghost predicate Single(E: Edges, i: int) {
    i in E && Listing(E[i]) && !(E[i].tr1 > 0 && E[i].tr2 > 0)
  }

  /** The side of an active triangle from y to x is edge i when i joins x and y. */
  lemma SideEdge(E: Edges, M: seq<Tri>, index: map<(int, int), int>, i: int, u: int, x: int, y: int) returns (a: int)
    requires MeshInv(E, M) && Keyed(E, index) && i in E && Active(M, u) && SideAt(Verts(E, M[u]), x, y)
    requires (x == E[i].st1 && y == E[i].st2) || (x == E[i].st2 && y == E[i].st1)
    ensures Listed(E[i], u) && Uses(M[u], a) && (a == i || a == -i) && i > 0 && Start(E, a) == x && End(E, a) == y
  {
    var t := M[u];
    EdgeSoundAt(E, M, i);
    TriSoundAt(E, M, u);
    a := SideOf(E, t, x, y);
    EdgeSoundAt(E, M, Abs(a));
    hide MeshInv, Cycle, Verts, SideAt;
    PairOf(E, a, x, y);
    assert (E[Abs(a)].st1, E[Abs(a)].st2) == (E[i].st1, E[i].st2);
    assert Abs(a) == i;
  }

  lemma TriSoundAt(E: Edges, M: seq<Tri>, u: int)
    requires MeshInv(E, M) && Active(M, u)
    ensures TriOk(E, M, u)
  {
  }

  lemma SideOf(E: Edges, t: Tri, x: int, y: int) returns (a: int)
    requires Cycle(E, t) && SideAt(Verts(E, t), x, y)
    ensures Uses(t, a) && Abs(a) in E && Start(E, a) == x && End(E, a) == y
  {
    a := if x == Start(E, t.a1) && y == End(E, t.a1) then t.a1 else if x == Start(E, t.a2) && y == End(E, t.a2)
      then t.a2 else t.a3;
  }

  lemma PairOf(E: Edges, a: int, x: int, y: int)
    requires Abs(a) in E && Abs(a) > 0 && Start(E, a) == x && End(E, a) == y
    ensures (E[Abs(a)].st1 == x && E[Abs(a)].st2 == y) || (E[Abs(a)].st1 == y && E[Abs(a)].st2 == x)
  {
  }

  /** No triangle runs along an edge both ways. */
  lemma OneWay(E: Edges, M: seq<Tri>, i: int, u: int)
    requires MeshInv(E, M) && i in E && Active(M, u)
    ensures !(Uses(M[u], i) && Uses(M[u], -i))
  {
    var t := M[u];
    assert TriOk(E, M, u) && EdgeOk(E, M, i) && i > 0;
    assert EdgeOk(E, M, Abs(t.a1)) && EdgeOk(E, M, Abs(t.a2)) && EdgeOk(E, M, Abs(t.a3));
    hide MeshInv;
  }

  /** The triangle of an edge that lists only one, as a side from x to y. */
  lemma SingleSide(E: Edges, M: seq<Tri>, i: int) returns (t: int, x: int, y: int)
    requires MeshInv(E, M) && Single(E, i)
    ensures Active(M, t) && SideAt(Verts(E, M[t]), x, y)
    ensures (x == E[i].st1 && y == E[i].st2) || (x == E[i].st2 && y == E[i].st1)
    ensures x != y && i > 0 && forall u | u > 0 && Listed(E[i], u) :: u == t
    ensures Uses(M[t], if x == E[i].st1 then i else -i)
  {
    assert EdgeOk(E, M, i) && i > 0;
    t := if E[i].tr1 > 0 then E[i].tr1 else E[i].tr2;
    assert TriOk(E, M, t);
    hide MeshInv;
    var a := if Uses(M[t], i) then i else -i;
    UseSide(E, M[t], a);
    x, y := Start(E, a), End(E, a);
    hide Cycle, Verts, SideAt;
  }

  lemma SingleOneWay(E: Edges, M: seq<Tri>, index: map<(int, int), int>, nutr: seq<int>, ts: seq<Tri3>, i: int)
      returns (x: int, y: int)
    requires MeshInv(E, M) && Keyed(E, index) && Tiled(E, M, nutr, ts) && (forall t | Active(M, t) :: t in nutr)
    requires Single(E, i)
    ensures RunsSide(ts, x, y) && !RunsSide(ts, y, x)
    ensures (x == E[i].st1 && y == E[i].st2) || (x == E[i].st2 && y == E[i].st1)
  {
    var t;
    t, x, y := SingleSide(E, M, i);
    OneWay(E, M, i, t);
    hide MeshInv, Keyed, Unique, SideAt, Verts, Uses, Single;
    var k :| 0 <= k < |nutr| && nutr[k] == t;
    assert SideAt(ts[k], x, y);
    if RunsSide(ts, y, x) {
      var m :| 0 <= m < |ts| && SideAt(ts[m], y, x);
      assert Active(M, nutr[m]) && Verts(E, M[nutr[m]]) == ts[m];
      var b := SideEdge(E, M, index, i, nutr[m], y, x);
      assert false;
    }
  }

  /** A leaf that does not meet the rectangle has a side from x to y. */
  ghost predicate OutsideRuns(g: Grove, rect: Box, x: int, y: int) {
    exists q, m :: IsLeaf(g, q) && !Chosen(g, rect, q) && SideRun(g, q, m, x, y)
  }

  /** A side of a meshed leaf from x to y, on the border of the root or with a leaf outside the
      rectangle across it. */
  ghost predicate RimSide(g: Grove, rect: Box, D: seq<int>, x: int, y: int) {
    exists j, l :: j in D && SideRun(g, j, l, x, y) && (OnRim(g, rect, j, l) || OutsideRuns(g, rect, y, x))
  }

  lemma RimSideFrom(g: Grove, rect: Box, D: seq<int>, j: int, l: int, x: int, y: int)
    requires j in D && SideRun(g, j, l, x, y) && (OnRim(g, rect, j, l) || OutsideRuns(g, rect, y, x))
    ensures RimSide(g, rect, D, x, y)
  {
    hide SideRun, OnRim, OutsideRuns;
  }

  /** What triangles run along one way only is on the rim. */
  lemma OneWayOnRim(g: Grove, nb: int, rect: Box, D: seq<int>, ts: seq<Tri3>, x: int, y: int)
    requires GroveOk(g, nb) && Even(g, rect) && Paves(g, D, ts) && RunsAll(g, D, ts)
    requires (forall k :: k in D <==> Chosen(g, rect, k)) && RunsSide(ts, x, y) && !RunsSide(ts, y, x)
    ensures RimSide(g, rect, D, x, y)
  {
    hide *;
    var j, l := EndsAtLeaf(g, D, ts, x, y);
    Matched(g, nb, rect, j, l, x, y);
    if !OnRim(g, rect, j, l) {
      var k, m := RunsLeaf(g, y, x);
      if Chosen(g, rect, k) {
        RunsAt(g, D, ts, k, m, y, x);
      } else {
        OutsideFrom(g, rect, k, m, y, x);
      }
    }
    if OnRim(g, rect, j, l) || OutsideRuns(g, rect, y, x) {
      RimSideFrom(g, rect, D, j, l, x, y);
    }
  }

  // ---------------------------------------------------------------- and the other way

  /** The leaf of a triangle that runs from x to y, both vertices of the tree. */
  lemma OwnerOf(g: Grove, nb: int, E: Edges, M: seq<Tri>, D: seq<int>, nutr: seq<int>, ts: seq<Tri3>, own: seq<int>,
      x: int, y: int) returns (i: int)
    requires GroveOk(g, nb) && Laid(g, E, M, D, nutr, ts, own) && RunsSide(ts, x, y) && x in g.S.pt && y in g.S.pt
    ensures i in D && IsLeaf(g, i) && 0 <= i < |g.T| && SideIn(g.P, g.T[i], x, y)
  {
    LaidParts(g, E, M, D, nutr, ts, own);
    NotPoint(g, nb, x);
    NotPoint(g, nb, y);
    hide GroveOk, Laid, Tiled, IsLeaf, SideIn, TriWithin, CornerAt;
    var k :| 0 <= k < |ts| && SideAt(ts[k], x, y);
    i := own[k];
    assert OfLeaf(g, i, ts[k]);
  }

  lemma RunVertices(g: Grove, nb: int, j: int, l: int, x: int, y: int)
    requires GroveOk(g, nb) && IsLeaf(g, j) && SideRun(g, j, l, x, y)
    ensures x in g.S.pt && y in g.S.pt
  {
    hide *;
    LeafCorners(g, nb, j);
    SideNumber(g, j, l, x, y);
    MidPlace(g, nb, j, l);
    MidVertex(g, MidNo(g, j, l), Tree.Som(g.T[j], l), Tree.Som(g.T[j], Lattice.Suiv(l)));
    RunEnds(g, j, l, x, y);
  }

  lemma MidVertex(g: Grove, m: int, u: int, v: int)
    requires MiddleOf(g, m, u, v)
    ensures m != 0 ==> m in g.S.pt
  {
  }

  lemma RunEnds(g: Grove, j: int, l: int, x: int, y: int)
    requires SideRun(g, j, l, x, y) && (MidNo(g, j, l) != 0 ==> MidNo(g, j, l) in g.S.pt)
    requires 0 <= j < |g.T| && g.T[j].v1 in g.S.pt && g.T[j].v2 in g.S.pt && g.T[j].v3 in g.S.pt
    ensures x in g.S.pt && y in g.S.pt
  {
    hide MidNo;
  }

  /** No triangle lies beyond the rim. */
  lemma NothingBeyond(g: Grove, nb: int, rect: Box, E: Edges, M: seq<Tri>, D: seq<int>, nutr: seq<int>, ts: seq<Tri3>,
      own: seq<int>, x: int, y: int)
    requires GroveOk(g, nb) && Laid(g, E, M, D, nutr, ts, own) && RimSide(g, rect, D, x, y)
    requires forall k :: k in D <==> Chosen(g, rect, k)
    ensures !RunsSide(ts, y, x)
  {
    hide *;
    if RunsSide(ts, y, x) {
      var j, l := RimSideOf(g, rect, D, x, y);
      ChosenParts(g, rect, j);
      RunVertices(g, nb, j, l, x, y);
      var i := OwnerOf(g, nb, E, M, D, nutr, ts, own, y, x);
      if OutsideRuns(g, rect, y, x) {
        var q, m := OutsideOf(g, rect, y, x);
        OwnSide(g, nb, q, m, y, x);
        OneLeft(g, nb, i, q, y, x);
      } else {
        BeyondRim(g, nb, rect, j, l, x, y, i);
      }
    }
  }

  lemma RimSideOf(g: Grove, rect: Box, D: seq<int>, x: int, y: int) returns (j: int, l: int)
    requires RimSide(g, rect, D, x, y)
    ensures j in D && SideRun(g, j, l, x, y) && (OnRim(g, rect, j, l) || OutsideRuns(g, rect, y, x))
  {
    hide SideRun, OnRim, OutsideRuns;
    j, l :| j in D && SideRun(g, j, l, x, y) && (OnRim(g, rect, j, l) || OutsideRuns(g, rect, y, x));
  }

  lemma OutsideOf(g: Grove, rect: Box, x: int, y: int) returns (q: int, m: int)
    requires OutsideRuns(g, rect, x, y)
    ensures IsLeaf(g, q) && !Chosen(g, rect, q) && SideRun(g, q, m, x, y)
  {
    hide IsLeaf, Chosen, SideRun;
    q, m :| IsLeaf(g, q) && !Chosen(g, rect, q) && SideRun(g, q, m, x, y);
  }

  /** A leaf i that meets the rectangle is not beyond a side on the rim. */
  lemma BeyondRim(g: Grove, nb: int, rect: Box, j: int, l: int, x: int, y: int, i: int)
    requires GroveOk(g, nb) && OnRim(g, rect, j, l) && IsLeaf(g, j) && SideRun(g, j, l, x, y) && Chosen(g, rect, i)
    ensures 0 <= i < |g.T| && !SideIn(g.P, g.T[i], y, x)
  {
    hide *;
    LeafIndex(g, j);
    ChosenParts(g, rect, i);
    if Lattice.Border(g.S.geo[j], l) {
      BorderOneWay(g, nb, j, l, x, y, i);
    } else if SideIn(g.P, g.T[i], y, x) {
      var q, h := RimLeaf(g, rect, j, l);
      LargerSide(g, nb, j, l, x, y, q, h);
      OneLeft(g, nb, i, q, y, x);
    }
  }

  lemma RimLeaf(g: Grove, rect: Box, j: int, l: int) returns (q: int, h: nat)
    requires OnRim(g, rect, j, l) && j in g.S.geo && !Lattice.Border(g.S.geo[j], l)
    ensures h <= g.S.geo[j].level && Facing(g.T, g.S, j, l, q, h) && IsLeaf(g, q) && !Chosen(g, rect, q)
  {
    hide Facing, IsLeaf, Chosen, Lattice.Border;
    q, h :| h <= g.S.geo[j].level && Facing(g.T, g.S, j, l, q, h) && IsLeaf(g, q) && !Chosen(g, rect, q);
  }

  /** The side of a triangle from x to y is an edge that lists it. */
  lemma RunListed(E: Edges, M: seq<Tri>, index: map<(int, int), int>, nutr: seq<int>, ts: seq<Tri3>, i: int, x: int,
      y: int) returns (u: int, a: int)
    requires MeshInv(E, M) && Keyed(E, index) && Tiled(E, M, nutr, ts) && i in E && RunsSide(ts, x, y)
    requires (x == E[i].st1 && y == E[i].st2) || (x == E[i].st2 && y == E[i].st1)
    ensures Active(M, u) && Listed(E[i], u) && Uses(M[u], a) && (a == i || a == -i) && i > 0
    ensures Start(E, a) == x && End(E, a) == y
  {
    var k :| 0 <= k < |ts| && SideAt(ts[k], x, y);
    assert Active(M, nutr[k]) && Verts(E, M[nutr[k]]) == ts[k];
    hide MeshInv, Keyed;
    u := nutr[k];
    a := SideEdge(E, M, index, i, u, x, y);
  }

  /** An edge with two triangles is run along both ways. */
  lemma TwoWays(E: Edges, M: seq<Tri>, nutr: seq<int>, ts: seq<Tri3>, i: int, a: int)
    requires MeshInv(E, M) && Tiled(E, M, nutr, ts) && (forall t | Active(M, t) :: t in nutr)
    requires i in E && (a == i || a == -i) && E[i].tr1 > 0 && E[i].tr2 > 0
    ensures RunsSide(ts, Start(E, a), End(E, a))
  {
    EdgeSoundAt(E, M, i);
    OneWay(E, M, i, E[i].tr1);
    OneWay(E, M, i, E[i].tr2);
    var u := if Uses(M[E[i].tr1], a) then E[i].tr1 else E[i].tr2;
    assert Active(M, u) && TriOk(E, M, u) && Uses(M[u], a);
    hide MeshInv, Uses;
    UseSide(E, M[u], a);
    var m :| 0 <= m < |nutr| && nutr[m] == u;
    assert SideAt(ts[m], Start(E, a), End(E, a));
  }

  /** An edge that triangles run along one way only has one triangle. */
  lemma OneWaySingle(E: Edges, M: seq<Tri>, index: map<(int, int), int>, nutr: seq<int>, ts: seq<Tri3>, i: int, x: int,
      y: int)
    requires MeshInv(E, M) && Keyed(E, index) && Tiled(E, M, nutr, ts) && (forall t | Active(M, t) :: t in nutr)
    requires i in E && ((x == E[i].st1 && y == E[i].st2) || (x == E[i].st2 && y == E[i].st1))
    requires RunsSide(ts, x, y) && !RunsSide(ts, y, x)
    ensures Single(E, i)
  {
    hide MeshInv, Keyed, Tiled, RunsSide, Uses;
    var u, a := RunListed(E, M, index, nutr, ts, i, x, y);
    if E[i].tr1 > 0 && E[i].tr2 > 0 {
      TwoWays(E, M, nutr, ts, i, -a);
    }
    assert Start(E, -a) == y && End(E, -a) == x;
  }

  /** In the mesh that `tetrte_` makes of leaves as `tehote_` leaves them, exactly the edges on the rim
      have one triangle only: leaves of different size leave no gap between them. */
  lemma SingleExactly(g: Grove, nb: int, rect: Box, E: Edges, M: seq<Tri>, index: map<(int, int), int>, D: seq<int>,
      nutr: seq<int>, ts: seq<Tri3>, own: seq<int>, i: int)
    requires GroveOk(g, nb) && Even(g, rect) && MeshInv(E, M) && Keyed(E, index)
    requires Laid(g, E, M, D, nutr, ts, own) && Paves(g, D, ts) && RunsAll(g, D, ts)
    requires (forall k :: k in D <==> Chosen(g, rect, k)) && i in E
    ensures Single(E, i) <==> RimSide(g, rect, D, E[i].st1, E[i].st2) || RimSide(g, rect, D, E[i].st2, E[i].st1)
  {
    hide *;
    LaidParts(g, E, M, D, nutr, ts, own);
    if Single(E, i) {
      var x, y := SingleOneWay(E, M, index, nutr, ts, i);
      OneWayOnRim(g, nb, rect, D, ts, x, y);
    }
    if RimSide(g, rect, D, E[i].st1, E[i].st2) {
      RimRuns(g, nb, rect, E, M, index, D, nutr, ts, own, i, E[i].st1, E[i].st2);
    }
    if RimSide(g, rect, D, E[i].st2, E[i].st1) {
      RimRuns(g, nb, rect, E, M, index, D, nutr, ts, own, i, E[i].st2, E[i].st1);
    }
  }

  lemma RimRuns(g: Grove, nb: int, rect: Box, E: Edges, M: seq<Tri>, index: map<(int, int), int>, D: seq<int>,
      nutr: seq<int>, ts: seq<Tri3>, own: seq<int>, i: int, x: int, y: int)
    requires GroveOk(g, nb) && MeshInv(E, M) && Keyed(E, index) && Laid(g, E, M, D, nutr, ts, own) && RunsAll(g, D, ts)
    requires (forall k :: k in D <==> Chosen(g, rect, k)) && RimSide(g, rect, D, x, y)
    requires i in E && ((x == E[i].st1 && y == E[i].st2) || (x == E[i].st2 && y == E[i].st1))
    ensures Single(E, i)
  {
    hide *;
    LaidParts(g, E, M, D, nutr, ts, own);
    var j, l := RimSideOf(g, rect, D, x, y);
    RunsAt(g, D, ts, j, l, x, y);
    NothingBeyond(g, nb, rect, E, M, D, nutr, ts, own, x, y);
    OneWaySingle(E, M, index, nutr, ts, i, x, y);
  }

  lemma RunsLeaf(g: Grove, x: int, y: int) returns (k: int, m: int)
    requires LeafRuns(g, x, y)
    ensures IsLeaf(g, k) && SideRun(g, k, m, x, y)
  {
    hide IsLeaf, SideRun;
    k, m :| IsLeaf(g, k) && SideRun(g, k, m, x, y);
  }

  lemma OutsideFrom(g: Grove, rect: Box, q: int, m: int, x: int, y: int)
    requires IsLeaf(g, q) && !Chosen(g, rect, q) && SideRun(g, q, m, x, y)
    ensures OutsideRuns(g, rect, x, y)
  {
    hide IsLeaf, Chosen, SideRun;
  }

  /** When every leaf meets the rectangle, the rim is the border of the root. */
  lemma RimIsBorder(g: Grove, rect: Box, D: seq<int>, x: int, y: int)
    requires (forall k :: k in D <==> Chosen(g, rect, k)) && forall k | IsLeaf(g, k) :: Chosen(g, rect, k)
    ensures RimSide(g, rect, D, x, y) <==>
              exists j, l :: j in D && SideRun(g, j, l, x, y) && j in g.S.geo && Lattice.Border(g.S.geo[j], l)
  {
    hide IsLeaf, InRect, Chosen, SideRun, Facing, Lattice.Border;
    if j, l :| j in D && SideRun(g, j, l, x, y) && j in g.S.geo && Lattice.Border(g.S.geo[j], l) {
      assert OnRim(g, rect, j, l);
    }
  }
}
