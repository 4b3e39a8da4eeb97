/** What the rectangle takes in: the leaf of every given point, and every leaf over their box. */
module Covered {
  import opened Geometry
  import opened Delaunay
  import opened EdgeTable
  import opened Mesh
  import opened Triangles
  import opened Splitting
  import opened Leaves
  import opened Quadtree
  import opened Teajte
  import opened Tehote
  import opened Framing
  import opened Leafmesh
  import opened Tiling
  import opened Trpite
  import opened Mosaic
  import opened Paving
  import opened Tetrte
  import Tree

  lemma TreeParts(T: seq<Tree.Te>, S: Tree.Shape, P: seq<Point>, nb: int, free: seq<int>, home: map<int, int>)
    requires TreeOk(T, S, P, nb, free, home)
    ensures Tree.Woven(T, S) && Named(T, S) && Numbered(T, S, nb) && Splitting.Placed(T, S, P)
    ensures Stocked(T, S, P, nb, home)
  {
    hide Tree.Woven, Named, Numbered, Splitting.Placed, FreeOk, Stocked;
  }

  /** The points 1 to n of the tree are in the box b, over which its root stands. */
  ghost predicate Given(tree: Quadtree, b: Box, aretmx: real, n: nat)
    reads tree, tree.letree, tree.pxyd
  {
    && Planted(tree) && tree.letree.Length > 1 && tree.pxyd.Length > n && aretmx > 0.0
    && Over(tree.pxyd[..], tree.letree[1], b, aretmx)
    && (forall q :: q in tree.home <==> 1 <= q <= n) && forall q | 1 <= q <= n :: InBox(b, tree.pxyd[q])
  }

  lemma GivenParts(tree: Quadtree, b: Box, aretmx: real, n: nat)
    requires Given(tree, b, aretmx, n)
    ensures Planted(tree) && tree.letree.Length > 1 && tree.pxyd.Length > n && aretmx > 0.0
    ensures TreeOk(tree.letree[..], tree.S, tree.pxyd[..], tree.nbsomm, tree.free, tree.home)
    ensures Over(tree.pxyd[..], tree.letree[1], b, aretmx) && forall q :: q in tree.home <==> 1 <= q <= n
    ensures forall q | 1 <= q <= n :: InBox(b, tree.pxyd[q])
  {
    hide Planted, Over, InBox;
    PlantedTree(tree);
  }

  /** A leaf that holds a place of the box meets the rectangle. */
  lemma PlaceChosen(tree: Quadtree, b: Box, aretmx: real, n: nat, j: int, z: Point)
    requires Given(tree, b, aretmx, n) && j in tree.S.geo && 1 <= j < tree.letree.Length && tree.letree[j].s0 <= 0
    requires InBox(b, z) && InLeaf(GroveOf(tree), j, z)
    ensures Chosen(GroveOf(tree), FrameOf(tree.pxyd[..], tree.letree[1], b, aretmx, n), j)
  {
    hide *;
    GivenParts(tree, b, aretmx, n);
    PlantedTree(tree);
    var T, S, P := tree.letree[..], tree.S, tree.pxyd[..];
    TreeParts(T, S, P, tree.nbsomm, tree.free, tree.home);
    if n > 8 {
      RootInner(T, S, P, tree.nbsomm, tree.home, n);
      NotRoot(T, S, j);
    }
    InLeafOf(tree, j, z);
    LeafFramed(T, S, P, j, b, aretmx, n, z);
    ChosenFrom(tree, FrameOf(P, tree.letree[1], b, aretmx, n), j);
  }

  lemma NotRoot(T: seq<Tree.Te>, S: Tree.Shape, j: int)
    requires Tree.Inner(T, S, 1) && 0 <= j < |T| && T[j].s0 <= 0
    ensures j != 1
  {
  }

  lemma InLeafOf(tree: Quadtree, j: int, z: Point)
    requires 0 <= j < tree.letree.Length
    ensures var t, P := tree.letree[j], tree.pxyd[..];
      InLeaf(GroveOf(tree), j, z) <==> In(z, PointOf(P, t.v1), PointOf(P, t.v2), PointOf(P, t.v3))
  {
    hide In, PointOf;
  }

  /** The home of every given point meets the rectangle. */
  lemma HomeChosen(tree: Quadtree, b: Box, aretmx: real, n: nat, q: int)
    requires Given(tree, b, aretmx, n) && 1 <= q <= n
    ensures q in tree.home
    ensures Chosen(GroveOf(tree), FrameOf(tree.pxyd[..], tree.letree[1], b, aretmx, n), tree.home[q])
  {
    hide *;
    GivenParts(tree, b, aretmx, n);
    var T, S, P := tree.letree[..], tree.S, tree.pxyd[..];
    TreeParts(T, S, P, tree.nbsomm, tree.free, tree.home);
    var j := tree.home[q];
    HomeHolds(T, S, P, tree.nbsomm, tree.home, q);
    HoldsIn(P, T[j], q);
    PlaceIs(P, q);
    InLeafOf(tree, j, PointOf(P, q));
    PlaceChosen(tree, b, aretmx, n, j, PointOf(P, q));
  }

  lemma PlaceIs(P: seq<Point>, q: int)
    requires 0 <= q < |P|
    ensures PointOf(P, q) == P[q]
  {
  }

  lemma HomeHolds(T: seq<Tree.Te>, S: Tree.Shape, P: seq<Point>, nb: int, home: map<int, int>, q: int)
    requires Stocked(T, S, P, nb, home) && q in home
    ensures home[q] in S.geo && 1 <= home[q] < |T| && T[home[q]].s0 <= 0 && Holds(P, T[home[q]], q)
  {
    hide Holds;
    assert HomeOk(T, S, home, nb, q) && LeafOk(T, P, home, home[q]);
    var t := T[home[q]];
    var k := if t.s0 == -q then 0 else if t.s1 == -q then 1 else if t.s2 == -q then 2 else 3;
    assert Tree.Sub(t, k) == -q;
  }

  /** Every place of the box is in a leaf that meets the rectangle. */
  lemma BoxChosen(tree: Quadtree, b: Box, aretmx: real, n: nat, z: Point) returns (j: int)
    requires Given(tree, b, aretmx, n) && InBox(b, z)
    ensures Chosen(GroveOf(tree), FrameOf(tree.pxyd[..], tree.letree[1], b, aretmx, n), j)
    ensures InLeaf(GroveOf(tree), j, z)
  {
    hide *;
    GivenParts(tree, b, aretmx, n);
    PlantedTree(tree);
    var T, S, P := tree.letree[..], tree.S, tree.pxyd[..];
    TreeParts(T, S, P, tree.nbsomm, tree.free, tree.home);
    OverParts(P, T[1], b, aretmx);
    j := LeafAt(T, S, P, tree.nbsomm, z);
    NotInner(T, S, j);
    InLeafOf(tree, j, z);
    PlaceChosen(tree, b, aretmx, n, j, z);
  }

  lemma NotInner(T: seq<Tree.Te>, S: Tree.Shape, j: int)
    requires !Tree.Inner(T, S, j) && j in S.geo && 1 <= j < |T|
    ensures T[j].s0 <= 0
  {
  }

  /** An active triangle has the corner q. */
  ghost predicate Vertex(E: Edges, M: seq<Tri>, q: int) {
    exists t :: Active(M, t) && CornerAt(Verts(E, M[t]), q)
  }

  /** The place z is in an active triangle with area. */
  ghost predicate Overlaid(P: seq<Point>, E: Edges, M: seq<Tri>, z: Point) {
    exists t :: Active(M, t) && InProper(P, Verts(E, M[t]), z)
  }

  /** Every given point is a corner of an active triangle. */
  ghost predicate AllTaken(E: Edges, M: seq<Tri>, n: nat) {
    forall q | 1 <= q <= n :: Vertex(E, M, q)
  }

  /** Every place of the box is in an active triangle with area. */
  ghost predicate BoxCovered(P: seq<Point>, E: Edges, M: seq<Tri>, b: Box) {
    forall z | InBox(b, z) :: Overlaid(P, E, M, z)
  }

  lemma PointsTaken(tree: Quadtree, b: Box, aretmx: real, n: nat, E: Edges, M: seq<Tri>, D: seq<int>, nutr: seq<int>,
      ts: seq<Tri3>)
    requires Given(tree, b, aretmx, n) && Tiled(E, M, nutr, ts) && PointsIn(GroveOf(tree), D, ts)
    requires var rect := FrameOf(tree.pxyd[..], tree.letree[1], b, aretmx, n);
      forall j :: j in D <==> Chosen(GroveOf(tree), rect, j)
    ensures AllTaken(E, M, n)
  {
    hide Given, Tiled, PointsIn, Chosen, FrameOf, Planted, Vertex;
    GivenParts(tree, b, aretmx, n);
    forall q | 1 <= q <= n ensures Vertex(E, M, q) {
      HomeChosen(tree, b, aretmx, n, q);
      PointIn(tree, D, ts, q);
      CornerActive(E, M, nutr, ts, q);
    }
  }

  lemma PointIn(tree: Quadtree, D: seq<int>, ts: seq<Tri3>, q: int)
    requires PointsIn(GroveOf(tree), D, ts) && q in tree.home && tree.home[q] in D
    ensures CornerIn(ts, q)
  {
    hide CornerIn;
  }

  lemma CornerActive(E: Edges, M: seq<Tri>, nutr: seq<int>, ts: seq<Tri3>, q: int)
    requires Tiled(E, M, nutr, ts) && CornerIn(ts, q)
    ensures Vertex(E, M, q)
  {
    hide Verts, CornerAt;
    var k :| 0 <= k < |ts| && CornerAt(ts[k], q);
    assert Active(M, nutr[k]) && Verts(E, M[nutr[k]]) == ts[k];
  }

  lemma PlacesCovered(tree: Quadtree, b: Box, aretmx: real, n: nat, E: Edges, M: seq<Tri>, D: seq<int>,
      nutr: seq<int>, ts: seq<Tri3>)
    requires Given(tree, b, aretmx, n) && Tiled(E, M, nutr, ts) && CoversLeaves(GroveOf(tree), D, ts)
    requires var rect := FrameOf(tree.pxyd[..], tree.letree[1], b, aretmx, n);
      forall j :: j in D <==> Chosen(GroveOf(tree), rect, j)
    ensures BoxCovered(tree.pxyd[..], E, M, b)
  {
    hide Given, Tiled, CoversLeaves, Chosen, FrameOf, Planted, Overlaid, InBox;
    GivenParts(tree, b, aretmx, n);
    forall z | InBox(b, z) ensures Overlaid(tree.pxyd[..], E, M, z) {
      var j := BoxChosen(tree, b, aretmx, n, z);
      CoveredAt(tree, D, ts, j, z);
      ProperActive(tree.pxyd[..], E, M, nutr, ts, z);
    }
  }

  lemma CoveredAt(tree: Quadtree, D: seq<int>, ts: seq<Tri3>, j: int, z: Point)
    requires CoversLeaves(GroveOf(tree), D, ts) && j in D && InLeaf(GroveOf(tree), j, z)
    ensures exists k :: 0 <= k < |ts| && InProper(tree.pxyd[..], ts[k], z)
  {
    hide InLeaf, InProper;
  }

  lemma ProperActive(P: seq<Point>, E: Edges, M: seq<Tri>, nutr: seq<int>, ts: seq<Tri3>, z: Point)
    requires Tiled(E, M, nutr, ts) && exists k :: 0 <= k < |ts| && InProper(P, ts[k], z)
    ensures Overlaid(P, E, M, z)
  {
    hide Verts, InProper;
    var k :| 0 <= k < |ts| && InProper(P, ts[k], z);
    assert Active(M, nutr[k]) && Verts(E, M[nutr[k]]) == ts[k];
  }
}
