/** The triangles of many leaves in one mesh: each belongs to its leaf, and a leaf not meshed yet finds
    room on every edge it shares. */
module Mosaic {
  import opened Lists
  import opened Geometry
  import opened Planar
  import opened Delaunay
  import opened EdgeTable
  import opened Mesh
  import opened Exchange
  import opened Contours
  import opened Triangles
  import opened Patch
  import opened Templates
  import opened Tree
  import Lattice
  import opened Splitting
  import opened Leaves
  import opened Star
  import opened Leafmesh
  import opened Regions
  import opened Tiling
  import opened Trpite

  /** A tree with its vertices and points: home gives the leaf of each point. */
  datatype Grove = Grove(T: seq<Te>, S: Shape, P: seq<Point>, home: map<int, int>)

  /** The tree is sound, and no point is a vertex of the tree. */
  ghost predicate GroveOk(g: Grove, nb: int) {
    && Woven(g.T, g.S) && Named(g.T, g.S) && Numbered(g.T, g.S, nb) && Splitting.Placed(g.T, g.S, g.P)
    && Stocked(g.T, g.S, g.P, nb, g.home)
    && forall q | q in g.home :: q !in g.S.pt
  }

  ghost predicate IsLeaf(g: Grove, j: int) {
    j in g.S.geo && 1 <= j < |g.T| && g.T[j].s0 <= 0
  }

  function TeTri(t: Te): (r: Tri3) {
    (t.v1, t.v2, t.v3)
  }

  /** A positive triangle in t has the side from x to y. */
  ghost predicate SideIn(P: seq<Point>, t: Te, x: int, y: int) {
    exists w: int :: AreaOf(P, (x, y, w)) > 0.0 && TriWithin(P, (x, y, w), TeTri(t))
  }

  /** The triangle c of the mesh is one of leaf j: in it, with vertices of the tree and points of j for
      corners; a side between vertices of the tree has leaf j on its left. */
  ghost predicate OfLeaf(g: Grove, j: int, c: Tri3) {
    && 0 <= j < |g.T|
    && AreaOf(g.P, c) >= 0.0 && TriWithin(g.P, c, TeTri(g.T[j]))
    && (forall x | CornerAt(c, x) :: (x in g.home && g.home[x] == j) || x in g.S.pt)
    && (forall x, y | SideAt(c, x, y) :: x in g.home || y in g.home || SideIn(g.P, g.T[j], x, y))
  }

  /** The active triangles are nutr, with the corners ts, and triangle k is one of leaf own[k], which
      is among the leaves D; no two have an inner point in common. */
  ghost predicate Laid(g: Grove, E: Edges, M: seq<Tri>, D: seq<int>, nutr: seq<int>, ts: seq<Tri3>, own: seq<int>) {
    && Tiled(E, M, nutr, ts) && |own| == |ts| && (forall t | Active(M, t) :: t in nutr)
    && (forall k {:trigger own[k]} | 0 <= k < |own| :: own[k] in D && IsLeaf(g, own[k]) && OfLeaf(g, own[k], ts[k]))
    && ApartAll(g.P, ts)
  }

  // ---------------------------------------------------------------- two leaves

  lemma LeafInside(g: Grove, nb: int, j: int, c: Tri3, z: Point)
    requires GroveOk(g, nb) && IsLeaf(g, j) && TriWithin(g.P, c, TeTri(g.T[j]))
    requires Inside(z, PointOf(g.P, c.0), PointOf(g.P, c.1), PointOf(g.P, c.2))
    ensures InTe(g.P, g.T[j], z)
  {
    PlacedAt(g.T, g.S, g.P, j);
    hide GroveOk, TriWithin, Inside, Area;
    TriInside(g.P, c, TeTri(g.T[j]), z);
  }

  lemma LeavesDisjoint(g: Grove, nb: int, i: int, j: int, z: Point)
    requires GroveOk(g, nb) && IsLeaf(g, i) && IsLeaf(g, j) && i != j
    ensures !(InTe(g.P, g.T[i], z) && InTe(g.P, g.T[j], z))
  {
    hide Woven, Named, Splitting.Placed, Numbered, Stocked, InTe;
    LeavesApart(g.T, g.S, g.P, i, j, z);
  }

  /** No side has two leaves on its left. */
  lemma OneLeft(g: Grove, nb: int, i: int, j: int, x: int, y: int)
    requires GroveOk(g, nb) && IsLeaf(g, i) && IsLeaf(g, j) && SideIn(g.P, g.T[i], x, y) && SideIn(g.P, g.T[j], x, y)
    ensures i == j
  {
    hide GroveOk, TriWithin, Area, InTe;
    var c: int :| AreaOf(g.P, (x, y, c)) > 0.0 && TriWithin(g.P, (x, y, c), TeTri(g.T[i]));
    var d: int :| AreaOf(g.P, (x, y, d)) > 0.0 && TriWithin(g.P, (x, y, d), TeTri(g.T[j]));
    var z := SideShared(PointOf(g.P, x), PointOf(g.P, y), PointOf(g.P, c), PointOf(g.P, d));
    hide Inside;
    LeafInside(g, nb, i, (x, y, c), z);
    LeafInside(g, nb, j, (x, y, d), z);
    if i != j {
      LeavesDisjoint(g, nb, i, j, z);
    }
  }

  /** Triangles of different leaves have no inner point in common. */
  lemma LeavesTriangles(g: Grove, nb: int, i: int, j: int, c: Tri3, d: Tri3)
    requires GroveOk(g, nb) && IsLeaf(g, i) && IsLeaf(g, j) && i != j
    requires TriWithin(g.P, c, TeTri(g.T[i])) && TriWithin(g.P, d, TeTri(g.T[j]))
    ensures Apart(g.P, c, d) && Apart(g.P, d, c)
  {
    hide GroveOk, TriWithin, Inside, InTe;
    forall z ensures !(Inside(z, PointOf(g.P, c.0), PointOf(g.P, c.1), PointOf(g.P, c.2))
      && Inside(z, PointOf(g.P, d.0), PointOf(g.P, d.1), PointOf(g.P, d.2)))
    {
      if Inside(z, PointOf(g.P, c.0), PointOf(g.P, c.1), PointOf(g.P, c.2))
        && Inside(z, PointOf(g.P, d.0), PointOf(g.P, d.1), PointOf(g.P, d.2))
      {
        LeafInside(g, nb, i, c, z);
        LeafInside(g, nb, j, d, z);
        LeavesDisjoint(g, nb, i, j, z);
      }
    }
  }

  // ---------------------------------------------------------------- room for a leaf

  /** A triangle that uses the signed edge a runs along it. */
  lemma UseSide(E: Edges, x: Tri, a: int)
    requires Cycle(E, x) && Uses(x, a)
    ensures SideAt(Verts(E, x), Start(E, a), End(E, a))
  {
  }

  lemma LaidAt(g: Grove, E: Edges, M: seq<Tri>, D: seq<int>, nutr: seq<int>, ts: seq<Tri3>, own: seq<int>, t: int)
      returns (k: int)
    requires Laid(g, E, M, D, nutr, ts, own) && Active(M, t)
    ensures 0 <= k < |own| == |ts| && Verts(E, M[t]) == ts[k]
    ensures own[k] in D && IsLeaf(g, own[k]) && OfLeaf(g, own[k], ts[k])
  {
    hide ApartAll, OfLeaf, IsLeaf, Verts;
    k :| 0 <= k < |nutr| && nutr[k] == t;
    assert own[k] == own[k];
  }

  /** No triangle runs along a side that has the new leaf j on its left. */
  lemma NoUser(g: Grove, nb: int, E: Edges, M: seq<Tri>, D: seq<int>, nutr: seq<int>, ts: seq<Tri3>, own: seq<int>,
      j: int, a: int, t: int)
    requires GroveOk(g, nb) && MeshInv(E, M) && Laid(g, E, M, D, nutr, ts, own) && IsLeaf(g, j) && j !in D
    requires Active(M, t) && Start(E, a) in g.S.pt && End(E, a) in g.S.pt
      && SideIn(g.P, g.T[j], Start(E, a), End(E, a))
    ensures !Uses(M[t], a)
  {
    if Uses(M[t], a) {
      var k := LaidAt(g, E, M, D, nutr, ts, own, t);
      assert TriOk(E, M, t);
      UseSide(E, M[t], a);
      NotPoint(g, nb, Start(E, a));
      NotPoint(g, nb, End(E, a));
      hide GroveOk, MeshInv, Laid, SideIn, IsLeaf, Verts, Start, End, TriWithin;
      OneLeft(g, nb, own[k], j, Start(E, a), End(E, a));
    }
  }

  lemma NotPoint(g: Grove, nb: int, x: int)
    requires GroveOk(g, nb) && x in g.S.pt
    ensures x !in g.home
  {
  }

  /** Triangle k of the template runs along its side s. */
  lemma TemplateSide(tp: Template, k: int, s: Side)
    requires Fits(tp) && 0 <= k < |tp.tris| && Templates.HasSide(tp.tris[k], s)
    ensures SideAt(CornersAt(tp, k), From(tp.entries, s), To(tp.entries, s))
  {
    assert TriFits(tp, k);
  }

  /** An edge of a template has leaf j on the left of each of its triangles. */
  ghost predicate EntrySides(P: seq<Point>, t: Te, en: Entry) {
    var a, b := if en.fwd then en.u else en.v, if en.fwd then en.v else en.u;
    SideIn(P, t, a, b) && (en.k2 >= 0 ==> SideIn(P, t, b, a))
  }

  lemma EntrySidesOf(P: seq<Point>, t: Te, tp: Template, e: int)
    requires Fits(tp) && 0 <= e < |tp.entries|
    requires forall k | 0 <= k < |tp.tris| ::
      AreaOf(P, CornersAt(tp, k)) > 0.0 && TriWithin(P, CornersAt(tp, k), TeTri(t))
    ensures EntrySides(P, t, tp.entries[e])
  {
    var en := tp.entries[e];
    assert EntryFits(tp, e);
    TemplateSide(tp, en.k1, Templates.Side(e, en.fwd));
    CornersSide(P, t, CornersAt(tp, en.k1), if en.fwd then en.u else en.v, if en.fwd then en.v else en.u);
    if en.k2 >= 0 {
      TemplateSide(tp, en.k2, Templates.Side(e, !en.fwd));
      CornersSide(P, t, CornersAt(tp, en.k2), if en.fwd then en.v else en.u, if en.fwd then en.u else en.v);
    }
    hide Fits, SideIn;
  }

  /** A side of a positive triangle in t. */
  lemma CornersSide(P: seq<Point>, t: Te, c: Tri3, x: int, y: int)
    requires AreaOf(P, c) > 0.0 && TriWithin(P, c, TeTri(t)) && SideAt(c, x, y)
    ensures SideIn(P, t, x, y)
  {
    TurnedAll(P, c.0, c.1, c.2);
    hide Area;
    var w := if x == c.0 && y == c.1 then c.2 else if x == c.1 && y == c.2 then c.0 else c.1;
    assert AreaOf(P, (x, y, w)) > 0.0 && TriWithin(P, (x, y, w), TeTri(t)) by { hide In; }
  }

  /** The edge i, if the mesh has it, has room for the triangles of entry en of leaf j. */
  lemma RoomAt(g: Grove, nb: int, E: Edges, M: seq<Tri>, D: seq<int>, nutr: seq<int>, ts: seq<Tri3>, own: seq<int>,
      j: int, en: Entry, i: int)
    requires GroveOk(g, nb) && MeshInv(E, M) && Laid(g, E, M, D, nutr, ts, own) && IsLeaf(g, j) && j !in D
    requires EntrySides(g.P, g.T[j], en) && en.u in g.S.pt && en.v in g.S.pt && 0 <= en.k1 < 4 && -1 <= en.k2 < 4
    requires i in E && (E[i].st1, E[i].st2) == Ends(en)
    ensures Room(M, E[i], UseOf(en, i, E[i], [1, 1, 1, 1]))
  {
    hide *;
    var s := RunOf(E, M, en, i);
    LeafIndex(g, j);
    SidesOf(g.P, g.T[j], en);
    forall t | 0 <= t < |M| && Active(M, t) ensures !Uses(M[t], s) && (en.k2 >= 0 ==> !Uses(M[t], -s)) {
      NoUser(g, nb, E, M, D, nutr, ts, own, j, s, t);
      if en.k2 >= 0 {
        NoUser(g, nb, E, M, D, nutr, ts, own, j, -s, t);
      }
    }
    EdgeSoundAt(E, M, i);
    RoomFrom(E, M, en, i, s);
  }

  lemma LeafIndex(g: Grove, j: int)
    requires IsLeaf(g, j)
    ensures j in g.S.geo && 1 <= j < |g.T|
  {
  }

  function Tail(en: Entry): (r: int) {
    if en.fwd then en.u else en.v
  }

  function Head(en: Entry): (r: int) {
    if en.fwd then en.v else en.u
  }

  lemma SidesOf(P: seq<Point>, t: Te, en: Entry)
    requires EntrySides(P, t, en)
    ensures SideIn(P, t, Tail(en), Head(en)) && (en.k2 >= 0 ==> SideIn(P, t, Head(en), Tail(en)))
    ensures (Tail(en) == en.u && Head(en) == en.v) || (Tail(en) == en.v && Head(en) == en.u)
  {
    hide SideIn;
  }

  /** The edge i as triangle k1 runs it. */
  lemma RunOf(E: Edges, M: seq<Tri>, en: Entry, i: int) returns (s: int)
    requires MeshInv(E, M) && i in E && (E[i].st1, E[i].st2) == Ends(en)
    ensures s == (if E[i].st1 == Tail(en) then i else -i) && i > 0
    ensures Start(E, s) == Tail(en) && End(E, s) == Head(en) && Start(E, -s) == Head(en) && End(E, -s) == Tail(en)
  {
    assert EdgeOk(E, M, i) && i > 0;
    hide MeshInv;
    s := if E[i].st1 == Tail(en) then i else -i;
  }

  lemma EdgeSoundAt(E: Edges, M: seq<Tri>, i: int)
    requires MeshInv(E, M) && i in E
    ensures EdgeOk(E, M, i) && i > 0
  {
  }

  lemma RoomFrom(E: Edges, M: seq<Tri>, en: Entry, i: int, s: int)
    requires i in E && EdgeOk(E, M, i) && i > 0 && s == (if E[i].st1 == Tail(en) then i else -i)
    requires forall t | 0 <= t < |M| && Active(M, t) :: !Uses(M[t], s) && (en.k2 >= 0 ==> !Uses(M[t], -s))
    requires 0 <= en.k1 < 4 && -1 <= en.k2 < 4
    ensures Room(M, E[i], UseOf(en, i, E[i], [1, 1, 1, 1]))
  {
    hide Uses;
    assert E[i].tr1 > 0 ==> Active(M, E[i].tr1);
    assert E[i].tr2 > 0 ==> Active(M, E[i].tr2);
    assert en.k2 >= 0 ==> [1, 1, 1, 1][en.k2] == 1;
  }

  lemma RoomForLeaf(g: Grove, nb: int, E: Edges, M: seq<Tri>, D: seq<int>, nutr: seq<int>, ts: seq<Tri3>,
      own: seq<int>, j: int, en: Entry)
    requires GroveOk(g, nb) && MeshInv(E, M) && Laid(g, E, M, D, nutr, ts, own) && IsLeaf(g, j) && j !in D
    requires EntrySides(g.P, g.T[j], en) && en.u in g.S.pt && en.v in g.S.pt && 0 <= en.k1 < 4 && -1 <= en.k2 < 4
    ensures RoomFor(E, M, en)
  {
    hide GroveOk, MeshInv, Laid, IsLeaf, EntrySides, Room, UseOf;
    forall i | i in E && (E[i].st1, E[i].st2) == Ends(en) ensures Room(M, E[i], UseOf(en, i, E[i], [1, 1, 1, 1])) {
      RoomAt(g, nb, E, M, D, nutr, ts, own, j, en, i);
    }
  }

  /** The points of a leaf not meshed yet have no triangle. */
  lemma LonePoint(g: Grove, nb: int, E: Edges, M: seq<Tri>, D: seq<int>, nutr: seq<int>, ts: seq<Tri3>, own: seq<int>,
      j: int, q: int)
    requires GroveOk(g, nb) && MeshInv(E, M) && Laid(g, E, M, D, nutr, ts, own) && j !in D
    requires q in g.home && g.home[q] == j && q > 0
    ensures Lone(E, q)
  {
    forall i | i in E && (E[i].st1 == q || E[i].st2 == q) ensures E[i].tr1 <= 0 && E[i].tr2 <= 0 {
      if E[i].tr1 > 0 {
        NotOfPoint(g, nb, E, M, D, nutr, ts, own, j, q, i, E[i].tr1);
      }
      if E[i].tr2 > 0 {
        NotOfPoint(g, nb, E, M, D, nutr, ts, own, j, q, i, E[i].tr2);
      }
    }
    hide GroveOk, MeshInv, Laid;
  }

  lemma NotOfPoint(g: Grove, nb: int, E: Edges, M: seq<Tri>, D: seq<int>, nutr: seq<int>, ts: seq<Tri3>, own: seq<int>,
      j: int, q: int, i: int, t: int)
    requires GroveOk(g, nb) && MeshInv(E, M) && Laid(g, E, M, D, nutr, ts, own) && j !in D
    requires q in g.home && g.home[q] == j && i in E && (E[i].st1 == q || E[i].st2 == q)
    ensures t > 0 ==> !Listed(E[i], t)
  {
    if t > 0 && Listed(E[i], t) {
      ListedCorner(E, M, i, t, q);
      hide *;
      var k := LaidAt(g, E, M, D, nutr, ts, own, t);
      CornerOwner(g, nb, own[k], ts[k], q);
    }
  }

  lemma CornerOwner(g: Grove, nb: int, j: int, c: Tri3, q: int)
    requires GroveOk(g, nb) && OfLeaf(g, j, c) && CornerAt(c, q) && q in g.home
    ensures g.home[q] == j
  {
  }

  /** An end of an edge is a corner of each triangle it lists. */
  lemma ListedCorner(E: Edges, M: seq<Tri>, i: int, t: int, q: int)
    requires MeshInv(E, M) && i in E && t > 0 && Listed(E[i], t) && (E[i].st1 == q || E[i].st2 == q)
    ensures Active(M, t) && CornerAt(Verts(E, M[t]), q)
  {
    assert EdgeOk(E, M, i) && TriOk(E, M, t);
    hide MeshInv;
    UseSide(E, M[t], if Uses(M[t], i) then i else -i);
    hide Cycle, Verts;
  }

  // ---------------------------------------------------------------- the vertices of a leaf

  /** m is 0, or the vertex of the tree in the middle between u and v. */
  ghost predicate MiddleOf(g: Grove, m: int, u: int, v: int) {
    m >= 0 && (m > 0 ==> m in g.S.pt && PointOf(g.P, m) == Middle(PointOf(g.P, u), PointOf(g.P, v)))
  }

  ghost predicate Middles(g: Grove, j: int, m1: int, m2: int, m3: int) {
    && 0 <= j < |g.T|
    && MiddleOf(g, m1, g.T[j].v1, g.T[j].v2) && MiddleOf(g, m2, g.T[j].v2, g.T[j].v3)
    && MiddleOf(g, m3, g.T[j].v3, g.T[j].v1)
  }

  lemma LeafCorners(g: Grove, nb: int, j: int)
    requires GroveOk(g, nb) && IsLeaf(g, j)
    ensures g.T[j].v1 in g.S.pt && g.T[j].v2 in g.S.pt && g.T[j].v3 in g.S.pt
    ensures 1 <= g.T[j].v1 <= nb && 1 <= g.T[j].v2 <= nb && 1 <= g.T[j].v3 <= nb
    ensures AreaOf(g.P, (g.T[j].v1, g.T[j].v2, g.T[j].v3)) > 0.0
  {
    PlacedAt(g.T, g.S, g.P, j);
    assert CornersNamed(g.T, g.S, j);
    hide Woven, Splitting.Placed, Stocked, Lattice.Corner, Area;
    assert PtOk(g.T, g.S, nb, Lattice.Corner(g.S.geo[j], 1)) && PtOk(g.T, g.S, nb, Lattice.Corner(g.S.geo[j], 2))
      && PtOk(g.T, g.S, nb, Lattice.Corner(g.S.geo[j], 3));
  }

  lemma SixPoints(a: Point, b: Point, c: Point)
    requires Area(a, b, c) > 0.0
    ensures a != b && b != c && c != a
    ensures Middle(a, b) != a && Middle(a, b) != b && Middle(a, b) != c
    ensures Middle(b, c) != a && Middle(b, c) != b && Middle(b, c) != c
    ensures Middle(c, a) != a && Middle(c, a) != b && Middle(c, a) != c
    ensures Middle(a, b) != Middle(b, c) && Middle(b, c) != Middle(c, a) && Middle(c, a) != Middle(a, b)
  {
    Different(a, b, c);
    MiddleAway(a, b, c);
    MiddleAway(b, c, a);
    MiddleAway(c, a, b);
    TurnAreas(a, b, c);
    hide Middle;
  }

  /** The middle of ab is no other corner or middle. */
  lemma MiddleAway(a: Point, b: Point, c: Point)
    ensures Area(a, b, c) > 0.0 ==> Middle(a, b) != a && Middle(a, b) != b && Middle(a, b) != c
                                    && Middle(a, b) != Middle(b, c)
  {
    if Area(a, b, c) > 0.0 {
      assert Area(a, b, Middle(a, b)) == 0.0;
      assert Area(a, b, Middle(b, c)) == 0.5 * Area(a, b, c);
      Different(a, b, c);
      assert Middle(a, b).x == a.x && Middle(a, b).y == a.y ==> a == b;
      assert Middle(a, b).x == b.x && Middle(a, b).y == b.y ==> a == b;
    }
  }

  lemma LeafDistinct(P: seq<Point>, v1: int, v2: int, v3: int, m1: int, m2: int, m3: int)
    requires v1 > 0 && v2 > 0 && v3 > 0 && m1 >= 0 && m2 >= 0 && m3 >= 0 && AreaOf(P, (v1, v2, v3)) > 0.0
    requires m1 > 0 ==> PointOf(P, m1) == Middle(PointOf(P, v1), PointOf(P, v2))
    requires m2 > 0 ==> PointOf(P, m2) == Middle(PointOf(P, v2), PointOf(P, v3))
    requires m3 > 0 ==> PointOf(P, m3) == Middle(PointOf(P, v3), PointOf(P, v1))
    ensures LeafVertices(v1, v2, v3, m1, m2, m3)
  {
    SixPoints(PointOf(P, v1), PointOf(P, v2), PointOf(P, v3));
    hide PointOf, Middle, Area;
  }

  /** Slot k of leaf j is empty or holds a point of it. */
  ghost predicate SlotOk(g: Grove, nb: int, j: int, k: int) {
    && 0 <= j < |g.T|
    && var q := -Sub(g.T[j], k);
       q != 0 ==> 0 < q <= nb && q in g.home && g.home[q] == j && q !in g.S.pt && Holds(g.P, g.T[j], q)
  }

  /** The slots of leaf j hold different points. */
  ghost predicate SlotsDiffer(g: Grove, j: int) {
    && 0 <= j < |g.T|
    && forall i, k | 0 <= i < k <= 3 && Sub(g.T[j], i) != 0 :: Sub(g.T[j], i) != Sub(g.T[j], k)
  }

  lemma GroveStocked(g: Grove, nb: int, j: int)
    requires GroveOk(g, nb) && IsLeaf(g, j)
    ensures Stocked(g.T, g.S, g.P, nb, g.home) && j in g.S.geo && 1 <= j < |g.T| && g.T[j].s0 <= 0
    ensures forall q | q in g.home :: q !in g.S.pt
  {
    hide Woven, Named, Numbered, Splitting.Placed, Stocked;
  }

  lemma StockedLeaf(T: seq<Te>, S: Shape, P: seq<Point>, nb: int, home: map<int, int>, j: int)
    requires Stocked(T, S, P, nb, home) && j in S.geo && 0 <= j < |T|
    ensures LeafOk(T, P, home, j) && forall q | q in home :: q > 0 && q <= nb
  {
    hide LeafOk;
  }

  lemma LeafSlot(T: seq<Te>, P: seq<Point>, home: map<int, int>, j: int, k: int)
    requires 0 <= j < |T| && LeafOk(T, P, home, j) && T[j].s0 <= 0 && 0 <= k <= 3
    ensures Sub(T[j], k) != 0 ==>
              -Sub(T[j], k) in home && home[-Sub(T[j], k)] == j && Holds(P, T[j], -Sub(T[j], k))
  {
    hide Holds;
  }

  lemma LeafSlotsDiffer(T: seq<Te>, P: seq<Point>, home: map<int, int>, j: int)
    requires 0 <= j < |T| && LeafOk(T, P, home, j) && T[j].s0 <= 0
    ensures forall i, k | 0 <= i < k <= 3 && Sub(T[j], i) != 0 :: Sub(T[j], i) != Sub(T[j], k)
  {
    hide Holds;
  }

  lemma SlotFacts(g: Grove, nb: int, j: int)
    requires GroveOk(g, nb) && IsLeaf(g, j)
    ensures SlotsDiffer(g, j) && forall k | 0 <= k <= 3 :: SlotOk(g, nb, j, k)
  {
    hide *;
    GroveStocked(g, nb, j);
    StockedLeaf(g.T, g.S, g.P, nb, g.home, j);
    LeafSlotsDiffer(g.T, g.P, g.home, j);
    SlotsOf(g, j);
    forall k | 0 <= k <= 3 ensures SlotOk(g, nb, j, k) {
      LeafSlot(g.T, g.P, g.home, j, k);
      SlotFrom(g, nb, j, k);
    }
  }

  lemma SlotsOf(g: Grove, j: int)
    requires 0 <= j < |g.T| && forall i, k | 0 <= i < k <= 3 && Sub(g.T[j], i) != 0 :: Sub(g.T[j], i) != Sub(g.T[j], k)
    ensures SlotsDiffer(g, j)
  {
  }

  lemma SlotFrom(g: Grove, nb: int, j: int, k: int)
    requires 0 <= j < |g.T|
    requires Sub(g.T[j], k) != 0 ==>
      -Sub(g.T[j], k) in g.home && g.home[-Sub(g.T[j], k)] == j && Holds(g.P, g.T[j], -Sub(g.T[j], k))
    requires forall q | q in g.home :: q > 0 && q <= nb && q !in g.S.pt
    ensures SlotOk(g, nb, j, k)
  {
    hide Sub, Holds;
  }

  lemma LeafReady(g: Grove, nb: int, j: int, m1: int, m2: int, m3: int)
    requires GroveOk(g, nb) && IsLeaf(g, j) && Middles(g, j, m1, m2, m3)
    ensures 0 <= j < |g.T| && LeafOk3(g.P, g.T[j], m1, m2, m3)
  {
    LeafCorners(g, nb, j);
    SlotFacts(g, nb, j);
    hide GroveOk, IsLeaf;
    LeafReadyFrom(g, nb, j, m1, m2, m3);
  }

  lemma LeafReadyFrom(g: Grove, nb: int, j: int, m1: int, m2: int, m3: int)
    requires Middles(g, j, m1, m2, m3) && forall k | 0 <= k <= 3 :: SlotOk(g, nb, j, k)
    requires var t := g.T[j];
      t.v1 in g.S.pt && t.v2 in g.S.pt && t.v3 in g.S.pt && t.v1 > 0 && t.v2 > 0 && t.v3 > 0
      && AreaOf(g.P, (t.v1, t.v2, t.v3)) > 0.0
    ensures LeafOk3(g.P, g.T[j], m1, m2, m3)
  {
    var t := g.T[j];
    LeafDistinct(g.P, t.v1, t.v2, t.v3, m1, m2, m3);
    hide Area, PointOf, Middle, LeafVertices, Sub, Holds;
    forall k | 0 <= k <= 3 && Sub(t, k) != 0 ensures -Sub(t, k) !in [t.v1, t.v2, t.v3, m1, m2, m3] {
      assert SlotOk(g, nb, j, k);
    }
  }

  /** The points of a leaf are ready to be added. */
  lemma PointsReady(g: Grove, nb: int, E: Edges, M: seq<Tri>, D: seq<int>, nutr: seq<int>, ts: seq<Tri3>,
      own: seq<int>, j: int, mx: int)
    requires GroveOk(g, nb) && MeshInv(E, M) && Laid(g, E, M, D, nutr, ts, own) && IsLeaf(g, j) && j !in D && nb <= mx
    ensures 0 <= j < |g.T| && PointsOk(E, g.P, g.T[j], mx, 0)
  {
    hide *;
    SlotFacts(g, nb, j);
    LeafIndex(g, j);
    forall k | 0 <= k <= 3 ensures SlotOk(g, nb, j, k) && (Sub(g.T[j], k) != 0 ==> Lone(E, -Sub(g.T[j], k))) {
      SlotHome(g, nb, j, k);
      if Sub(g.T[j], k) != 0 {
        LonePoint(g, nb, E, M, D, nutr, ts, own, j, -Sub(g.T[j], k));
      }
    }
    PointsFrom(g, nb, E, j, mx);
  }

  lemma SlotHome(g: Grove, nb: int, j: int, k: int)
    requires SlotOk(g, nb, j, k)
    ensures 0 <= j < |g.T|
    ensures Sub(g.T[j], k) != 0 ==>
              -Sub(g.T[j], k) in g.home && g.home[-Sub(g.T[j], k)] == j && -Sub(g.T[j], k) > 0
  {
    hide Sub, Holds;
  }

  lemma PointsFrom(g: Grove, nb: int, E: Edges, j: int, mx: int)
    requires SlotsDiffer(g, j) && nb <= mx && forall k | 0 <= k <= 3 :: SlotOk(g, nb, j, k)
    requires forall k | 0 <= k <= 3 && Sub(g.T[j], k) != 0 :: Lone(E, -Sub(g.T[j], k))
    ensures PointsOk(E, g.P, g.T[j], mx, 0)
  {
    hide Sub, Holds, Lone;
    var t := g.T[j];
    forall i | 0 <= i <= 3 && Sub(t, i) != 0
      ensures Sub(t, i) < 0 && -Sub(t, i) <= mx && Lone(E, -Sub(t, i)) && Holds(g.P, t, -Sub(t, i))
    {
      assert SlotOk(g, nb, j, i);
    }
  }

  /** The entries of a template name vertices of the leaf. */
  lemma EntryVertices(v1: int, v2: int, v3: int, m1: int, m2: int, m3: int, e: int)
    requires LeafVertices(v1, v2, v3, m1, m2, m3)
    requires 0 <= e < |TemplateOf(v1, v2, v3, m1, m2, m3).entries|
    ensures var en := TemplateOf(v1, v2, v3, m1, m2, m3).entries[e]; var l := [v1, v2, v3, m1, m2, m3];
      en.u in l && en.v in l && en.u > 0 && en.v > 0 && 0 <= en.k1 < 4 && -1 <= en.k2 < 4
  {
    var l := [v1, v2, v3, m1, m2, m3];
    assert l[0] == v1 && l[1] == v2 && l[2] == v3 && l[3] == m1 && l[4] == m2 && l[5] == m3;
  }

  // ---------------------------------------------------------------- one leaf more

  /** Every entry of the template of leaf j has room. */
  lemma TemplateRoom(g: Grove, nb: int, E: Edges, M: seq<Tri>, D: seq<int>, nutr: seq<int>, ts: seq<Tri3>,
      own: seq<int>, j: int, m1: int, m2: int, m3: int, e: int)
    requires GroveOk(g, nb) && MeshInv(E, M) && Laid(g, E, M, D, nutr, ts, own) && IsLeaf(g, j) && j !in D
    requires Middles(g, j, m1, m2, m3) && Numbers(g, nb)
    requires var t := g.T[j]; 0 <= e < |TemplateOf(t.v1, t.v2, t.v3, m1, m2, m3).entries|
    ensures var t := g.T[j]; var en := TemplateOf(t.v1, t.v2, t.v3, m1, m2, m3).entries[e];
      en.u <= nb && en.v <= nb && RoomFor(E, M, en)
  {
    hide *;
    LeafIndex(g, j);
    LeafReady(g, nb, j, m1, m2, m3);
    LeafTemplate(g, nb, j, m1, m2, m3);
    var t := g.T[j];
    EntryVertices(t.v1, t.v2, t.v3, m1, m2, m3, e);
    EntrySidesOf(g.P, t, TemplateOf(t.v1, t.v2, t.v3, m1, m2, m3), e);
    var en := TemplateOf(t.v1, t.v2, t.v3, m1, m2, m3).entries[e];
    TreeVertex(g, nb, j, m1, m2, m3, en.u);
    TreeVertex(g, nb, j, m1, m2, m3, en.v);
    NumbersAt(g, nb, en.u);
    NumbersAt(g, nb, en.v);
    RoomForLeaf(g, nb, E, M, D, nutr, ts, own, j, en);
  }

  /** The vertices of the tree are numbered up to nb. */
  ghost predicate Numbers(g: Grove, nb: int) {
    forall v | v in g.S.pt :: 1 <= v <= nb
  }

  lemma NumbersAt(g: Grove, nb: int, v: int)
    requires Numbers(g, nb) && v in g.S.pt
    ensures 1 <= v <= nb
  {
  }

  lemma TreeVertex(g: Grove, nb: int, j: int, m1: int, m2: int, m3: int, x: int)
    requires GroveOk(g, nb) && IsLeaf(g, j) && Middles(g, j, m1, m2, m3)
    requires 0 <= j < |g.T| && x in [g.T[j].v1, g.T[j].v2, g.T[j].v3, m1, m2, m3] && x > 0
    ensures x in g.S.pt
  {
    LeafCorners(g, nb, j);
    hide GroveOk, IsLeaf, Middle;
  }

  /** The triangles of the template of leaf j: positive, in the leaf and side by side. */
  lemma LeafTemplate(g: Grove, nb: int, j: int, m1: int, m2: int, m3: int)
    requires GroveOk(g, nb) && IsLeaf(g, j) && Middles(g, j, m1, m2, m3)
    ensures 0 <= j < |g.T|
    ensures var t := g.T[j]; var tp := TemplateOf(t.v1, t.v2, t.v3, m1, m2, m3);
      && LeafVertices(t.v1, t.v2, t.v3, m1, m2, m3) && Fits(tp) && 1 <= |tp.tris| <= 4
      && (forall k | 0 <= k < |tp.tris| :: AreaOf(g.P, CornersAt(tp, k)) > 0.0
                                           && TriWithin(g.P, CornersAt(tp, k), TeTri(t)))
      && ApartAll(g.P, CornersOfTemplate(tp)) && AllWithin(g.P, CornersOfTemplate(tp), TeTri(t))
  {
    LeafReady(g, nb, j, m1, m2, m3);
    var t := g.T[j];
    hide GroveOk, IsLeaf, Middles;
    LeafTemplateOf(g.P, t, m1, m2, m3);
  }

  lemma LeafTemplateOf(P: seq<Point>, t: Te, m1: int, m2: int, m3: int)
    requires LeafOk3(P, t, m1, m2, m3)
    ensures var tp := TemplateOf(t.v1, t.v2, t.v3, m1, m2, m3);
      && LeafVertices(t.v1, t.v2, t.v3, m1, m2, m3) && Fits(tp) && 1 <= |tp.tris| <= 4
      && (forall k | 0 <= k < |tp.tris| ::
        AreaOf(P, CornersAt(tp, k)) > 0.0 && TriWithin(P, CornersAt(tp, k), TeTri(t)))
      && ApartAll(P, CornersOfTemplate(tp)) && AllWithin(P, CornersOfTemplate(tp), TeTri(t))
  {
    hide *;
    LeafParts(P, t, m1, m2, m3);
    Fit(t.v1, t.v2, t.v3, m1, m2, m3);
    TemplateTiles(P, t.v1, t.v2, t.v3, m1, m2, m3);
    TemplateLies(P, t.v1, t.v2, t.v3, m1, m2, m3);
    var tp := TemplateOf(t.v1, t.v2, t.v3, m1, m2, m3);
    TriOfTe(t);
    forall k | 0 <= k < |tp.tris| ensures AreaOf(P, CornersAt(tp, k)) > 0.0
      && TriWithin(P, CornersAt(tp, k), TeTri(t)) {
      TemplatePart(P, tp, TeTri(t), k);
    }
  }

  lemma TriOfTe(t: Te)
    ensures TeTri(t) == (t.v1, t.v2, t.v3)
  {
  }

  lemma LeafParts(P: seq<Point>, t: Te, m1: int, m2: int, m3: int)
    requires LeafOk3(P, t, m1, m2, m3)
    ensures LeafVertices(t.v1, t.v2, t.v3, m1, m2, m3) && AreaOf(P, (t.v1, t.v2, t.v3)) > 0.0
    ensures m1 > 0 ==> PointOf(P, m1) == Middle(PointOf(P, t.v1), PointOf(P, t.v2))
    ensures m2 > 0 ==> PointOf(P, m2) == Middle(PointOf(P, t.v2), PointOf(P, t.v3))
    ensures m3 > 0 ==> PointOf(P, m3) == Middle(PointOf(P, t.v3), PointOf(P, t.v1))
  {
    hide Middle, PointOf, Area, LeafVertices, Sub;
  }

  lemma TemplatePart(P: seq<Point>, tp: Template, v: Tri3, k: int)
    requires TilesLeaf(P, CornersOfTemplate(tp), v) && AllWithin(P, CornersOfTemplate(tp), v) && 0 <= k < |tp.tris|
    ensures AreaOf(P, CornersAt(tp, k)) > 0.0 && TriWithin(P, CornersAt(tp, k), v)
  {
    var cs := CornersOfTemplate(tp);
    assert cs[k] == CornersAt(tp, k);
    hide Covers, TriWithin, CornersAt, Area;
  }

  /** The corners of the template are vertices of the tree. */
  lemma TemplateCorners(g: Grove, nb: int, j: int, m1: int, m2: int, m3: int, x: int)
    requires GroveOk(g, nb) && IsLeaf(g, j) && Middles(g, j, m1, m2, m3)
    requires var t := g.T[j]; CornerIn(CornersOfTemplate(TemplateOf(t.v1, t.v2, t.v3, m1, m2, m3)), x)
    ensures x in g.S.pt
  {
    hide *;
    LeafIndex(g, j);
    LeafReady(g, nb, j, m1, m2, m3);
    var t := g.T[j];
    LeafParts(g.P, t, m1, m2, m3);
    CornerAmong(t.v1, t.v2, t.v3, m1, m2, m3, x);
    TreeVertex(g, nb, j, m1, m2, m3, x);
  }

  lemma CornerAmong(v1: int, v2: int, v3: int, m1: int, m2: int, m3: int, x: int)
    requires LeafVertices(v1, v2, v3, m1, m2, m3)
    requires CornerIn(CornersOfTemplate(TemplateOf(v1, v2, v3, m1, m2, m3)), x)
    ensures x in [v1, v2, v3, m1, m2, m3] && x > 0
  {
    var cs := CornersOfTemplate(TemplateOf(v1, v2, v3, m1, m2, m3));
    var k :| 0 <= k < |cs| && CornerAt(cs[k], x);
    CornerPositive(v1, v2, v3, m1, m2, m3, k, x);
    hide TemplateOf, CornersAt, LeafVertices;
    if x !in [v1, v2, v3, m1, m2, m3] {
      CornersOnly(v1, v2, v3, m1, m2, m3, k, x);
      assert false;
    }
  }

  lemma CornerPositive(v1: int, v2: int, v3: int, m1: int, m2: int, m3: int, k: int, x: int)
    requires LeafVertices(v1, v2, v3, m1, m2, m3)
    requires var tp := TemplateOf(v1, v2, v3, m1, m2, m3); 0 <= k < |tp.tris| && CornerAt(CornersAt(tp, k), x)
    ensures x > 0
  {
  }
}
