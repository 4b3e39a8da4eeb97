/** The guard of `tedela_` against endless loops: it turns down an exchange in a circle of the same
    radius as that of the exchange before. */
module Guard {
  import opened Geometry
  import opened Planar
  import opened EdgeTable
  import opened Mesh
  import opened Exchange
  import opened Delaunay

  ghost predicate Corner(G: seq<Corners>, v: int) {
    v > 0 && exists t :: 0 <= t < |G| && (v == G[t].0 || v == G[t].1 || v == G[t].2)
  }

  /** s are four vertices of triangulation G that pass the tests of tedela_, 123 positive. */
  ghost predicate Candidate(P: seq<Point>, G: seq<Corners>, s: (int, int, int, int)) {
    && Corner(G, s.0) && Corner(G, s.1) && Corner(G, s.2) && Corner(G, s.3)
    && AreaOf(P, (s.0, s.1, s.2)) > 0.0 && WantsAt(P, s)
  }

  /** No two circles with a vertex in them, through different triples of vertices, have one radius. */
  ghost predicate Lone(P: seq<Point>, G: seq<Corners>) {
    forall s, q | Candidate(P, G, s) && Candidate(P, G, q) && CircleAt(P, s) == CircleAt(P, q) ::
      Same((s.0, s.1, s.2), (q.0, q.1, q.2))
  }

  /** Two triples of vertices with circles of one radius are the same triangle. */
  ghost predicate General(P: seq<Point>, G: seq<Corners>) {
    forall a, b, c, p, q, r {:trigger AreaOf(P, (a, b, c)), AreaOf(P, (p, q, r))} |
      Vertices(P, G, (a, b, c)) && Vertices(P, G, (p, q, r))
      && Radius2(PointOf(P, a), PointOf(P, b), PointOf(P, c)) == Radius2(PointOf(P, p), PointOf(P, q), PointOf(P, r)) ::
      Same((a, b, c), (p, q, r))
  }

  /** c is a positive triangle, of vertices of G. */
  ghost predicate Vertices(P: seq<Point>, G: seq<Corners>, c: Corners) {
    Corner(G, c.0) && Corner(G, c.1) && Corner(G, c.2) && AreaOf(P, c) > 0.0
  }

  lemma GeneralLone(P: seq<Point>, G: seq<Corners>)
    requires General(P, G)
    ensures Lone(P, G)
  {
    hide Radius2, WantsAt, Corner, Area;
    forall s, q | Candidate(P, G, s) && Candidate(P, G, q) && CircleAt(P, s) == CircleAt(P, q)
      ensures Same((s.0, s.1, s.2), (q.0, q.1, q.2))
    {
      assert Vertices(P, G, (s.0, s.1, s.2)) && Vertices(P, G, (q.0, q.1, q.2));
    }
  }

  ghost predicate NoNewCorners(G0: seq<Corners>, G: seq<Corners>) {
    forall v | Corner(G, v) :: Corner(G0, v)
  }

  lemma SameCorners(G: seq<Corners>)
    ensures NoNewCorners(G, G)
  {
  }

  /** Three vertices that made a circle of squared radius r are no triangle of G any more. */
  ghost predicate Gone(P: seq<Point>, G0: seq<Corners>, G: seq<Corners>, r: real) {
    exists s :: Candidate(P, G0, s) && CircleAt(P, s) == r && Missing(G, (s.0, s.1, s.2))
  }

  ghost predicate Missing(G: seq<Corners>, c: Corners) {
    forall t | 0 <= t < |G| :: !Same(c, G[t])
  }

  function Centroid(p: Point, q: Point, r: Point): (z: Point) {
    Point((p.x + q.x + r.x) / 3.0, (p.y + q.y + r.y) / 3.0)
  }

  lemma CentroidArea(p: Point, q: Point, r: Point)
    ensures 3.0 * Area(p, q, Centroid(p, q, r)) == Area(p, q, r)
  {
  }

  lemma CentroidInside(p: Point, q: Point, r: Point)
    requires Area(p, q, r) > 0.0
    ensures Inside(Centroid(p, q, r), p, q, r)
  {
    CentroidArea(p, q, r);
    CentroidArea(q, r, p);
    CentroidArea(r, p, q);
    Turned(p, q, r);
    assert Centroid(q, r, p) == Centroid(p, q, r) == Centroid(r, p, q);
    hide Area;
  }

  /** Two triangles of an embedded triangulation never have the same corners. */
  lemma SameOverlaps(P: seq<Point>, c: Corners, d: Corners)
    requires Same(c, d) && AreaOf(P, c) > 0.0
    ensures !Apart(P, c, d)
  {
    TurnedCorners(P, c, d);
    CentroidInside(PointOf(P, c.0), PointOf(P, c.1), PointOf(P, c.2));
    hide Area, Inside;
    assert !Apart(P, c, c);
  }

  lemma SwapMissing(P: seq<Point>, G: seq<Corners>, G': seq<Corners>, t1: int, t2: int, s: (int, int, int, int))
    requires Embedded(P, G) && Swap(G, G', t1, t2, s) && WantsAt(P, s)
    ensures Missing(G', (s.0, s.1, s.2)) && AreaOf(P, (s.0, s.1, s.2)) > 0.0
  {
    SwapConvex(P, G, G', t1, t2, s);
    TurnedCorners(P, (s.0, s.1, s.2), G[t1]);
    var p1, p2, p3, p4 := PointOf(P, s.0), PointOf(P, s.1), PointOf(P, s.2), PointOf(P, s.3);
    Turned(p1, p4, p2);
    Turned(p2, p3, p4);
    Turned(p1, p4, p3);
    hide Area, Disjoint, Wants;
    assert s.3 != s.0 && s.3 != s.1 && s.3 != s.2;
    forall t | 0 <= t < |G'| ensures !Same((s.0, s.1, s.2), G'[t]) {
      if t != t1 && t != t2 && Same((s.0, s.1, s.2), G[t]) {
        SameOverlaps(P, (s.0, s.1, s.2), G[t]);
        assert false;
      }
    }
  }

  lemma SwapCorners(G: seq<Corners>, G': seq<Corners>, t1: int, t2: int, s: (int, int, int, int))
    requires Swap(G, G', t1, t2, s)
    ensures Corner(G, s.0) && Corner(G, s.1) && Corner(G, s.2) && Corner(G, s.3)
    ensures NoNewCorners(G, G')
  {
    forall v | Corner(G', v) ensures Corner(G, v) {
      var t :| 0 <= t < |G'| && (v == G'[t].0 || v == G'[t].1 || v == G'[t].2);
      if t == t1 || t == t2 {
        assert v in [s.0, s.1, s.2, s.3];
      } else {
        assert G'[t] == G[t];
      }
    }
  }

  lemma CandidateFrom(P: seq<Point>, G0: seq<Corners>, G: seq<Corners>, s: (int, int, int, int))
    requires NoNewCorners(G0, G) && Candidate(P, G, s)
    ensures Candidate(P, G0, s)
  {
  }

  /** After an exchange its old first triangle is gone. */
  lemma FlippedGone(P: seq<Point>, G0: seq<Corners>, G: seq<Corners>, G': seq<Corners>, r: real)
    requires Embedded(P, G) && NoNewCorners(G0, G) && Flipped(P, G, G', r)
    ensures NoNewCorners(G0, G') && Gone(P, G0, G', r)
  {
    var t1, t2, s :| Swap(G, G', t1, t2, s) && WantsAt(P, s) && r == CircleAt(P, s);
    SwapCorners(G, G', t1, t2, s);
    SwapMissing(P, G, G', t1, t2, s);
    hide Embedded, Swap, WantsAt, Corner, Missing, CircleAt, AreaOf;
    CandidateFrom(P, G0, G, s);
  }

  /** The quadrangle of an edge that wants an exchange is a candidate. */
  lemma QuadCandidate(P: seq<Point>, E: Edges, T: seq<Tri>, i: int)
    requires MeshInv(E, T) && Inner(E, T, i) && Embedded(P, Shape(E, T)) && WantsAt(P, Quad(E, T, i))
    ensures Candidate(P, Shape(E, T), Quad(E, T, i))
    ensures var s := Quad(E, T, i);
      0 <= E[i].tr1 < |T| && Same((s.0, s.1, s.2), Shape(E, T)[E[i].tr1])
  {
    var G, s := Shape(E, T), Quad(E, T, i);
    QuadConvex(P, E, T, i);
    PocketOf(E, T, i);
    TurnSame(E, T[E[i].tr1], i);
    TurnSame(E, T[E[i].tr2], i);
    hide Turn, Start, MeshInv, Area, WantsAt;
    SwapCorners(G, G[E[i].tr1 := (s.0, s.3, s.2)][E[i].tr2 := (s.1, s.2, s.3)], E[i].tr1, E[i].tr2, s);
  }

  lemma OneTriple(P: seq<Point>, G0: seq<Corners>, G: seq<Corners>, q: (int, int, int, int), t: int, r: real)
    requires Lone(P, G0) && Candidate(P, G0, q) && Gone(P, G0, G, r)
    requires 0 <= t < |G| && Same((q.0, q.1, q.2), G[t])
    ensures CircleAt(P, q) != r
  {
    hide Candidate, CircleAt;
    var s :| Candidate(P, G0, s) && CircleAt(P, s) == r && Missing(G, (s.0, s.1, s.2));
    assert CircleAt(P, q) == CircleAt(P, s) ==> Same((s.0, s.1, s.2), (q.0, q.1, q.2));
  }

  /** Where circles have different radii the guard never fires. */
  lemma GuardIdle(P: seq<Point>, G0: seq<Corners>, E: Edges, T: seq<Tri>, i: int, r: real)
    requires MeshInv(E, T) && Inner(E, T, i) && Embedded(P, Shape(E, T)) && WantsAt(P, Quad(E, T, i))
    requires Lone(P, G0) && NoNewCorners(G0, Shape(E, T)) && Gone(P, G0, Shape(E, T), r)
    ensures CircleAt(P, Quad(E, T, i)) != r
  {
    QuadCandidate(P, E, T, i);
    hide Turn, Start, MeshInv, WantsAt, Candidate, CircleAt, Quad, Embedded, Shape, Lone, Gone, NoNewCorners, Same;
    CandidateFrom(P, G0, Shape(E, T), Quad(E, T, i));
    OneTriple(P, G0, Shape(E, T), Quad(E, T, i), E[i].tr1, r);
  }
}
