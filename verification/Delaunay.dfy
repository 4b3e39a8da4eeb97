/** What one diagonal exchange does to a triangulation seen as a table of corners: it stays
    embedded, keeps its area and loses energy. */
module Delaunay {
  import opened Geometry
  import opened Planar
  import opened EdgeTable
  import opened Mesh
  import opened Exchange

  type Corners = (int, int, int)

  /** The corners of every active triangle; (0, 0, 0) for a free column. */
  function Shape(E: Edges, T: seq<Tri>): (r: seq<Corners>) {
    seq(|T|, t requires 0 <= t < |T| => if Active(T, t) then Verts(E, T[t]) else (0, 0, 0))
  }

  function PointOf(P: seq<Point>, s: int): (r: Point) {
    if 0 <= s < |P| then P[s] else Point(0.0, 0.0)
  }

  function AreaOf(P: seq<Point>, c: Corners): (r: real) {
    Area(PointOf(P, c.0), PointOf(P, c.1), PointOf(P, c.2))
  }

  function EnergyOf(P: seq<Point>, c: Corners): (r: real) {
    Energy(PointOf(P, c.0), PointOf(P, c.1), PointOf(P, c.2))
  }

  function TotalArea(P: seq<Point>, G: seq<Corners>): (r: real) {
    if |G| == 0 then 0.0 else TotalArea(P, G[..|G| - 1]) + AreaOf(P, G[|G| - 1])
  }

  /** The energy of a triangulation: free columns weigh nothing. */
  function TotalEnergy(P: seq<Point>, G: seq<Corners>): (r: real) {
    if |G| == 0 then 0.0 else TotalEnergy(P, G[..|G| - 1]) + EnergyOf(P, G[|G| - 1])
  }

  ghost predicate Apart(P: seq<Point>, c: Corners, d: Corners) {
    Disjoint(PointOf(P, c.0), PointOf(P, c.1), PointOf(P, c.2), PointOf(P, d.0), PointOf(P, d.1), PointOf(P, d.2))
  }

  /** Every triangle is positively oriented, and no two share an interior point. */
  ghost predicate Embedded(P: seq<Point>, G: seq<Corners>) {
    && (forall t | 0 <= t < |G| && G[t] != (0, 0, 0) :: AreaOf(P, G[t]) > 0.0)
    && (forall t, u | 0 <= t < |G| && 0 <= u < |G| && t != u && G[t] != (0, 0, 0) && G[u] != (0, 0, 0) ::
      Apart(P, G[t], G[u]))
  }

  /** d is c turned. */
  predicate Same(c: Corners, d: Corners) {
    d == c || d == (c.1, c.2, c.0) || d == (c.2, c.0, c.1)
  }

  lemma TurnedCorners(P: seq<Point>, c: Corners, d: Corners)
    requires Same(c, d)
    ensures AreaOf(P, d) == AreaOf(P, c) && EnergyOf(P, d) == EnergyOf(P, c)
    ensures forall e: Corners :: (Apart(P, d, e) <==> Apart(P, c, e)) && (Apart(P, e, d) <==> Apart(P, c, e))
  {
    Turned(PointOf(P, c.0), PointOf(P, c.1), PointOf(P, c.2));
    hide Area;
  }

  /** The exchange of the diagonal of triangles t1, t2 of G. */
  ghost predicate Swap(G: seq<Corners>, G': seq<Corners>, t1: int, t2: int, s: (int, int, int, int)) {
    && 0 <= t1 < |G| && 0 <= t2 < |G| && t1 != t2
    && s.0 > 0 && s.1 > 0 && s.2 > 0 && s.3 > 0
    && Same((s.0, s.1, s.2), G[t1]) && Same((s.0, s.3, s.1), G[t2])
    && G' == G[t1 := (s.0, s.3, s.2)][t2 := (s.1, s.2, s.3)]
  }

  /** The tests of tedela_ on four corner numbers. */
  predicate WantsAt(P: seq<Point>, s: (int, int, int, int)) {
    Wants(PointOf(P, s.0), PointOf(P, s.1), PointOf(P, s.2), PointOf(P, s.3))
  }

  /** The squared radius of the circle through the first three corners, 0 when they are on a line. */
  function CircleAt(P: seq<Point>, s: (int, int, int, int)): (r: real) {
    var p, q, r := PointOf(P, s.0), PointOf(P, s.1), PointOf(P, s.2);
    if Area(p, q, r) == 0.0 then 0.0 else Radius2(p, q, r)
  }

  /** A diagonal whose fourth corner is in a circle of squared radius r is exchanged. */
  ghost predicate Flipped(P: seq<Point>, G: seq<Corners>, G': seq<Corners>, r: real) {
    exists t1, t2, s :: Swap(G, G', t1, t2, s) && WantsAt(P, s) && r == CircleAt(P, s)
  }

  lemma SwapConvex(P: seq<Point>, G: seq<Corners>, G': seq<Corners>, t1: int, t2: int, s: (int, int, int, int))
    requires Embedded(P, G) && Swap(G, G', t1, t2, s) && WantsAt(P, s)
    ensures Quadrangle(PointOf(P, s.0), PointOf(P, s.1), PointOf(P, s.2), PointOf(P, s.3))
  {
    TurnedCorners(P, (s.0, s.1, s.2), G[t1]);
    TurnedCorners(P, (s.0, s.3, s.1), G[t2]);
    hide Area;
    StrictlyConvex(PointOf(P, s.0), PointOf(P, s.1), PointOf(P, s.2), PointOf(P, s.3));
  }

  lemma SwapApart(P: seq<Point>, G: seq<Corners>, G': seq<Corners>, t1: int, t2: int, s: (int, int, int, int), u: int)
    requires Embedded(P, G) && Swap(G, G', t1, t2, s) && WantsAt(P, s)
    requires 0 <= u < |G| && u != t1 && u != t2 && G[u] != (0, 0, 0)
    ensures Apart(P, G'[t1], G[u]) && Apart(P, G[u], G'[t1]) && Apart(P, G'[t2], G[u]) && Apart(P, G[u], G'[t2])
  {
    var p1, p2, p3, p4 := PointOf(P, s.0), PointOf(P, s.1), PointOf(P, s.2), PointOf(P, s.3);
    var u1, u2, u3 := PointOf(P, G[u].0), PointOf(P, G[u].1), PointOf(P, G[u].2);
    assert Apart(P, G[t1], G[u]) && Apart(P, G[t2], G[u]);
    TurnedCorners(P, (s.0, s.1, s.2), G[t1]);
    TurnedCorners(P, (s.0, s.3, s.1), G[t2]);
    TurnedCorners(P, (s.0, s.1, s.2), (s.1, s.2, s.0));
    TurnedCorners(P, (s.0, s.3, s.1), (s.1, s.0, s.3));
    SwapConvex(P, G, G', t1, t2, s);
    ExchangeDisjoint(p1, p2, p3, p4, u1, u2, u3);
    assert Quadrangle(p2, p1, p4, p3) by {
      Turned(p1, p2, p3);
      Turned(p1, p4, p2);
      Turned(p1, p4, p3);
      Turned(p2, p3, p4);
      hide Area;
    }
    ExchangeDisjoint(p2, p1, p4, p3, u1, u2, u3);
    hide Disjoint;
    TurnedCorners(P, G'[t1], G'[t1]);
    TurnedCorners(P, G'[t2], G'[t2]);
  }

  /** The two new triangles lie on either side of the new diagonal. */
  lemma NewTrianglesApart(p1: Point, p2: Point, p3: Point, p4: Point)
    ensures Disjoint(p1, p4, p3, p2, p3, p4) && Disjoint(p2, p3, p4, p1, p4, p3)
  {
    forall z ensures !(Inside(z, p1, p4, p3) && Inside(z, p2, p3, p4)) {
      Turned(p3, p4, z);
    }
    hide Area;
  }

  lemma SwapEmbedded(P: seq<Point>, G: seq<Corners>, G': seq<Corners>, t1: int, t2: int, s: (int, int, int, int))
    requires Embedded(P, G) && Swap(G, G', t1, t2, s) && WantsAt(P, s)
    ensures Embedded(P, G')
  {
    SwapConvex(P, G, G', t1, t2, s);
    NewTrianglesApart(PointOf(P, s.0), PointOf(P, s.1), PointOf(P, s.2), PointOf(P, s.3));
    hide Area, Disjoint;
    forall t, u | 0 <= t < |G'| && 0 <= u < |G'| && t != u && G'[t] != (0, 0, 0) && G'[u] != (0, 0, 0)
      ensures Apart(P, G'[t], G'[u])
    {
      if t != t1 && t != t2 {
        SwapApart(P, G, G', t1, t2, s, t);
      } else if u != t1 && u != t2 {
        SwapApart(P, G, G', t1, t2, s, u);
      }
    }
  }

  lemma AreaUpdate(P: seq<Point>, G: seq<Corners>, t: int, c: Corners)
    requires 0 <= t < |G|
    ensures TotalArea(P, G[t := c]) == TotalArea(P, G) - AreaOf(P, G[t]) + AreaOf(P, c)
  {
    hide AreaOf;
    var n := |G| - 1;
    if t == n {
      assert G[t := c][..n] == G[..n];
    } else {
      assert G[t := c][..n] == G[..n][t := c];
      AreaUpdate(P, G[..n], t, c);
    }
  }

  lemma EnergyUpdate(P: seq<Point>, G: seq<Corners>, t: int, c: Corners)
    requires 0 <= t < |G|
    ensures TotalEnergy(P, G[t := c]) == TotalEnergy(P, G) - EnergyOf(P, G[t]) + EnergyOf(P, c)
  {
    hide EnergyOf;
    var n := |G| - 1;
    if t == n {
      assert G[t := c][..n] == G[..n];
    } else {
      assert G[t := c][..n] == G[..n][t := c];
      EnergyUpdate(P, G[..n], t, c);
    }
  }

  /** Any exchange conserves the total area, whatever the corners. */
  lemma SwapArea(P: seq<Point>, G: seq<Corners>, G': seq<Corners>, t1: int, t2: int, s: (int, int, int, int))
    requires Swap(G, G', t1, t2, s)
    ensures TotalArea(P, G') == TotalArea(P, G)
  {
    AreaUpdate(P, G, t1, G'[t1]);
    AreaUpdate(P, G[t1 := G'[t1]], t2, G'[t2]);
    TurnedCorners(P, (s.0, s.1, s.2), G[t1]);
    TurnedCorners(P, (s.0, s.3, s.1), G[t2]);
    AreaExchange(PointOf(P, s.0), PointOf(P, s.1), PointOf(P, s.2), PointOf(P, s.3));
    hide Area, TotalArea;
  }

  /** An exchange that passes the tests of tedela_ strictly lowers the energy. */
  lemma SwapEnergy(P: seq<Point>, G: seq<Corners>, G': seq<Corners>, t1: int, t2: int, s: (int, int, int, int))
    requires Embedded(P, G) && Swap(G, G', t1, t2, s) && WantsAt(P, s)
    ensures TotalEnergy(P, G') < TotalEnergy(P, G)
  {
    hide Area, TotalEnergy, Energy, Wants;
    var p1, p2, p3, p4 := PointOf(P, s.0), PointOf(P, s.1), PointOf(P, s.2), PointOf(P, s.3);
    EnergyUpdate(P, G, t1, G'[t1]);
    EnergyUpdate(P, G[t1 := G'[t1]], t2, G'[t2]);
    TurnedCorners(P, (s.0, s.1, s.2), G[t1]);
    TurnedCorners(P, (s.0, s.3, s.1), G[t2]);
    assert AreaOf(P, G[t1]) > 0.0;
    WantsLoses(p1, p2, p3, p4);
  }

  // ---------------------------------------------------------------- from the arrays to the corners

  lemma TurnSame(E: Edges, x: Tri, i: int)
    ensures Same(Verts(E, Turn(x, i)), Verts(E, x))
  {
  }

  /** The exchange of te2t2t_, seen on the corners. */
  lemma ExchangedSwaps(E: Edges, T: seq<Tri>, i: int, d: int, E': Edges, T': seq<Tri>)
    requires MeshInv(E, T) && Inner(E, T, i) && Exchanged(E, T, i, d, E', T')
    ensures Swap(Shape(E, T), Shape(E', T'), E[i].tr1, E[i].tr2, Quad(E, T, i))
  {
    hide Turn, Start, MeshInv, FlipEdges;
    FlipKeeps(E, T, i, d, E'[d]);
    PocketOf(E, T, i);
    TurnSame(E, T[E[i].tr1], i);
    TurnSame(E, T[E[i].tr2], i);
    var G, G', s := Shape(E, T), Shape(E', T'), Quad(E, T, i);
    hide Verts;
    assert G' == G[E[i].tr1 := (s.0, s.3, s.2)][E[i].tr2 := (s.1, s.2, s.3)];
  }

  /** In an embedded triangulation the opposite corners of a quadrangle that wants an exchange
      are not joined by a side of any triangle. */
  lemma NeverOccupied(P: seq<Point>, E: Edges, T: seq<Tri>, i: int)
    requires MeshInv(E, T) && Inner(E, T, i) && Embedded(P, Shape(E, T)) && WantsAt(P, Quad(E, T, i))
    ensures Quad(E, T, i).2 != Quad(E, T, i).3
    ensures !Occupied(E, Quad(E, T, i).2, Quad(E, T, i).3)
  {
    var s := Quad(E, T, i);
    var p1, p2, p3, p4 := PointOf(P, s.0), PointOf(P, s.1), PointOf(P, s.2), PointOf(P, s.3);
    QuadConvex(P, E, T, i);
    assert s.2 != s.3 by { Turned(p1, p4, p2); Turned(p1, p2, p3); hide Area; }
    forall k | k in E && (E[k].st1, E[k].st2) == Pair(s.2, s.3)
      ensures E[k].tr1 <= 0 && E[k].tr2 <= 0
    {
      EdgeFree(P, E, T, i, k);
    }
  }

  /** The same for one edge. */
  lemma EdgeFree(P: seq<Point>, E: Edges, T: seq<Tri>, i: int, k: int)
    requires MeshInv(E, T) && Inner(E, T, i) && Embedded(P, Shape(E, T)) && WantsAt(P, Quad(E, T, i))
    requires var s := Quad(E, T, i); k in E && s.2 != s.3 && (E[k].st1, E[k].st2) == Pair(s.2, s.3)
    ensures E[k].tr1 <= 0 && E[k].tr2 <= 0
  {
    hide MeshInv, Area, Disjoint, WantsAt, Embedded, Turn, Start;
    var G, s := Shape(E, T), Quad(E, T, i);
    QuadConvex(P, E, T, i);
    if E[k].tr1 > 0 || E[k].tr2 > 0 {
      var t := if E[k].tr1 > 0 then E[k].tr1 else E[k].tr2;
      var w := SideTaken(E, T, i, k, t);
      PocketOf(E, T, i);
      TurnSame(E, T[E[i].tr1], i);
      DiagonalFree(PointOf(P, s.0), PointOf(P, s.1), PointOf(P, s.2), PointOf(P, s.3), PointOf(P, w));
      TurnedApart(P, G, s, E[i].tr1, t, w);
    }
  }

  /** The corners of an inner edge that wants an exchange form a strictly convex quadrangle. */
  lemma QuadConvex(P: seq<Point>, E: Edges, T: seq<Tri>, i: int)
    requires MeshInv(E, T) && Inner(E, T, i) && Embedded(P, Shape(E, T)) && WantsAt(P, Quad(E, T, i))
    ensures var s := Quad(E, T, i); Quadrangle(PointOf(P, s.0), PointOf(P, s.1), PointOf(P, s.2), PointOf(P, s.3))
  {
    var G, s := Shape(E, T), Quad(E, T, i);
    PocketOf(E, T, i);
    TurnSame(E, T[E[i].tr1], i);
    TurnSame(E, T[E[i].tr2], i);
    hide Turn, Start, MeshInv, Area;
    SwapConvex(P, G, G[E[i].tr1 := (s.0, s.3, s.2)][E[i].tr2 := (s.1, s.2, s.3)], E[i].tr1, E[i].tr2, s);
  }

  /** A triangle listed by an edge k between the opposite corners has them as two of its corners. */
  lemma SideTaken(E: Edges, T: seq<Tri>, i: int, k: int, t: int) returns (w: int)
    requires MeshInv(E, T) && Inner(E, T, i) && k in E && t > 0 && Listed(E[k], t)
    requires var s := Quad(E, T, i); s.2 != s.3 && (E[k].st1, E[k].st2) == Pair(s.2, s.3)
    ensures var s := Quad(E, T, i);
            && Active(T, t) && t != E[i].tr1
            && (Same((s.2, s.3, w), Verts(E, T[t])) || Same((s.3, s.2, w), Verts(E, T[t])))
            && Shape(E, T)[t] == Verts(E, T[t]) && Shape(E, T)[t] != (0, 0, 0)
  {
    assert EdgeOk(E, T, k);
    PocketOf(E, T, i);
    NotASide(E, T, i, E[i].tr1, E[i].tr2, First(E, T, i), Second(E, T, i), k);
    TurnUses(T[E[i].tr1], i, k);
    TurnUses(T[E[i].tr1], i, -k);
    SideFacts(E, T, t, k);
    var x := Turn(T[t], k);
    w := Start(E, x.a3);
    TurnSame(E, T[t], k);
    hide Turn, MeshInv;
  }

  lemma TurnedApart(P: seq<Point>, G: seq<Corners>, s: (int, int, int, int), t1: int, t: int, w: int)
    requires Embedded(P, G) && 0 <= t1 < |G| && 0 <= t < |G| && t1 != t && G[t] != (0, 0, 0) && s.0 > 0 && s.1 > 0
      && s.2 > 0
    requires Same((s.0, s.1, s.2), G[t1])
    ensures Same((s.2, s.3, w), G[t]) ==> AreaOf(P, (s.2, s.3, w)) > 0.0 && Apart(P, (s.2, s.3, w), (s.0, s.1, s.2))
    ensures Same((s.3, s.2, w), G[t]) ==> AreaOf(P, (s.3, s.2, w)) > 0.0 && Apart(P, (s.3, s.2, w), (s.0, s.1, s.2))
  {
    hide Area, Disjoint;
    TurnedCorners(P, (s.0, s.1, s.2), G[t1]);
    if Same((s.2, s.3, w), G[t]) {
      TurnedCorners(P, (s.2, s.3, w), G[t]);
    }
    if Same((s.3, s.2, w), G[t]) {
      TurnedCorners(P, (s.3, s.2, w), G[t]);
    }
  }
}
