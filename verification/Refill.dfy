/** What `focftr_` leaves for `tridcf_`: a mesh with a hole whose border is a closed contour, and a
    hole that is filled again with the same area. */
module Refill {
  import opened Lists
  import opened EdgeTable
  import opened Mesh
  import opened Geometry
  import opened Contours
  import opened Areas
  import opened Triangles
  import opened Patch
  import opened Emit
  import opened Exchange
  import opened Sketching
  import Tridcf
  import opened Etoile
  import opened Focftr

  lemma NeatWay(E0: Edges, E: Edges, a: int)
    requires Abs(a) in E && Abs(a) in E0 && E[Abs(a)].st1 == E0[Abs(a)].st1 && E[Abs(a)].st2 == E0[Abs(a)].st2
    ensures Start(NeatAll(E), a) == Start(E0, a) && End(NeatAll(E), a) == End(E0, a)
  {
  }

  /** The record of an edge used by c triangles of the set, none of them left. */
  ghost predicate Loosened(e0: Edge, e: Edge, ts: seq<int>) {
    && e.st1 == e0.st1 && e.st2 == e0.st2
    && (forall t | t > 0 :: Listed(e, t) <==> Listed(e0, t) && t !in ts)
    && !(e.tr1 > 0 && e.tr1 == e.tr2)
  }

  lemma LoosenedEdge(E0: Edges, E: Edges, T: seq<Tri>, ts: seq<int>, ch: seq<int>, via: map<int, int>, i: int)
    requires MeshInv(E0, T) && Chosen(T, ts) && Taken(E0, E, T, ts, via) && Simple(E0, T, ts, ch) && i in E0
    requires i in ch ==> i in via && via[i] in ts && Has(T, via[i], i)
    ensures Count(T, ts, i) <= 1 ==> i in E && Loosened(E0[i], Neat(E[i]), ts)
    ensures Count(T, ts, i) >= 2 ==> (i in E <==> E0[i].line > 0)
    ensures Count(T, ts, i) >= 2 && i in E ==> (E[i].tr1 > 0 && E[i].tr1 in ts)
  {
    CountListed(E0, T, ts, i);
    EdgeSound(E0, T, i);
    TakenFact(E0, E, T, ts, via, i);
    TwoTriangles(E0, T, i);
    if i in ch {
      OuterFacts(E0, E, T, ts, ch, via, i);
      SimpleAt(E0, T, ts, ch, i);
    }
    hide MeshInv, Chosen, Taken, SidesOf, Has, EdgeOk, Active, Simple;
    LoosenedRecord(E0, E, ts, via, i, Count(T, ts, i));
  }

  /** As LoosenedEdge, from what the two records are. */
  lemma LoosenedRecord(E0: Edges, E: Edges, ts: seq<int>, via: map<int, int>, i: int, c: nat)
    requires i in E0 && TakenAt(E0, E, i, c, via) && (E0[i].tr1 > 0 ==> E0[i].tr1 != E0[i].tr2)
    requires c == Once(E0[i].tr1 > 0 && E0[i].tr1 in ts) + Once(E0[i].tr2 > 0 && E0[i].tr2 in ts)
    requires c == 1 ==> i in via && via[i] > 0 && via[i] in ts && (E0[i].tr1 == via[i] || E0[i].tr2 == via[i])
    ensures c <= 1 ==> i in E && Loosened(E0[i], Neat(E[i]), ts)
    ensures c >= 2 ==> (i in E <==> E0[i].line > 0)
    ensures c >= 2 && i in E ==> E[i].tr1 > 0 && E[i].tr1 in ts
  {
  }

  lemma TakenFact(E0: Edges, E: Edges, T: seq<Tri>, ts: seq<int>, via: map<int, int>, i: int)
    requires Taken(E0, E, T, ts, via) && i in E0
    ensures TakenAt(E0, E, i, Count(T, ts, i), via)
  {
  }

  lemma LooseEdgeOk(E0: Edges, E: Edges, T: seq<Tri>, T': seq<Tri>, ts: seq<int>, i: int)
    requires i in E0 && i in E && EdgeOk(E0, T, i) && Emptied(T, T', ts) && Loosened(E0[i], Neat(E[i]), ts)
    ensures EdgeOk(NeatAll(E), T', i)
  {
    var e, e0 := Neat(E[i]), E0[i];
    assert NeatAll(E)[i] == e;
    assert e.tr1 > 0 ==> Listed(e, e.tr1) && Listed(e0, e.tr1) && e.tr1 !in ts;
    assert e.tr2 > 0 ==> Listed(e, e.tr2) && Listed(e0, e.tr2) && e.tr2 !in ts;
  }

  lemma LooseTriOk(E0: Edges, E: Edges, T: seq<Tri>, T': seq<Tri>, ts: seq<int>, ch: seq<int>, via: map<int, int>,
      t: int)
    requires MeshInv(E0, T) && Chosen(T, ts) && Taken(E0, E, T, ts, via) && Simple(E0, T, ts, ch) && Emptied(T, T', ts)
    requires forall i | i in ch :: i in via && via[i] in ts && Has(T, via[i], i)
    requires Active(T', t)
    ensures TriOk(NeatAll(E), T', t)
  {
    assert t !in ts && T'[t] == T[t];
    var x := T[t];
    SidesDistinct(E0, T, t);
    assert TriOk(E0, T, t);
    LooseSide(E0, E, T, ts, ch, via, t, x.a1);
    LooseSide(E0, E, T, ts, ch, via, t, x.a2);
    LooseSide(E0, E, T, ts, ch, via, t, x.a3);
    hide MeshInv, Chosen, Taken, Simple, NeatAll, Start, End, Has, Emptied;
  }

  lemma LooseSide(E0: Edges, E: Edges, T: seq<Tri>, ts: seq<int>, ch: seq<int>, via: map<int, int>, t: int, a: int)
    requires MeshInv(E0, T) && Chosen(T, ts) && Taken(E0, E, T, ts, via) && Simple(E0, T, ts, ch)
    requires forall i | i in ch :: i in via && via[i] in ts && Has(T, via[i], i)
    requires t > 0 && t !in ts && Abs(a) in E0 && Listed(E0[Abs(a)], t)
    ensures Abs(a) in NeatAll(E) && Listed(NeatAll(E)[Abs(a)], t)
    ensures Start(NeatAll(E), a) == Start(E0, a) && End(NeatAll(E), a) == End(E0, a)
  {
    var i := Abs(a);
    CountListed(E0, T, ts, i);
    LoosenedEdge(E0, E, T, ts, ch, via, i);
    hide MeshInv, Chosen, Taken, Simple, Count;
    NeatWay(E0, E, a);
    hide Start, End;
  }

  /** After `focftr_` the edges list exactly the triangles that are left, so that the mesh keeps its
      invariant, if and only if no line edge lies between two of the triangles set free: such an
      edge stays in the table and goes on listing one of them. */
  lemma LooseMesh(E0: Edges, E: Edges, T: seq<Tri>, T': seq<Tri>, ts: seq<int>, ch: seq<int>, via: map<int, int>,
      order: seq<int>, v: seq<int>, rem: seq<int>)
    requires Ordered(E0, T, ts, ch, via, order, v, rem) && Taken(E0, E, T, ts, via) && Emptied(T, T', ts)
    ensures MeshInv(NeatAll(E), T') <==> forall i | i in E0 && Count(T, ts, i) >= 2 :: E0[i].line <= 0
  {
    hide Walked, Way, Start, End, HasOuter;
    OrderedVia(E0, T, ts, ch, via, order, v, rem);
    hide Ordered;
    if forall i | i in E0 && Count(T, ts, i) >= 2 :: E0[i].line <= 0 {
      LooseKept(E0, E, T, T', ts, ch, via);
    } else {
      var i :| i in E0 && Count(T, ts, i) >= 2 && E0[i].line > 0;
      LoosenedEdge(E0, E, T, ts, ch, via, i);
      LooseBroken(E, T, T', ts, i);
    }
  }

  lemma OrderedVia(E0: Edges, T: seq<Tri>, ts: seq<int>, ch: seq<int>, via: map<int, int>, order: seq<int>, v: seq<int>,
      rem: seq<int>)
    requires Ordered(E0, T, ts, ch, via, order, v, rem)
    ensures MeshInv(E0, T) && Chosen(T, ts) && Simple(E0, T, ts, ch) && forall i | i in ch ::
      i in via && via[i] in ts && Has(T, via[i], i)
  {
  }

  lemma LooseKept(E0: Edges, E: Edges, T: seq<Tri>, T': seq<Tri>, ts: seq<int>, ch: seq<int>, via: map<int, int>)
    requires MeshInv(E0, T) && Chosen(T, ts) && Taken(E0, E, T, ts, via) && Simple(E0, T, ts, ch) && Emptied(T, T', ts)
    requires forall i | i in ch :: i in via && via[i] in ts && Has(T, via[i], i)
    requires forall i | i in E0 && Count(T, ts, i) >= 2 :: E0[i].line <= 0
    ensures MeshInv(NeatAll(E), T')
  {
    hide MeshInv, Chosen, Simple, Emptied, Has, EdgeOk, TriOk, Count;
    forall i | i in NeatAll(E) ensures i > 0 && EdgeOk(NeatAll(E), T', i) {
      assert i in E0;
      EdgeSound(E0, T, i);
      LoosenedEdge(E0, E, T, ts, ch, via, i);
      LooseEdgeOk(E0, E, T, T', ts, i);
    }
    forall t | Active(T', t) ensures TriOk(NeatAll(E), T', t) {
      LooseTriOk(E0, E, T, T', ts, ch, via, t);
    }
    MeshOf(NeatAll(E), T');
  }

  lemma LooseBroken(E: Edges, T: seq<Tri>, T': seq<Tri>, ts: seq<int>, i: int)
    requires Emptied(T, T', ts) && i in E && E[i].tr1 > 0 && E[i].tr1 in ts
    ensures !MeshInv(NeatAll(E), T')
  {
    assert i in NeatAll(E) && NeatAll(E)[i].tr1 == E[i].tr1;
    assert !Active(T', E[i].tr1);
    assert !EdgeOk(NeatAll(E), T', i);
  }

  /** No edge that joins two vertices of ring l across lists a triangle. */
  ghost predicate NoDiagonal(E: Edges, l: seq<int>) {
    forall x, y | x in l && y in l && x != y && !Step(l, x, y) && !Step(l, y, x) :: !Occupied(E, x, y)
  }

  /** What is left of a simple edge is open on the side of the hole. */
  lemma HoleEdge(E0: Edges, E: Edges, T: seq<Tri>, T': seq<Tri>, ts: seq<int>, ch: seq<int>, via: map<int, int>, i: int,
      x: int)
    requires MeshInv(E0, T) && Chosen(T, ts) && Taken(E0, E, T, ts, via) && Simple(E0, T, ts, ch) && Emptied(T, T', ts)
    requires i in ch && i in via && via[i] in ts && Has(T, via[i], i) && Start(E0, Way(T, via, i)) == x
    ensures i in E && OpenEdge(T', E[i], i, x)
  {
    SimpleAt(E0, T, ts, ch, i);
    LoosenedEdge(E0, E, T, ts, ch, via, i);
    OuterFacts(E0, E, T, ts, ch, via, i);
    EdgeSound(E0, T, i);
    WayEnds(E0, T, via, i);
    hide MeshInv, Chosen, Taken, Simple, Count, SidesOf;
    var e := Neat(E[i]);
    assert e.tr1 > 0 ==> Listed(e, e.tr1) && e.tr1 !in ts && Listed(E0[i], e.tr1);
    assert e.tr2 > 0 ==> Listed(e, e.tr2) && e.tr2 !in ts && Listed(E0[i], e.tr2);
  }

  lemma OrderedParts(E0: Edges, T: seq<Tri>, ts: seq<int>, ch: seq<int>, via: map<int, int>, order: seq<int>,
      v: seq<int>, rem: seq<int>)
    requires Ordered(E0, T, ts, ch, via, order, v, rem)
    ensures Chain0(E0, T, ts, ch, via) && Walked(E0, ch, order, v, rem) && Simple(E0, T, ts, ch)
    ensures |order| > 0 && |v| == |order| + 1 && Unique(order) && forall k | 0 <= k < |order| :: order[k] in ch
    ensures Start(E0, Way(T, via, order[0])) == v[0] && End(E0, Way(T, via, order[0])) == v[1]
  {
    hide Way, Start, Chain0;
  }

  lemma OneCurveAt(E0: Edges, T: seq<Tri>, ts: seq<int>, ch: seq<int>)
    requires OneCurve(E0, T, ts) && Simple(E0, T, ts, ch)
    ensures TwoRegular(E0, ch) && Connected(E0, ch)
  {
  }

  /** The ends of an edge run from u to w. */
  lemma WayNames(E0: Edges, E: Edges, T: seq<Tri>, via: map<int, int>, i: int, u: int, w: int)
    requires i in E0 && i > 0 && i in via && Has(T, via[i], i) && E0[i].st1 < E0[i].st2
    requires i in E && E[i].st1 == E0[i].st1 && E[i].st2 == E0[i].st2
    requires Start(E0, Way(T, via, i)) == u && End(E0, Way(T, via, i)) == w
    ensures Names(E, i, u, w)
  {
    WayEnds(E0, T, via, i);
  }

  lemma OpenOne(E: Edges, T: seq<Tri>, i: int, u: int, w: int)
    requires OnePer(E) && Names(E, i, u, w) && OpenEdge(T, E[i], i, u)
    ensures Open(E, T, u, w)
  {
    forall j | Names(E, j, u, w) ensures OpenEdge(T, E[j], j, u) {
      assert i == j;
    }
  }

  lemma HoleStep(E0: Edges, E: Edges, T: seq<Tri>, T': seq<Tri>, ts: seq<int>, ch: seq<int>, via: map<int, int>,
      order: seq<int>, v: seq<int>, rem: seq<int>, k: int)
    requires Ordered(E0, T, ts, ch, via, order, v, rem) && Taken(E0, E, T, ts, via) && Emptied(T, T', ts)
    requires TwoRegular(E0, ch) && 0 <= k < |order| && OnePer(E)
    ensures |v| == |order| + 1 && Open(E, T', v[k], v[k + 1]) && Names(E, order[k], v[k], v[k + 1])
  {
    hide *;
    OrderedVia(E0, T, ts, ch, via, order, v, rem);
    OrderedParts(E0, T, ts, ch, via, order, v, rem);
    WalkWay(E0, T, ts, ch, via, order, v, rem, k);
    var i := order[k];
    assert i in ch;
    HoleEdge(E0, E, T, T', ts, ch, via, i, v[k]);
    HoleEnds(E0, E, T, ts, ch, via, i);
    WayNames(E0, E, T, via, i, v[k], v[k + 1]);
    OpenOne(E, T', i, v[k], v[k + 1]);
  }

  lemma HoleEnds(E0: Edges, E: Edges, T: seq<Tri>, ts: seq<int>, ch: seq<int>, via: map<int, int>, i: int)
    requires MeshInv(E0, T) && Chosen(T, ts) && Taken(E0, E, T, ts, via) && Simple(E0, T, ts, ch)
    requires i in ch && i in via && via[i] in ts && Has(T, via[i], i)
    ensures i in E0 && i in E && i > 0 && E0[i].st1 < E0[i].st2 && E[i].st1 == E0[i].st1 && E[i].st2 == E0[i].st2
  {
    OuterFacts(E0, E, T, ts, ch, via, i);
    EdgeSound(E0, T, i);
    assert i > 0 by { MeshPositive(E0, T, i); }
    hide MeshInv, Chosen, Taken, Simple, Has;
  }

  lemma MeshPositive(E: Edges, T: seq<Tri>, i: int)
    requires MeshInv(E, T) && i in E
    ensures i > 0 && E[i].st1 < E[i].st2
  {
  }

  /** A ring whose steps are open. */
  lemma RingOk(E: Edges, T: seq<Tri>, v: seq<int>, n: nat)
    requires |v| == n + 1 && n >= 3 && v[n] == v[0] && Unique(v[..n]) && NoDiagonal(E, v[..n])
    requires forall k | 0 <= k < n :: Open(E, T, v[k], v[k + 1])
    ensures ContourOk(E, T, v[..n])
  {
    var l := v[..n];
    hide Unique, Open, Occupied;
    forall x, y | Step(l, x, y) ensures Open(E, T, x, y) {
      var k :| 0 <= k < |l| && l[k] == x && l[After1(k, |l|)] == y;
      assert v[k] == x && v[k + 1] == y;
    }
  }

  /** After `focftr_`, when the simple edges are one closed curve, no line edge lay between two of the
      triangles set free, and no diagonal of the contour lists a triangle, the mesh and the contour
      are as `tridcf_` needs them for the mesh to stay one. */
  lemma HoleSketch(E0: Edges, E: Edges, T: seq<Tri>, T': seq<Tri>, ts: seq<int>, ch: seq<int>, via: map<int, int>,
      s: seq<Slot>, order: seq<int>, v: seq<int>, rem: seq<int>, n: int)
    requires Ordered(E0, T, ts, ch, via, order, v, rem) && Taken(E0, E, T, ts, via) && Emptied(T, T', ts)
    requires RingOf(s, order, v, n) && OneCurve(E0, T, ts) && OnePer(E)
    requires forall i | i in E0 && Count(T, ts, i) >= 2 :: E0[i].line <= 0
    requires NoDiagonal(E, v[..|order|])
    ensures Sketch(E, T', [Poly(s, Upto(n))]) && Poly(s, Upto(n)) == v[..n]
  {
    hide *;
    OrderAll(E0, T, ts, ch, via, order, v, rem);
    LooseMesh(E0, E, T, T', ts, ch, via, order, v, rem);
    OrderSizes(s, order, v, n);
    RingPoly(s, order, v, n);
    OrderedParts(E0, T, ts, ch, via, order, v, rem);
    OneCurveAt(E0, T, ts, ch);
    forall k | 0 <= k < n ensures Open(E, T', v[k], v[k + 1]) && Names(E, order[k], v[k], v[k + 1]) {
      HoleStep(E0, E, T, T', ts, ch, via, order, v, rem, k);
    }
    LooseEnds(E, T');
    RingLong(E, order, v);
    RingOk(E, T', v, n);
    SketchOne(E, T', v[..n]);
  }

  lemma LooseEnds(E: Edges, T: seq<Tri>)
    requires MeshInv(NeatAll(E), T)
    ensures forall i | i in E :: E[i].st1 != E[i].st2
  {
    forall i | i in E ensures E[i].st1 != E[i].st2 {
      MeshPositive(NeatAll(E), T, i);
      hide MeshInv;
    }
  }

  lemma SketchOne(E: Edges, T: seq<Tri>, l: seq<int>)
    requires MeshInv(NeatAll(E), T) && ContourOk(E, T, l)
    ensures Sketch(E, T, [l])
  {
    hide MeshInv, NeatAll, ContourOk;
  }

  /** With one edge between two vertices a closed walk has at least three. */
  lemma RingLong(E: Edges, order: seq<int>, v: seq<int>)
    requires |v| == |order| + 1 && |order| > 0 && v[|order|] == v[0] && Unique(order) && OnePer(E)
    requires forall k | 0 <= k < |order| :: Names(E, order[k], v[k], v[k + 1])
    requires forall i | i in E :: E[i].st1 != E[i].st2
    ensures |order| >= 3
  {
    assert Names(E, order[0], v[0], v[1]);
    assert forall k | 0 <= k < |order| :: Names(E, order[k], v[k], v[k + 1]) && v[k] != v[k + 1];
  }

  /** The hole of triangles whose simple edges are one closed curve, filled by `tridcf_` from the
      contour that `focftr_` hands over, has the signed area and every other quantity it had. */
  lemma HoleFilled(E0: Edges, T: seq<Tri>, ts: seq<int>, ch: seq<int>, via: map<int, int>, s: seq<Slot>,
      order: seq<int>, v: seq<int>, rem: seq<int>, n: int,
                   tris: seq<(int, int, int)>, k: int, last: int, P: seq<Point>)
    requires Ordered(E0, T, ts, ch, via, order, v, rem) && RingOf(s, order, v, n) && OneCurve(E0, T, ts)
    requires Tridcf.Filled([Poly(s, Upto(n))], tris, k, last)
    ensures forall f: (int, int) -> real | Odd(f) :: OfTriangles(f, tris) == OfTriangles(f, CornersAll(E0, T, ts))
    ensures TrianglesArea(P, tris) == TrianglesArea(P, CornersAll(E0, T, ts))
  {
    hide Ordered, OneCurve, RingOf, Poly, Contours.Along, Around, OfTriangles, CornersAll;
    OrderAll(E0, T, ts, ch, via, order, v, rem);
    OrderSizes(s, order, v, n);
    RingPoly(s, order, v, n);
    RingAt(s, order, v, n, 0);
    assert Closed(v[..n]) == v;
    var p := [v[..n]];
    forall f: (int, int) -> real | Odd(f) ensures OfTriangles(f, tris) == OfTriangles(f, CornersAll(E0, T, ts)) {
      AroundOne(f, v[..n]);
    }
    hide Shoelace, TrianglesArea, Odd;
    ShoelaceOdd(P);
    ShoelaceTriangles(P, tris);
    ShoelaceTriangles(P, CornersAll(E0, T, ts));
  }

  lemma AroundOne(f: (int, int) -> real, p: seq<int>)
    ensures Around(f, [p]) == Contours.Along(f, Closed(p))
  {
    assert [p][..0] == [];
  }
}
