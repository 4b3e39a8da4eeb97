/** Contours without a repeated vertex, whose diagonals are free: cutting them up keeps the mesh. */
module Sketching {
  import opened Lists
  import opened EdgeTable
  import opened Mesh
  import opened Exchange
  import opened Contours
  import opened Cutting
  import opened Triangles
  import opened Trcf
  import opened Choosing
  import opened Geometry
  import opened Planar
  import opened Delaunay
  import opened Patch
  import opened Emit

  // ---------------------------------------------------------------- one cut

  /** The cut of triangle v1 v2 v3 off the last of the contours q, read from its member k. */
  ghost predicate CutAt(q: seq<seq<int>>, q': seq<seq<int>>, v: (int, int, int), k: nat, v1: int, a: seq<int>, v2: int,
      b: seq<int>, v3: int, c: seq<int>)
  {
    && q != [] && k <= |Top(q)| && Top(q)[k..] + Top(q)[..k] == Ring3(v1, a, v2, b, v3, c)
    && q' == Below(q) + Pieces(v1, a, v2, b, v3, c) && Rotated(v, v1, v2, v3)
  }

  /** A triangle v is cut off the last contour, and is sewn into the mesh when its new sides are free. */
  ghost predicate CutOff(E: Edges, T: seq<Tri>, q: seq<seq<int>>, E': Edges, T': seq<Tri>, q': seq<seq<int>>, nt: int,
      v: (int, int, int))
  {
    exists k: nat, v1, a, v2, b, v3, c :: CutAt(q, q', v, k, v1, a, v2, b, v3, c)
      && (FreeChords(E, v1, a, v2, b, v3, c) ==> Sewn(E, T, E', T', nt, v))
  }

  lemma CutOffFrom(E: Edges, T: seq<Tri>, q: seq<seq<int>>, E': Edges, T': seq<Tri>, q': seq<seq<int>>, nt: int,
      v: (int, int, int), k: nat, v1: int, a: seq<int>, v2: int, b: seq<int>, v3: int, c: seq<int>)
    requires q != [] && k <= |Top(q)| && Top(q)[k..] + Top(q)[..k] == Ring3(v1, a, v2, b, v3, c)
    requires q' == Below(q) + Pieces(v1, a, v2, b, v3, c) && Rotated(v, v1, v2, v3)
    requires FreeChords(E, v1, a, v2, b, v3, c) ==> Sewn(E, T, E', T', nt, v)
    ensures CutOff(E, T, q, E', T', q', nt, v)
  {
    hide Ring3, Pieces, Rotated, FreeChords, Sewn;
    assert CutAt(q, q', v, k, v1, a, v2, b, v3, c);
  }

  // ---------------------------------------------------------------- the run of cuts

  /** A triangle that `trchtd_` may choose is cut off the last of the contours q. */
  ghost predicate CutBy(P: seq<Point>, quality: (Point, Point, Point) -> real,
      crosses: (Point, Point, Point, Point) -> bool, q: seq<seq<int>>, q': seq<seq<int>>, v: (int, int, int))
  {
    exists k: nat, v1, v2, b, v3, c :: CutAt(q, q', v, k, v1, [], v2, b, v3, c)
      && Preferred(P, quality, crosses, Ring3(v1, [], v2, b, v3, c), 2 + |b|)
  }

  lemma CutByFrom(P: seq<Point>, quality: (Point, Point, Point) -> real,
      crosses: (Point, Point, Point, Point) -> bool, q: seq<seq<int>>, q': seq<seq<int>>, v: (int, int, int), k: nat,
      v1: int, v2: int, b: seq<int>, v3: int, c: seq<int>)
    requires q != [] && k <= |Top(q)| && Top(q)[k..] + Top(q)[..k] == Ring3(v1, [], v2, b, v3, c)
    requires q' == Below(q) + Pieces(v1, [], v2, b, v3, c) && Rotated(v, v1, v2, v3)
    requires Preferred(P, quality, crosses, Ring3(v1, [], v2, b, v3, c), 2 + |b|)
    ensures CutBy(P, quality, crosses, q, q', v)
  {
    hide Ring3, Pieces, Rotated, Preferred;
    assert CutAt(q, q', v, k, v1, [], v2, b, v3, c);
  }

  lemma FreeRange(P: seq<Point>, crosses: (Point, Point, Point, Point) -> bool, l: seq<int>)
    ensures forall r | Free(P, crosses, l, r) :: 2 <= r < |l|
  {
  }

  /** Read from the edge chosen, which is a shortest one, the contour has the triangle at a free vertex
      of the best quality; if any free vertex makes a positive triangle there, this one is positive. */
  lemma CutPositive(P: seq<Point>, quality: (Point, Point, Point) -> real,
      crosses: (Point, Point, Point, Point) -> bool, q: seq<seq<int>>, q': seq<seq<int>>, v: (int, int, int))
      returns (k: nat)
    requires CutBy(P, quality, crosses, q, q', v) && Sensible(quality) && |Top(q)| > 3
    ensures k <= |Top(q)|
    ensures var l := Top(q)[k..] + Top(q)[..k];
      && Shortest(P, l)
      && ((exists r :: Free(P, crosses, l, r) && AreaOf(P, (l[0], l[1], l[r])) > 0.0) ==> AreaOf(P, v) > 0.0)
  {
    hide Free, Worth, Pieces, Sensible, Shortest, Best;
    var i: nat, v1, v2, b, v3, c :| CutAt(q, q', v, i, v1, [], v2, b, v3, c)
      && Preferred(P, quality, crosses, Ring3(v1, [], v2, b, v3, c), 2 + |b|);
    k := i;
    var l := Ring3(v1, [], v2, b, v3, c);
    assert l[0] == v1 && l[1] == v2 && l[2 + |b|] == v3;
    Turned(PointOf(P, v1), PointOf(P, v2), PointOf(P, v3));
    hide Area, Ring3, PointOf;
    assert forall r | Free(P, crosses, l, r) :: 0 <= r < |l| by { FreeRange(P, crosses, l); }
    if r :| Free(P, crosses, l, r) && AreaOf(P, (l[0], l[1], l[r])) > 0.0 {
      PreferredPositive(P, quality, crosses, l, 2 + |b|, r);
    }
  }

  /** The contours before, between and after the cuts of the triangles tris. */
  ghost predicate CutRun(P: seq<Point>, quality: (Point, Point, Point) -> real,
      crosses: (Point, Point, Point, Point) -> bool, qs: seq<seq<seq<int>>>, tris: seq<(int, int, int)>)
  {
    |qs| == |tris| + 1 && forall k | 0 <= k < |tris| :: CutBy(P, quality, crosses, qs[k], qs[k + 1], tris[k])
  }

  lemma CutRunNext(P: seq<Point>, quality: (Point, Point, Point) -> real,
      crosses: (Point, Point, Point, Point) -> bool, qs: seq<seq<seq<int>>>, tris: seq<(int, int, int)>,
      q: seq<seq<int>>, v: (int, int, int))
    requires CutRun(P, quality, crosses, qs, tris) && CutBy(P, quality, crosses, qs[|qs| - 1], q, v)
    ensures CutRun(P, quality, crosses, qs + [q], tris + [v])
  {
    hide CutBy;
    var qs', tris' := qs + [q], tris + [v];
    forall k | 0 <= k < |tris'| ensures CutBy(P, quality, crosses, qs'[k], qs'[k + 1], tris'[k]) {
      if k < |tris| {
        assert CutBy(P, quality, crosses, qs[k], qs[k + 1], tris[k]);
      }
    }
  }

  // ---------------------------------------------------------------- room on the edges

  /** Edge i has room for a triangle that runs it from x on. */
  ghost predicate OpenEdge(T: seq<Tri>, e: Edge, i: int, x: int) {
    (Neat(e).tr1 <= 0 || Neat(e).tr2 <= 0) && Patch.Unused(T, Neat(e), if x == e.st1 then i else -i)
  }

  /** No edge between x and y hinders a triangle with the side from x to y. */
  ghost predicate Open(E: Edges, T: seq<Tri>, x: int, y: int) {
    forall i | Names(E, i, x, y) :: OpenEdge(T, E[i], i, x)
  }

  /** There is one edge between two vertices. */
  ghost predicate OnePer(E: Edges) {
    forall i, j | i in E && j in E && E[i].st1 == E[j].st1 && E[i].st2 == E[j].st2 :: i == j
  }

  predicate SideOf(v: (int, int, int), x: int, y: int) {
    (x == v.0 && y == v.1) || (x == v.1 && y == v.2) || (x == v.2 && y == v.0)
  }

  /** A triangle changes nothing for two vertices that are not both its own, and leaves a new side
      open on its other face. */
  ghost predicate Effect(E: Edges, T: seq<Tri>, E': Edges, T': seq<Tri>, v: (int, int, int)) {
    && (forall x, y | !SideOf(v, x, y) && !SideOf(v, y, x) && Open(E, T, x, y) :: Open(E', T', x, y))
    && (forall x, y | !SideOf(v, x, y) && !SideOf(v, y, x) && !Occupied(E, x, y) :: !Occupied(E', x, y))
    && (forall x, y | SideOf(v, x, y) && !Occupied(E, x, y) :: Open(E', T', y, x))
  }

  lemma OpenedMesh(E: Edges, F: Edges, T: seq<Tri>)
    requires Opened(E, F) && MeshInv(NeatAll(E), T)
    ensures MeshInv(NeatAll(F), T)
  {
    forall i | i in NeatAll(F) ensures i > 0 && EdgeOk(NeatAll(F), T, i) {
      if i in E {
        assert EdgeOk(NeatAll(E), T, i);
      }
    }
    forall t | Active(T, t) ensures TriOk(NeatAll(F), T, t) {
      assert TriOk(NeatAll(E), T, t);
    }
  }

  lemma OpenedOpen(E: Edges, F: Edges, T: seq<Tri>, x: int, y: int)
    requires Opened(E, F) && Open(E, T, x, y)
    ensures Open(F, T, x, y)
  {
    forall i | Names(F, i, x, y) ensures OpenEdge(T, F[i], i, x) {
      if i in E && F[i] == E[i] {
        assert Names(E, i, x, y);
      }
    }
  }

  /** An edge that the triangle does not touch stays as open as it was. */
  lemma FarOpen(F: Edges, T: seq<Tri>, T': seq<Tri>, i: int, x: int, nt: int)
    requires MeshInv(NeatAll(F), T) && i in F && OpenEdge(T, F[i], i, x)
    requires 1 <= nt < |T| == |T'| && T[nt].a1 == 0 && T' == T[nt := T'[nt]]
    ensures OpenEdge(T', F[i], i, x)
  {
    assert EdgeOk(NeatAll(F), T, i);
    hide MeshInv, NeatAll;
    assert NeatAll(F)[i] == Neat(F[i]) by { NeatRecords(F); }
  }

  predicate Three(v: (int, int, int)) {
    v.0 != v.1 && v.1 != v.2 && v.2 != v.0
  }

  /** What is written when a triangle is sewn on the edges a1, a2, a3. */
  ghost predicate Marks(F: Edges, T: seq<Tri>, E': Edges, T': seq<Tri>, nt: int, a1: int, a2: int, a3: int) {
    && a1 != a2 && a2 != a3 && a3 != a1 && a1 > 0 && a2 > 0 && a3 > 0 && a1 in F && a2 in F && a3 in F
    && E'.Keys == F.Keys && (forall i | i in F && i != a1 && i != a2 && i != a3 :: E'[i] == F[i])
    && E'[a1] == AddTo(F[a1], nt) && E'[a2] == AddTo(F[a2], nt) && E'[a3] == AddTo(F[a3], nt)
    && 1 <= nt < |T| && T[nt].a1 == 0 && |T'| == |T| && T' == T[nt := T'[nt]]
  }

  lemma MarksOf(F: Edges, T: seq<Tri>, E': Edges, T': seq<Tri>, nt: int, v: (int, int, int), a1: int, a2: int, a3: int)
    requires MeshInv(NeatAll(F), T) && SewnOn(F, T, E', T', nt, v, a1, a2, a3) && Three(v)
    ensures Marks(F, T, E', T', nt, a1, a2, a3)
    ensures Names(F, a1, v.0, v.1) && Names(F, a2, v.1, v.2) && Names(F, a3, v.2, v.0)
    ensures T'[nt] == Tri(Signed(F, a1, v.0), Signed(F, a2, v.1), Signed(F, a3, v.2))
  {
    EmitSides(F, T, a1, a2, a3, v.0, v.1, v.2, nt);
    hide MeshInv;
    MarkedAt(F, a1, a2, a3, nt);
  }

  lemma FarNames(F: Edges, E': Edges, a: int, u: int, w: int, i: int, x: int, y: int)
    requires Names(F, a, u, w) && Names(E', i, x, y) && !(x == u && y == w) && !(x == w && y == u)
    requires i in F && E'.Keys == F.Keys && E'[i].st1 == F[i].st1 && E'[i].st2 == F[i].st2
    ensures i != a
  {
  }

  lemma FarEdges(F: Edges, T: seq<Tri>, E': Edges, T': seq<Tri>, nt: int, v: (int, int, int), a1: int, a2: int, a3: int,
      x: int, y: int, i: int)
    requires Marks(F, T, E', T', nt, a1, a2, a3)
    requires Names(F, a1, v.0, v.1) && Names(F, a2, v.1, v.2) && Names(F, a3, v.2, v.0)
    requires !SideOf(v, x, y) && !SideOf(v, y, x) && Names(E', i, x, y)
    ensures i in F && E'[i] == F[i] && Names(F, i, x, y)
  {
    FarNames(F, E', a1, v.0, v.1, i, x, y);
    FarNames(F, E', a2, v.1, v.2, i, x, y);
    FarNames(F, E', a3, v.2, v.0, i, x, y);
  }

  lemma FarEffect(F: Edges, T: seq<Tri>, E': Edges, T': seq<Tri>, nt: int, v: (int, int, int), a1: int, a2: int,
      a3: int, x: int, y: int)
    requires MeshInv(NeatAll(F), T) && Marks(F, T, E', T', nt, a1, a2, a3)
    requires Names(F, a1, v.0, v.1) && Names(F, a2, v.1, v.2) && Names(F, a3, v.2, v.0)
    requires !SideOf(v, x, y) && !SideOf(v, y, x)
    ensures Open(F, T, x, y) ==> Open(E', T', x, y)
    ensures !Occupied(F, x, y) ==> !Occupied(E', x, y)
  {
    forall i | Names(E', i, x, y) ensures i in F && E'[i] == F[i] && Names(F, i, x, y) {
      FarEdges(F, T, E', T', nt, v, a1, a2, a3, x, y, i);
    }
    assert forall i | i in E' :: i > 0 by { MeshKeys(F, T); }
    FarFree(F, E', x, y);
    if Open(F, T, x, y) {
      forall i | Names(E', i, x, y) ensures OpenEdge(T', E'[i], i, x) {
        assert Names(F, i, x, y);
        hide MeshInv, Names, OpenEdge;
        FarOpen(F, T, T', i, x, nt);
      }
    }
  }

  lemma MeshKeys(F: Edges, T: seq<Tri>)
    requires MeshInv(NeatAll(F), T)
    ensures forall i | i in F :: i > 0 && 0 < F[i].st1 < F[i].st2
  {
    forall i | i in F ensures i > 0 && 0 < F[i].st1 < F[i].st2 {
      assert i in NeatAll(F) && EdgeOk(NeatAll(F), T, i);
    }
  }

  lemma FarFree(F: Edges, E': Edges, x: int, y: int)
    requires forall i | Names(E', i, x, y) :: i in F && E'[i] == F[i]
    requires forall i | i in E' :: i > 0
    ensures !Occupied(F, x, y) ==> !Occupied(E', x, y)
  {
    if Occupied(E', x, y) {
      var k :| k in E' && (E'[k].st1, E'[k].st2) == Pair(x, y) && (E'[k].tr1 > 0 || E'[k].tr2 > 0);
      assert Names(E', k, x, y);
    }
  }

  /** A new side, without a triangle before, is open on its other face. */
  lemma NewOpen(F: Edges, T: seq<Tri>, E': Edges, T': seq<Tri>, nt: int, a: int, x: int, y: int)
    requires Names(F, a, x, y) && x != y && !Occupied(F, x, y) && OnePer(E') && E'.Keys == F.Keys
    requires E'[a] == AddTo(F[a], nt) && 1 <= nt < |T'|
    requires Uses(T'[nt], Signed(F, a, x)) && !Uses(T'[nt], -Signed(F, a, x))
    ensures Open(E', T', y, x)
  {
    forall i | Names(E', i, y, x) ensures OpenEdge(T', E'[i], i, y) {
      assert i == a;
    }
  }

  lemma SignedOnce(F: Edges, a1: int, a2: int, a3: int, v: (int, int, int), x: Tri)
    requires a1 in F && a2 in F && a3 in F && a1 > 0 && a2 > 0 && a3 > 0 && a1 != a2 && a2 != a3 && a3 != a1
    requires x == Tri(Signed(F, a1, v.0), Signed(F, a2, v.1), Signed(F, a3, v.2))
    ensures Uses(x, Signed(F, a1, v.0)) && !Uses(x, -Signed(F, a1, v.0))
    ensures Uses(x, Signed(F, a2, v.1)) && !Uses(x, -Signed(F, a2, v.1))
    ensures Uses(x, Signed(F, a3, v.2)) && !Uses(x, -Signed(F, a3, v.2))
  {
  }

  lemma RoomOf(F: Edges, T: seq<Tri>, a: int, x: int, y: int, nt: int)
    requires Open(F, T, x, y) && Names(F, a, x, y)
    ensures SideRoom(F, T, a, x, nt)
  {
  }

  lemma SewnOnKeeps(F: Edges, T: seq<Tri>, E': Edges, T': seq<Tri>, nt: int, v: (int, int, int), a1: int, a2: int,
      a3: int)
    requires MeshInv(NeatAll(F), T) && SewnOn(F, T, E', T', nt, v, a1, a2, a3) && Three(v) && OnePer(E')
    requires Open(F, T, v.0, v.1) && Open(F, T, v.1, v.2) && Open(F, T, v.2, v.0)
    ensures MeshInv(NeatAll(E'), T') && Effect(F, T, E', T', v)
  {
    MarksOf(F, T, E', T', nt, v, a1, a2, a3);
    assert E' == MarkAll(F, a1, a2, a3, nt);
    hide MeshInv, NeatAll, SewnOn, Open, Occupied, Names, Signed, OnePer;
    RoomOf(F, T, a1, v.0, v.1, nt);
    RoomOf(F, T, a2, v.1, v.2, nt);
    RoomOf(F, T, a3, v.2, v.0, nt);
    EmitKeeps(F, T, T', a1, a2, a3, v.0, v.1, v.2, nt);
    SignedOnce(F, a1, a2, a3, v, T'[nt]);
    forall x, y | !SideOf(v, x, y) && !SideOf(v, y, x)
      ensures (Open(F, T, x, y) ==> Open(E', T', x, y)) && (!Occupied(F, x, y) ==> !Occupied(E', x, y))
    {
      FarEffect(F, T, E', T', nt, v, a1, a2, a3, x, y);
    }
    forall x, y | SideOf(v, x, y) && !Occupied(F, x, y) ensures Open(E', T', y, x) {
      NewOpen(F, T, E', T', nt, if x == v.0 then a1 else if x == v.1 then a2 else a3, x, y);
    }
  }

  /** A triangle sewn where its sides are open keeps the mesh and what is open or free elsewhere. */
  lemma SewnKeeps(E: Edges, T: seq<Tri>, E': Edges, T': seq<Tri>, nt: int, v: (int, int, int))
    requires MeshInv(NeatAll(E), T) && Sewn(E, T, E', T', nt, v) && Three(v) && OnePer(E')
    requires Open(E, T, v.0, v.1) && Open(E, T, v.1, v.2) && Open(E, T, v.2, v.0)
    ensures MeshInv(NeatAll(E'), T') && Effect(E, T, E', T', v)
  {
    hide MeshInv, NeatAll, SewnOn, Open, Occupied, Names, Opened, OnePer;
    var F, a1, a2, a3 :| Opened(E, F) && SewnOn(F, T, E', T', nt, v, a1, a2, a3);
    OpenedMesh(E, F, T);
    OpenedOpen(E, F, T, v.0, v.1);
    OpenedOpen(E, F, T, v.1, v.2);
    OpenedOpen(E, F, T, v.2, v.0);
    SewnOnKeeps(F, T, E', T', nt, v, a1, a2, a3);
    forall x, y ensures (Open(E, T, x, y) ==> Open(F, T, x, y)) && (!Occupied(E, x, y) ==> !Occupied(F, x, y)) {
      if Open(E, T, x, y) {
        OpenedOpen(E, F, T, x, y);
      }
      if !Occupied(E, x, y) {
        OpenedUnoccupied(E, F, x, y);
      }
    }
  }

  lemma OpenedUnoccupied(E: Edges, F: Edges, x: int, y: int)
    requires Opened(E, F) && !Occupied(E, x, y)
    ensures !Occupied(F, x, y)
  {
  }

  // ---------------------------------------------------------------- rings

  /** Ring l steps from x to y. */
  ghost predicate Step(l: seq<int>, x: int, y: int) {
    exists i :: 0 <= i < |l| && l[i] == x && l[After1(i, |l|)] == y
  }

  function After1(i: int, n: int): (r: int) {
    if i + 1 == n then 0 else i + 1
  }

  lemma StepTurned(l: seq<int>, k: nat, x: int, y: int)
    requires k <= |l|
    ensures Step(l[k..] + l[..k], x, y) <==> Step(l, x, y)
  {
    var n, r := |l|, l[k..] + l[..k];
    if Step(l, x, y) {
      var i :| 0 <= i < n && l[i] == x && l[After1(i, n)] == y;
      var j := if i >= k then i - k else i + n - k;
      assert r[j] == x && r[After1(j, n)] == y;
    }
    if Step(r, x, y) {
      var j :| 0 <= j < n && r[j] == x && r[After1(j, n)] == y;
      var i := if j + k < n then j + k else j + k - n;
      assert l[i] == x && l[After1(i, n)] == y;
    }
  }

  lemma UniqueTurned(l: seq<int>, k: nat)
    requires k <= |l| && Unique(l)
    ensures Unique(l[k..] + l[..k])
  {
  }

  lemma TurnedMembers(l: seq<int>, k: nat, x: int)
    requires k <= |l|
    ensures x in l[k..] + l[..k] <==> x in l
  {
    assert l == l[..k] + l[k..];
  }

  /** The ring v m w r is cut between v and w: the piece is the ring w v m. */
  lemma PieceSteps(v: int, m: seq<int>, w: int, r: seq<int>, x: int, y: int)
    requires m != [] && r != [] && Unique([v] + m + [w] + r)
    ensures Step([w, v] + m, x, y) ==> (x == w && y == v) || (Step([v] + m + [w] + r, x, y) && !(x == v && y == w))
    ensures Step([v] + m + [w] + r, x, y) && x in [w, v] + m && y in [w, v] + m ==> Step([w, v] + m, x, y)
    ensures Step([w, v] + m, w, v)
  {
    var l, p := [v] + m + [w] + r, [w, v] + m;
    var n := |m|;
    assert forall i | 0 <= i <= n :: p[i + 1] == l[i];
    assert l[n + 1] == w && p[0] == w && p[1] == v;
    if Step(p, x, y) {
      var i :| 0 <= i < |p| && p[i] == x && p[After1(i, |p|)] == y;
      if i > 0 {
        assert l[i - 1] == x && l[After1(i - 1, |l|)] == y;
      }
    }
    if Step(l, x, y) && x in p && y in p {
      var i :| 0 <= i < |l| && l[i] == x && l[After1(i, |l|)] == y;
      PieceIndex(v, m, w, r, i);
      PieceIndex(v, m, w, r, After1(i, |l|));
      assert p[i + 1] == x && p[After1(i + 1, |p|)] == y;
    }
    assert Step(p, w, v) by { assert p[After1(0, |p|)] == v; }
  }

  lemma PieceIndex(v: int, m: seq<int>, w: int, r: seq<int>, i: int)
    requires Unique([v] + m + [w] + r) && 0 <= i < |[v] + m + [w] + r| && ([v] + m + [w] + r)[i] in [w, v] + m
    ensures i <= |m| + 1
  {
    var l, p := [v] + m + [w] + r, [w, v] + m;
    var j :| 0 <= j < |p| && p[j] == l[i];
    assert p[j] == l[if j == 0 then |m| + 1 else j - 1];
  }

  lemma PieceRing(v: int, m: seq<int>, w: int, r: seq<int>)
    requires m != [] && r != [] && Unique([v] + m + [w] + r)
    ensures Unique([w, v] + m) && |[w, v] + m| >= 3
    ensures forall x | x in [w, v] + m :: x in [v] + m + [w] + r && x !in r
    ensures v != w && !Step([v] + m + [w] + r, v, w) && !Step([v] + m + [w] + r, w, v)
  {
    var l, p := [v] + m + [w] + r, [w, v] + m;
    var n := |m|;
    assert forall i | 0 <= i <= n :: p[i + 1] == l[i];
    assert l[n + 1] == w && p[0] == w && l[0] == v;
    assert forall j | 0 <= j < |r| :: l[n + 2 + j] == r[j];
    forall i, j | 0 <= i < j < |p| ensures p[i] != p[j] {
      assert p[j] == l[j - 1] && p[i] == l[if i == 0 then n + 1 else i - 1];
    }
    forall x | x in p ensures x in l && x !in r {
      var i :| 0 <= i < |p| && p[i] == x;
      assert l[if i == 0 then n + 1 else i - 1] == x;
      assert x !in r;
    }
    assert forall i | 0 <= i < |l| :: (l[i] == v ==> i == 0) && (l[i] == w ==> i == n + 1);
  }

  // ---------------------------------------------------------------- simple contours

  /** Contour l has no vertex twice, a triangle may be put on the inner side of each of its edges,
      and no edge that joins two vertices of it across lists a triangle. */
  ghost predicate ContourOk(E: Edges, T: seq<Tri>, l: seq<int>) {
    && |l| >= 3 && Unique(l)
    && (forall x, y | Step(l, x, y) :: Open(E, T, x, y))
    && (forall x, y | x in l && y in l && x != y && !Step(l, x, y) && !Step(l, y, x) :: !Occupied(E, x, y))
  }

  /** Two contours meet in one vertex at most. */
  ghost predicate Meet1(p: seq<int>, q: seq<int>) {
    forall x, y | x in p && x in q && y in p && y in q :: x == y
  }

  /** What tridcf_ needs of the contours q for the mesh to stay one. */
  ghost predicate Sketch(E: Edges, T: seq<Tri>, q: seq<seq<int>>) {
    && MeshInv(NeatAll(E), T)
    && (forall c | 0 <= c < |q| :: ContourOk(E, T, q[c]))
    && (forall c, d | 0 <= c < d < |q| :: Meet1(q[c], q[d]))
  }

  lemma TurnedOk(E: Edges, T: seq<Tri>, l: seq<int>, k: nat)
    requires ContourOk(E, T, l) && k <= |l|
    ensures ContourOk(E, T, l[k..] + l[..k])
  {
    UniqueTurned(l, k);
    hide Step, Unique, Open, Occupied;
    forall x, y ensures Step(l[k..] + l[..k], x, y) <==> Step(l, x, y) {
      StepTurned(l, k, x, y);
    }
    forall x ensures x in l[k..] + l[..k] <==> x in l {
      TurnedMembers(l, k, x);
    }
  }

  /** A contour that has at most one vertex of the triangle stays as it is. */
  lemma OtherOk(E: Edges, T: seq<Tri>, E': Edges, T': seq<Tri>, v: (int, int, int), l: seq<int>)
    requires ContourOk(E, T, l) && Effect(E, T, E', T', v)
    requires forall x, y | x in l && y in l && x != y :: !SideOf(v, x, y)
    ensures ContourOk(E', T', l)
  {
    hide Open, Occupied, SideOf;
    forall x, y | Step(l, x, y) ensures Open(E', T', x, y) {
      StepEnds(l, x, y);
    }
  }

  lemma StepEnds(l: seq<int>, x: int, y: int)
    requires Unique(l) && |l| >= 2 && Step(l, x, y)
    ensures x in l && y in l && x != y
  {
  }

  /** The piece between corners v and w. */
  lemma PieceOk(E: Edges, T: seq<Tri>, E': Edges, T': seq<Tri>, t: (int, int, int), v: int, m: seq<int>, w: int,
      r: seq<int>)
    requires ContourOk(E, T, [v] + m + [w] + r) && Effect(E, T, E', T', t) && SideOf(t, v, w) && m != [] && r != []
    requires forall x, y | SideOf(t, x, y) && x !in r && y !in r :: x == v && y == w
    ensures ContourOk(E', T', [w, v] + m)
  {
    var l, p := [v] + m + [w] + r, [w, v] + m;
    PieceRing(v, m, w, r);
    assert w in l && v in l;
    hide Open, Occupied, Step, Unique;
    forall x, y | Step(p, x, y) ensures Open(E', T', x, y) {
      PieceSteps(v, m, w, r, x, y);
      StepEnds(p, x, y);
    }
    forall x, y | x in p && y in p && x != y && !Step(p, x, y) && !Step(p, y, x) ensures !Occupied(E', x, y) {
      PieceSteps(v, m, w, r, x, y);
      PieceSteps(v, m, w, r, y, x);
      assert x in l && y in l;
    }
  }

  function Ring(w: int, v: int, m: seq<int>): (p: seq<int>) {
    [w, v] + m
  }

  /** The remaining contours, one by one. */
  lemma PiecesOk(E: Edges, T: seq<Tri>, v1: int, a: seq<int>, v2: int, b: seq<int>, v3: int, c: seq<int>)
    requires a != [] ==> ContourOk(E, T, Ring(v2, v1, a))
    requires b != [] ==> ContourOk(E, T, Ring(v3, v2, b))
    requires c != [] ==> ContourOk(E, T, Ring(v1, v3, c))
    requires Meet1(Ring(v2, v1, a), Ring(v3, v2, b)) && Meet1(Ring(v3, v2, b), Ring(v1, v3, c))
      && Meet1(Ring(v1, v3, c), Ring(v2, v1, a))
    ensures var p := Pieces(v1, a, v2, b, v3, c);
      && (forall i | 0 <= i < |p| :: ContourOk(E, T, p[i]))
      && (forall i, j | 0 <= i < j < |p| :: Meet1(p[i], p[j]))
      && (forall i | 0 <= i < |p| :: (a != [] && p[i] == Ring(v2, v1, a)) || (b != [] && p[i] == Ring(v3, v2, b))
                                     || (c != [] && p[i] == Ring(v1, v3, c)))
  {
    Meet1Turned(Ring(v2, v1, a), Ring(v3, v2, b));
    Meet1Turned(Ring(v3, v2, b), Ring(v1, v3, c));
    Meet1Turned(Ring(v1, v3, c), Ring(v2, v1, a));
    hide ContourOk, Meet1;
  }

  lemma Meet1Turned(p: seq<int>, q: seq<int>)
    ensures Meet1(p, q) <==> Meet1(q, p)
  {
  }

  /** The piece of one arc, the ring read from its start. */
  lemma ArcPiece(E: Edges, T: seq<Tri>, E': Edges, T': seq<Tri>, t: (int, int, int), l: seq<int>, k: nat, v: int,
      m: seq<int>, w: int, r: seq<int>, z: int)
    requires ContourOk(E, T, l) && k <= |l| && l[k..] + l[..k] == [v] + m + [w] + r && z in r
    requires Rotated(t, v, w, z) && Effect(E, T, E', T', t)
    ensures m != [] ==> ContourOk(E', T', Ring(w, v, m))
  {
    TurnedOk(E, T, l, k);
    if m != [] {
      hide ContourOk, Effect;
      PieceOk(E, T, E', T', t, v, m, w, r);
    }
  }

  /** Before the cut: the side of an arc is open, and free when it is new. */
  lemma ArcSide(E: Edges, T: seq<Tri>, l: seq<int>, k: nat, v: int, m: seq<int>, w: int, r: seq<int>)
    requires ContourOk(E, T, l) && k <= |l| && l[k..] + l[..k] == [v] + m + [w] + r && r != []
    ensures v != w && Open(E, T, v, w) && (m != [] ==> FreeSide(E, v, w))
    ensures v !in r && w !in r
  {
    TurnedOk(E, T, l, k);
    var g := [v] + m + [w] + r;
    assert g[0] == v && g[|m| + 1] == w && forall j | 0 <= j < |r| :: g[|m| + 2 + j] == r[j];
    if m == [] {
      assert Step(g, v, w) by { assert g[0] == v && g[After1(0, |g|)] == w; }
    } else {
      PieceRing(v, m, w, r);
      hide Step;
      assert v in g && w in g;
      FreeOpen(E, T, v, w);
    }
  }

  lemma FreeOpen(E: Edges, T: seq<Tri>, x: int, y: int)
    requires !Occupied(E, x, y)
    ensures Open(E, T, x, y)
  {
  }

  /** Two pieces meet in the corner between them. */
  lemma ArcsMeet(l: seq<int>, k: nat, v: int, m: seq<int>, w: int, n: seq<int>, z: int, r: seq<int>)
    requires Unique(l) && k <= |l| && l[k..] + l[..k] == [v] + m + [w] + n + [z] + r
    ensures Meet1(Ring(w, v, m), Ring(z, w, n))
  {
    UniqueTurned(l, k);
    var g := [v] + m + [w] + n + [z] + r;
    var i0 := |m| + 1;
    assert g[..i0] == [v] + m && g[i0] == w && g[i0 + 1..i0 + 2 + |n|] == n + [z];
    assert forall j | 0 <= j <= |n| :: (n + [z])[j] == g[i0 + 1 + j];
    assert forall i | 0 <= i < i0 :: ([v] + m)[i] == g[i];
    assert forall x | x in [v] + m :: x !in n + [z];
    assert forall x | x in Ring(w, v, m) :: x == w || x in [v] + m;
    assert forall x | x in Ring(z, w, n) :: x == w || x in n + [z];
  }

  /** The corners of the triangle, its sides, and the three arcs of the ring between them. */
  lemma CutRing(E: Edges, T: seq<Tri>, l: seq<int>, k: nat, v1: int, a: seq<int>, v2: int, b: seq<int>, v3: int,
      c: seq<int>, v: (int, int, int))
    requires ContourOk(E, T, l) && k <= |l| && l[k..] + l[..k] == Ring3(v1, a, v2, b, v3, c) && Rotated(v, v1, v2, v3)
    ensures Three(v) && FreeChords(E, v1, a, v2, b, v3, c)
    ensures Open(E, T, v.0, v.1) && Open(E, T, v.1, v.2) && Open(E, T, v.2, v.0)
  {
    var r1, r2, r3 := b + [v3] + c, c + [v1] + a, a + [v2] + b;
    var k2, k3 := Arcs(l, k, v1, a, v2, b, v3, c);
    hide ContourOk, Open, Occupied, Unique;
    ArcSide(E, T, l, k, v1, a, v2, r1);
    ArcSide(E, T, l, k2, v2, b, v3, r2);
    ArcSide(E, T, l, k3, v3, c, v1, r3);
    assert v3 in r1 && v1 in r2 && v2 in r3;
  }

  /** The ring read from each of the three corners. */
  lemma Arcs(l: seq<int>, k: nat, v1: int, a: seq<int>, v2: int, b: seq<int>, v3: int, c: seq<int>)
      returns (k2: nat, k3: nat)
    requires k <= |l| && l[k..] + l[..k] == Ring3(v1, a, v2, b, v3, c)
    ensures l[k..] + l[..k] == [v1] + a + [v2] + (b + [v3] + c)
    ensures k2 <= |l| && l[k2..] + l[..k2] == [v2] + b + [v3] + (c + [v1] + a)
    ensures k3 <= |l| && l[k3..] + l[..k3] == [v3] + c + [v1] + (a + [v2] + b)
  {
    var g := l[k..] + l[..k];
    assert g == ([v1] + a) + ([v2] + b + [v3] + c);
    k2 := TurnMore(l, k, [v1] + a, [v2] + b + [v3] + c);
    assert g == ([v1] + a + [v2] + b) + ([v3] + c);
    k3 := TurnMore(l, k, [v1] + a + [v2] + b, [v3] + c);
    assert ([v2] + b + [v3] + c) + ([v1] + a) == [v2] + b + [v3] + (c + [v1] + a);
    assert ([v3] + c) + ([v1] + a + [v2] + b) == [v3] + c + [v1] + (a + [v2] + b);
    assert [v1] + a + [v2] + (b + [v3] + c) == g;
  }

  /** A ring turned by k, then by the length of x. */
  lemma TurnMore(l: seq<int>, k: nat, x: seq<int>, y: seq<int>) returns (j: nat)
    requires k <= |l| && l[k..] + l[..k] == x + y
    ensures j <= |l| && l[j..] + l[..j] == y + x
  {
    var n := |l|;
    assert n == |x| + |y|;
    j := if k + |x| <= n then k + |x| else k + |x| - n;
    forall i | 0 <= i < n ensures (l[j..] + l[..j])[i] == (y + x)[i] {
      assert (l[k..] + l[..k])[if i < |y| then |x| + i else i - |y|] == (y + x)[i];
    }
  }

  lemma CutPieces(E: Edges, T: seq<Tri>, E': Edges, T': seq<Tri>, v: (int, int, int), l: seq<int>, k: nat, v1: int,
      a: seq<int>, v2: int, b: seq<int>, v3: int, c: seq<int>)
    requires ContourOk(E, T, l) && k <= |l| && l[k..] + l[..k] == Ring3(v1, a, v2, b, v3, c)
    requires Rotated(v, v1, v2, v3) && Effect(E, T, E', T', v)
    ensures var p := Pieces(v1, a, v2, b, v3, c);
      && (forall i | 0 <= i < |p| :: ContourOk(E', T', p[i]))
      && (forall i, j | 0 <= i < j < |p| :: Meet1(p[i], p[j]))
      && (forall i, x | 0 <= i < |p| && x in p[i] :: x in l)
  {
    var r1, r2, r3 := b + [v3] + c, c + [v1] + a, a + [v2] + b;
    var k2, k3 := Arcs(l, k, v1, a, v2, b, v3, c);
    assert v3 in r1 && v1 in r2 && v2 in r3;
    assert Unique(l);
    ArcsMeet(l, k, v1, a, v2, b, v3, c);
    assert [v2] + b + [v3] + (c + [v1] + a) == [v2] + b + [v3] + c + [v1] + a;
    ArcsMeet(l, k2, v2, b, v3, c, v1, a);
    assert [v3] + c + [v1] + (a + [v2] + b) == [v3] + c + [v1] + a + [v2] + b;
    ArcsMeet(l, k3, v3, c, v1, a, v2, b);
    hide ContourOk, Effect, Meet1, Pieces;
    ArcPiece(E, T, E', T', v, l, k, v1, a, v2, r1, v3);
    ArcPiece(E, T, E', T', v, l, k2, v2, b, v3, r2, v1);
    ArcPiece(E, T, E', T', v, l, k3, v3, c, v1, r3, v2);
    PiecesOk(E', T', v1, a, v2, b, v3, c);
    var p := Pieces(v1, a, v2, b, v3, c);
    forall i, x | 0 <= i < |p| && x in p[i] ensures x in l {
      TurnedMembers(l, k, x);
    }
  }

  /** One round of the main loop of `tridcf_` keeps the mesh and the simple contours. */
  lemma CutKeeps(E: Edges, T: seq<Tri>, q: seq<seq<int>>, E': Edges, T': seq<Tri>, q': seq<seq<int>>, nt: int,
      v: (int, int, int))
    requires Sketch(E, T, q) && CutOff(E, T, q, E', T', q', nt, v) && OnePer(E')
    ensures Sketch(E', T', q')
  {
    hide ContourOk, Meet1, MeshInv, NeatAll, OnePer, Ring3, Pieces, Rotated, FreeChords, Sewn, Open, Effect;
    var k: nat, v1, a, v2, b, v3, c :| CutAt(q, q', v, k, v1, a, v2, b, v3, c)
      && (FreeChords(E, v1, a, v2, b, v3, c) ==> Sewn(E, T, E', T', nt, v));
    var l, m, p := Top(q), |q| - 1, Pieces(v1, a, v2, b, v3, c);
    CutRing(E, T, l, k, v1, a, v2, b, v3, c, v);
    SewnKeeps(E, T, E', T', nt, v);
    CutPieces(E, T, E', T', v, l, k, v1, a, v2, b, v3, c);
    forall d | 0 <= d < m ensures ContourOk(E', T', q[d]) {
      CornersIn(l, k, v1, a, v2, b, v3, c, v);
      Meet1Side(q[d], l, v);
      OtherOk(E, T, E', T', v, q[d]);
    }
    forall d, i | 0 <= d < m && 0 <= i < |p| ensures Meet1(q[d], p[i]) {
      Meet1Sub(q[d], l, p[i]);
    }
    forall d, e | 0 <= d < e < |q'| ensures Meet1(q'[d], q'[e]) {
      if d >= m {
        assert Meet1(p[d - m], p[e - m]);
      } else if e >= m {
        assert Meet1(q[d], p[e - m]);
      } else {
        assert Meet1(q[d], q[e]);
      }
    }
    forall d | 0 <= d < |q'| ensures ContourOk(E', T', q'[d]) {
      if d >= m {
        assert ContourOk(E', T', p[d - m]);
      }
    }
  }

  lemma CornersIn(l: seq<int>, k: nat, v1: int, a: seq<int>, v2: int, b: seq<int>, v3: int, c: seq<int>,
      v: (int, int, int))
    requires k <= |l| && l[k..] + l[..k] == Ring3(v1, a, v2, b, v3, c) && Rotated(v, v1, v2, v3)
    ensures v.0 in l && v.1 in l && v.2 in l
  {
    TurnedMembers(l, k, v1);
    TurnedMembers(l, k, v2);
    TurnedMembers(l, k, v3);
  }

  lemma Meet1Side(p: seq<int>, l: seq<int>, v: (int, int, int))
    requires Meet1(p, l) && v.0 in l && v.1 in l && v.2 in l
    ensures forall x, y | x in p && y in p && x != y :: !SideOf(v, x, y)
  {
  }

  lemma Meet1Sub(p: seq<int>, l: seq<int>, q: seq<int>)
    requires Meet1(p, l) && forall x | x in q :: x in l
    ensures Meet1(p, q)
  {
  }
}
