/** Inputs at which the code does not do what it is for. */
module Cases {
  import opened Geometry
  import opened Delaunay
  import opened Tedela
  import opened EdgeTable
  import opened Mesh
  import opened Exchange
  import opened Triangles
  import opened Templates
  import opened Tree
  import opened Leafmesh
  import opened Trpite
  import opened Contours
  import opened Ranks
  import opened Output
  import opened Constraints

  // ---------------------------------------------------------------- f2trte_ with a full table

  /** Two free columns are left, and none of the vertices 1 to 5 is the smaller end of an edge. */
  ghost predicate TwoColumns(s: Stock) {
    s.spare == 2 && (forall q | q in s.pairs :: q.0 >= 6) && forall h | h in s.heads :: h >= 6
  }

  /** Then the sixth edge of the leaf 1, 2, 4 with the middles 3 and 5 of its second and third side
      is lost: (1, 2), (2, 3), (3, 5) take the bucket heads 1, 2, 3; (1, 3) and (1, 5) the two
      columns; nothing is left for (3, 4); and (4, 5) takes bucket head 4. */
  lemma SixthOfFive(s: Stock)
    requires TwoColumns(s)
    ensures LostAt(s, F2(1, 2, 4, 3, 5).entries, 5)
  {
    var es := F2(1, 2, 4, 3, 5).entries;
    var p, h := s.pairs, s.heads;
    assert TookAll(s, es, 1) == Stock(p + {(1, 2)}, h + {1}, 2);
    assert TookAll(s, es, 2) == Stock(p + {(1, 2)} + {(2, 3)}, h + {1} + {2}, 2);
    assert TookAll(s, es, 3) == Stock(p + {(1, 2)} + {(2, 3)} + {(1, 3)}, h + {1} + {2}, 1);
    assert TookAll(s, es, 4) == Stock(p + {(1, 2)} + {(2, 3)} + {(1, 3)} + {(3, 5)}, h + {1} + {2} + {3}, 1);
    assert TookAll(s, es, 5)
      == Stock(p + {(1, 2)} + {(2, 3)} + {(1, 3)} + {(3, 5)} + {(1, 5)}, h + {1} + {2} + {3}, 0);
    assert TookAll(s, es, 6) == TookAll(s, es, 5);
    forall j | 0 <= j < 7 && j != 5 ensures FoundAt(s, es, j) {
      assert j == 0 || j == 1 || j == 2 || j == 3 || j == 4 || j == 6;
    }
  }

  /** A table of edges without triangles, the smaller end of each in 6..h - 1. */
  ghost predicate Plain(table: Table, h: int)
    reads table, table.nosoar, table.noarst
  {
    && table.Valid() && Bounded(table.Live(), table.mxsomm) && Anchored(table.Live(), table.noarst[..])
    && (forall i | i in table.Live() :: Untaken(table.Live(), i))
    && Rows(table.StockOf(), h)
  }

  ghost predicate Untaken(E: Edges, i: int) {
    i in E && i > 0 && 6 <= E[i].st1 < E[i].st2 && E[i].tr1 <= 0 && E[i].tr2 <= 0
  }

  ghost predicate Rows(s: Stock, h: int) {
    (forall q | q in s.pairs :: 6 <= q.0 < h) && forall x | x in s.heads :: 6 <= x < h
  }

  /** As Rows, with the edges from h to h + 1..j - 1 besides. */
  ghost predicate RowsTo(s: Stock, h: int, j: int) {
    && (forall q | q in s.pairs :: 6 <= q.0 <= h && (q.0 == h ==> q.1 < j))
    && (forall x | x in s.heads :: 6 <= x <= h) && (h in s.heads <==> j > h + 1)
  }

  lemma RowNext(s: Stock, h: int, j: int)
    requires RowsTo(s, h, j) && h < j && h >= 6 && s.spare >= 0 && (j > h + 1 ==> s.spare > 0)
    ensures (h, j) !in s.pairs && Finds(s, (h, j)) && RowsTo(Took(s, (h, j)), h, j + 1)
    ensures Took(s, (h, j)).spare == if j > h + 1 then s.spare - 1 else s.spare
  {
  }

  /** The edges from h to h + 1..last, on line 1. */
  method Row(table: Table, h: int, last: int)
    requires Plain(table, h) && 6 <= h < last <= table.mxsomm && Spare(table.plan) >= last - h - 1
    modifies table`n1soar, table`plan, table.nosoar, table.noarst
    ensures Plain(table, h + 1) && Spare(table.plan) == Spare(old(table.plan)) - (last - h - 1)
  {
    hide TableInv, LiveEdges, Bounded, Anchored, Spare, Heads, Finds, Took, Untaken, Rows, RowsTo;
    RowStart(table.StockOf(), h);
    for j := h + 1 to last + 1
      invariant table.Valid() && Bounded(table.Live(), table.mxsomm) && Anchored(table.Live(), table.noarst[..])
      invariant forall i | i in table.Live() :: Untaken(table.Live(), i)
      invariant RowsTo(table.StockOf(), h, j)
      invariant Spare(table.plan) == Spare(old(table.plan)) - (if j > h + 1 then j - h - 2 else 0)
    {
      ghost var E, s, st := table.Live(), table.StockOf(), table.noarst[..];
      RowNext(s, h, j);
      var noar, ierr := table.Fasoar(h, j, -1, -1, 1);
      LiveCells(table, noar);
      EdgeAdded(E, table.Live(), st, table.noarst[..], table.mxsomm, h, j, noar);
    }
    RowEnd(table.StockOf(), h, last + 1);
  }

  lemma RowStart(s: Stock, h: int)
    requires Rows(s, h)
    ensures RowsTo(s, h, h + 1)
  {
  }

  lemma RowEnd(s: Stock, h: int, j: int)
    requires RowsTo(s, h, j)
    ensures Rows(s, h + 1)
  {
  }

  lemma EdgeAdded(E: Edges, E': Edges, st: seq<int>, st': seq<int>, mx: int, h: int, j: int, noar: int)
    requires Bounded(E, mx) && Anchored(E, st) && forall i | i in E :: Untaken(E, i)
    requires 6 <= h < j <= mx && |st| == mx + 1 && noar !in E && noar > 0
    requires E' == E[noar := Edge(h, j, 1, -1, -1, -1)] && st' == st[h := noar][j := noar]
    ensures Bounded(E', mx) && Anchored(E', st') && forall i | i in E' :: Untaken(E', i)
  {
  }

  /** A table of 24 vertices and 73 columns, so that mxsoar > 3 * mxsomm, with two columns left. */
  method CrowdedTable() returns (table: Table)
    ensures fresh(table) && fresh(table.nosoar) && fresh(table.noarst) && table.mxsomm == 24 && table.mxsoar == 73
    ensures Plain(table, 9) && TwoColumns(table.StockOf())
  {
    hide TableInv, LiveEdges, Bounded, Anchored, Spare, Heads, Untaken, Rows;
    table := new Table(24, 73);
    NothingPlain(table);
    Row(table, 6, 24);
    Row(table, 7, 24);
    Row(table, 8, 23);
    assert Spare(table.plan) == 2;
    PlainTwo(table);
  }

  lemma NothingPlain(table: Table)
    requires table.Valid() && table.Live() == map[] && table.plan.index == map[]
    requires forall s | 0 <= s < table.noarst.Length :: table.noarst[s] == 0
    ensures Plain(table, 6)
  {
  }

  lemma PlainTwo(table: Table)
    requires Plain(table, 9) && Spare(table.plan) == 2
    ensures TwoColumns(table.StockOf())
  {
  }

  /** `f2trte_` there: no error, and no mesh. */
  method SixthEdgeLost() returns (table: Table, store: Store, ierr: int)
    ensures table.mxsoar > 3 * table.mxsomm
    ensures ierr == 0 && !MeshInv(table.Live(), store.noartr[..])
  {
    hide LostAt, Fits, RoomFor, LeafOk3, TemplateOf, F2, PointsOk, MeshInv, TableInv, LiveEdges, Vacancy, TwoColumns,
      Bounded, Anchored, Spare, Finds, Took, Untaken, Rows;
    table := CrowdedTable();
    store := new Store(3);
    var P := [Point(0.0, 0.0), Point(0.0, 0.0), Point(4.0, 0.0), Point(3.0, 2.0), Point(2.0, 4.0), Point(1.0, 2.0)];
    var t := Te(0, 0, 0, 0, 0, 0, 1, 2, 4);
    PlainMesh(table.Live(), store.noartr[..]);
    Fit(1, 2, 4, 0, 3, 5);
    LeafOfFive(P, t);
    SixthOfFive(table.StockOf());
    EntriesOfFive();
    PlainRoom(table.Live(), store.noartr[..]);
    NoPoints(table.Live(), P, t, table.mxsomm);
    var nutr, lost;
    ghost var ts;
    nutr, ierr, lost, ts := Ftrte(table, store, P, t, 0, 3, 5);
  }

  lemma PlainMesh(E: Edges, T: seq<Tri>)
    requires (forall i | i in E :: Untaken(E, i)) && forall t | 1 <= t < |T| :: !Active(T, t)
    ensures MeshInv(E, T)
  {
    forall i | i in E ensures i > 0 && EdgeOk(E, T, i) {
      assert Untaken(E, i);
    }
  }

  /** No edge of the table is an edge of the leaf. */
  lemma PlainRoom(E: Edges, T: seq<Tri>)
    requires forall i | i in E :: Untaken(E, i)
    ensures var es := TemplateOf(1, 2, 4, 0, 3, 5).entries; forall k | 0 <= k < |es| :: RoomFor(E, T, es[k])
  {
    EntriesOfFive();
    var es := TemplateOf(1, 2, 4, 0, 3, 5).entries;
    hide TemplateOf, F2;
    forall k | 0 <= k < |es| ensures RoomFor(E, T, es[k]) {
      assert es[k].u <= 5 && es[k].v <= 5;
      forall i | i in E ensures (E[i].st1, E[i].st2) != Ends(es[k]) {
        assert Untaken(E, i);
      }
    }
  }

  lemma EntriesOfFive()
    ensures var tp := TemplateOf(1, 2, 4, 0, 3, 5);
            && tp.entries == F2(1, 2, 4, 3, 5).entries && |Opt(0)| + |Opt(3)| + |Opt(5)| == 2
            && forall e | 0 <= e < |tp.entries| :: tp.entries[e].u <= 5 && tp.entries[e].v <= 5
  {
  }

  lemma NoPoints(E: Edges, P: seq<Point>, t: Te, mx: int)
    requires t.s0 == 0 && t.s1 == 0 && t.s2 == 0 && t.s3 == 0
    ensures PointsOk(E, P, t, mx, 0)
  {
    assert forall k :: Sub(t, k) == 0;
  }

  lemma LeafOfFive(P: seq<Point>, t: Te)
    requires P == [Point(0.0, 0.0), Point(0.0, 0.0), Point(4.0, 0.0), Point(3.0, 2.0), Point(2.0, 4.0), Point(1.0, 2.0)]
    requires t == Te(0, 0, 0, 0, 0, 0, 1, 2, 4)
    ensures LeafOk3(P, t, 0, 3, 5)
  {
    assert PointOf(P, 1) == Point(0.0, 0.0) && PointOf(P, 2) == Point(4.0, 0.0) && PointOf(P, 4) == Point(2.0, 4.0);
    assert PointOf(P, 3) == Point(3.0, 2.0) && PointOf(P, 5) == Point(1.0, 2.0);
    hide PointOf;
    assert AreaOf(P, (1, 2, 4)) > 0.0 by {
      assert Area(Point(0.0, 0.0), Point(4.0, 0.0), Point(2.0, 4.0)) == 8.0;
    }
    hide AreaOf;
    assert forall k :: Sub(t, k) == 0;
  }

  // ---------------------------------------------------------------- tedela_ with two equal circles

  /** Two flat rhombs side by side, 1 4 2 3 and 5 8 6 7. */
  function Rhombs(): (r: seq<Point>) {
    [Point(0.0, 0.0), Point(0.0, 0.0), Point(4.0, 0.0), Point(2.0, 1.0), Point(2.0, -1.0),
     Point(10.0, 0.0), Point(14.0, 0.0), Point(12.0, 1.0), Point(12.0, -1.0)]
  }

  /** Both divided by the long diagonal, or the first, or the second by the short one. */
  function LongLong(): (r: seq<Corners>) {
    [(0, 0, 0), (1, 2, 3), (1, 4, 2), (5, 6, 7), (5, 8, 6)]
  }

  function ShortLong(): (r: seq<Corners>) {
    [(0, 0, 0), (1, 4, 3), (2, 3, 4), (5, 6, 7), (5, 8, 6)]
  }

  function LongShort(): (r: seq<Corners>) {
    [(0, 0, 0), (1, 2, 3), (1, 4, 2), (5, 8, 7), (6, 7, 8)]
  }

  /** The long diagonals want the exchange, in circles of the same size; the short ones do not. */
  lemma RhombCircles()
    ensures WantsAt(Rhombs(), (1, 2, 3, 4)) && WantsAt(Rhombs(), (2, 1, 4, 3))
    ensures WantsAt(Rhombs(), (5, 6, 7, 8)) && WantsAt(Rhombs(), (6, 5, 8, 7))
    ensures !WantsAt(Rhombs(), (4, 3, 1, 2)) && !WantsAt(Rhombs(), (3, 4, 2, 1))
    ensures !WantsAt(Rhombs(), (8, 7, 5, 6)) && !WantsAt(Rhombs(), (7, 8, 6, 5))
    ensures CircleAt(Rhombs(), (1, 2, 3, 4)) == CircleAt(Rhombs(), (2, 1, 4, 3)) == 6.25
    ensures CircleAt(Rhombs(), (5, 6, 7, 8)) == CircleAt(Rhombs(), (6, 5, 8, 7)) == 6.25
  {
    hide Wants, Area, Radius2;
    OneRhomb(0.0);
    OneRhomb(10.0);
  }

  /** The centre, from the factor that solves the equation for it. */
  lemma CentreAt(p: Point, q: Point, r: Point, rot: real)
    requires Aire2(p, q, r) != 0.0
      && rot * (Aire2(p, q, r) * 2.0) == (q.x - r.x) * (q.x - p.x) + (q.y - r.y) * (q.y - p.y)
    ensures Area(p, q, r) != 0.0
    ensures Geometry.Centre(p, q, r) == Point((p.x + r.x) * 0.5 + rot * (r.y - p.y),
      (p.y + r.y) * 0.5 - rot * (r.x - p.x))
  {
    var d := Aire2(p, q, r) * 2.0;
    SameFactor(Rot(p, q, r), rot, d);
  }

  lemma SameFactor(a: real, b: real, d: real)
    requires d != 0.0 && a * d == b * d
    ensures a == b
  {
    assert (a - b) * d == 0.0;
  }

  lemma OneRhomb(x: real)
    ensures var p1, p2, p3, p4 := Point(x, 0.0), Point(x + 4.0, 0.0), Point(x + 2.0, 1.0), Point(x + 2.0, -1.0);
            && Wants(p1, p2, p3, p4) && Wants(p2, p1, p4, p3) && !Wants(p4, p3, p1, p2) && !Wants(p3, p4, p2, p1)
            && Area(p1, p2, p3) != 0.0 && Radius2(p1, p2, p3) == 6.25
            && Area(p2, p1, p4) != 0.0 && Radius2(p2, p1, p4) == 6.25
  {
    var p1, p2, p3, p4 := Point(x, 0.0), Point(x + 4.0, 0.0), Point(x + 2.0, 1.0), Point(x + 2.0, -1.0);
    LongSide(p1, p2, p3, p4);
    LongSide(p2, p1, p4, p3);
    ShortSide(p4, p3, p1, p2);
    ShortSide(p3, p4, p2, p1);
  }

  lemma LongSide(p: Point, q: Point, r: Point, o: Point)
    requires (q.x - p.x == 4.0 && r.x - p.x == 2.0 && r.y - p.y == 1.0 && o.x - p.x == 2.0 && o.y - p.y == -1.0)
             || (q.x - p.x == -4.0 && r.x - p.x == -2.0 && r.y - p.y == -1.0 && o.x - p.x == -2.0 && o.y - p.y == 1.0)
    requires q.y == p.y
    ensures Wants(p, q, r, o) && Area(p, q, r) != 0.0 && Radius2(p, q, r) == 6.25
  {
    assert Aire2(p, q, r) == 4.0;
    CentreAt(p, q, r, 1.0);
    var c := Geometry.Centre(p, q, r);
    assert c == Point((p.x + r.x) * 0.5 + (r.y - p.y), (p.y + r.y) * 0.5 - (r.x - p.x));
    hide Geometry.Centre;
    assert !Flat(p, q, r);
    assert !Thin(p, q, r, o) && Convex(p, q, r, o);
    assert Dist2(p, c) == 6.25 && Dist2(c, o) == 0.25;
  }

  lemma ShortSide(p: Point, q: Point, r: Point, o: Point)
    requires (q.y - p.y == 2.0 && r.x - p.x == -2.0 && r.y - p.y == 1.0 && o.x - p.x == 2.0 && o.y - p.y == 1.0)
             || (q.y - p.y == -2.0 && r.x - p.x == 2.0 && r.y - p.y == -1.0 && o.x - p.x == -2.0 && o.y - p.y == -1.0)
    requires q.x == p.x
    ensures !Wants(p, q, r, o)
  {
    assert Aire2(p, q, r) == 4.0;
    CentreAt(p, q, r, 0.25);
    var c := Geometry.Centre(p, q, r);
    assert c == Point((p.x + r.x) * 0.5 + 0.25 * (r.y - p.y), (p.y + r.y) * 0.5 - 0.25 * (r.x - p.x));
    hide Geometry.Centre;
    assert Dist2(p, c) == 1.5625 && Dist2(c, o) == 7.5625;
  }

  /** Which diagonals of the three triangulations there are. */
  lemma Diagonals(G: seq<Corners>, G': seq<Corners>, t1: int, t2: int, s: (int, int, int, int))
    requires Swap(G, G', t1, t2, s)
    ensures G == LongLong() ==> (s in [(1, 2, 3, 4), (2, 1, 4, 3)] && G' == ShortLong())
                                || (s in [(5, 6, 7, 8), (6, 5, 8, 7)] && G' == LongShort())
    ensures G == ShortLong() ==> s in [(4, 3, 1, 2), (3, 4, 2, 1)] || s in [(5, 6, 7, 8), (6, 5, 8, 7)]
    ensures G == LongShort() ==> s in [(8, 7, 5, 6), (7, 8, 6, 5)] || s in [(1, 2, 3, 4), (2, 1, 4, 3)]
  {
    if G == LongLong() || G == ShortLong() || G == LongShort() {
      assert t1 == 1 || t1 == 2 || t1 == 3 || t1 == 4;
      assert t2 == 1 || t2 == 2 || t2 == 3 || t2 == 4;
    }
  }

  /** Every exchange from them is in a circle of squared radius 6.25. */
  lemma RhombSteps(G: seq<Corners>, G': seq<Corners>, r: real)
    requires Flipped(Rhombs(), G, G', r)
    ensures G in [LongLong(), ShortLong(), LongShort()] ==> r == 6.25
    ensures G == LongLong() ==> G' == ShortLong() || G' == LongShort()
  {
    hide WantsAt, CircleAt, Swap, LongLong, ShortLong, LongShort, Rhombs;
    var t1, t2, s :| Swap(G, G', t1, t2, s) && WantsAt(Rhombs(), s) && r == CircleAt(Rhombs(), s);
    Diagonals(G, G', t1, t2, s);
    RhombCircles();
  }

  /** A diagonal of G still wants the exchange. */
  ghost predicate Unfinished(G: seq<Corners>) {
    exists G', r :: Flipped(Rhombs(), G, G', r)
  }

  lemma RhombsUnfinished()
    ensures Unfinished(LongLong()) && Unfinished(ShortLong()) && Unfinished(LongShort())
  {
    RhombCircles();
    hide WantsAt, CircleAt, Rhombs;
    var s, t := (1, 2, 3, 4), (5, 6, 7, 8);
    var both := [(0, 0, 0), (1, 4, 3), (2, 3, 4), (5, 8, 7), (6, 7, 8)];
    assert Swap(LongLong(), ShortLong(), 1, 2, s);
    assert Swap(ShortLong(), both, 3, 4, t);
    assert Swap(LongShort(), both, 1, 2, s);
    assert Flipped(Rhombs(), LongLong(), ShortLong(), 6.25);
    assert Flipped(Rhombs(), ShortLong(), both, 6.25) && Flipped(Rhombs(), LongShort(), both, 6.25);
  }

  /** Whatever run from the two long diagonals ends with a diagonal that wants the exchange: the
      guard lets only one of the two equal circles through. */
  lemma EqualCircles(trace: seq<seq<Corners>>, radii: seq<real>)
    requires Steps(Rhombs(), trace, radii) && NoTwins(radii) && trace[0] == LongLong()
    ensures Unfinished(trace[|radii|])
  {
    hide Flipped, Unfinished, Rhombs, LongLong, ShortLong, LongShort;
    RhombsUnfinished();
    if |radii| > 0 {
      assert radii[0] == radii[0];
      RhombSteps(trace[0], trace[1], radii[0]);
    }
    if |radii| > 1 {
      assert radii[1] == radii[1];
      RhombSteps(trace[1], trace[2], radii[1]);
      assert false;
    }
  }

  // ---------------------------------------------------------------- te2t2t_ with the fourth side taken

  /** The triangles 1 2 3 and 1 4 2 on either side of edge 1, and 3 4 5 on the edge of their opposite corners. */
  function ThreeEdges(): (r: Edges) {
    map[1 := Edge(1, 2, 0, 1, 2, -1), 2 := Edge(2, 3, 0, 1, 0, -1), 3 := Edge(1, 3, 0, 1, 0, -1),
      4 := Edge(1, 4, 0, 2, 0, -1),
        5 := Edge(2, 4, 0, 2, 0, -1), 6 := Edge(3, 4, 0, 3, 0, -1), 7 := Edge(4, 5, 0, 3, 0, -1),
          8 := Edge(3, 5, 0, 3, 0, -1)]
  }

  function ThreeTriangles(): (r: seq<Tri>) {
    [Tri(0, 0, 0), Tri(1, 2, -3), Tri(4, -5, -1), Tri(6, 7, -8)]
  }

  /** The exchange of edge 1 fails there, and edge 6 is left listing a triangle that does not use it. */
  lemma FourthSideTaken()
    ensures var E, T := ThreeEdges(), ThreeTriangles();
            && MeshInv(E, T) && Mesh.Inner(E, T, 1) && Quad(E, T, 1) == (1, 2, 3, 4) && Occupied(E, 3, 4)
            && !MeshInv(E[6 := Attach(E[6], 1, 2).0], T)
  {
    hide *;
    ThreeSound();
    ThreeQuad();
    ThreeRecords();
    FourthSide(ThreeEdges(), ThreeTriangles());
  }

  lemma ThreeQuad()
    ensures Mesh.Inner(ThreeEdges(), ThreeTriangles(), 1) && Quad(ThreeEdges(), ThreeTriangles(), 1) == (1, 2, 3, 4)
  {
  }

  lemma ThreeRecords()
    ensures 1 in ThreeEdges() && ThreeEdges()[1] == Edge(1, 2, 0, 1, 2, -1)
    ensures 6 in ThreeEdges() && ThreeEdges()[6] == Edge(3, 4, 0, 3, 0, -1)
  {
  }

  lemma FourthSide(E: Edges, T: seq<Tri>)
    requires MeshInv(E, T) && Mesh.Inner(E, T, 1) && Quad(E, T, 1) == (1, 2, 3, 4)
    requires 6 in E && E[6] == Edge(3, 4, 0, 3, 0, -1) && E[1] == Edge(1, 2, 0, 1, 2, -1)
    ensures Occupied(E, 3, 4) && !MeshInv(E[6 := Attach(E[6], 1, 2).0], T)
  {
    hide MeshInv, Quad, Attach;
    assert (E[6].st1, E[6].st2) == Pair(3, 4);
    OccupiedBreaks(E, T, 1, 6);
  }

  lemma ThreeSound()
    ensures MeshInv(ThreeEdges(), ThreeTriangles())
  {
    forall t | Active(ThreeTriangles(), t) ensures TriOk(ThreeEdges(), ThreeTriangles(), t) {
      assert t == 1 || t == 2 || t == 3;
    }
    forall i | i in ThreeEdges() ensures i > 0 && EdgeOk(ThreeEdges(), ThreeTriangles(), i) {
      assert i == 1 || i == 2 || i == 3 || i == 4 || i == 5 || i == 6 || i == 7 || i == 8;
    }
  }

  // ---------------------------------------------------------------- StoreResult with a vertex left out

  /** Of the vertices 1 and 2, 1 given a node, only 2 is in use: it gets the number 1 and the node of 1. */
  lemma GivenLeftOut()
    ensures var m := [0, 0, 1];
            Rank(m, 2) == 1 && !NoGap(m, 1) && !RightNodes(m, 1)
  {
    var m := [0, 0, 1];
    assert Rank(m, 2) == Rank(m, 1) + 1 && Rank(m, 1) == Rank(m, 0);
    assert Marked(m, 2) && !Marked(m, 1);
    NodesExact(m, 1);
  }

  // ---------------------------------------------------------------- grad with equal pointers

  /** A point that counts twice in a centre of gravity: moved by 1 the error falls by 2, and `grad` is -1. */
  lemma CentreOfTwo()
    ensures var pv, w := [0, 1, 1], [1.0, 1.0];
            var x: Values := q => 0.0;
            Gap(Bump(x, 1, 1.0), pv, w) - Gap(x, pv, w) == -2.0 && LastFactor(pv, w, 2, 1) == -1.0
  {
    var pv, w := [0, 1, 1], [1.0, 1.0];
    var x: Values := q => 0.0;
    GapBump(x, pv, w, 1, 1.0);
    assert AllFactors(pv, w, 2, 1) == AllFactors(pv, w, 1, 1) - HitAt(pv, 2, 1) * Nth(w, 1);
    assert AllFactors(pv, w, 1, 1) == AllFactors(pv, w, 0, 1) - HitAt(pv, 1, 1) * Nth(w, 0);
  }

  /** Concentric circles with one radius: the error stays 0 when it changes, and `grad` is 1. */
  lemma OneRadius()
    ensures var pv: seq<Ptr> := [0, 1, 0, 1, 2, 2];
            var x: Values := q => 0.0;
            TangentError(Bump(x, 2, 1.0), pv, 1.0, true) == TangentError(x, pv, 1.0, true)
              && TangentGrad(x, pv, 1.0, true, 2) == 1.0
  {
  }
}
