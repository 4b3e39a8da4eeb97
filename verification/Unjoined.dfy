/** `tridcf_` on two contours with two isolated vertices, one in each: the second vertex joins both
    contours, the first is left out, and no error is reported. */
module Unjoined {
  import opened Lists
  import opened Geometry
  import opened Delaunay
  import opened EdgeTable
  import opened Mesh
  import opened Exchange
  import opened Contours
  import opened Triangles
  import opened Trcf
  import opened Accounting
  import opened Joining
  import opened Choosing
  import opened Sketching
  import opened Tridcf

  /** The triangles 1 2 3 and 4 5 6, with 7 inside the first and 8, higher up, inside the second. */
  function Plane(): (P: seq<Point>) {
    [Point(0.0, 0.0), Point(0.0, 0.0), Point(4.0, 0.0), Point(2.0, 4.0),
     Point(100.0, 10.0), Point(104.0, 10.0), Point(102.0, 14.0), Point(2.0, 1.0), Point(102.0, 11.0)]
  }

  function Corners3(): (p: seq<seq<int>>) {
    [[1, 2, 3], [4, 5, 6]]
  }

  /** The distance to a level edge. */
  ghost predicate Level(dist: (Point, Point, Point) -> real) {
    forall p: Point, a: Point, b: Point {:trigger dist(p, a, b)} | a.y == b.y && a.x != b.x ::
      dist(p, a, b) == AbsR(p.y - a.y)
  }

  /** The slots 1 to 6 of the two contours, 7 to 15 free. */
  function Slots(e: seq<int>): (s: seq<Slot>)
    requires |e| == 6
  {
    [Slot(0, 0, 0), Slot(1, 2, e[0]), Slot(2, 3, e[1]), Slot(3, 1, e[2]), Slot(4, 5, e[3]), Slot(5, 6, e[4]),
     Slot(6, 4, e[5]), Slot(0, 8, 0), Slot(0, 9, 0), Slot(0, 10, 0), Slot(0, 11, 0), Slot(0, 12, 0), Slot(0, 13, 0),
     Slot(0, 14, 0), Slot(0, 15, 0), Slot(0, 0, 0)]
  }

  function Heads(): (h: seq<int>) {
    [7, 1, 4, 0, 0, 0, 0, 0, 0, 0, 0, 0, 0, 0, 0, 0]
  }

  function Nine(): (l: seq<int>) {
    seq(9, i => i + 7)
  }

  /** The six edges of the contours. */
  ghost predicate Sides(E: Edges, e: seq<int>) {
    && |e| == 6 && Names(E, e[0], 1, 2) && Names(E, e[1], 2, 3) && Names(E, e[2], 3, 1)
    && Names(E, e[3], 4, 5) && Names(E, e[4], 5, 6) && Names(E, e[5], 6, 4)
  }

  lemma ChainOf(s: seq<Slot>, l: seq<int>, k: nat)
    requires k <= |l| && forall i | 0 <= i < |l| :: 0 <= l[i] < |s| && s[l[i]].suiv == At(l, i + 1)
    ensures Chain(s, l[k..])
    decreases |l| - k
  {
    if k < |l| {
      ChainOf(s, l, k + 1);
      assert l[k..][1..] == l[k + 1..] && At(l[k..], 1) == At(l, k + 1);
    }
  }

  lemma {:induction false} OnceEach(l: seq<int>, n: int)
    requires Unique(l) && forall i | 0 <= i < |l| :: 1 <= l[i] < n
    ensures Pool(n, multiset(l))
  {
    if l != [] {
      var m := |l| - 1;
      OnceEach(l[..m], n);
      assert l == l[..m] + [l[m]];
      assert multiset(l) == multiset(l[..m]) + multiset{l[m]};
      assert l[m] !in l[..m];
      assert l[m] !in multiset(l[..m]);
    }
  }

  lemma SumTwo(a: seq<int>, b: seq<int>)
    ensures Sum([a, b]) == multiset(a) + multiset(b)
  {
    assert [a, b][..1] == [a] && Sum([a]) == multiset(a) by {
      assert [a][..0] == [];
    }
  }

  lemma Fifteen(l: seq<int>)
    requires |l| == 15 && forall i | 0 <= i < 15 :: l[i] == if i < 9 then i + 7 else i - 8
    ensures Pool(16, multiset(l))
  {
    OnceEach(l, 16);
  }

  lemma PoolOf()
    ensures Pool(16, multiset(Nine()) + Sum([[1, 2, 3], [4, 5, 6]]))
  {
    SumTwo([1, 2, 3], [4, 5, 6]);
    var l := Nine() + ([1, 2, 3] + [4, 5, 6]);
    Fifteen(l);
    ThreeBags(Nine(), [1, 2, 3], [4, 5, 6]);
    hide Pool, Sum, Nine;
  }

  lemma ThreeBags(a: seq<int>, b: seq<int>, c: seq<int>)
    ensures multiset(a + (b + c)) == multiset(a) + (multiset(b) + multiset(c))
  {
  }

  lemma RingPaths(E: Edges, e: seq<int>)
    requires Sides(E, e)
    ensures Path(E, Slots(e), Closed([1, 2, 3])) && Path(E, Slots(e), Closed([4, 5, 6]))
  {
    var s := Slots(e);
    hide Names;
    assert Closed([1, 2, 3]) == [1, 2, 3, 1] && Closed([4, 5, 6]) == [4, 5, 6, 4];
    assert [1, 2, 3, 1][1..] == [2, 3, 1] && [2, 3, 1][1..] == [3, 1] && [3, 1][1..] == [1];
    assert [4, 5, 6, 4][1..] == [5, 6, 4] && [5, 6, 4][1..] == [6, 4] && [6, 4][1..] == [4];
    assert Path(E, s, [3, 1]) && Path(E, s, [2, 3, 1]);
    assert Path(E, s, [6, 4]) && Path(E, s, [5, 6, 4]);
  }

  lemma FreeSlots(e: seq<int>)
    requires |e| == 6
    ensures Chain(Slots(e), Nine())
  {
    assert Nine()[0..] == Nine();
    ChainOf(Slots(e), Nine(), 0);
  }

  lemma HeldOf(E: Edges, e: seq<int>)
    requires Sides(E, e)
    ensures Held(E, Slots(e), Heads(), Nine(), [[1, 2, 3], [4, 5, 6]])
  {
    PoolOf();
    FreeSlots(e);
    RingsOf(E, e);
    assert |Slots(e)| == 16 && |Heads()| == 16 && Heads()[0] == At(Nine(), 0);
    hide Chain, Pool, Sum, Slots, Contours.Rings, Nine, Heads;
  }

  lemma RingsOf(E: Edges, e: seq<int>)
    requires Sides(E, e)
    ensures Contours.Rings(E, Slots(e), Heads(), [[1, 2, 3], [4, 5, 6]])
  {
    RingPaths(E, e);
    var lists: seq<seq<int>> := [[1, 2, 3], [4, 5, 6]];
    assert 1 in [1, 2, 3] && 4 in [4, 5, 6];
    hide Path, Slots, Closed, Names;
    forall c {:trigger lists[c]} | 0 <= c < |lists|
      ensures Heads()[c + 1] in lists[c] && Path(E, Slots(e), Closed(lists[c]))
    {
      assert c == 0 || c == 1;
    }
  }

  lemma PolysTwo(e: seq<int>)
    requires |e| == 6
    ensures Polys(Slots(e), [[1, 2, 3], [4, 5, 6]]) == Corners3() && FirstsOf(Slots(e), Heads(), 2) == [(1, 2), (4, 5)]
  {
    assert Poly(Slots(e), [1, 2, 3]) == [1, 2, 3];
    assert Poly(Slots(e), [4, 5, 6]) == [4, 5, 6];
  }

  /** The first round: edge 1 2 sees both isolated vertices, 7 is the nearer. */
  lemma FirstRound(dist: (Point, Point, Point) -> real, st: seq<int>)
    requires Level(dist) && |st| == 3 && st[1] == 7 && st[2] == 8
    ensures Picks(Plane(), dist, 2, Round([(1, 2), (4, 5)], st), 0, 1)
  {
    var P := Plane();
    assert AreaOf(P, (1, 2, 7)) == 2.0;
    assert PointOf(P, 7) == Point(2.0, 1.0) && PointOf(P, 8) == Point(102.0, 11.0);
    assert PointOf(P, 1) == Point(0.0, 0.0) && PointOf(P, 2) == Point(4.0, 0.0);
    assert Off(P, dist, st, 1, (1, 2)) == 1.0 && Off(P, dist, st, 2, (1, 2)) == 11.0;
    hide Off, AreaOf;
    assert IsNearest(P, dist, st, 2, (1, 2), 1);
  }

  /** The second round: the first edge of the first contour ends in 8 now, which it does not see. */
  lemma SecondRound(dist: (Point, Point, Point) -> real, st: seq<int>)
    requires Level(dist) && |st| == 3 && st[1] == -7 && st[2] == 8
    ensures Picks(Plane(), dist, 2, Round([(1, 8), (4, 5)], st), 1, 2)
  {
    var P := Plane();
    assert AreaOf(P, (1, 8, 8)) == 0.0;
    assert AreaOf(P, (4, 5, 8)) == 2.0;
    assert PointOf(P, 8) == Point(102.0, 11.0) && PointOf(P, 4) == Point(100.0, 10.0);
    assert PointOf(P, 5) == Point(104.0, 10.0);
    assert Off(P, dist, st, 2, (4, 5)) == 1.0;
    hide Off, AreaOf;
    assert IsNearest(P, dist, st, 2, (1, 8), 0);
    assert IsNearest(P, dist, st, 2, (4, 5), 2);
  }

  /** What two rounds from there are, and that neither is stuck. */
  lemma TwoRounds(dist: (Point, Point, Point) -> real, rs: seq<Round>)
    requires Level(dist) && Rounds(Plane(), dist, 2, rs) && rs[0].firsts == [(1, 2), (4, 5)]
    requires |rs[0].st| == 3 && rs[0].st[1] == 7 && rs[0].st[2] == 8 && |rs| <= 2
    ensures !Blind(Plane(), dist, 2, rs[|rs| - 1]) && !LastGone(Plane(), dist, 2, rs[|rs| - 1])
  {
    FirstRound(dist, rs[0].st);
    hide Level, IsNearest;
    if |rs| == 1 {
      NotStuck(dist, rs[0], 0, 1);
    } else {
      assert Joins(Plane(), dist, 2, rs[0], rs[0 + 1]);
      var c, i :| Picks(Plane(), dist, 2, rs[0], c, i) && rs[0].st[2] > 0 && rs[1] == Joined(rs[0], 2, c, i);
      PicksOnce(Plane(), dist, 2, rs[0], c, i, 0, 1);
      SecondRound(dist, rs[1].st);
      NotStuck(dist, rs[1], 1, 2);
    }
  }

  lemma NotStuck(dist: (Point, Point, Point) -> real, r: Round, c: int, i: int)
    requires Picks(Plane(), dist, 2, r, c, i) && r.st[2] > 0
    ensures !Blind(Plane(), dist, 2, r) && !LastGone(Plane(), dist, 2, r)
  {
    hide IsNearest;
    if Blind(Plane(), dist, 2, r) {
      NearestOnce(Plane(), dist, r.st, 2, r.firsts[c], i, 0);
    }
  }

  /** The six edges in an empty table. */
  method SixEdges(table: Table) returns (e: seq<int>)
    requires table.Valid() && Bounded(table.Live(), table.mxsomm) && table.mxsomm == 8 && Spare(table.plan) >= 22
    modifies table`n1soar, table`plan, table.nosoar, table.noarst
    ensures table.Valid() && Bounded(table.Live(), 8) && Spare(table.plan) >= 16 && Sides(table.Live(), e)
  {
    hide TableInv, LiveEdges, Names, Spare, Bounded, Opened, FreeSide;
    var u, v := [1, 2, 3, 4, 5, 6], [2, 3, 1, 5, 6, 4];
    e := [];
    for k := 0 to 6
      invariant table.Valid() && Bounded(table.Live(), table.mxsomm) && |e| == k && Spare(table.plan) + k >= 22
      invariant forall j | 0 <= j < k :: Names(table.Live(), e[j], u[j], v[j])
    {
      ghost var E := table.Live();
      var noar, ierr := NewSide(table, u[k], v[k]);
      forall j | 0 <= j < k ensures Names(table.Live(), e[j], u[j], v[j]) {
        NamesGrow(E, table.Live(), e[j], u[j], v[j]);
      }
      e := e + [noar];
    }
    assert Names(table.Live(), e[0], u[0], v[0]) && Names(table.Live(), e[1], u[1], v[1]);
    assert Names(table.Live(), e[2], u[2], v[2]) && Names(table.Live(), e[3], u[3], v[3]);
    assert Names(table.Live(), e[4], u[4], v[4]) && Names(table.Live(), e[5], u[5], v[5]);
  }

  /** The input: nostpe lists 7 and 8. */
  method Input() returns (table: Table, store: Store, cf: Contour, nostpe: array<int>, notrcf: array<int>)
    ensures Ready(table, store, cf) && fresh(table) && fresh(store) && fresh(cf)
    ensures fresh(table.nosoar) && fresh(table.noarst) && fresh(store.noartr) && fresh(cf.noarcf) && fresh(cf.n1arcf)
    ensures fresh(nostpe) && fresh(notrcf) && nostpe != table.noarst && nostpe != cf.n1arcf
    ensures notrcf != table.noarst && notrcf != cf.n1arcf && notrcf != nostpe && notrcf.Length == cf.mxarcf + 1 == 16
    ensures table.mxsomm == 8 && nostpe.Length == 3 && nostpe[1] == 7 && nostpe[2] == 8
    ensures cf.Polygons() == Corners3() && cf.Firsts() == [(1, 2), (4, 5)]
    ensures Spare(table.plan) >= 16 && |store.vacant| == 10 && |cf.free| == 9 && cf.nbcf == 2
  {
    hide TableInv, LiveEdges, Names, Spare, Bounded, Vacancy, Held, Polys, Sides, FirstsOf, Slots, Heads, Nine;
    table := new Table(8, 30);
    store := new Store(10);
    NothingBounded(table.Live(), table.mxsomm);
    var e := SixEdges(table);
    SidesSix(table.Live(), e);
    var noarcf, n1arcf := new Slot[16], new int[16];
    Fill(noarcf, n1arcf, e);
    cf := new Contour(15, noarcf, n1arcf, 2, Nine(), [[1, 2, 3], [4, 5, 6]]);
    HeldOf(table.Live(), e);
    PolysTwo(e);
    assert |Nine()| == 9 by { NineIs(); }
    nostpe := new int[] [0, 7, 8];
    notrcf := new int[16];
  }

  lemma NineIs()
    ensures |Nine()| == 9
  {
  }

  lemma SidesSix(E: Edges, e: seq<int>)
    requires Sides(E, e)
    ensures |e| == 6
  {
  }

  lemma NothingBounded(E: Edges, mx: int)
    requires E == map[]
    ensures Bounded(E, mx)
  {
  }

  method Fill(noarcf: array<Slot>, n1arcf: array<int>, e: seq<int>)
    requires noarcf.Length == 16 && n1arcf.Length == 16 && |e| == 6
    modifies noarcf, n1arcf
    ensures noarcf[..] == Slots(e) && n1arcf[..] == Heads()
  {
    var s, h := Slots(e), Heads();
    assert |s| == 16 && |h| == 16;
    hide Slots, Heads;
    for i := 0 to 16
      invariant forall j | 0 <= j < i :: noarcf[j] == s[j] && n1arcf[j] == h[j]
    {
      noarcf[i], n1arcf[i] := s[i], h[i];
    }
  }

  lemma TwoAmple(m: Means)
    requires m.polys == Corners3() && m.spare >= 16 && m.vacant == 10 && m.free == 9 && m.mxarcf == 15
    ensures Ample(m, 2)
  {
    TwoExcess();
    hide Excess;
  }

  lemma TwoExcess()
    ensures Excess(Corners3()) == 2 && VerticesOf(Corners3()) == {1, 2, 3, 4, 5, 6}
  {
    var p: seq<seq<int>> := [[1, 2, 3], [4, 5, 6]];
    assert Below(p) == [[1, 2, 3]] && Below([[1, 2, 3]]) == [];
    assert Vertices([1, 2, 3]) == {1, 2, 3} && Vertices([4, 5, 6]) == {4, 5, 6};
  }

  /** The first loop takes in vertex 8 twice and vertex 7 not at all, and reports no error. */
  method SecondTakenTwice(dist: (Point, Point, Point) -> real)
      returns (ierr: int, ghost tris: seq<(int, int, int)>, ghost fed: seq<int>)
    requires Level(dist)
    ensures ierr == 0 && fed == [8, 8] && |tris| == 2 && 7 !in CornersOf(tris)
  {
    hide Ready, Level, Plane, Accounts, Traced, Long, Rounds, Blind, LastGone, Corners3, MeansOf, CornersOf, VerticesOf;
    var table, store, cf, nostpe, notrcf := Input();
    ghost var rounds;
    var nbtrcf;
    ghost var p := cf.Polygons();
    nbtrcf, ierr, tris, fed, rounds := JoinAll(table, store, cf, Plane(), dist, nostpe, 2, notrcf, table.Live(),
      store.noartr[..]);
    if |rounds| <= 2 {
      TwoRounds(dist, rounds);
    }
    assert ierr == 0;
    assert fed == [8, 8];
    AccountsCounts(p, cf.Polygons(), tris, fed);
    TwoExcess();
    Eights();
  }

  lemma Eights()
    ensures Vertices([8, 8]) == {8}
  {
  }

  /** A whole run there may end with error 5 if the triangles chosen run an edge twice the same way.
      If it reports no error, vertex 7 is left out. */
  method LeftOut(dist: (Point, Point, Point) -> real, quality: (Point, Point, Point) -> real,
      crosses: (Point, Point, Point, Point) -> bool) returns (ierr: int, ghost tris: seq<(int, int, int)>)
    requires Level(dist) && Sensible(quality)
    ensures ierr == 0 || ierr == 5
    ensures ierr == 0 ==> Filled(Corners3(), tris, 2, 8) && 7 !in CornersOf(tris)
  {
    hide Ready, Level, Plane, Traced, Long, Rounds, Blind, LastGone, Corners3, CornersOf, VerticesOf, Ample, Explained,
      AllLinked, SomeThird, Held, Sketch, Sensible, CutBy, CutRun;
    var table, store, cf, nostpe, notrcf := Input();
    ghost var rounds, qs;
    var nbtrcf;
    TwoAmple(MeansOf(table, store, cf));
    nbtrcf, ierr, tris, rounds, qs := Tridcf.Tridcf(table, store, cf, Plane(), dist, quality, crosses,
      nostpe, 2, notrcf);
    if |rounds| <= 2 {
      TwoRounds(dist, rounds);
    }
    if ierr == 0 {
      TwoExcess();
    }
  }
}
