/** `tridcf_`: isolated vertices are joined to the contours, then the contours are cut up, last one
    first, until none is left. */
module Tridcf {
  import opened Lists
  import opened EdgeTable
  import opened Mesh
  import opened Exchange
  import opened Geometry
  import opened Delaunay
  import opened Contours
  import opened Flows
  import opened Cutting
  import opened Triangles
  import opened Trcf
  import opened Choosing
  import opened Accounting
  import opened Areas
  import opened Joining
  import opened Emit
  import opened Sketching

  // ---------------------------------------------------------------- one triangle

  /** No contour is shorter than a triangle. */
  ghost predicate Long(polys: seq<seq<int>>) {
    forall c | 0 <= c < |polys| :: |polys[c]| >= 3
  }

  /** The contour seen from the chosen edge and third slot. */
  lemma ChosenRing(s: seq<Slot>, l: seq<int>, nar00: int, nar0: int, namin0: int, namin: int, m: int)
    requires Chosen(l, nar00, nar0, namin0, namin, m)
    ensures 2 <= m < |l| && nar0 == l[0] && LastOr([], nar0) == nar0
    ensures l == Ring3(nar0, [], l[1], l[2..m], namin, l[m + 1..])
    ensures nar00 == LastOr(l[m + 1..], namin) && namin0 == LastOr(l[2..m], l[1])
    ensures Poly(s, l) == Ring3(Som(s, nar0), [], Som(s, l[1]), Poly(s, l[2..m]), Som(s, namin), Poly(s, l[m + 1..]))
  {
  }

  lemma LongAfter(q: seq<seq<int>>, v1: int, a: seq<int>, v2: int, b: seq<int>, v3: int, c: seq<int>)
    ensures Long(q) ==> Long(Below(q) + Pieces(v1, a, v2, b, v3, c))
  {
    CutWork(v1, a, v2, b, v3, c);
    hide Pieces;
  }

  /** One round of the main loop of `tridcf_`: a triangle nt is cut off the last contour.  nt == 0
      when a table is full, nt == -1 when the contour has fewer than three edges. */
  method CutOne(table: Table, store: Store, cf: Contour, P: seq<Point>, quality: (Point, Point, Point) -> real,
      crosses: (Point, Point, Point, Point) -> bool, ghost p: seq<seq<int>>,
      ghost tris: seq<(int, int, int)>, ghost fed: seq<int>, ghost E0: Edges, ghost T0: seq<Tri>, ghost notr: seq<int>)
      returns (nt: int, ghost v: (int, int, int))
    requires Ready(table, store, cf) && cf.nbcf > 0 && Sensible(quality)
    requires Accounts(p, cf.Polygons(), tris, fed) && Traced(E0, T0, table.Live(), store.noartr[..], notr, tris)
    modifies table`n1soar, table`plan, table.nosoar, table.noarst, store`n1artr, store`vacant, store.noartr
    modifies cf`nbcf, cf`free, cf`lists, cf.noarcf, cf.n1arcf
    ensures nt >= -1 && (nt == -1 <==> |Top(old(cf.Polygons()))| < 3)
    ensures nt == 0 ==> Dry(table.n1soar, Spare(old(table.plan)), 3) || old(store.vacant) == [] || |old(cf.free)| < 3
                        || old(cf.nbcf) + 2 > cf.mxarcf
    ensures nt > 0 ==> Spare(table.plan) + 3 >= Spare(old(table.plan)) && |store.vacant| + 1 == |old(store.vacant)|
    ensures nt > 0 ==> CutBy(P, quality, crosses, old(cf.Polygons()), cf.Polygons(), v)
    ensures nt > 0 ==> CutOff(old(table.Live()), old(store.noartr[..]), old(cf.Polygons()), table.Live(),
                       store.noartr[..], cf.Polygons(), nt, v)
    ensures nt > 0 ==> Ready(table, store, cf) && Accounts(p, cf.Polygons(), tris + [v], fed)
    ensures nt > 0 ==> Traced(E0, T0, table.Live(), store.noartr[..], notr + [nt], tris + [v])
    ensures nt > 0 ==> Work(cf.Polygons()) + 1 == Work(old(cf.Polygons()))
                       && (Long(old(cf.Polygons())) ==> Long(cf.Polygons()))
    ensures nt > 0 ==> |cf.free| + 2 * cf.nbcf == |old(cf.free)| + 2 * old(cf.nbcf) + 1
  {
    hide *;
    v := (0, 0, 0);
    ghost var E, s, q, lists, c := table.Live(), cf.noarcf[..], cf.Polygons(), cf.lists, cf.nbcf - 1;
    ReadyParts(table, store, cf);
    HeadIn(E, s, cf.n1arcf[..], cf.free, lists, c);
    var na01 := cf.n1arcf[cf.nbcf];
    var na1, na03, na3;
    ghost var k, m;
    TopPoly(s, lists);
    na01, na1, na03, na3, k, m := Trchtd(cf, P, quality, crosses, na01, E);
    if na3 == 0 {
      return -1, v;
    }
    ReadyTurned(table, store, cf);
    ReadyParts(table, store, cf);
    TurnedParts(lists, c, k);
    TurnedParts(q, c, k);
    TopPoly(s, cf.lists);
    ghost var l := Top(cf.lists);
    ChosenRing(s, l, na01, na1, na03, na3, m);
    LastIs(cf.lists);
    Leads(E, s, cf.n1arcf[..], cf.free, cf.lists, c, 0);
    NextIn(0, |l|);
    var na02 := na1;
    var na2 := cf.noarcf[na1].suiv;
    ghost var T := store.noartr[..];
    nt, v := Trcf3s(table, store, cf, na01, na1, na02, na2, na03, na3, [], l[2..m], l[m + 1..]);
    if nt > 0 {
      PolyEmpty(s);
      var b, d := Poly(s, l[2..m]), Poly(s, l[m + 1..]);
      AccountsCut(p, q, tris, fed, k, Som(s, na1), [], Som(s, na2), b, Som(s, na3), d, v);
      LongAfter(q, Som(s, na1), [], Som(s, na2), b, Som(s, na3), d);
      TracedStep(E0, T0, E, T, table.Live(), store.noartr[..], notr, tris, nt, v);
      CutByFrom(P, quality, crosses, q, cf.Polygons(), v, k, Som(s, na1), Som(s, na2), b, Som(s, na3), d);
      CutOffFrom(E, T, q, table.Live(), store.noartr[..], cf.Polygons(), nt, v, k, Som(s, na1), [], Som(s, na2), b,
        Som(s, na3), d);
    }
  }

  /** What Ready says of the contours. */
  lemma ReadyParts(table: Table, store: Store, cf: Contour)
    requires Ready(table, store, cf)
    ensures table.Valid() && Bounded(table.Live(), table.mxsomm) && store.Valid() && cf.n1arcf != table.noarst
    ensures cf.Valid(table.Live())
      && Held(table.Live(), cf.noarcf[..], cf.n1arcf[..], cf.free, cf.lists)
    ensures cf.noarcf.Length == cf.n1arcf.Length == cf.mxarcf + 1 && cf.nbcf == |cf.lists| <= cf.mxarcf
    ensures cf.Polygons() == Polys(cf.noarcf[..], cf.lists)
  {
    hide TableInv, Bounded, Vacancy, Held;
    ValidParts(cf, table.Live());
  }

  lemma ReadyTurned(table: Table, store: Store, cf: Contour)
    requires table.Valid() && Bounded(table.Live(), table.mxsomm) && store.Valid() && cf.n1arcf != table.noarst
    requires cf.Valid(table.Live())
    ensures Ready(table, store, cf)
  {
  }

  lemma PolyEmpty(s: seq<Slot>)
    ensures Poly(s, []) == []
  {
  }

  // ---------------------------------------------------------------- one isolated vertex

  /** The isolated vertex imin nearest to the edge among those on its inner side, 0 when there is
      none.  ns3 is the vertex the search ended on, which is the last one and not the nearest. */
  method Nearest(P: seq<Point>, dist: (Point, Point, Point) -> real, nostpe: array<int>, nbstpe: int, ns1: int,
      ns2: int) returns (imin: int, ns3: int)
    requires 1 <= nbstpe < nostpe.Length
    ensures IsNearest(P, dist, nostpe[..], nbstpe, (ns1, ns2), imin) && ns3 == nostpe[nbstpe]
  {
    imin, ns3 := 0, 0;
    var dmin := 1e123;
    for i := 1 to nbstpe + 1
      invariant 0 <= imin < i && (i > 1 ==> ns3 == nostpe[i - 1])
      invariant IsNearest(P, dist, nostpe[..], i - 1, (ns1, ns2), imin)
      invariant dmin == if imin == 0 then 1e123 else Off(P, dist, nostpe[..], imin, (ns1, ns2))
    {
      ns3 := nostpe[i];
      if ns3 > 0 && AreaOf(P, (ns1, ns2, ns3)) > 0.0 {
        var d := dist(PointOf(P, ns3), PointOf(P, ns1), PointOf(P, ns2));
        if d < dmin {
          dmin := d;
          imin := i;
        }
      }
    }
  }

  /** The triangle of edge noar1 and vertex ns3, with two edges to be found or entered. */
  method JoinTriangle(table: Table, store: Store, ns1: int, ns2: int, ns3: int, noar1: int)
      returns (noar2: int, noar3: int, nt: int, ierr: int)
    requires table.Valid() && store.Valid() && Bounded(table.Live(), table.mxsomm)
    requires 1 <= ns1 <= table.mxsomm && 1 <= ns2 <= table.mxsomm && 1 <= ns3 <= table.mxsomm
    requires Names(table.Live(), noar1, ns1, ns2)
    modifies table`n1soar, table`plan, table.nosoar, table.noarst, store`n1artr, store`vacant, store.noartr
    ensures table.Valid() && store.Valid() && Bounded(table.Live(), table.mxsomm)
    ensures ierr == 0 || ierr == 6 || ierr == 7
    ensures ierr == 0 ==> Names(table.Live(), noar2, ns2, ns3) && Names(table.Live(), noar3, ns3, ns1)
    ensures ierr == 0 ==> Emitted(old(table.Live()), old(store.noartr[..]), table.Live(), store.noartr[..], nt,
                          (ns1, ns2, ns3))
    ensures ierr == 0 ==> Spare(table.plan) + 2 >= Spare(old(table.plan)) && |store.vacant| + 1 == |old(store.vacant)|
    ensures ierr == 6 ==> Dry(table.n1soar, Spare(old(table.plan)), 2)
    ensures ierr == 7 ==> old(store.vacant) == []
  {
    hide TableInv, Vacancy, LiveEdges, Emitted, Bounded, Names, Spare, SewnOn, Opened;
    ghost var E, T := table.Live(), store.noartr[..];
    nt, noar3 := 0, 0;
    noar2, ierr := NewSide(table, ns2, ns3);
    if ierr != 0 {
      return noar2, noar3, 0, 6;
    }
    ghost var E1 := table.Live();
    noar3, ierr := NewSide(table, ns3, ns1);
    if ierr != 0 {
      return noar2, noar3, 0, 6;
    }
    ghost var E2 := table.Live();
    GrowsTwice(E, E1, E2);
    NamesGrow(E, E2, noar1, ns1, ns2);
    NamesGrow(E1, E2, noar2, ns2, ns3);
    nt := Trcf3a(table, store, ns1, ns2, ns3, noar1, noar2, noar3);
    if nt <= 0 {
      return noar2, noar3, 0, 7;
    }
    ghost var E3 := table.Live();
    EmittedGrowth(E2, T, E3, store.noartr[..], nt, (ns1, ns2, ns3));
    EmittedGrows(E, E2, T, E3, store.noartr[..], nt, (ns1, ns2, ns3));
    NamesGrow(E2, E3, noar2, ns2, ns3);
    NamesGrow(E2, E3, noar3, ns3, ns1);
  }

  /** The insertion of vertex ns3 into contour ncf, whose first edge is na1: the triangle of that
      edge and ns3, two new edges, one new slot.  ierr as in `tridcf_`. */
  method JoinVertex(table: Table, store: Store, cf: Contour, ncf: int, na1: int, na2: int, ns1: int, ns2: int, ns3: int,
      full: bool,
                    ghost p: seq<seq<int>>, ghost tris: seq<(int, int, int)>, ghost fed: seq<int>,
                    ghost E0: Edges, ghost T0: seq<Tri>, ghost notr: seq<int>, ghost k: nat)
                      returns (nt: int, ierr: int)
    requires Ready(table, store, cf) && 1 <= ncf <= cf.nbcf && cf.lists[ncf - 1] != [] && 1 <= ns3 <= table.mxsomm
    requires na1 == cf.lists[ncf - 1][0] == cf.n1arcf[ncf] && na2 == cf.lists[ncf - 1][Next(0, |cf.lists[ncf - 1]|)]
    requires ns1 == Som(cf.noarcf[..], na1) && ns2 == Som(cf.noarcf[..], na2)
    requires Accounts(p, cf.Polygons(), tris, fed) && Traced(E0, T0, table.Live(), store.noartr[..], notr, tris)
    modifies table`n1soar, table`plan, table.nosoar, table.noarst, store`n1artr, store`vacant, store.noartr
    modifies cf`free, cf`lists, cf.noarcf, cf.n1arcf
    ensures ierr == 0 || ierr == 6 || ierr == 7 || ierr == 8 || ierr == 10
    ensures ierr == 0 ==> Ready(table, store, cf) && cf.nbcf == old(cf.nbcf) && !full
    ensures ierr == 0 ==> Accounts(p, cf.Polygons(), tris + [(ns1, ns2, ns3)], fed + [ns3])
    ensures ierr == 0 ==> Traced(E0, T0, table.Live(), store.noartr[..], notr + [nt], tris + [(ns1, ns2, ns3)])
    ensures ierr == 0 ==> |cf.free| == |old(cf.free)| - 1 && (Long(old(cf.Polygons())) ==> Long(cf.Polygons()))
    ensures ierr == 0 ==> cf.Firsts() == old(cf.Firsts())[ncf - 1 := (ns1, ns3)]
    ensures ierr == 0 ==> Spare(table.plan) + 2 >= Spare(old(table.plan)) && |store.vacant| + 1 == |old(store.vacant)|
    ensures ierr == 6 ==> Dry(table.n1soar, Spare(old(table.plan)), 2)
    ensures ierr == 7 ==> old(store.vacant) == []
    ensures ierr == 8 ==> full
    ensures ierr == 10 ==> old(cf.free) == []
  {
    hide TableInv, Vacancy, Held, LiveEdges, Emitted, Poly, Polys, Bounded, Accounts, Traced, Names, Long, Spare,
      SewnOn, Opened, FirstsOf;
    ghost var E, s, c, q, l := table.Live(), cf.noarcf[..], ncf - 1, cf.Polygons(), cf.lists[ncf - 1];
    nt := 0;
    Leads(E, s, cf.n1arcf[..], cf.free, cf.lists, c, 0);
    Leads(E, s, cf.n1arcf[..], cf.free, cf.lists, c, Next(0, |l|));
    NamesBounded(E, table.mxsomm, s[na1].noar, ns1, ns2);
    var noar1 := cf.noarcf[na1].noar;
    var noar2, noar3;
    ghost var T := store.noartr[..];
    noar2, noar3, nt, ierr := JoinTriangle(table, store, ns1, ns2, ns3, noar1);
    if ierr != 0 {
      return 0, ierr;
    }
    if full {
      return nt, 8;
    }
    ghost var E3 := table.Live();
    TracedStep(E0, T0, E, T, E3, store.noartr[..], notr, tris, nt, (ns1, ns2, ns3));
    EmittedGrowth(E, T, E3, store.noartr[..], nt, (ns1, ns2, ns3));
    HeldGrows(E, E3, s, cf.n1arcf[..], cf.free, cf.lists);
    assert l == [na1] + l[1..];
    var done := cf.Insert(ncf - 1, na1, na2, ns1, ns3, noar2, noar3, l[1..], E3);
    if !done {
      return nt, 10;
    }
    JoinPoly(s, cf.lists, old(cf.lists), c, l, ns1, ns2);
    AccountsInsert(p, q, tris, fed, c, 0, ns1, ns2, Poly(s, l[1..]), ns3);
    LongInsert(q, c, ns1, ns3, Poly(s, l[1..]));
    ierr := 0;
  }

  lemma NamesBounded(E: Edges, mx: int, a: int, u: int, v: int)
    requires Names(E, a, u, v) && Bounded(E, mx)
    ensures u <= mx && v <= mx
  {
  }

  lemma JoinPoly(s: seq<Slot>, lists': seq<seq<int>>, lists: seq<seq<int>>, c: int, l: seq<int>, ns1: int, ns2: int)
    requires 0 <= c < |lists| && lists[c] == l && l != []
    requires ns1 == Som(s, l[0]) && ns2 == Som(s, l[Next(0, |l|)])
    ensures var q := Polys(s, lists);
            && |q| == |lists| && |q[c]| == |l| && q[c][0..] + q[c][..0] == [ns1] + Poly(s, l[1..])
            && ns2 == (Poly(s, l[1..]) + [ns1])[0]
  {
  }

  lemma LongInsert(q: seq<seq<int>>, c: int, v: int, u: int, m: seq<int>)
    requires 0 <= c < |q| && |q[c]| == 1 + |m|
    ensures Long(q) ==> Long(q[c := [v, u] + m])
  {
  }

  /** The first edge of contour ncf, from ns1 to ns2, and the contour read from there. */
  method FirstEdge(cf: Contour, ncf: int, ghost E: Edges, ghost p: seq<seq<int>>, ghost tris: seq<(int, int, int)>,
      ghost fed: seq<int>)
    returns (na1: int, na2: int, ns1: int, ns2: int)
    requires cf.Valid(E) && 1 <= ncf <= cf.nbcf && Accounts(p, cf.Polygons(), tris, fed)
    modifies cf`lists
    ensures cf.Valid(E) && Accounts(p, cf.Polygons(), tris, fed) && (Long(old(cf.Polygons())) ==> Long(cf.Polygons()))
    ensures cf.lists[ncf - 1] != [] && na1 == cf.lists[ncf - 1][0] == cf.n1arcf[ncf]
      && na2 == cf.lists[ncf - 1][Next(0, |cf.lists[ncf - 1]|)]
    ensures ns1 == Som(cf.noarcf[..], na1) && ns2 == Som(cf.noarcf[..], na2)
    ensures cf.Firsts() == old(cf.Firsts()) && (ns1, ns2) == cf.Firsts()[ncf - 1]
  {
    hide Held, Polys, Poly, Accounts, Long, TurnedAt;
    ghost var c := ncf - 1;
    HeadIn(E, cf.noarcf[..], cf.n1arcf[..], cf.free, cf.lists, c);
    na1 := cf.n1arcf[ncf];
    ghost var first: int :| 0 <= first < |cf.lists[c]| && cf.lists[c][first] == na1;
    var na0 := Predecessor(cf, na1, E, c, first);
    LongTurn(cf.Polygons(), c, first);
    AccountsTurn(p, cf.Polygons(), tris, fed, c, first);
    TurnedFirst(cf.lists, c, first);
    cf.Turn(E, c, first);
    Leads(E, cf.noarcf[..], cf.n1arcf[..], cf.free, cf.lists, c, 0);
    na1 := cf.noarcf[na0].suiv;
    na2 := cf.noarcf[na1].suiv;
    Leads(E, cf.noarcf[..], cf.n1arcf[..], cf.free, cf.lists, c, Next(0, |cf.lists[c]|));
    ns1, ns2 := cf.noarcf[na1].som, cf.noarcf[na2].som;
  }

  /** One round of the first loop of `tridcf_`: the first contour whose first edge sees an isolated
      vertex takes one in.  The vertex taken in is the last of nostpe, the one crossed off is the
      nearest.  ierr == -1: the last one is crossed off already, so that the code goes on with a
      negative vertex number. */
  method JoinOne(table: Table, store: Store, cf: Contour, P: seq<Point>, dist: (Point, Point, Point) -> real,
      nostpe: array<int>, nbstpe: int, full: bool,
                 ghost p: seq<seq<int>>, ghost tris: seq<(int, int, int)>, ghost fed: seq<int>,
                 ghost E0: Edges, ghost T0: seq<Tri>, ghost notr: seq<int>)
                   returns (nt: int, ghost v: (int, int, int), ierr: int)
    requires Ready(table, store, cf) && 1 <= nbstpe < nostpe.Length && nostpe != table.noarst && nostpe != cf.n1arcf
    requires nostpe[nbstpe] <= table.mxsomm
    requires Accounts(p, cf.Polygons(), tris, fed) && Traced(E0, T0, table.Live(), store.noartr[..], notr, tris)
    modifies table`n1soar, table`plan, table.nosoar, table.noarst, store`n1artr, store`vacant, store.noartr
    modifies cf`free, cf`lists, cf.noarcf, cf.n1arcf, nostpe
    ensures ierr == 0 ==> Ready(table, store, cf) && cf.nbcf == old(cf.nbcf) && !full && old(nostpe[nbstpe]) > 0
    ensures ierr == 0 ==> Accounts(p, cf.Polygons(), tris + [v], fed + [old(nostpe[nbstpe])])
    ensures ierr == 0 ==> Traced(E0, T0, table.Live(), store.noartr[..], notr + [nt], tris + [v])
    ensures ierr == 0 ==> |cf.free| == |old(cf.free)| - 1 && (Long(old(cf.Polygons())) ==> Long(cf.Polygons()))
    ensures ierr == 0 ==> Joins(P, dist, nbstpe, old(Round(cf.Firsts(), nostpe[..])), Round(cf.Firsts(), nostpe[..]))
    ensures ierr == 9 ==> Blind(P, dist, nbstpe, old(Round(cf.Firsts(), nostpe[..])))
    ensures ierr == -1 ==> LastGone(P, dist, nbstpe, old(Round(cf.Firsts(), nostpe[..])))
    ensures ierr == 0 ==> Spare(table.plan) + 2 >= Spare(old(table.plan)) && |store.vacant| + 1 == |old(store.vacant)|
    ensures ierr == 6 ==> Dry(table.n1soar, Spare(old(table.plan)), 2)
    ensures ierr == 7 ==> old(store.vacant) == []
    ensures ierr == 8 ==> full
    ensures ierr == 10 ==> old(cf.free) == []
    ensures ierr == 0 || ierr == -1 || ierr == 6 || ierr == 7 || ierr == 8 || ierr == 9 || ierr == 10
  {
    hide TableInv, Vacancy, Held, LiveEdges, Poly, Polys, Bounded, Accounts, Traced, Names, Long, TurnedAt, Spare,
      IsNearest, FirstsOf;
    ghost var r := Round(cf.Firsts(), nostpe[..]);
    v := (0, 0, 0);
    var ncf := 1;
    while ncf <= cf.nbcf
      invariant 1 <= ncf <= cf.nbcf + 1 && cf.nbcf == |r.firsts|
      invariant Ready(table, store, cf) && Accounts(p, cf.Polygons(), tris, fed)
        && Traced(E0, T0, table.Live(), store.noartr[..], notr, tris)
      invariant cf.nbcf == old(cf.nbcf) && cf.free == old(cf.free) && nostpe[..] == old(nostpe[..])
        && cf.Firsts() == r.firsts
      invariant forall d | 0 <= d < ncf - 1 :: IsNearest(P, dist, nostpe[..], nbstpe, r.firsts[d], 0)
      invariant table.plan == old(table.plan) && table.n1soar == old(table.n1soar)
      invariant table.Live() == old(table.Live()) && store.noartr[..] == old(store.noartr[..])
        && store.vacant == old(store.vacant)
      invariant Long(old(cf.Polygons())) ==> Long(cf.Polygons())
      decreases cf.nbcf - ncf
    {
      var na1, na2, ns1, ns2 := FirstEdge(cf, ncf, table.Live(), p, tris, fed);
      var imin, ns3 := Nearest(P, dist, nostpe, nbstpe, ns1, ns2);
      if imin > 0 {
        NearestBound(P, dist, nostpe[..], nbstpe, (ns1, ns2), imin);
        assert Picks(P, dist, nbstpe, r, ncf - 1, imin);
        if ns3 <= 0 {
          return 0, v, -1;
        }
        nt, ierr := JoinVertex(table, store, cf, ncf, na1, na2, ns1, ns2, ns3, full, p, tris, fed, E0, T0, notr, 0);
        v := (ns1, ns2, ns3);
        nostpe[imin] := -nostpe[imin];
        if ierr == 0 {
          assert Round(cf.Firsts(), nostpe[..]) == Joined(r, nbstpe, ncf - 1, imin);
        }
        return;
      }
      ncf := ncf + 1;
    }
    return 0, v, 9;
  }

  lemma LongTurn(q: seq<seq<int>>, c: int, k: nat)
    ensures Long(q) ==> Long(TurnedAt(q, c, k))
  {
  }

  lemma TurnedFirst(lists: seq<seq<int>>, c: int, k: nat)
    requires 0 <= c < |lists| && k < |lists[c]|
    ensures |TurnedAt(lists, c, k)| == |lists| && |TurnedAt(lists, c, k)[c]| == |lists[c]|
      && TurnedAt(lists, c, k)[c][0] == lists[c][k]
  {
  }

  lemma NearestBound(P: seq<Point>, dist: (Point, Point, Point) -> real, st: seq<int>, n: int, e: (int, int), i: int)
    requires IsNearest(P, dist, st, n, e, i) && i > 0
    ensures 1 <= i <= n && i < |st| && st[i] > 0
  {
  }

  // ---------------------------------------------------------------- the triangles of the edges

  /** E' lists on every edge what E lists. */
  ghost predicate ListsMore(E: Edges, E': Edges) {
    forall i | i in E :: i in E' && (E[i].tr1 > 0 ==> Listed(E'[i], E[i].tr1))
                         && (E[i].tr2 > 0 ==> Listed(E'[i], E[i].tr2))
  }

  /** Triangle nt0 is added to edge noar unless the edge lists it; ierr == 5 when the edge lists two others. */
  method LinkSide(table: Table, noar: int, nt0: int) returns (ierr: int)
    requires table.Valid() && noar in table.Live() && nt0 > 0
    modifies table.nosoar
    ensures table.Valid() && Grows(old(table.Live()), table.Live()) && table.Live().Keys == old(table.Live()).Keys
    ensures ListsMore(old(table.Live()), table.Live())
    ensures ierr == 0 || ierr == 5
    ensures ierr == 0 <==> Listed(table.Live()[noar], nt0)
    ensures ierr == 5 ==> Third(table.Live(), noar, nt0) && table.Live() == old(table.Live())
    ensures Listed(old(table.Live())[noar], nt0) ==> ierr == 0 && table.Live() == old(table.Live())
  {
    hide TableInv;
    LiveCells(table, noar);
    var e := EdgeOf(table.nosoar[noar]);
    if e.tr1 == nt0 || e.tr2 == nt0 {
      return 0;
    }
    if e.tr1 <= 0 {
      table.Write(noar, e.(tr1 := nt0));
    } else if e.tr2 <= 0 {
      table.Write(noar, e.(tr2 := nt0));
    } else {
      return 5;
    }
    ierr := 0;
  }

  /** Edge a lists two triangles other than t. */
  ghost predicate Third(E: Edges, a: int, t: int) {
    a in E && E[a].tr1 > 0 && E[a].tr2 > 0 && !Listed(E[a], t)
  }

  /** A side of triangle t lists two other triangles. */
  ghost predicate ThirdSide(E: Edges, T: seq<Tri>, t: int) {
    0 <= t < |T| && (Third(E, Abs(T[t].a1), t) || Third(E, Abs(T[t].a2), t) || Third(E, Abs(T[t].a3), t))
  }

  /** Triangle t is closed and its sides list it. */
  ghost predicate Linked3(E: Edges, T: seq<Tri>, t: int) {
    0 < t < |T| && TriOk(E, T, t)
  }

  /** All triangles of notr are closed and listed by their sides. */
  ghost predicate AllLinked(E: Edges, T: seq<Tri>, notr: seq<int>) {
    forall k | 0 <= k < |notr| :: Linked3(E, T, notr[k])
  }

  ghost predicate SomeThird(E: Edges, T: seq<Tri>, notr: seq<int>) {
    exists k :: 0 <= k < |notr| && ThirdSide(E, T, notr[k])
  }

  lemma Linked3More(E: Edges, E': Edges, T: seq<Tri>, t: int)
    requires Linked3(E, T, t) && Grows(E, E') && ListsMore(E, E')
    ensures Linked3(E', T, t)
  {
  }

  lemma ListsTwice(E: Edges, F: Edges, G: Edges)
    requires ListsMore(E, F) && ListsMore(F, G)
    ensures ListsMore(E, G)
  {
  }

  /** The last part of `tridcf_`, for one triangle. */
  method LinkTriangle(table: Table, store: Store, nt0: int) returns (ierr: int)
    requires table.Valid() && Active(store.noartr[..], nt0) && Cycle(table.Live(), store.noartr[nt0])
    modifies table.nosoar
    ensures table.Valid() && Grows(old(table.Live()), table.Live()) && table.Live().Keys == old(table.Live()).Keys
    ensures ListsMore(old(table.Live()), table.Live())
    ensures ierr == 0 || ierr == 5
    ensures ierr == 0 ==> Linked3(table.Live(), store.noartr[..], nt0)
    ensures ierr == 5 ==> ThirdSide(table.Live(), store.noartr[..], nt0)
    ensures Linked3(old(table.Live()), store.noartr[..], nt0) ==> ierr == 0 && table.Live() == old(table.Live())
  {
    hide TableInv, LiveEdges, Third;
    ghost var E := table.Live();
    ierr := LinkSide(table, Abs(store.noartr[nt0].a1), nt0);
    if ierr != 0 {
      return;
    }
    ghost var E1 := table.Live();
    ierr := LinkSide(table, Abs(store.noartr[nt0].a2), nt0);
    GrowsTwice(E, E1, table.Live());
    ListsTwice(E, E1, table.Live());
    if ierr != 0 {
      return;
    }
    ghost var E2 := table.Live();
    ierr := LinkSide(table, Abs(store.noartr[nt0].a3), nt0);
    GrowsTwice(E, E2, table.Live());
    ListsTwice(E, E2, table.Live());
    CycleGrows(E, table.Live(), store.noartr[nt0]);
  }

  /** The last part of `tridcf_`: every new triangle is listed by its edges. */
  method LinkAll(table: Table, store: Store, notrcf: array<int>, nbtrcf: int,
                 ghost E0: Edges, ghost T0: seq<Tri>, ghost tris: seq<(int, int, int)>) returns (ierr: int)
    requires table.Valid() && 0 <= nbtrcf < notrcf.Length
    requires Traced(E0, T0, table.Live(), store.noartr[..], notrcf[1..nbtrcf + 1], tris)
    modifies table.nosoar
    ensures table.Valid() && Grows(old(table.Live()), table.Live()) && table.Live().Keys == old(table.Live()).Keys
    ensures Traced(E0, T0, table.Live(), store.noartr[..], notrcf[1..nbtrcf + 1], tris)
    ensures ierr == 0 || ierr == 5
    ensures ierr == 0 ==> AllLinked(table.Live(), store.noartr[..], notrcf[1..nbtrcf + 1])
    ensures ierr == 5 ==> SomeThird(table.Live(), store.noartr[..], notrcf[1..nbtrcf + 1])
    ensures AllLinked(old(table.Live()), store.noartr[..], notrcf[1..nbtrcf + 1]) ==>
              ierr == 0 && table.Live() == old(table.Live())
  {
    hide TableInv, LiveEdges, Traced, Linked3, Cycle, ThirdSide;
    ghost var E, T, notr := table.Live(), store.noartr[..], notrcf[1..nbtrcf + 1];
    ierr := 0;
    var ntp0 := 1;
    while ntp0 <= nbtrcf
      invariant 1 <= ntp0 <= nbtrcf + 1
      invariant table.Valid() && Grows(E, table.Live()) && table.Live().Keys == E.Keys
      invariant Traced(E0, T0, table.Live(), T, notr, tris)
      invariant forall k | 0 <= k < ntp0 - 1 :: Linked3(table.Live(), T, notr[k])
      invariant AllLinked(E, T, notr) ==> table.Live() == E
    {
      var nt0 := notrcf[ntp0];
      assert nt0 == notr[ntp0 - 1];
      ghost var E1 := table.Live();
      TracedAt(E0, T0, E1, T, notr, tris, ntp0 - 1);
      ierr := LinkTriangle(table, store, nt0);
      GrowsTwice(E, E1, table.Live());
      TracedGrows(E0, T0, E1, T, table.Live(), notr, tris);
      if ierr != 0 {
        return;
      }
      forall k | 0 <= k < ntp0 - 1 ensures Linked3(table.Live(), T, notr[k]) {
        Linked3More(E1, table.Live(), T, notr[k]);
      }
      ntp0 := ntp0 + 1;
    }
  }

  lemma TracedAt(E0: Edges, T0: seq<Tri>, E: Edges, T: seq<Tri>, notr: seq<int>, tris: seq<(int, int, int)>, k: int)
    requires Traced(E0, T0, E, T, notr, tris) && 0 <= k < |notr|
    ensures Active(T, notr[k]) && Cycle(E, T[notr[k]]) && Verts(E, T[notr[k]]) == tris[k]
  {
  }

  // ---------------------------------------------------------------- the whole run

  /** What a run of `tridcf_` that ends with ierr = 0 has done to the contours p, when last is the
      last isolated vertex of n: every quantity of directed edges is handed over to the triangles,
      their number is the excess of the contours plus two for each isolated vertex, and their
      corners are the vertices of the contours and, of the isolated vertices, only the last. */
  ghost predicate Filled(p: seq<seq<int>>, tris: seq<(int, int, int)>, n: int, last: int) {
    && (forall f: (int, int) -> real | Odd(f) :: OfTriangles(f, tris) == Around(f, p))
    && |tris| == Excess(p) + 2 * n
    && CornersOf(tris) == VerticesOf(p) + if n > 0 then {last} else {}
  }

  lemma FilledOf(p: seq<seq<int>>, tris: seq<(int, int, int)>, fed: seq<int>, n: int, last: int)
    requires Accounts(p, [], tris, fed) && |fed| == n && forall k | 0 <= k < n :: fed[k] == last
    ensures Filled(p, tris, n, last)
  {
    forall f: (int, int) -> real | Odd(f) ensures OfTriangles(f, tris) == Around(f, p) {
      EmptyAround(f);
    }
    assert n > 0 ==> fed[0] in fed;
  }

  lemma NoContours(q: seq<seq<int>>)
    requires |q| == 0
    ensures q == [] && Excess(q) == 0
  {
  }

  /** All isolated vertices, one after the other. */
  method JoinAll(table: Table, store: Store, cf: Contour, P: seq<Point>, dist: (Point, Point, Point) -> real,
      nostpe: array<int>, nbstpe: int,
                 notrcf: array<int>, ghost E0: Edges, ghost T0: seq<Tri>)
                   returns (nbtrcf: int, ierr: int, ghost tris: seq<(int, int, int)>, ghost fed: seq<int>,
                   ghost rounds: seq<Round>)
    requires Ready(table, store, cf) && 0 <= nbstpe < nostpe.Length && E0 == table.Live() && T0 == store.noartr[..]
    requires nostpe != table.noarst && nostpe != cf.n1arcf && notrcf != table.noarst && notrcf != cf.n1arcf
      && notrcf != nostpe
    requires notrcf.Length == cf.mxarcf + 1
    requires forall i | 1 <= i <= nbstpe :: 1 <= nostpe[i] <= table.mxsomm
    modifies table`n1soar, table`plan, table.nosoar, table.noarst, store`n1artr, store`vacant, store.noartr
    modifies cf`free, cf`lists, cf.noarcf, cf.n1arcf, nostpe, notrcf
    ensures ierr == 0 ==> Ready(table, store, cf) && 0 <= nbtrcf < notrcf.Length && |tris| == nbtrcf
    ensures ierr == 0 ==> Accounts(old(cf.Polygons()), cf.Polygons(), tris, fed)
    ensures ierr == 0 ==> Traced(E0, T0, table.Live(), store.noartr[..], notrcf[1..nbtrcf + 1], tris)
    ensures ierr == 0 ==> |fed| == nbstpe && forall k | 0 <= k < nbstpe :: fed[k] == old(nostpe[nbstpe])
    ensures ierr == 0 ==> |cf.free| == |old(cf.free)| - nbstpe && nbtrcf == nbstpe && cf.nbcf == old(cf.nbcf)
    ensures ierr == 0 ==> (Long(old(cf.Polygons())) ==> Long(cf.Polygons()))
    ensures Rounds(P, dist, nbstpe, rounds) && rounds[0] == old(Round(cf.Firsts(), nostpe[..]))
    ensures ierr == 0 ==> |rounds| == nbstpe + 1 && rounds[nbstpe] == Round(cf.Firsts(), nostpe[..])
    ensures ierr != 0 ==> |rounds| <= nbstpe
    ensures ierr == 9 ==> Blind(P, dist, nbstpe, rounds[|rounds| - 1])
    ensures ierr == -1 ==> LastGone(P, dist, nbstpe, rounds[|rounds| - 1])
    ensures ierr == 0 ==> Spare(table.plan) + 2 * nbstpe >= Spare(old(table.plan))
                          && |store.vacant| + nbstpe == |old(store.vacant)|
    ensures ierr == 6 ==> Dry(table.n1soar, Spare(old(table.plan)), 2 * nbstpe)
    ensures ierr == 7 ==> |old(store.vacant)| < nbstpe
    ensures ierr == 8 ==> cf.mxarcf < nbstpe
    ensures ierr == 10 ==> |old(cf.free)| < nbstpe
    ensures nbstpe == 0 ==> ierr == 0 && table.Live() == E0 && store.noartr[..] == T0
                            && cf.Polygons() == old(cf.Polygons())
    ensures ierr == 0 || ierr == -1 || ierr == 6 || ierr == 7 || ierr == 8 || ierr == 9 || ierr == 10
  {
    hide TableInv, Vacancy, Held, LiveEdges, Polys, Bounded, Accounts, Traced, Long, Spare, FirstsOf, Joins, Blind,
      LastGone, CrossedOff;
    ghost var p := cf.Polygons();
    nbtrcf, ierr, tris, fed := 0, 0, [], [];
    rounds := [Round(cf.Firsts(), nostpe[..])];
    var nbstp := nbstpe;
    AccountsNothing(p);
    TracedNothing(E0, T0);
    assert notrcf[1..nbtrcf + 1] == [];
    while nbstp > 0
      invariant 0 <= nbstp <= nbstpe && 0 <= nbtrcf < notrcf.Length && |fed| == |tris| == nbtrcf == nbstpe - nbstp
      invariant Ready(table, store, cf) && Accounts(p, cf.Polygons(), tris, fed)
      invariant Traced(E0, T0, table.Live(), store.noartr[..], notrcf[1..nbtrcf + 1], tris)
      invariant forall k | 0 <= k < |fed| :: fed[k] == old(nostpe[nbstpe])
      invariant |cf.free| == |old(cf.free)| - |fed| && cf.nbcf == old(cf.nbcf)
      invariant Long(p) ==> Long(cf.Polygons())
      invariant Rounds(P, dist, nbstpe, rounds) && |rounds| == |fed| + 1
      invariant rounds[0] == old(Round(cf.Firsts(), nostpe[..])) && rounds[|fed|] == Round(cf.Firsts(), nostpe[..])
      invariant Spare(table.plan) + 2 * |fed| >= Spare(old(table.plan))
      invariant |store.vacant| + |fed| == |old(store.vacant)|
      invariant |fed| == 0 ==> table.Live() == E0 && store.noartr[..] == T0 && cf.Polygons() == p
      decreases nbstp
    {
      ghost var v;
      var nt;
      ghost var notr := notrcf[1..nbtrcf + 1];
      ghost var last := nostpe[nbstpe];
      ghost var crossed := Crossing(P, dist, nbstpe, rounds, |fed|);
      nt, v, ierr := JoinOne(table, store, cf, P, dist, nostpe, nbstpe, nbtrcf >= cf.mxarcf, p, tris, fed, E0, T0,
        notr);
      if ierr != 0 {
        return;
      }
      RoundsNext(P, dist, nbstpe, rounds, Round(cf.Firsts(), nostpe[..]));
      rounds := rounds + [Round(cf.Firsts(), nostpe[..])];
      nbtrcf := nbtrcf + 1;
      notrcf[nbtrcf] := nt;
      tris, fed := tris + [v], fed + [last];
      assert notrcf[1..nbtrcf + 1] == notr + [nt];
      nbstp := nbstp - 1;
    }
  }

  lemma TracedNothing(E: Edges, T: seq<Tri>)
    ensures Traced(E, T, E, T, [], [])
  {
  }

  /** What a run starts with: the contours, the free columns for edges and triangles, the free slots,
      and the size of notrcf and n1arcf. */
  datatype Means = Means(polys: seq<seq<int>>, spare: nat, vacant: nat, free: nat, mxarcf: nat)

  ghost function MeansOf(table: Table, store: Store, cf: Contour): (m: Means)
    reads table, store, cf, cf.noarcf
  {
    Means(cf.Polygons(), Spare(table.plan), |store.vacant|, |cf.free|, cf.mxarcf)
  }

  /** Enough for n isolated vertices, whatever triangles are chosen. */
  ghost predicate Ample(m: Means, n: int) {
    && Long(m.polys)
    && m.spare >= 3 * Excess(m.polys) + 5 * n
    && m.vacant >= Excess(m.polys) + 2 * n
    && m.mxarcf >= Excess(m.polys) + 2 * n && m.mxarcf >= Excess(m.polys) + n + 2
    && m.free + 2 * |m.polys| >= 2 * Excess(m.polys) + 3 * n + 3
  }

  /** The cause of every error of `tridcf_` but 5, 9 and -1.  After nbtrcf triangles the contours left
      were still to be filled. */
  ghost predicate Explained(m: Means, n: int, ierr: int, n1soar: int, nbtrcf: int, left: seq<seq<int>>) {
    && (ierr == 2 ==> left != [] && nbtrcf + Excess(left) == Excess(m.polys) + 2 * n)
    && (ierr == 2 ==> || Dry(n1soar, m.spare, 3 * nbtrcf + 3 - n) || m.vacant == nbtrcf
                      || m.free + 2 * |m.polys| - 2 * n + nbtrcf - 2 * |left| < 3 || |left| + 2 > m.mxarcf)
    && (ierr == 3 ==> !Long(m.polys))
    && (ierr == 4 ==> nbtrcf == m.mxarcf)
    && (ierr == 6 ==> Dry(n1soar, m.spare, 2 * n))
    && (ierr == 7 ==> m.vacant < n)
    && (ierr == 8 ==> m.mxarcf < n)
    && (ierr == 10 ==> m.free < n)
    && ierr in {-1, 0, 2, 3, 4, 5, 6, 7, 8, 9, 10}
  }

  /** One round of the main loop has what it needs. */
  lemma AmpleRound(m: Means, q: seq<seq<int>>, tris: seq<(int, int, int)>, fed: seq<int>, n: int, spare: nat,
      vacant: nat, free: nat)
    requires Ample(m, n) && Accounts(m.polys, q, tris, fed) && |fed| == n <= |tris| && q != [] && Long(q)
    requires Spent(m, n, spare, vacant, free, |q|, |tris|)
    ensures spare >= 3 && vacant >= 1 && free >= 3 && |q| + 2 <= m.mxarcf && |tris| < m.mxarcf
    ensures forall n1soar :: !Dry(n1soar, spare, 3)
  {
    AccountsCounts(m.polys, q, tris, fed);
    LongExcess(q);
  }

  lemma {:induction false} LongExcess(q: seq<seq<int>>)
    requires Long(q)
    ensures Excess(q) >= |q|
  {
    if q != [] {
      assert |Top(q)| >= 3;
      LongExcess(Below(q));
    }
  }

  /** Without isolated vertices the contours are those of the beginning. */
  lemma SketchLinked(E0: Edges, T0: seq<Tri>, E: Edges, T: seq<Tri>, notr: seq<int>, tris: seq<(int, int, int)>)
    requires Sketch(E, T, []) && Traced(E0, T0, E, T, notr, tris)
    ensures MeshInv(NeatAll(E), T) && AllLinked(E, T, notr)
  {
    forall k | 0 <= k < |notr| ensures Linked3(E, T, notr[k]) {
      TracedAt(E0, T0, E, T, notr, tris, k);
      assert TriOk(NeatAll(E), T, notr[k]);
    }
  }

  lemma OnePerOf(table: Table)
    requires table.Valid()
    ensures OnePer(table.Live())
  {
    KeyedOf(table.mxsoar, table.mxsomm, table.nosoar[..], table.n1soar, table.plan);
  }

  /** What a run has used up after nbtrcf triangles, those of n isolated vertices among them. */
  ghost predicate Spent(m: Means, n: int, spare: nat, vacant: nat, free: nat, nbcf: int, nbtrcf: int) {
    && spare + 3 * nbtrcf >= m.spare + n && vacant + nbtrcf == m.vacant
    && free + 2 * nbcf - nbtrcf == m.free + 2 * |m.polys| - 2 * n
  }

  lemma SpentNext(m: Means, n: int, spare: nat, vacant: nat, free: nat, nbcf: int, k: int, spare': nat, vacant': nat,
      free': nat, nbcf': int)
    requires Spent(m, n, spare, vacant, free, nbcf, k)
    requires spare' + 3 >= spare && vacant' + 1 == vacant && free' + 2 * nbcf' == free + 2 * nbcf + 1
    ensures Spent(m, n, spare', vacant', free', nbcf', k + 1)
  {
  }

  /** Why no triangle could be cut off the last of the contours left. */
  lemma CutExplained(m: Means, n: int, n1soar: int, k: int, left: seq<seq<int>>, spare: nat, vacant: nat, free: nat)
    requires Spent(m, n, spare, vacant, free, |left|, k) && left != []
    requires k + Excess(left) == Excess(m.polys) + 2 * n
    requires Dry(n1soar, spare, 3) || vacant == 0 || free < 3 || |left| + 2 > m.mxarcf
    ensures Explained(m, n, 2, n1soar, k, left)
  {
  }

  lemma ShortExplained(m: Means, n: int, ierr: int, n1soar: int, k: int, left: seq<seq<int>>)
    requires ierr == 0 || (ierr == 3 && !Long(m.polys)) || (ierr == 4 && k == m.mxarcf)
    ensures Explained(m, n, ierr, n1soar, k, left)
  {
  }

  lemma CutRunNone(P: seq<Point>, quality: (Point, Point, Point) -> real,
      crosses: (Point, Point, Point, Point) -> bool, q: seq<seq<int>>)
    ensures CutRun(P, quality, crosses, [q], [])
  {
  }

  /** The main loop of `tridcf_`: the contours are cut up. */
  method CutAll(table: Table, store: Store, cf: Contour, P: seq<Point>, quality: (Point, Point, Point) -> real,
      crosses: (Point, Point, Point, Point) -> bool, notrcf: array<int>, first: int,
      ghost m: Means, ghost n: int, ghost made: seq<(int, int, int)>, ghost fed: seq<int>, ghost E0: Edges,
      ghost T0: seq<Tri>)
      returns (nbtrcf: int, ierr: int, ghost tris: seq<(int, int, int)>, ghost qs: seq<seq<seq<int>>>)
    requires Ready(table, store, cf) && Sensible(quality) && notrcf != table.noarst && notrcf != cf.n1arcf
      && notrcf.Length == cf.mxarcf + 1 && cf.mxarcf == m.mxarcf
    requires |made| == first && 0 <= n <= first < notrcf.Length && |fed| == n
    requires Accounts(m.polys, cf.Polygons(), made, fed) && (Long(m.polys) ==> Long(cf.Polygons()))
    requires Traced(E0, T0, table.Live(), store.noartr[..], notrcf[1..first + 1], made)
    requires Spent(m, n, Spare(table.plan), |store.vacant|, |cf.free|, cf.nbcf, first)
    modifies table`n1soar, table`plan, table.nosoar, table.noarst, store`n1artr, store`vacant, store.noartr
    modifies cf`nbcf, cf`free, cf`lists, cf.noarcf, cf.n1arcf, notrcf
    ensures ierr in {0, 2, 3, 4} && (Ample(m, n) ==> ierr == 0)
    ensures ierr == 0 ==> Ready(table, store, cf) && cf.nbcf == 0 && first <= nbtrcf < notrcf.Length
                          && |tris| == nbtrcf
    ensures ierr == 0 ==> Accounts(m.polys, [], tris, fed)
    ensures ierr == 0 ==> Traced(E0, T0, table.Live(), store.noartr[..], notrcf[1..nbtrcf + 1], tris)
    ensures ierr == 0 ==> Spent(m, n, Spare(table.plan), |store.vacant|, |cf.free|, 0, nbtrcf)
    ensures qs != [] && first <= nbtrcf == |tris| && CutRun(P, quality, crosses, qs, tris[first..])
      && qs[0] == old(cf.Polygons())
    ensures Explained(m, n, ierr, table.n1soar, nbtrcf, qs[|qs| - 1]) && (ierr == 0 ==> qs[|qs| - 1] == [])
    ensures ierr == 0 && Sketch(old(table.Live()), old(store.noartr[..]), old(cf.Polygons())) ==>
              Sketch(table.Live(), store.noartr[..], [])
  {
    hide *;
    ghost var E1, T1, q1 := table.Live(), store.noartr[..], cf.Polygons();
    nbtrcf, ierr, tris, qs := first, 0, made, [q1];
    assert tris[first..] == [];
    CutRunNone(P, quality, crosses, q1);
    while cf.nbcf > 0
      invariant Ready(table, store, cf) && first <= nbtrcf < notrcf.Length && |tris| == nbtrcf
        && Accounts(m.polys, cf.Polygons(), tris, fed)
      invariant Traced(E0, T0, table.Live(), store.noartr[..], notrcf[1..nbtrcf + 1], tris)
      invariant Spent(m, n, Spare(table.plan), |store.vacant|, |cf.free|, cf.nbcf, nbtrcf)
      invariant CutRun(P, quality, crosses, qs, tris[first..]) && |qs| == nbtrcf - first + 1
      invariant qs[0] == q1 && qs[|qs| - 1] == cf.Polygons()
      invariant Long(m.polys) ==> Long(cf.Polygons())
      invariant Sketch(E1, T1, q1) ==> Sketch(table.Live(), store.noartr[..], cf.Polygons())
      decreases Work(cf.Polygons())
    {
      ghost var v;
      var nt;
      ghost var notr, E, T := notrcf[1..nbtrcf + 1], table.Live(), store.noartr[..];
      ghost var left := cf.Polygons();
      ReadyParts(table, store, cf);
      LongTop(left);
      AccountsCounts(m.polys, left, tris, fed);
      ghost var spare, vacant, free := Spare(table.plan), |store.vacant|, |cf.free|;
      if Ample(m, n) {
        AmpleLong(m, n);
        AmpleRound(m, left, tris, fed, n, spare, vacant, free);
      }
      nt, v := CutOne(table, store, cf, P, quality, crosses, m.polys, tris, fed, E0, T0, notr);
      if nt == -1 {
        ierr := 3;
        ShortExplained(m, n, ierr, table.n1soar, nbtrcf, left);
        return;
      }
      if nt == 0 {
        ierr := 2;
        CutExplained(m, n, table.n1soar, nbtrcf, left, spare, vacant, free);
        return;
      }
      if nbtrcf >= cf.mxarcf {
        ierr := 4;
        ShortExplained(m, n, ierr, table.n1soar, nbtrcf, left);
        return;
      }
      ReadyParts(table, store, cf);
      SpentNext(m, n, spare, vacant, free, |left|, nbtrcf, Spare(table.plan), |store.vacant|, |cf.free|, cf.nbcf);
      OnePerOf(table);
      if Sketch(E, T, left) {
        CutKeeps(E, T, left, table.Live(), store.noartr[..], cf.Polygons(), nt, v);
      }
      nbtrcf := nbtrcf + 1;
      notrcf[nbtrcf] := nt;
      CutRunNext(P, quality, crosses, qs, tris[first..], cf.Polygons(), v);
      assert (tris + [v])[first..] == tris[first..] + [v];
      tris, qs := tris + [v], qs + [cf.Polygons()];
      assert notrcf[1..nbtrcf + 1] == notr + [nt];
    }
    ReadyParts(table, store, cf);
    NoContours(cf.Polygons());
    ShortExplained(m, n, ierr, table.n1soar, nbtrcf, cf.Polygons());
  }

  lemma AmpleLong(m: Means, n: int)
    requires Ample(m, n)
    ensures Long(m.polys)
  {
  }

  lemma JoinExplained(m: Means, n: int, ierr: int, n1soar: int, nbtrcf: int, left: seq<seq<int>>)
    requires ierr == -1 || ierr == 6 || ierr == 7 || ierr == 8 || ierr == 9 || ierr == 10
    requires (ierr == 6 ==> Dry(n1soar, m.spare, 2 * n)) && (ierr == 7 ==> m.vacant < n)
    requires (ierr == 8 ==> m.mxarcf < n) && (ierr == 10 ==> m.free < n)
    ensures Explained(m, n, ierr, n1soar, nbtrcf, left)
  {
  }

  lemma LinkExplained(m: Means, n: int, ierr: int, n1soar: int, nbtrcf: int, left: seq<seq<int>>)
    requires ierr == 0 || ierr == 5
    ensures Explained(m, n, ierr, n1soar, nbtrcf, left)
  {
  }

  /** `tridcf_`: the contours are filled with triangles, whose columns notrcf[1..nbtrcf] list. */
  method Tridcf(table: Table, store: Store, cf: Contour, P: seq<Point>, dist: (Point, Point, Point) -> real,
      quality: (Point, Point, Point) -> real,
      crosses: (Point, Point, Point, Point) -> bool, nostpe: array<int>, nbstpe: int, notrcf: array<int>)
      returns (nbtrcf: int, ierr: int, ghost tris: seq<(int, int, int)>, ghost rounds: seq<Round>,
      ghost qs: seq<seq<seq<int>>>)
    requires Ready(table, store, cf) && Sensible(quality) && 0 <= nbstpe < nostpe.Length
    requires nostpe != table.noarst && nostpe != cf.n1arcf && notrcf != table.noarst && notrcf != cf.n1arcf
      && notrcf != nostpe
    requires notrcf.Length == cf.mxarcf + 1
    requires forall i | 1 <= i <= nbstpe :: 1 <= nostpe[i] <= table.mxsomm
    modifies table`n1soar, table`plan, table.nosoar, table.noarst, store`n1artr, store`vacant, store.noartr
    modifies cf`nbcf, cf`free, cf`lists, cf.noarcf, cf.n1arcf, nostpe, notrcf
    ensures ierr == 0 ==> Ready(table, store, cf) && 0 <= nbtrcf < notrcf.Length
    ensures ierr == 0 ==> Filled(old(cf.Polygons()), tris, nbstpe, if nbstpe > 0 then old(nostpe[nbstpe]) else 0)
                          && nbtrcf == |tris|
    ensures ierr == 0 ==>
      Traced(old(table.Live()), old(store.noartr[..]), table.Live(), store.noartr[..], notrcf[1..nbtrcf + 1], tris)
    ensures ierr == 0 ==> AllLinked(table.Live(), store.noartr[..], notrcf[1..nbtrcf + 1])
    ensures ierr == 0 ==> cf.nbcf == 0 && |cf.free| == |old(cf.free)| + Excess(old(cf.Polygons())) + 2 * old(cf.nbcf)
    ensures Rounds(P, dist, nbstpe, rounds) && rounds[0] == old(Round(cf.Firsts(), nostpe[..]))
    ensures ierr == 0 ==> |rounds| == nbstpe + 1 && (old(cf.nbcf) == 1 ==> nbstpe <= 1)
    ensures ierr == -1 ==> |rounds| <= nbstpe && LastGone(P, dist, nbstpe, rounds[|rounds| - 1])
    ensures ierr == 9 ==> |rounds| <= nbstpe && Blind(P, dist, nbstpe, rounds[|rounds| - 1])
    ensures ierr == 5 ==> 0 <= nbtrcf < notrcf.Length
                          && SomeThird(table.Live(), store.noartr[..], notrcf[1..nbtrcf + 1])
    ensures Explained(old(MeansOf(table, store, cf)), nbstpe, ierr, table.n1soar, nbtrcf,
              if qs == [] then [] else qs[|qs| - 1])
    ensures ierr in {0, 2, 3, 4, 5} ==> nbstpe <= |tris| && CutRun(P, quality, crosses, qs, tris[nbstpe..])
    ensures ierr in {0, 5} ==> qs[|qs| - 1] == []
    ensures nbstpe == 0 ==> qs != [] && qs[0] == old(cf.Polygons())
    ensures Ample(old(MeansOf(table, store, cf)), nbstpe) ==> ierr in {-1, 0, 5, 9}
    ensures nbstpe == 0 && Sketch(old(table.Live()), old(store.noartr[..]), old(cf.Polygons())) ==>
              ierr != 5 && (ierr == 0 ==> MeshInv(NeatAll(table.Live()), store.noartr[..]))
  {
    hide *;
    ghost var p, E0, T0 := cf.Polygons(), table.Live(), store.noartr[..];
    ghost var m := MeansOf(table, store, cf);
    MeansAre(table, store, cf);
    ReadyParts(table, store, cf);
    ghost var fed;
    nbtrcf, ierr, tris, fed, rounds := JoinAll(table, store, cf, P, dist, nostpe, nbstpe, notrcf, E0, T0);
    qs := [];
    if Ample(m, nbstpe) {
      AmpleJoins(m, nbstpe);
    }
    if ierr != 0 {
      JoinExplained(m, nbstpe, ierr, table.n1soar, nbtrcf, []);
      return;
    }
    SpentFirst(m, nbstpe, Spare(table.plan), |store.vacant|, |cf.free|, cf.nbcf);
    nbtrcf, ierr, tris, qs := CutAll(table, store, cf, P, quality, crosses, notrcf, nbtrcf, m, nbstpe, tris, fed, E0,
      T0);
    if ierr != 0 {
      return;
    }
    FilledOf(p, tris, fed, nbstpe, if nbstpe > 0 then old(nostpe[nbstpe]) else 0);
    FilledCount(p, tris, nbstpe, if nbstpe > 0 then old(nostpe[nbstpe]) else 0);
    SpentAll(m, nbstpe, Spare(table.plan), |store.vacant|, |cf.free|, nbtrcf);
    ReadyParts(table, store, cf);
    ghost var E := table.Live();
    if nbstpe == 0 && Sketch(E0, T0, p) {
      SketchLinked(E0, T0, E, store.noartr[..], notrcf[1..nbtrcf + 1], tris);
    }
    ierr := LinkAll(table, store, notrcf, nbtrcf, E0, T0, tris);
    LinkExplained(m, nbstpe, ierr, table.n1soar, nbtrcf, qs[|qs| - 1]);
    HeldGrows(E, table.Live(), cf.noarcf[..], cf.n1arcf[..], cf.free, cf.lists);
    GrowsBounded(E, table.Live(), table.mxsomm);
    ReadyLinked(table, store, cf);
    if old(cf.nbcf) == 1 {
      OneContour(P, dist, nbstpe, rounds);
    }
  }

  lemma ReadyLinked(table: Table, store: Store, cf: Contour)
    requires table.Valid() && Bounded(table.Live(), table.mxsomm) && store.Valid() && cf.n1arcf != table.noarst
    requires cf.noarcf.Length == cf.n1arcf.Length == cf.mxarcf + 1 && cf.nbcf == |cf.lists| <= cf.mxarcf
    requires Held(table.Live(), cf.noarcf[..], cf.n1arcf[..], cf.free, cf.lists)
    ensures Ready(table, store, cf)
  {
    hide Held;
  }

  lemma MeansAre(table: Table, store: Store, cf: Contour)
    ensures MeansOf(table, store, cf)
         == Means(cf.Polygons(), Spare(table.plan), |store.vacant|, |cf.free|, cf.mxarcf)
  {
  }

  lemma SpentFirst(m: Means, n: int, spare: nat, vacant: nat, free: nat, nbcf: int)
    requires spare + 2 * n >= m.spare && vacant + n == m.vacant && free == m.free - n && nbcf == |m.polys|
    ensures Spent(m, n, spare, vacant, free, nbcf, n)
  {
  }

  lemma SpentAll(m: Means, n: int, spare: nat, vacant: nat, free: nat, k: int)
    requires Spent(m, n, spare, vacant, free, 0, k)
    ensures free - k == m.free + 2 * |m.polys| - 2 * n
  {
  }

  lemma AmpleJoins(m: Means, n: int)
    requires Ample(m, n) && n >= 0
    ensures Long(m.polys) && m.vacant >= n && m.mxarcf >= n && m.free >= n
    ensures forall n1soar :: !Dry(n1soar, m.spare, 2 * n)
  {
    LongExcess(m.polys);
  }

  lemma FilledCount(p: seq<seq<int>>, tris: seq<(int, int, int)>, n: int, last: int)
    requires Filled(p, tris, n, last)
    ensures |tris| == Excess(p) + 2 * n
  {
  }

  lemma LongTop(q: seq<seq<int>>)
    ensures q != [] && Long(q) ==> |Top(q)| >= 3
  {
  }

  // ---------------------------------------------------------------- what a run means

  /** The triangles have the signed area that the contours enclose, wherever the vertices are. */
  lemma AreaFilled(P: seq<Point>, p: seq<seq<int>>, tris: seq<(int, int, int)>, n: int, last: int)
    requires Filled(p, tris, n, last)
    ensures TrianglesArea(P, tris) == Around(Shoelace(P), p)
  {
    ShoelaceTriangles(P, tris);
    ShoelaceOdd(P);
  }

  /** A side that is not a side of a contour has as many triangles on its left as on its right. */
  lemma SidesMatch(p: seq<seq<int>>, tris: seq<(int, int, int)>, n: int, last: int, u: int, v: int)
    requires Filled(p, tris, n, last)
    requires forall c | 0 <= c < |p| :: Avoids(Closed(p[c]), u, v)
    ensures SidesFrom(tris, u, v) == SidesFrom(tris, v, u)
  {
    assert Odd(Flow(u, v));
    FlowTriangles(tris, u, v);
    FlowAround(p, u, v);
  }

  /** The isolated vertices st, all different and off the contours, all become corners exactly when
      there is at most one: the code always takes in the last.  With one contour a run with more
      ends in an error; with two it can end without one. */
  lemma IntegratesAll(p: seq<seq<int>>, tris: seq<(int, int, int)>, st: seq<int>, last: int)
    requires Filled(p, tris, |st|, last) && (st != [] ==> last == st[|st| - 1])
    requires Unique(st) && forall i | 0 <= i < |st| :: st[i] !in VerticesOf(p)
    ensures (forall i | 0 <= i < |st| :: st[i] in CornersOf(tris)) <==> |st| <= 1
  {
    if |st| > 1 {
      assert st[0] !in VerticesOf(p) && st[0] != last;
    }
  }
}
