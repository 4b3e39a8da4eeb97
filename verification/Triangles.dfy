/** The triangle columns `noartr` and their free list, and `trcf3a_`, which turns three edges into
    a triangle. */
module Triangles {
  import opened Lists
  import opened EdgeTable
  import opened Mesh
  import opened Contours
  import opened Exchange

  /** The free list of triangle columns: it lists every inactive column once. */
  ghost predicate Vacancy(T: seq<Tri>, n1: int, vacant: seq<int>) {
    && |T| > 0 && n1 == At(vacant, 0)
    && (forall k {:trigger vacant[k]} | 0 <= k < |vacant| ::
      1 <= vacant[k] < |T| && T[vacant[k]].a1 == 0 && T[vacant[k]].a2 == At(vacant, k + 1))
    && Unique(vacant)
    && (forall t | 1 <= t < |T| && T[t].a1 == 0 :: t in vacant)
  }

  /** As Vacancy, but for the inactive columns r, which are in no list. */
  ghost predicate VacancyBut(T: seq<Tri>, n1: int, vacant: seq<int>, r: seq<int>) {
    && |T| > 0 && n1 == At(vacant, 0)
    && (forall k {:trigger vacant[k]} | 0 <= k < |vacant| ::
      1 <= vacant[k] < |T| && T[vacant[k]].a1 == 0 && T[vacant[k]].a2 == At(vacant, k + 1))
    && Unique(vacant) && Unique(r)
    && (forall t | t in r :: 1 <= t < |T| && T[t].a1 == 0 && t !in vacant)
    && (forall t | 1 <= t < |T| && T[t].a1 == 0 :: t in vacant || t in r)
  }

  lemma VacancyNone(T: seq<Tri>, n1: int, vacant: seq<int>)
    ensures VacancyBut(T, n1, vacant, []) <==> Vacancy(T, n1, vacant)
  {
  }

  class Store {
    const noartr: array<Tri>
    var n1artr: int
    ghost var vacant: seq<int>

    ghost predicate Valid()
      reads this, noartr
    {
      Vacancy(noartr[..], n1artr, vacant)
    }

    /** The start of `tetrte_`: all columns free. */
    constructor (mxartr: nat)
      requires mxartr > 0
      ensures Valid() && fresh(noartr) && noartr.Length == mxartr + 1
      ensures |vacant| == mxartr && forall t | 1 <= t <= mxartr :: !Active(noartr[..], t)
    {
      noartr := new Tri[mxartr + 1](_ => Tri(0, 0, 0));
      n1artr := 1;
      vacant := seq(mxartr, k => k + 1);
      new;
      for i := 1 to mxartr + 1
        invariant noartr.Length == mxartr + 1 && fresh(noartr) && n1artr == 1 && vacant == seq(mxartr, k => k + 1)
        invariant forall j | 0 <= j <= mxartr :: noartr[j].a1 == 0
        invariant forall j | 1 <= j < i :: noartr[j].a2 == j + 1
      {
        noartr[i] := Tri(0, i + 1, noartr[i].a3);
      }
      noartr[mxartr] := noartr[mxartr].(a2 := 0);
      FirstVacancy(noartr[..], mxartr);
    }

    /** The first free column, written with the active triangle x; 0 when there is none. */
    method Take(x: Tri) returns (nt: int)
      requires Valid() && x.a1 != 0
      modifies `n1artr, `vacant, noartr
      ensures Valid()
      ensures nt == 0 <==> old(vacant) == []
      ensures nt == 0 ==> noartr[..] == old(noartr[..]) && vacant == old(vacant)
      ensures nt != 0 ==> nt == old(vacant)[0] && vacant == old(vacant)[1..] && 1 <= nt < noartr.Length
                          && old(noartr[nt]).a1 == 0
      ensures nt != 0 ==> noartr[..] == old(noartr[..])[nt := x]
    {
      if n1artr <= 0 {
        VacancyNone(noartr[..], n1artr, vacant);
        NoneVacant(noartr[..], n1artr, vacant, []);
        return 0;
      }
      TakeVacant(noartr[..], n1artr, vacant, x);
      nt := n1artr;
      n1artr := noartr[nt].a2;
      noartr[nt] := x;
      vacant := vacant[1..];
      assert noartr[..] == old(noartr[..])[nt := x];
    }

    /** As Valid, with the columns r taken from the free list but not written yet. */
    ghost predicate ValidBut(r: seq<int>)
      reads this, noartr
    {
      VacancyBut(noartr[..], n1artr, vacant, r)
    }

    /** The first free column leaves the free list; 0 when there is none. */
    method Reserve(ghost r: seq<int>) returns (nt: int)
      requires ValidBut(r)
      modifies `n1artr, `vacant
      ensures nt == 0 <==> old(vacant) == []
      ensures nt == 0 ==> ValidBut(r)
      ensures nt != 0 ==> ValidBut(r + [nt]) && nt == old(vacant)[0] && vacant == old(vacant)[1..]
                          && 1 <= nt < noartr.Length && noartr[nt].a1 == 0
    {
      if n1artr <= 0 {
        NoneVacant(noartr[..], n1artr, vacant, r);
        return 0;
      }
      ReserveVacant(noartr[..], n1artr, vacant, r);
      nt := n1artr;
      n1artr := noartr[nt].a2;
      vacant := vacant[1..];
    }

    /** The reserved column r[0] becomes the active triangle x. */
    method Fill(ghost r: seq<int>, nt: int, x: Tri)
      requires ValidBut(r) && r != [] && nt == r[0] && x.a1 != 0
      modifies noartr
      ensures ValidBut(r[1..]) && 1 <= nt < noartr.Length && old(noartr[nt]).a1 == 0
      ensures noartr[..] == old(noartr[..])[nt := x]
    {
      FillVacant(noartr[..], n1artr, vacant, r, x);
      noartr[nt] := x;
      assert noartr[..] == old(noartr[..])[nt := x];
    }

    /** Column nt goes to the front of the free list. */
    method Give(nt: int)
      requires Valid() && Active(noartr[..], nt)
      modifies `n1artr, `vacant, noartr
      ensures Valid() && vacant == [nt] + old(vacant)
      ensures noartr[..] == old(noartr[..])[nt := noartr[nt]] && noartr[nt].a1 == 0
    {
      GiveVacant(noartr[..], n1artr, vacant, nt);
      noartr[nt] := noartr[nt].(a1 := 0);
      noartr[nt] := noartr[nt].(a2 := n1artr);
      n1artr := nt;
      vacant := [nt] + vacant;
      assert noartr[..] == old(noartr[..])[nt := old(noartr[nt]).(a1 := 0, a2 := old(n1artr))];
    }
  }

  lemma FirstVacancy(T: seq<Tri>, mx: nat)
    requires |T| == mx + 1 > 1
    requires forall t | 0 <= t <= mx :: T[t].a1 == 0
    requires forall t | 1 <= t <= mx :: T[t].a2 == if t < mx then t + 1 else 0
    ensures Vacancy(T, 1, seq(mx, k => k + 1))
  {
    var v := seq(mx, k => k + 1);
    forall t | 1 <= t < |T| ensures t in v {
      assert v[t - 1] == t;
    }
  }

  lemma NoneVacant(T: seq<Tri>, n1: int, v: seq<int>, r: seq<int>)
    requires VacancyBut(T, n1, v, r) && n1 <= 0
    ensures v == []
  {
  }

  lemma ReserveVacant(T: seq<Tri>, n1: int, v: seq<int>, r: seq<int>)
    requires VacancyBut(T, n1, v, r) && n1 > 0
    ensures v != [] && n1 == v[0] && 1 <= n1 < |T| && T[n1].a1 == 0
    ensures VacancyBut(T, T[n1].a2, v[1..], r + [n1])
  {
    assert v[0] == n1;
    forall k | 0 <= k < |v[1..]| ensures v[1..][k] == v[k + 1] && v[k + 1] != n1
      && T[v[k + 1]].a2 == At(v[1..], k + 1) {
    }
    forall t | 1 <= t < |T| && T[t].a1 == 0 ensures t in v[1..] || t in r + [n1] {
      assert t in v || t in r;
    }
    assert n1 !in r;
    UniqueSnoc(r, n1);
  }

  lemma UniqueSnoc(r: seq<int>, x: int)
    requires Unique(r) && x !in r
    ensures Unique(r + [x])
  {
    forall i, j | 0 <= i < j < |r + [x]| ensures (r + [x])[i] != (r + [x])[j] {
      assert (r + [x])[i] == r[i] && r[i] in r;
    }
  }

  lemma FillVacant(T: seq<Tri>, n1: int, v: seq<int>, r: seq<int>, x: Tri)
    requires VacancyBut(T, n1, v, r) && r != [] && x.a1 != 0
    ensures 1 <= r[0] < |T| && T[r[0]].a1 == 0 && VacancyBut(T[r[0] := x], n1, v, r[1..])
  {
    assert r[0] in r;
    forall t | t in r[1..] ensures t in r && t != r[0] {
      var k :| 0 <= k < |r[1..]| && r[1..][k] == t;
      assert r[k + 1] == t;
    }
    forall k | 0 <= k < |v| ensures v[k] != r[0] {
      assert v[k] in v;
    }
    forall t | 1 <= t < |T| && T[r[0] := x][t].a1 == 0 ensures t in v || t in r[1..] {
      assert r == [r[0]] + r[1..];
    }
  }

  lemma TakeVacant(T: seq<Tri>, n1: int, v: seq<int>, x: Tri)
    requires Vacancy(T, n1, v) && n1 > 0 && x.a1 != 0
    ensures v != [] && n1 == v[0] && 1 <= n1 < |T| && T[n1].a1 == 0
    ensures Vacancy(T[n1 := x], T[n1].a2, v[1..])
  {
    assert v[0] == n1;
    forall k | 0 <= k < |v[1..]| ensures v[1..][k] == v[k + 1] && v[k + 1] != n1
      && T[v[k + 1]].a2 == At(v[1..], k + 1) {
    }
    forall t | 1 <= t < |T| && T[n1 := x][t].a1 == 0 ensures t in v[1..] {
      assert t in v && t != n1;
    }
  }

  lemma VacantLink(T: seq<Tri>, n1: int, v: seq<int>, k: int)
    requires Vacancy(T, n1, v) && 0 <= k < |v|
    ensures 1 <= v[k] < |T| && T[v[k]].a1 == 0 && T[v[k]].a2 == At(v, k + 1)
  {
  }

  lemma VacantHead(T: seq<Tri>, n1: int, v: seq<int>)
    requires Vacancy(T, n1, v)
    ensures n1 == At(v, 0)
  {
  }

  lemma GiveVacant(T: seq<Tri>, n1: int, v: seq<int>, t: int)
    requires Vacancy(T, n1, v) && Active(T, t)
    ensures Vacancy(T[t := T[t].(a1 := 0, a2 := n1)], t, [t] + v)
  {
    var w, T' := [t] + v, T[t := T[t].(a1 := 0, a2 := n1)];
    assert w[0] == t && t !in v;
    hide Unique;
    forall k | 0 <= k < |w| ensures 1 <= w[k] < |T'| && T'[w[k]].a1 == 0 && T'[w[k]].a2 == At(w, k + 1) {
      hide Vacancy;
      if k > 0 {
        VacantLink(T, n1, v, k - 1);
      } else {
        VacantHead(T, n1, v);
      }
    }
    forall u | 1 <= u < |T'| && T'[u].a1 == 0 ensures u in w {
      assert u == t || u in v;
      assert u == t ==> w[0] == u;
    }
    UniqueOn(t, v);
  }

  /** Side number noar, taken from ns. */
  function Signed(E: Edges, noar: int, ns: int): (r: int)
    requires noar in E
  {
    if ns == E[noar].st1 then noar else -noar
  }

  /** Triangle nt in the first free place of e. */
  function AddTo(e: Edge, nt: int): (r: Edge) {
    if e.tr1 <= 0 then e.(tr1 := nt) else e.(tr2 := nt)
  }

  /** Triangle nt added to edge i. */
  function Mark(E: Edges, i: int, nt: int): (r: Edges)
    requires i in E
  {
    E[i := AddTo(E[i], nt)]
  }

  function MarkAll(E: Edges, i: int, j: int, k: int, nt: int): (r: Edges)
    requires i in E && j in E && k in E
  {
    Mark(Mark(Mark(E, i, nt), j, nt), k, nt)
  }

  lemma MarkGrows(E: Edges, i: int, j: int, k: int, nt: int)
    requires i in E && j in E && k in E
    ensures Grows(E, MarkAll(E, i, j, k, nt)) && MarkAll(E, i, j, k, nt).Keys == E.Keys
  {
  }

  lemma GrowsTwice(E: Edges, F: Edges, G: Edges)
    requires Grows(E, F) && Grows(F, G)
    ensures Grows(E, G)
  {
  }

  lemma GrowsBounded(E: Edges, F: Edges, mx: int)
    requires Grows(E, F) && F.Keys == E.Keys && Bounded(E, mx)
    ensures Bounded(F, mx)
  {
  }

  /** From (E, T) to (E', T'): one new triangle nt with corners v, nothing else of T changed, and
      edges only added. */
  ghost predicate Emitted(E: Edges, T: seq<Tri>, E': Edges, T': seq<Tri>, nt: int, v: (int, int, int)) {
    && Grows(E, E')
    && 1 <= nt < |T| == |T'| && T[nt].a1 == 0 && T'[nt].a1 != 0 && T' == T[nt := T'[nt]]
    && Cycle(E', T'[nt]) && Verts(E', T'[nt]) == v
  }

  /** Edges that join the corners make a closed cycle through them. */
  lemma SignedCycle(E: Edges, E': Edges, a1: int, a2: int, a3: int, v1: int, v2: int, v3: int)
    requires Names(E, a1, v1, v2) && Names(E, a2, v2, v3) && Names(E, a3, v3, v1) && Grows(E, E')
    ensures var x := Tri(Signed(E, a1, v1), Signed(E, a2, v2), Signed(E, a3, v3));
            x.a1 != 0 && Cycle(E', x) && Verts(E', x) == (v1, v2, v3)
  {
  }

  /** `trcf3a_`: the triangle ns1 ns2 ns3 of the existing edges noar1, noar2, noar3. */
  method Trcf3a(table: Table, store: Store, ns1: int, ns2: int, ns3: int, noar1: int, noar2: int, noar3: int)
      returns (nt: int)
    requires table.Valid() && store.Valid() && Bounded(table.Live(), table.mxsomm)
    requires Names(table.Live(), noar1, ns1, ns2) && Names(table.Live(), noar2, ns2, ns3)
      && Names(table.Live(), noar3, ns3, ns1)
    modifies table.nosoar, store`n1artr, store`vacant, store.noartr
    ensures table.Valid() && store.Valid() && Bounded(table.Live(), table.mxsomm)
    ensures nt >= 0 && (nt == 0 <==> old(store.vacant) == [])
    ensures nt == 0 ==> table.Live() == old(table.Live()) && store.noartr[..] == old(store.noartr[..])
    ensures nt > 0 ==> nt == old(store.vacant)[0] && store.vacant == old(store.vacant)[1..]
    ensures nt > 0 ==> table.Live() == MarkAll(old(table.Live()), noar1, noar2, noar3, nt)
    ensures nt > 0 ==> Emitted(old(table.Live()), old(store.noartr[..]), table.Live(), store.noartr[..], nt,
                       (ns1, ns2, ns3))
    ensures nt > 0 ==> SewnOn(old(table.Live()), old(store.noartr[..]), table.Live(), store.noartr[..], nt,
                       (ns1, ns2, ns3), noar1, noar2, noar3)
  {
    hide TableInv, Vacancy, Names, Signed, Cycle, Verts, Mark;
    ghost var E := table.Live();
    NamesLive(E, noar1, ns1, ns2);
    NamesLive(E, noar2, ns2, ns3);
    NamesLive(E, noar3, ns3, ns1);
    SignedCycle(E, E, noar1, noar2, noar3, ns1, ns2, ns3);
    var a1 := Oriented(table, noar1, ns1);
    var a2 := Oriented(table, noar2, ns2);
    var a3 := Oriented(table, noar3, ns3);
    nt := store.Take(Tri(a1, a2, a3));
    if nt == 0 {
      return;
    }
    Add(table, noar1, nt);
    Add(table, noar2, nt);
    Add(table, noar3, nt);
    MarkGrows(E, noar1, noar2, noar3, nt);
    GrowsBounded(E, table.Live(), table.mxsomm);
    SignedCycle(E, table.Live(), noar1, noar2, noar3, ns1, ns2, ns3);
  }

  lemma NamesLive(E: Edges, a: int, u: int, v: int)
    requires Names(E, a, u, v)
    ensures a > 0 && a in E
  {
  }

  /** The sign that makes edge noar start at ns. */
  method Oriented(table: Table, noar: int, ns: int) returns (a: int)
    requires table.Valid() && noar in table.Live()
    ensures a == Signed(table.Live(), noar, ns)
  {
    hide TableInv;
    LiveCells(table, noar);
    if ns == table.nosoar[noar].st1 {
      a := noar;
    } else {
      a := -noar;
    }
  }

  /** Triangle nt in the first free place of edge noar. */
  method Add(table: Table, noar: int, nt: int)
    requires table.Valid() && noar in table.Live()
    modifies table.nosoar
    ensures table.Valid() && table.Live() == Mark(old(table.Live()), noar, nt)
      && table.Live().Keys == old(table.Live()).Keys
  {
    hide TableInv;
    LiveCells(table, noar);
    var e := EdgeOf(table.nosoar[noar]);
    if table.nosoar[noar].tr1 <= 0 {
      table.Write(noar, e.(tr1 := nt));
    } else {
      table.Write(noar, e.(tr2 := nt));
    }
  }

  /** Edge e lists no triangle. */
  ghost predicate NoTriangle(e: Edge) {
    e.tr1 <= 0 && e.tr2 <= 0
  }

  /** From E to E' edges without triangles are added, or entered anew. */
  ghost predicate Opened(E: Edges, E': Edges) {
    && Grows(E, E')
    && forall i | i in E' ::
      (i in E && E'[i] == E[i])
      || (NoTriangle(E'[i]) && if i in E then NoTriangle(E[i]) else i > 0 && 0 < E'[i].st1 < E'[i].st2)
  }

  lemma OpenedTwice(E: Edges, F: Edges, G: Edges)
    requires Opened(E, F) && Opened(F, G)
    ensures Opened(E, G)
  {
  }

  lemma OpenedNone(E: Edges)
    ensures Opened(E, E)
  {
  }

  /** What opening one edge leaves free. */
  lemma OpenedFree(E: Edges, F: Edges, u: int, v: int)
    requires Opened(E, F)
    ensures FreeSide(E, u, v) ==> FreeSide(F, u, v)
  {
  }

  lemma OpenedThrice(E: Edges, E1: Edges, E2: Edges, E3: Edges, v1: int, v2: int, v3: int)
    requires FreeSide(E, v1, v2) && FreeSide(E, v2, v3) && FreeSide(E, v3, v1)
    requires Opened(E, E1) && (FreeSide(E1, v2, v3) ==> Opened(E1, E2)) && (FreeSide(E2, v3, v1) ==> Opened(E2, E3))
    ensures Opened(E, E3)
  {
    hide Opened, FreeSide;
    OpenedFree(E, E1, v2, v3);
    OpenedTwice(E, E1, E2);
    OpenedFree(E, E2, v3, v1);
    OpenedTwice(E, E2, E3);
  }

  /** From (E, T) to (E', T'): some edges without triangles, then the triangle v on its three edges
      in the column nt. */
  ghost predicate Sewn(E: Edges, T: seq<Tri>, E': Edges, T': seq<Tri>, nt: int, v: (int, int, int)) {
    exists F, a1, a2, a3 :: Opened(E, F) && SewnOn(F, T, E', T', nt, v, a1, a2, a3)
  }

  ghost predicate SewnOn(F: Edges, T: seq<Tri>, E': Edges, T': seq<Tri>, nt: int, v: (int, int, int), a1: int, a2: int,
      a3: int)
  {
    && Names(F, a1, v.0, v.1) && Names(F, a2, v.1, v.2) && Names(F, a3, v.2, v.0)
    && E' == MarkAll(F, a1, a2, a3, nt)
    && 1 <= nt < |T| && T[nt].a1 == 0
    && T' == T[nt := Tri(Signed(F, a1, v.0), Signed(F, a2, v.1), Signed(F, a3, v.2))]
  }

  lemma SewnFrom(E: Edges, F: Edges, T: seq<Tri>, E': Edges, T': seq<Tri>, nt: int, v: (int, int, int), a1: int,
      a2: int, a3: int)
    requires Opened(E, F) && SewnOn(F, T, E', T', nt, v, a1, a2, a3)
    ensures Sewn(E, T, E', T', nt, v)
  {
  }

  /** No edge between u and v lists a triangle. */
  ghost predicate FreeSide(E: Edges, u: int, v: int) {
    u != v && !Occupied(E, u, v)
  }

  ghost predicate FreeSides(E: Edges, v1: int, v2: int, v3: int) {
    FreeSide(E, v1, v2) && FreeSide(E, v2, v3) && FreeSide(E, v3, v1)
  }

  /** The sides of triangle v1 v2 v3 that have contour vertices a, b, c between their ends are free. */
  ghost predicate FreeChords(E: Edges, v1: int, a: seq<int>, v2: int, b: seq<int>, v3: int, c: seq<int>) {
    && (a != [] ==> FreeSide(E, v1, v2))
    && (b != [] ==> FreeSide(E, v2, v3))
    && (c != [] ==> FreeSide(E, v3, v1))
  }

  /** The table has no free column, and had fewer than k. */
  ghost predicate Dry(n1soar: int, spare: int, k: int) {
    n1soar == 0 && spare < k
  }

  /** `fasoar_` for a side whose triangles are not known yet. */
  method NewSide(table: Table, ns1: int, ns2: int) returns (noar: int, ierr: int)
    requires table.Valid() && Bounded(table.Live(), table.mxsomm)
    requires 1 <= ns1 <= table.mxsomm && 1 <= ns2 <= table.mxsomm
    modifies table`n1soar, table`plan, table.nosoar, table.noarst
    ensures table.Valid() && Bounded(table.Live(), table.mxsomm)
    ensures ierr == 0 || ierr == 1
    ensures ierr == 1 ==> table.n1soar == 0 && table.Live() == old(table.Live())
    ensures ierr == 1 ==> Spare(old(table.plan)) == 0
    ensures Spare(table.plan) + 1 >= Spare(old(table.plan))
    ensures Grows(old(table.Live()), table.Live())
    ensures ierr == 0 ==> Names(table.Live(), noar, ns1, ns2)
    ensures ierr == 0 && FreeSide(old(table.Live()), ns1, ns2) ==>
              Opened(old(table.Live()), table.Live())
  {
    hide TableInv, LiveEdges, Spare;
    KeyedOf(table.mxsoar, table.mxsomm, table.nosoar[..], table.n1soar, table.plan);
    noar, ierr := table.Fasoar(ns1, ns2, -1, -1, 0);
    if ierr != 1 {
      LiveCells(table, noar);
    }
    hide Finds, Took, Heads;
  }
}
