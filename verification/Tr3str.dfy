/** `nusotr_`, `tr3str_` and `trpite_` on the arrays: the points of a leaf become vertices of its triangles. */
module Tr3str {
  import opened Lists
  import opened EdgeTable
  import opened Mesh
  import opened Exchange
  import opened Contours
  import opened Triangles
  import opened Patch
  import opened Templates
  import opened Star

  /** `nusotr_`: the corners of triangle nt. */
  method Nusotr(table: Table, noartr: array<Tri>, nt: int) returns (s1: int, s2: int, s3: int)
    requires Sound(table, noartr) && Active(noartr[..], nt)
    ensures (s1, s2, s3) == Verts(table.Live(), noartr[nt])
  {
    hide TableInv, LiveEdges, Turn;
    ghost var E, T := table.Live(), noartr[..];
    assert TriOk(E, T, nt) && EdgeOk(E, T, Abs(T[nt].a1)) && EdgeOk(E, T, Abs(T[nt].a2)) && EdgeOk(E, T, Abs(T[nt].a3))
      && 0 !in E;
    hide MeshInv;
    CornersDiffer(E, T[nt]);
    LiveCells(table, Abs(T[nt].a1));
    LiveCells(table, Abs(T[nt].a2));
    var na := noartr[nt].a1;
    if na > 0 {
      s1, s2 := table.nosoar[na].st1, table.nosoar[na].st2;
    } else {
      na := -na;
      s1, s2 := table.nosoar[na].st2, table.nosoar[na].st1;
    }
    na := Abs(noartr[nt].a2);
    s3 := table.nosoar[na].st1;
    if s3 == s1 || s3 == s2 {
      s3 := table.nosoar[na].st2;
    }
  }

  /** The edge from s to np in `tr3str_`, found or new, with its triangles nt0 and nti. */
  method Spoke1(table: Table, s: int, np: int, nt0: int, nti: int) returns (noar: int)
    requires table.Valid() && 1 <= s <= table.mxsomm && 1 <= np <= table.mxsomm
    modifies table`n1soar, table`plan, table.nosoar, table.noarst
    ensures table.Valid() && noar >= 0
    ensures noar == 0 ==> table.n1soar == 0 && Spare(old(table.plan)) == 0
    ensures Spare(table.plan) + 1 >= Spare(old(table.plan))
    ensures noar > 0 ==> table.noarst[..] == old(table.noarst[..])[s := noar] && noar in table.Live()
    ensures noar > 0 ==> (Pair(s, np) in old(table.plan.index) <==> noar in old(table.Live()))
    ensures noar > 0 ==> table.plan.index == old(table.plan.index)[Pair(s, np) := noar]
    ensures noar > 0 && noar in old(table.Live()) ==> noar == old(table.plan.index)[Pair(s, np)]
    ensures noar > 0 ==> table.Live() == old(table.Live())[noar := table.Live()[noar]]
                         && (table.Live()[noar].st1, table.Live()[noar].st2) == Pair(s, np)
    ensures noar > 0 ==> table.Live()[noar].tr1 == nt0 && table.Live()[noar].tr2 == nti
    ensures noar > 0 && noar !in old(table.Live()) ==> table.Live()[noar].line == 0
    ensures noar > 0 && noar in old(table.Live()) ==> table.Live()[noar].line == old(table.Live())[noar].line
  {
    hide TableInv, LiveEdges;
    ghost var index := table.plan.index;
    KeyedOf(table.mxsoar, table.mxsomm, table.nosoar[..], table.n1soar, table.plan);
    noar := table.Hasoar(s, np);
    if noar == 0 {
      return;
    } else if noar < 0 {
      noar := -noar;
      LiveCells(table, noar);
      table.Write(noar, EdgeOf(table.nosoar[noar]).(line := 0));
    }
    LiveCells(table, noar);
    table.Write(noar, EdgeOf(table.nosoar[noar]).(tr1 := nt0));
    LiveCells(table, noar);
    table.Write(noar, EdgeOf(table.nosoar[noar]).(tr2 := nti));
    table.noarst[s] := noar;
  }

  /** What `hasoar_` and the writes after it make of the table for the edge s-np. */
  ghost predicate Joined(E: Edges, index: map<(int, int), int>, E': Edges, index': map<(int, int), int>, s: int,
      np: int, nt0: int, nti: int, i: int) {
    && i > 0 && i in E' && index' == index[Pair(s, np) := i]
    && (Pair(s, np) in index <==> i in E) && (i in E ==> i == index[Pair(s, np)])
    && E' == E[i := E'[i]] && (E'[i].st1, E'[i].st2) == Pair(s, np) && E'[i].tr1 == nt0 && E'[i].tr2 == nti
  }

  function WithBare(E: Edges, i: int, q: (int, int)): (r: Edges) {
    if i in E then E else E[i := Bare(q)]
  }

  /** The three spokes, one after the other. */
  lemma SpokesJoined(E: Edges, T: seq<Tri>, index: map<(int, int), int>, t: int, np: int, E1: Edges,
      ix1: map<(int, int), int>, E2: Edges, ix2: map<(int, int), int>,
                     E3: Edges, ix3: map<(int, int), int>, i1: int, i2: int, i3: int, n1: int, n2: int, n3: int)
    requires MeshInv(E, T) && Keyed(E, index) && Active(T, t) && Lone(E, np) && np > 0
    requires var (s1, s2, s3) := Verts(E, T[t]);
             Joined(E, index, E1, ix1, s1, np, n3, n1, i1) && Joined(E1, ix1, E2, ix2, s2, np, n1, n2, i2)
               && Joined(E2, ix2, E3, ix3, s3, np, n2, n3, i3)
    ensures var (s1, s2, s3) := Verts(E, T[t]);
            var B := WithBare(WithBare(WithBare(E, i1, Pair(s1, np)), i2, Pair(s2, np)), i3, Pair(s3, np));
            && Based(E, B, i1, i2, i3) && Surrounds(E, T, B, t, np, i1, i2, i3) && MeshInv(B, T)
            && Spoke(E, B, E3, i1, s1, np, n3, n1) && Spoke(E, B, E3, i2, s2, np, n1, n2)
              && Spoke(E, B, E3, i3, s3, np, n2, n3)
            && B[i1].tr1 <= 0 && B[i1].tr2 <= 0 && B[i2].tr1 <= 0 && B[i2].tr2 <= 0 && B[i3].tr1 <= 0 && B[i3].tr2 <= 0
            && E3.Keys == B.Keys && forall k | k in B && k != i1 && k != i2 && k != i3 :: E3[k] == B[k]
  {
    var x := T[t];
    var (s1, s2, s3) := Verts(E, x);
    TriangleFacts(E, T, t, np);
    hide MeshInv, Cycle, Start, Verts, TriOk, EdgeOk, Keyed, Joined, Lone, Pair, WithBare, Based, Bare;
    SpokesFrame(E, index, x, np, E1, ix1, E2, ix2, E3, ix3, i1, i2, i3, n1, n2, n3, s1, s2, s3);
    SpokesMesh(E, T, WithBare(WithBare(WithBare(E, i1, Pair(s1, np)), i2, Pair(s2, np)), i3, Pair(s3, np)), i1, i2, i3,
      s1, s2, s3, np);
  }

  lemma SpokesFrame(E: Edges, index: map<(int, int), int>, x: Tri, np: int, E1: Edges, ix1: map<(int, int), int>,
      E2: Edges, ix2: map<(int, int), int>,
                    E3: Edges, ix3: map<(int, int), int>, i1: int, i2: int, i3: int, n1: int, n2: int, n3: int, s1: int,
                      s2: int, s3: int)
    requires Keyed(E, index) && s1 != s2 && s2 != s3 && s3 != s1 && np != s1 && np != s2 && np != s3
    requires Joined(E, index, E1, ix1, s1, np, n3, n1, i1) && Joined(E1, ix1, E2, ix2, s2, np, n1, n2, i2)
      && Joined(E2, ix2, E3, ix3, s3, np, n2, n3, i3)
    requires Abs(x.a1) in E && Abs(x.a2) in E && Abs(x.a3) in E
    requires (E[Abs(x.a1)].st1, E[Abs(x.a1)].st2) == Pair(s1, s2)
      && (E[Abs(x.a2)].st1, E[Abs(x.a2)].st2) == Pair(s2, s3)
    requires (E[Abs(x.a3)].st1, E[Abs(x.a3)].st2) == Pair(s3, s1)
    ensures i1 != i2 && i2 != i3 && i3 != i1 && i1 > 0 && i2 > 0 && i3 > 0
    ensures Abs(x.a1) != i1 && Abs(x.a1) != i2 && Abs(x.a1) != i3 && Abs(x.a2) != i1 && Abs(x.a2) != i2
      && Abs(x.a2) != i3
    ensures Abs(x.a3) != i1 && Abs(x.a3) != i2 && Abs(x.a3) != i3
    ensures var B := WithBare(WithBare(WithBare(E, i1, Pair(s1, np)), i2, Pair(s2, np)), i3, Pair(s3, np));
            && Based(E, B, i1, i2, i3) && E3.Keys == B.Keys && i1 in B && i2 in B && i3 in B
            && (forall k | k in B && k != i1 && k != i2 && k != i3 :: E3[k] == B[k])
            && B[i1] == (if i1 in E then E[i1] else Bare(Pair(s1, np)))
              && B[i2] == (if i2 in E then E[i2] else Bare(Pair(s2, np)))
            && B[i3] == (if i3 in E then E[i3] else Bare(Pair(s3, np)))
            && (E3[i1].st1, E3[i1].st2) == Pair(s1, np) == (B[i1].st1, B[i1].st2) && E3[i1].tr1 == n3
              && E3[i1].tr2 == n1
            && (E3[i2].st1, E3[i2].st2) == Pair(s2, np) == (B[i2].st1, B[i2].st2) && E3[i2].tr1 == n1
              && E3[i2].tr2 == n2
            && (E3[i3].st1, E3[i3].st2) == Pair(s3, np) == (B[i3].st1, B[i3].st2) && E3[i3].tr1 == n2
              && E3[i3].tr2 == n3
  {
    hide Keyed, Joined, Pair;
    JoinKeyed(E, index, E1, ix1, s1, np, n3, n1, i1);
    JoinKeyed(E1, ix1, E2, ix2, s2, np, n1, n2, i2);
    JoinKeyed(E2, ix2, E3, ix3, s3, np, n2, n3, i3);
    SpokesApart(E, x, s1, s2, s3, np, E1, E2, E3, i1, i2, i3);
    SpokesBased(E, E1, E2, E3, i1, i2, i3, s1, s2, s3, np);
    hide WithBare, Based;
  }

  lemma SpokesMesh(E: Edges, T: seq<Tri>, B: Edges, i1: int, i2: int, i3: int, s1: int, s2: int, s3: int, np: int)
    requires MeshInv(E, T) && Based(E, B, i1, i2, i3) && Lone(E, np) && i1 > 0 && i2 > 0 && i3 > 0 && i1 in B && i2 in B
      && i3 in B
    requires s1 > 0 && s2 > 0 && s3 > 0 && np > 0 && s1 != np && s2 != np && s3 != np
    requires B[i1] == (if i1 in E then E[i1] else Bare(Pair(s1, np)))
      && B[i2] == (if i2 in E then E[i2] else Bare(Pair(s2, np)))
    requires B[i3] == (if i3 in E then E[i3] else Bare(Pair(s3, np)))
    requires (B[i1].st1, B[i1].st2) == Pair(s1, np) && (B[i2].st1, B[i2].st2) == Pair(s2, np)
      && (B[i3].st1, B[i3].st2) == Pair(s3, np)
    ensures MeshInv(B, T)
    ensures B[i1].tr1 <= 0 && B[i1].tr2 <= 0 && B[i2].tr1 <= 0 && B[i2].tr2 <= 0 && B[i3].tr1 <= 0 && B[i3].tr2 <= 0
  {
    hide MeshInv;
    BasedMesh(E, T, B, i1, i2, i3);
  }

  lemma SpokesApart(E: Edges, x: Tri, s1: int, s2: int, s3: int, np: int, E1: Edges, E2: Edges, E3: Edges, i1: int,
      i2: int, i3: int)
    requires s1 != s2 && s2 != s3 && s3 != s1 && np != s1 && np != s2 && np != s3
    requires Abs(x.a1) in E && Abs(x.a2) in E && Abs(x.a3) in E
    requires (E[Abs(x.a1)].st1, E[Abs(x.a1)].st2) == Pair(s1, s2)
      && (E[Abs(x.a2)].st1, E[Abs(x.a2)].st2) == Pair(s2, s3)
    requires (E[Abs(x.a3)].st1, E[Abs(x.a3)].st2) == Pair(s3, s1)
    requires i1 in E1 && (E1[i1].st1, E1[i1].st2) == Pair(s1, np) && forall k | k in E && k != i1 ::
      k in E1 && E1[k] == E[k]
    requires i2 in E2 && (E2[i2].st1, E2[i2].st2) == Pair(s2, np) && forall k | k in E1 && k != i2 ::
      k in E2 && E2[k] == E1[k]
    requires i3 in E3 && (E3[i3].st1, E3[i3].st2) == Pair(s3, np) && forall k | k in E2 && k != i3 ::
      k in E3 && E3[k] == E2[k]
    requires i1 in E ==> (E[i1].st1, E[i1].st2) == Pair(s1, np)
    requires i2 in E1 ==> (E1[i2].st1, E1[i2].st2) == Pair(s2, np)
    requires i3 in E2 ==> (E2[i3].st1, E2[i3].st2) == Pair(s3, np)
    ensures i1 != i2 && i2 != i3 && i3 != i1
    ensures Abs(x.a1) != i1 && Abs(x.a1) != i2 && Abs(x.a1) != i3 && Abs(x.a2) != i1 && Abs(x.a2) != i2
      && Abs(x.a2) != i3
    ensures Abs(x.a3) != i1 && Abs(x.a3) != i2 && Abs(x.a3) != i3
  {
    PairsDiffer(s1, s2, np);
    PairsDiffer(s2, s3, np);
    PairsDiffer(s3, s1, np);
    assert i1 != i2;
    assert i3 != i2 && i3 != i1;
  }

  lemma SpokesBased(E: Edges, E1: Edges, E2: Edges, E3: Edges, i1: int, i2: int, i3: int, s1: int, s2: int, s3: int,
      np: int)
    requires i1 != i2 && i2 != i3 && i3 != i1
    requires i1 in E1 && E1.Keys == E.Keys + {i1} && forall k | k in E && k != i1 :: E1[k] == E[k]
    requires i2 in E2 && E2.Keys == E1.Keys + {i2} && forall k | k in E1 && k != i2 :: E2[k] == E1[k]
    requires i3 in E3 && E3.Keys == E2.Keys + {i3} && forall k | k in E2 && k != i3 :: E3[k] == E2[k]
    ensures var B := WithBare(WithBare(WithBare(E, i1, Pair(s1, np)), i2, Pair(s2, np)), i3, Pair(s3, np));
            && Based(E, B, i1, i2, i3) && E3.Keys == B.Keys && i1 in B && i2 in B && i3 in B
            && (forall k | k in B && k != i1 && k != i2 && k != i3 :: E3[k] == B[k])
            && B[i1] == (if i1 in E then E[i1] else Bare(Pair(s1, np)))
              && B[i2] == (if i2 in E then E[i2] else Bare(Pair(s2, np)))
            && B[i3] == (if i3 in E then E[i3] else Bare(Pair(s3, np)))
            && E3[i1] == E1[i1] && E3[i2] == E2[i2]
  {
    hide Pair;
  }

  /** What entering the edge s-np does to the table, seen from outside. */
  lemma JoinKeyed(E: Edges, index: map<(int, int), int>, E': Edges, index': map<(int, int), int>, s: int, np: int,
      nt0: int, nti: int, i: int)
    requires Keyed(E, index) && Joined(E, index, E', index', s, np, nt0, nti, i)
    ensures Keyed(E', index') && i > 0 && i in E' && (E'[i].st1, E'[i].st2) == Pair(s, np) && E'[i].tr1 == nt0
      && E'[i].tr2 == nti
    ensures E'.Keys == E.Keys + {i} && (i in E ==> (E[i].st1, E[i].st2) == Pair(s, np))
    ensures forall k | k in E && k != i :: E'[k] == E[k]
  {
  }

  /** All about a triangle without the vertex np. */
  lemma TriangleFacts(E: Edges, T: seq<Tri>, t: int, np: int)
    requires MeshInv(E, T) && Active(T, t) && Lone(E, np) && np > 0
    ensures var x := T[t]; var (s1, s2, s3) := Verts(E, x);
            && Cycle(E, x) && Abs(x.a1) in E && Abs(x.a2) in E && Abs(x.a3) in E && x.a1 != 0 && x.a2 != 0 && x.a3 != 0
            && s1 > 0 && s2 > 0 && s3 > 0 && s1 != s2 && s2 != s3 && s3 != s1 && np != s1 && np != s2 && np != s3
            && Abs(x.a1) != Abs(x.a2) && Abs(x.a2) != Abs(x.a3) && Abs(x.a3) != Abs(x.a1)
            && (E[Abs(x.a1)].st1, E[Abs(x.a1)].st2) == Pair(s1, s2)
              && (E[Abs(x.a2)].st1, E[Abs(x.a2)].st2) == Pair(s2, s3)
            && (E[Abs(x.a3)].st1, E[Abs(x.a3)].st2) == Pair(s3, s1)
  {
    var x := T[t];
    var (s1, s2, s3) := Verts(E, x);
    assert TriOk(E, T, t) && EdgeOk(E, T, Abs(x.a1)) && EdgeOk(E, T, Abs(x.a2)) && EdgeOk(E, T, Abs(x.a3)) && 0 !in E;
    hide MeshInv;
    CornersDiffer(E, x);
    SideEnds(E, x);
    hide Cycle, Start;
  }

  lemma PairsDiffer(s: int, r: int, np: int)
    requires s != r && s != np && r != np
    ensures Pair(s, np) != Pair(r, np) && forall w :: Pair(s, r) != Pair(w, np)
  {
  }

  /** The sides of a triangle join its corners. */
  lemma SideEnds(E: Edges, x: Tri)
    requires Cycle(E, x) && 0 !in E
    requires E[Abs(x.a1)].st1 < E[Abs(x.a1)].st2 && E[Abs(x.a2)].st1 < E[Abs(x.a2)].st2
      && E[Abs(x.a3)].st1 < E[Abs(x.a3)].st2
    ensures var (s1, s2, s3) := Verts(E, x);
            && (E[Abs(x.a1)].st1, E[Abs(x.a1)].st2) == Pair(s1, s2)
              && (E[Abs(x.a2)].st1, E[Abs(x.a2)].st2) == Pair(s2, s3)
            && (E[Abs(x.a3)].st1, E[Abs(x.a3)].st2) == Pair(s3, s1)
  {
  }

  /** Column nti becomes the blade on side a of triangle nt, and takes nt's place on that side. */
  method WriteBlade(table: Table, store: Store, ghost r: seq<int>, nt: int, nti: int, a: int, i: int, s: int, j: int,
      q: int)
    requires table.Valid() && store.ValidBut(r) && r != [] && r[0] == nti && i in table.Live() && j in table.Live()
      && Abs(a) in table.Live() && a != 0
    modifies table.nosoar, store.noartr
    ensures table.Valid() && store.ValidBut(r[1..])
    ensures table.Live() == old(table.Live())[Abs(a) := Relist(old(table.Live())[Abs(a)], nt, nti)]
    ensures 1 <= nti < store.noartr.Length
      && store.noartr[..] == old(store.noartr[..])[nti := Blade(old(table.Live()), a, i, s, j, q)]
  {
    hide TableInv, VacancyBut, Relist;
    var a2 := Oriented(table, j, q);
    var a3 := Oriented(table, i, s);
    store.Fill(r, nti, Tri(a, a2, -a3));
    ReplaceTriangle(table, Abs(a), nt, nti);
  }

  /** `tr3str_`: triangle nt gives way to the three triangles of its sides and the vertex np, which no
      triangle has yet; nutr are their columns, and nt becomes the first free one. */
  method Tr3str(table: Table, store: Store, np: int, nt: int) returns (nutr: seq<int>, ierr: int)
    requires Sound(table, store.noartr) && store.Valid() && Active(store.noartr[..], nt) && 1 <= np <= table.mxsomm
      && Lone(table.Live(), np)
    modifies table`n1soar, table`plan, table.nosoar, table.noarst, store`n1artr, store`vacant, store.noartr
    ensures ierr == 0 || ierr == 1 || ierr == 2
    ensures ierr == 2 ==> |old(store.vacant)| < 3
    ensures ierr == 1 ==> Dry(table.n1soar, Spare(old(table.plan)), 3)
    ensures Spare(table.plan) + 3 >= Spare(old(table.plan))
    ensures ierr == 0 ==> Sound(table, store.noartr) && store.Valid() && |old(store.vacant)| >= 3
                          && store.vacant == [nt] + old(store.vacant)[3..]
    ensures ierr == 0 ==> nutr == old(store.vacant)[..3]
                          && StarDrawn(old(table.Live()), old(store.noartr[..]), table.Live(), store.noartr[..], nt, np,
                          nutr)
    ensures ierr == 0 ==> Grows(old(table.Live()), table.Live()) && LonesKept(old(table.Live()), table.Live(), np)
                          && LinesKept(old(table.Live()), table.Live())
  {
    hide TableInv, LiveEdges, MeshInv, Vacancy, VacancyBut, Anchored, Bounded, Keyed, Lone, Cycle, Start, Verts,
      BladeEdges, BladeTris, StarState, SpokesIn, StarDrawn, Spare, LinesKept;
    ghost var E, T, st, mx := table.Live(), store.noartr[..], table.noarst[..], table.mxsomm;
    TriangleFacts(E, T, nt, np);
    TriangleBounded(E, T, nt, mx);
    nutr, ierr := ReserveAll(store, 3);
    if ierr != 0 {
      return;
    }
    ReservedApart(T, store.n1artr, store.vacant, nutr);
    var s1, s2, s3 := Nusotr(table, store.noartr, nt);
    var noar1, noar2, noar3;
    ghost var B;
    noar1, noar2, noar3, ierr, B := Spokes(table, np, s1, s2, s3, nutr, T, nt);
    if ierr != 0 {
      return;
    }
    ghost var E3 := table.Live();
    SpokesSides(E, T, B, E3, nt, np, noar1, noar2, noar3, nutr);
    Blades(table, store, nt, nutr, s1, s2, s3, noar1, noar2, noar3);
    store.Give(nt);
    StarStateOf(E, T, B, E3, table.Live(), store.noartr[..], nt, np, noar1, noar2, noar3, nutr);
    StarDone(E, T, B, E3, table.Live(), store.noartr[..], nt, np, noar1, noar2, noar3, nutr, s1, s2, s3);
    StarLone(E, T, B, E3, table.Live(), store.noartr[..], nt, np, noar1, noar2, noar3, nutr);
    StarAnchored(E, T, B, E3, table.Live(), store.noartr[..], st, mx, nt, np, noar1, noar2, noar3, nutr, s1, s2, s3);
    BladeLines(E, E3, T[nt], nt, nutr);
  }

  lemma BladeLines(E: Edges, E3: Edges, x: Tri, nt: int, nutr: seq<int>)
    requires LinesKept(E, E3) && Abs(x.a1) in E3 && Abs(x.a2) in E3 && Abs(x.a3) in E3 && |nutr| == 3
    requires nutr[0] > 0 && nutr[1] > 0 && nutr[2] > 0
    ensures LinesKept(E, BladeEdges(E3, x, nt, nutr))
  {
  }

  /** The three spokes are in the table. */
  ghost predicate SpokesIn(E: Edges, T: seq<Tri>, B: Edges, E3: Edges, nt: int, np: int, i1: int, i2: int, i3: int,
      nutr: seq<int>) {
    && Active(T, nt) && |nutr| == 3
    && MeshInv(B, T) && Based(E, B, i1, i2, i3) && Surrounds(E, T, B, nt, np, i1, i2, i3)
    && E3.Keys == B.Keys && (forall k | k in B && k != i1 && k != i2 && k != i3 :: E3[k] == B[k])
    && i1 in E3 && i2 in E3 && i3 in E3
    && B[i1].tr1 <= 0 && B[i1].tr2 <= 0 && B[i2].tr1 <= 0 && B[i2].tr2 <= 0 && B[i3].tr1 <= 0 && B[i3].tr2 <= 0
    && var (s1, s2, s3) := Verts(E, T[nt]);
       Spoke(E, B, E3, i1, s1, np, nutr[2], nutr[0]) && Spoke(E, B, E3, i2, s2, np, nutr[0], nutr[1])
         && Spoke(E, B, E3, i3, s3, np, nutr[1], nutr[2])
  }

  /** The loop of `tr3str_` over the edges from the corners of nt to np. */
  method Spokes(table: Table, np: int, s1: int, s2: int, s3: int, nutr: seq<int>, ghost T: seq<Tri>, ghost nt: int)
    returns (noar1: int, noar2: int, noar3: int, ierr: int, ghost B: Edges)
    requires table.Valid() && MeshInv(table.Live(), T) && Active(T, nt) && Lone(table.Live(), np)
      && 1 <= np <= table.mxsomm && |nutr| == 3
    requires (s1, s2, s3) == Verts(table.Live(), T[nt]) && 1 <= s1 <= table.mxsomm && 1 <= s2 <= table.mxsomm
      && 1 <= s3 <= table.mxsomm
    modifies table`n1soar, table`plan, table.nosoar, table.noarst
    ensures table.Valid() && (ierr == 0 || ierr == 1) && (ierr == 1 ==> Dry(table.n1soar, Spare(old(table.plan)), 3))
    ensures Spare(table.plan) + 3 >= Spare(old(table.plan))
    ensures ierr == 0 ==> SpokesIn(old(table.Live()), T, B, table.Live(), nt, np, noar1, noar2, noar3, nutr)
    ensures ierr == 0 && nutr[0] > 0 && nutr[1] > 0 && nutr[2] > 0 ==> LinesKept(old(table.Live()), table.Live())
    ensures ierr == 0 ==> table.noarst[..] == old(table.noarst[..])[s1 := noar1][s2 := noar2][s3 := noar3][np := noar3]
  {
    hide TableInv, LiveEdges, MeshInv, Lone, Cycle, Start, Verts, Joined, WithBare, Surrounds, Spoke, Based, Spare,
      LinesKept;
    ghost var E, index, st := table.Live(), table.plan.index, table.noarst[..];
    KeyedOf(table.mxsoar, table.mxsomm, table.nosoar[..], table.n1soar, table.plan);
    noar2, noar3, B := 0, 0, E;
    noar1 := Spoke1(table, s1, np, nutr[2], nutr[0]);
    if noar1 == 0 {
      ierr := 1;
      return;
    }
    ghost var E1, ix1 := table.Live(), table.plan.index;
    JoinedOf(E, index, E1, ix1, s1, np, nutr[2], nutr[0], noar1);
    noar2 := Spoke1(table, s2, np, nutr[0], nutr[1]);
    if noar2 == 0 {
      ierr := 1;
      return;
    }
    ghost var E2, ix2 := table.Live(), table.plan.index;
    JoinedOf(E1, ix1, E2, ix2, s2, np, nutr[0], nutr[1], noar2);
    noar3 := Spoke1(table, s3, np, nutr[1], nutr[2]);
    if noar3 == 0 {
      ierr := 1;
      return;
    }
    ghost var E3, ix3 := table.Live(), table.plan.index;
    JoinedOf(E2, ix2, E3, ix3, s3, np, nutr[1], nutr[2], noar3);
    table.noarst[np] := noar3;
    assert table.noarst[..] == st[s1 := noar1][s2 := noar2][s3 := noar3][np := noar3];
    hide Keyed;
    SpokesJoined(E, T, index, nt, np, E1, ix1, E2, ix2, E3, ix3, noar1, noar2, noar3, nutr[0], nutr[1], nutr[2]);
    B := WithBare(WithBare(WithBare(E, noar1, Pair(s1, np)), noar2, Pair(s2, np)), noar3, Pair(s3, np));
    SpokesLines(E, E1, E2, E3, noar1, noar2, noar3);
    SpokesThere(E, T, B, E3, nt, np, noar1, noar2, noar3, nutr, s1, s2, s3);
    ierr := 0;
  }

  lemma SpokesLines(E: Edges, E1: Edges, E2: Edges, E3: Edges, i1: int, i2: int, i3: int)
    requires i1 in E1 && E1 == E[i1 := E1[i1]] && E1[i1].line == if i1 in E then E[i1].line else 0
    requires i2 in E2 && E2 == E1[i2 := E2[i2]] && E2[i2].line == if i2 in E1 then E1[i2].line else 0
    requires i3 in E3 && E3 == E2[i3 := E3[i3]] && E3[i3].line == if i3 in E2 then E2[i3].line else 0
    ensures Listing(E1[i1]) && Listing(E2[i2]) && Listing(E3[i3]) ==> LinesKept(E, E3)
  {
    hide LinesKept, Listing;
    if Listing(E1[i1]) && Listing(E2[i2]) && Listing(E3[i3]) {
      LinesOne(E, E1, i1);
      LinesOne(E1, E2, i2);
      LinesOne(E2, E3, i3);
      LinesTwice(E, E1, E2);
      LinesTwice(E, E2, E3);
    }
  }

  lemma SpokesThere(E: Edges, T: seq<Tri>, B: Edges, E3: Edges, nt: int, np: int, i1: int, i2: int, i3: int,
      nutr: seq<int>, s1: int, s2: int, s3: int)
    requires Active(T, nt) && |nutr| == 3 && MeshInv(B, T) && Based(E, B, i1, i2, i3)
      && Surrounds(E, T, B, nt, np, i1, i2, i3)
    requires E3.Keys == B.Keys && (forall k | k in B && k != i1 && k != i2 && k != i3 :: E3[k] == B[k])
      && (s1, s2, s3) == Verts(E, T[nt])
    requires Spoke(E, B, E3, i1, s1, np, nutr[2], nutr[0]) && Spoke(E, B, E3, i2, s2, np, nutr[0], nutr[1])
      && Spoke(E, B, E3, i3, s3, np, nutr[1], nutr[2])
    requires B[i1].tr1 <= 0 && B[i1].tr2 <= 0 && B[i2].tr1 <= 0 && B[i2].tr2 <= 0 && B[i3].tr1 <= 0 && B[i3].tr2 <= 0
    ensures SpokesIn(E, T, B, E3, nt, np, i1, i2, i3, nutr)
  {
    hide MeshInv, Based, Surrounds, Verts;
  }

  lemma SpokesSides(E: Edges, T: seq<Tri>, B: Edges, E3: Edges, nt: int, np: int, i1: int, i2: int, i3: int,
      nutr: seq<int>)
    requires SpokesIn(E, T, B, E3, nt, np, i1, i2, i3, nutr)
    ensures i1 in E3 && i2 in E3 && i3 in E3 && Abs(T[nt].a1) in E3 && Abs(T[nt].a2) in E3 && Abs(T[nt].a3) in E3
    ensures T[nt].a2 != 0 && T[nt].a3 != 0
  {
    hide MeshInv, Start, Spoke;
  }

  lemma StarStateOf(E: Edges, T: seq<Tri>, B: Edges, E3: Edges, E': Edges, T': seq<Tri>, nt: int, np: int, i1: int,
      i2: int, i3: int, nutr: seq<int>)
    requires SpokesIn(E, T, B, E3, nt, np, i1, i2, i3, nutr) && Unique(nutr) && |T'| == |T|
    requires Abs(T[nt].a1) in E3 && Abs(T[nt].a2) in E3 && Abs(T[nt].a3) in E3 && i1 in E3 && i2 in E3 && i3 in E3
    requires forall k | 0 <= k < 3 :: 1 <= nutr[k] < |T| && T[nutr[k]].a1 == 0
    requires E' == BladeEdges(E3, T[nt], nt, nutr)
    requires var (s1, s2, s3) := Verts(E, T[nt]);
      T' == BladeTris(T, E3, T[nt], nutr, s1, s2, s3, i1, i2, i3)[nt := T'[nt]] && T'[nt].a1 == 0
    ensures StarState(E, T, B, E3, E', T', nt, np, i1, i2, i3, nutr)
  {
    hide MeshInv, Based, Surrounds, Verts, Spoke, BladeEdges, BladeTris;
  }

  /** The three blades of `tr3str_`. */
  method Blades(table: Table, store: Store, nt: int, nutr: seq<int>, s1: int, s2: int, s3: int, noar1: int, noar2: int,
      noar3: int)
    requires table.Valid() && |nutr| == 3 && store.ValidBut(nutr) && Active(store.noartr[..], nt) && nt !in nutr
    requires noar1 in table.Live() && noar2 in table.Live() && noar3 in table.Live()
    requires var x := store.noartr[nt]; Abs(x.a1) in table.Live() && Abs(x.a2) in table.Live()
                                        && Abs(x.a3) in table.Live() && x.a2 != 0 && x.a3 != 0
    modifies table.nosoar, store.noartr
    ensures table.Valid() && store.Valid() && 1 <= nutr[0] < store.noartr.Length && 1 <= nutr[1] < store.noartr.Length
      && 1 <= nutr[2] < store.noartr.Length
    ensures table.Live() == BladeEdges(old(table.Live()), old(store.noartr[nt]), nt, nutr)
    ensures store.noartr[..] == BladeTris(old(store.noartr[..]), old(table.Live()), old(store.noartr[nt]), nutr, s1, s2,
      s3, noar1, noar2, noar3)
    ensures store.noartr[nt] == old(store.noartr[nt])
  {
    hide TableInv, LiveEdges, VacancyBut, Relist;
    ghost var E, T, x := table.Live(), store.noartr[..], store.noartr[nt];
    assert nutr[1..] == [nutr[1], nutr[2]] && nutr[1..][1..] == [nutr[2]] && nutr[1..][1..][1..] == [];
    WriteBlade(table, store, nutr, nt, nutr[0], store.noartr[nt].a1, noar1, s1, noar2, s2);
    ghost var E1, T1 := table.Live(), store.noartr[..];
    WriteBlade(table, store, nutr[1..], nt, nutr[1], store.noartr[nt].a2, noar2, s2, noar3, s3);
    ghost var E2, T2 := table.Live(), store.noartr[..];
    WriteBlade(table, store, nutr[1..][1..], nt, nutr[2], store.noartr[nt].a3, noar3, s3, noar1, s1);
    BladesSame(E, x, nt, nutr, s1, s2, s3, noar1, noar2, noar3);
    VacancyNone(store.noartr[..], store.n1artr, store.vacant);
  }

  ghost function BladeEdges(E: Edges, x: Tri, nt: int, nutr: seq<int>): (r: Edges)
    requires Abs(x.a1) in E && Abs(x.a2) in E && Abs(x.a3) in E && |nutr| == 3
  {
    var E1 := E[Abs(x.a1) := Relist(E[Abs(x.a1)], nt, nutr[0])];
    var E2 := E1[Abs(x.a2) := Relist(E1[Abs(x.a2)], nt, nutr[1])];
    E2[Abs(x.a3) := Relist(E2[Abs(x.a3)], nt, nutr[2])]
  }

  ghost function BladeTris(T: seq<Tri>, E: Edges, x: Tri, nutr: seq<int>, s1: int, s2: int, s3: int, i1: int, i2: int,
      i3: int): (r: seq<Tri>)
    requires i1 in E && i2 in E && i3 in E && |nutr| == 3 && 0 <= nutr[0] < |T| && 0 <= nutr[1] < |T|
      && 0 <= nutr[2] < |T|
  {
    T[nutr[0] := Blade(E, x.a1, i1, s1, i2, s2)][nutr[1] := Blade(E, x.a2, i2, s2, i3, s3)][nutr[2] := Blade(E, x.a3,
      i3, s3, i1, s1)]
  }

  /** Writing the triangles of an edge does not change the signs. */
  lemma BladesSame(E: Edges, x: Tri, nt: int, nutr: seq<int>, s1: int, s2: int, s3: int, i1: int, i2: int, i3: int)
    requires Abs(x.a1) in E && Abs(x.a2) in E && Abs(x.a3) in E && |nutr| == 3 && i1 in E && i2 in E && i3 in E
    ensures var E1 := E[Abs(x.a1) := Relist(E[Abs(x.a1)], nt, nutr[0])];
            Blade(E1, x.a2, i2, s2, i3, s3) == Blade(E, x.a2, i2, s2, i3, s3)
    ensures var E1 := E[Abs(x.a1) := Relist(E[Abs(x.a1)], nt, nutr[0])];
            var E2 := E1[Abs(x.a2) := Relist(E1[Abs(x.a2)], nt, nutr[1])];
            Blade(E2, x.a3, i3, s3, i1, s1) == Blade(E, x.a3, i3, s3, i1, s1)
  {
  }

  /** What the star leaves: three new triangles for the old one, the others unchanged. */
  ghost predicate StarDrawn(E: Edges, T: seq<Tri>, E': Edges, T': seq<Tri>, nt: int, np: int, nutr: seq<int>) {
    && |T'| == |T| && Active(T, nt) && !Active(T', nt) && |nutr| == 3 && Unique(nutr)
    && (forall k {:trigger nutr[k]} | 0 <= k < 3 :: Active(T', nutr[k]) && !Active(T, nutr[k]))
    && (forall t | 0 <= t < |T| && t != nt && t !in nutr :: T'[t] == T[t])
    && var (s1, s2, s3) := Verts(E, T[nt]);
       Verts(E', T'[nutr[0]]) == (s1, s2, np) && Verts(E', T'[nutr[1]]) == (s2, s3, np)
         && Verts(E', T'[nutr[2]]) == (s3, s1, np)
  }

  /** Vertices without triangles, other than np, stay without. */
  ghost predicate LonesKept(E: Edges, E': Edges, np: int) {
    forall q | Lone(E, q) && q != np :: Lone(E', q)
  }

  lemma TriangleBounded(E: Edges, T: seq<Tri>, t: int, mx: int)
    requires MeshInv(E, T) && Active(T, t) && Bounded(E, mx)
    ensures var (s1, s2, s3) := Verts(E, T[t]); s1 <= mx && s2 <= mx && s3 <= mx
  {
    var x := T[t];
    assert TriOk(E, T, t);
    SideBounded(E, x.a1, mx);
    SideBounded(E, x.a2, mx);
    SideBounded(E, x.a3, mx);
  }

  lemma JoinedOf(E: Edges, index: map<(int, int), int>, E': Edges, index': map<(int, int), int>, s: int, np: int,
      nt0: int, nti: int, i: int)
    requires i > 0 && i in E' && (Pair(s, np) in index <==> i in E) && index' == index[Pair(s, np) := i]
    requires i in E ==> i == index[Pair(s, np)]
    requires E' == E[i := E'[i]] && (E'[i].st1, E'[i].st2) == Pair(s, np) && E'[i].tr1 == nt0 && E'[i].tr2 == nti
    ensures Joined(E, index, E', index', s, np, nt0, nti, i)
  {
  }

  /** The state `tr3str_` ends in. */
  ghost predicate StarState(E: Edges, T: seq<Tri>, B: Edges, E3: Edges, E': Edges, T': seq<Tri>, nt: int, np: int,
      i1: int, i2: int, i3: int, nutr: seq<int>) {
    && Active(T, nt) && |nutr| == 3 && Unique(nutr) && |T'| == |T|
    && MeshInv(B, T) && Based(E, B, i1, i2, i3) && Surrounds(E, T, B, nt, np, i1, i2, i3)
    && var (s1, s2, s3) := Verts(E, T[nt]);
    && Spoke(E, B, E3, i1, s1, np, nutr[2], nutr[0]) && Spoke(E, B, E3, i2, s2, np, nutr[0], nutr[1])
      && Spoke(E, B, E3, i3, s3, np, nutr[1], nutr[2])
    && B[i1].tr1 <= 0 && B[i1].tr2 <= 0 && B[i2].tr1 <= 0 && B[i2].tr2 <= 0 && B[i3].tr1 <= 0 && B[i3].tr2 <= 0
    && E3.Keys == B.Keys && (forall k | k in B && k != i1 && k != i2 && k != i3 :: E3[k] == B[k])
    && Abs(T[nt].a1) in E3 && Abs(T[nt].a2) in E3 && Abs(T[nt].a3) in E3
    && E' == BladeEdges(E3, T[nt], nt, nutr)
    && (forall k | 0 <= k < 3 :: 1 <= nutr[k] < |T| && T[nutr[k]].a1 == 0)
    && i1 in E3 && i2 in E3 && i3 in E3
    && T' == BladeTris(T, E3, T[nt], nutr, s1, s2, s3, i1, i2, i3)[nt := T'[nt]] && T'[nt].a1 == 0
  }

  lemma StarDone(E: Edges, T: seq<Tri>, B: Edges, E3: Edges, E': Edges, T': seq<Tri>, nt: int, np: int, i1: int,
      i2: int, i3: int, nutr: seq<int>, s1: int, s2: int, s3: int)
    requires StarState(E, T, B, E3, E', T', nt, np, i1, i2, i3, nutr) && Verts(E, T[nt]) == (s1, s2, s3)
    ensures MeshInv(E', T') && StarDrawn(E, T, E', T', nt, np, nutr)
  {
    StarIs(E, T, B, E3, E', T', nt, np, i1, i2, i3, nutr);
    StarKeeps(E, T, B, E', T', nt, np, i1, i2, i3, nutr[0], nutr[1], nutr[2]);
    StarPlaces(E, T, B, E3, E', T', nt, np, i1, i2, i3, nutr);
    hide StarState, Starred, MeshInv, Verts;
  }

  lemma StarIs(E: Edges, T: seq<Tri>, B: Edges, E3: Edges, E': Edges, T': seq<Tri>, nt: int, np: int, i1: int, i2: int,
      i3: int, nutr: seq<int>)
    requires StarState(E, T, B, E3, E', T', nt, np, i1, i2, i3, nutr)
    ensures MeshInv(B, T) && Starred(E, T, B, E', T', nt, np, i1, i2, i3, nutr[0], nutr[1], nutr[2])
  {
    hide MeshInv, Cycle, Start, Relist;
  }

  lemma StarPlaces(E: Edges, T: seq<Tri>, B: Edges, E3: Edges, E': Edges, T': seq<Tri>, nt: int, np: int, i1: int,
      i2: int, i3: int, nutr: seq<int>)
    requires StarState(E, T, B, E3, E', T', nt, np, i1, i2, i3, nutr)
    ensures |T'| == |T| && Active(T, nt) && !Active(T', nt) && |nutr| == 3 && Unique(nutr)
    ensures forall k {:trigger nutr[k]} | 0 <= k < 3 :: Active(T', nutr[k]) && !Active(T, nutr[k])
    ensures forall t | 0 <= t < |T| && t != nt && t !in nutr :: T'[t] == T[t]
  {
    hide MeshInv, Cycle, Start, Relist, Spoke, Signed, BladeEdges, Based;
  }

  /** Ends and anchors after a star. */
  lemma StarAnchored(E: Edges, T: seq<Tri>, B: Edges, E3: Edges, E': Edges, T': seq<Tri>, st: seq<int>, mx: int,
      nt: int, np: int, i1: int, i2: int, i3: int, nutr: seq<int>, s1: int, s2: int, s3: int)
    requires StarState(E, T, B, E3, E', T', nt, np, i1, i2, i3, nutr) && Verts(E, T[nt]) == (s1, s2, s3)
    requires Bounded(E, mx) && Anchored(E, st) && |st| == mx + 1 && 1 <= np <= mx && 1 <= s1 <= mx && 1 <= s2 <= mx
      && 1 <= s3 <= mx
    ensures Grows(E, E') && Bounded(E', mx) && Anchored(E', st[s1 := i1][s2 := i2][s3 := i3][np := i3])
  {
    StarEdges(E, T, B, E3, E', T', nt, np, i1, i2, i3, nutr);
    hide StarState, Pair;
    EndsOfPair(s1, np);
    EndsOfPair(s2, np);
    EndsOfPair(s3, np);
    var st' := st[s1 := i1][s2 := i2][s3 := i3][np := i3];
    forall s | 0 <= s < |st'| && st'[s] > 0 ensures Touches(E', st'[s], s) {
      if s != s1 && s != s2 && s != s3 && s != np {
        assert Touches(E, st[s], s);
      }
    }
  }

  lemma EndsOfPair(s: int, r: int)
    ensures Pair(s, r) == (s, r) || Pair(s, r) == (r, s)
  {
  }

  lemma StarEdges(E: Edges, T: seq<Tri>, B: Edges, E3: Edges, E': Edges, T': seq<Tri>, nt: int, np: int, i1: int,
      i2: int, i3: int, nutr: seq<int>)
    requires StarState(E, T, B, E3, E', T', nt, np, i1, i2, i3, nutr)
    ensures var (s1, s2, s3) := Verts(E, T[nt]);
            && i1 in E' && i2 in E' && i3 in E' && i1 > 0 && i2 > 0 && i3 > 0
            && (E'[i1].st1, E'[i1].st2) == Pair(s1, np) && (E'[i2].st1, E'[i2].st2) == Pair(s2, np)
              && (E'[i3].st1, E'[i3].st2) == Pair(s3, np)
    ensures forall i | i in E :: i in E' && E'[i].st1 == E[i].st1 && E'[i].st2 == E[i].st2
    ensures forall i | i in E' :: i in E || i == i1 || i == i2 || i == i3
    ensures forall i | i in E' && i in E && i != i1 && i != i2 && i != i3 && i != Abs(T[nt].a1) && i != Abs(T[nt].a2)
      && i != Abs(T[nt].a3) :: E'[i] == E[i]
  {
    hide MeshInv, Cycle, Start, Signed, BladeTris, Pair;
  }

  lemma StarLone(E: Edges, T: seq<Tri>, B: Edges, E3: Edges, E': Edges, T': seq<Tri>, nt: int, np: int, i1: int,
      i2: int, i3: int, nutr: seq<int>)
    requires MeshInv(E, T) && StarState(E, T, B, E3, E', T', nt, np, i1, i2, i3, nutr)
    ensures LonesKept(E, E', np)
  {
    StarEdges(E, T, B, E3, E', T', nt, np, i1, i2, i3, nutr);
    hide StarState;
    var x := T[nt];
    forall q | Lone(E, q) && q != np ensures Lone(E', q) {
      LoneElsewhere(E, T, nt, q);
    }
  }

  /** A vertex without triangles is neither a corner of nt nor an end of its sides. */
  lemma LoneElsewhere(E: Edges, T: seq<Tri>, nt: int, q: int)
    requires MeshInv(E, T) && Active(T, nt) && Lone(E, q)
    ensures var (s1, s2, s3) := Verts(E, T[nt]); q != s1 && q != s2 && q != s3
    ensures forall i | i in E && (i == Abs(T[nt].a1) || i == Abs(T[nt].a2) || i == Abs(T[nt].a3)) ::
      E[i].st1 != q && E[i].st2 != q
  {
    var x := T[nt];
    assert TriOk(E, T, nt) && EdgeOk(E, T, Abs(x.a1)) && EdgeOk(E, T, Abs(x.a2)) && EdgeOk(E, T, Abs(x.a3)) && 0 !in E;
    hide MeshInv;
    SideEnds(E, x);
    hide Cycle, Start;
  }
}
