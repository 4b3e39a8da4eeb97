/** One triangle of `trcf3a_` on edges with room keeps the mesh, also where an edge lists a triangle
    twice. */
module Emit {
  import opened Lists
  import opened EdgeTable
  import opened Mesh
  import opened Contours
  import opened Triangles
  import opened Patch

  /** An edge with the same triangle in both places has it once: the second place is written over
      when a triangle is added. */
  function Neat(e: Edge): (r: Edge) {
    if e.tr1 > 0 && e.tr1 == e.tr2 then e.(tr2 := -1) else e
  }

  lemma NeatAdd(e: Edge, nt: int)
    ensures AddTo(Neat(e), nt) == AddTo(e, nt)
  {
  }

  ghost function NeatAll(E: Edges): (r: Edges) {
    map i | i in E :: Neat(E[i])
  }

  /** The use that the triangle nt makes of edge a, run from ns on. */
  function SideUse(E: Edges, a: int, ns: int, nt: int): (r: Use)
    requires a in E
  {
    Use(a, if ns == E[a].st1 then 1 else -1, nt, -1)
  }

  /** Edge a has room for a triangle that runs it from ns on. */
  ghost predicate SideRoom(E: Edges, T: seq<Tri>, a: int, ns: int, nt: int) {
    a in E && Room(T, Neat(E[a]), SideUse(E, a, ns, nt))
  }

  lemma NeatMark(E: Edges, i: int, j: int, k: int, nt: int)
    requires i in E && j in E && k in E && i != j && j != k && k != i && nt > 0
    requires !Listed(E[i], nt) && !Listed(E[j], nt) && !Listed(E[k], nt)
    ensures NeatAll(MarkAll(E, i, j, k, nt)) == MarkAll(NeatAll(E), i, j, k, nt)
  {
    NeatAdd(E[i], nt);
    NeatAdd(E[j], nt);
    NeatAdd(E[k], nt);
    NeatOnce(E[i], nt);
    NeatOnce(E[j], nt);
    NeatOnce(E[k], nt);
    hide Neat, AddTo;
  }

  lemma NeatOnce(e: Edge, nt: int)
    requires nt > 0 && !Listed(e, nt)
    ensures Neat(AddTo(e, nt)) == AddTo(e, nt)
  {
  }

  /** One edge of the new triangle. */
  lemma SideOk(E: Edges, T: seq<Tri>, E': Edges, T': seq<Tri>, a: int, ns: int, nt: int)
    requires SideRoom(E, T, a, ns, nt) && a > 0 && a in E' && E'[a] == AddTo(Neat(E[a]), nt) && nt > 0
    requires NewUser(T', [nt], nt, Signed(E, a, ns))
    ensures a in NeatAll(E) && UseOk(NeatAll(E), T, E', T', [nt], SideUse(E, a, ns, nt))
  {
    AfterGains(T, Neat(E[a]), SideUse(E, a, ns, nt));
    hide Room, Gains, AddTo, Neat, NewUser;
  }

  /** `trcf3a_` on edges with room keeps the mesh, also where `focftr_` has left an edge listing its
      triangle twice. */
  lemma EmitKeeps(E: Edges, T: seq<Tri>, T': seq<Tri>, a1: int, a2: int, a3: int, v1: int, v2: int, v3: int, nt: int)
    requires MeshInv(NeatAll(E), T) && v1 != v2 && v2 != v3 && v3 != v1
    requires Names(E, a1, v1, v2) && Names(E, a2, v2, v3) && Names(E, a3, v3, v1)
    requires 1 <= nt < |T| && T[nt].a1 == 0
      && T' == T[nt := Tri(Signed(E, a1, v1), Signed(E, a2, v2), Signed(E, a3, v3))]
    requires SideRoom(E, T, a1, v1, nt) && SideRoom(E, T, a2, v2, nt) && SideRoom(E, T, a3, v3, nt)
    ensures MeshInv(NeatAll(MarkAll(E, a1, a2, a3, nt)), T')
  {
    hide MeshInv, NeatAll, SideRoom, Signed, Names, NewUser, UseOk, Cycle, MarkAll, AddTo, Neat, SideUse, Grows, Verts,
      Patched, Listed;
    EmitSides(E, T, a1, a2, a3, v1, v2, v3, nt);
    NeatMark(E, a1, a2, a3, nt);
    NeatRecords(E);
    var F, E' := NeatAll(E), MarkAll(NeatAll(E), a1, a2, a3, nt);
    MarkedAt(F, a1, a2, a3, nt);
    NewTriangleOk(E, T', a1, a2, a3, v1, v2, v3, nt);
    GrowsTwice(E, F, E');
    SignedCycle(E, E', a1, a2, a3, v1, v2, v3);
    SideUses(E, a1, a2, a3, v1, v2, v3, nt);
    SideOk(E, T, E', T', a1, v1, nt);
    SideOk(E, T, E', T', a2, v2, nt);
    SideOk(E, T, E', T', a3, v3, nt);
    var us := [SideUse(E, a1, v1, nt), SideUse(E, a2, v2, nt), SideUse(E, a3, v3, nt)];
    EmitPatched(F, T, E', T', us, nt, a1, a2, a3);
    PatchKeeps(F, T, E', T', us, [nt]);
  }

  lemma NeatRecords(E: Edges)
    ensures NeatAll(E).Keys == E.Keys && Grows(E, NeatAll(E)) && forall i | i in E :: NeatAll(E)[i] == Neat(E[i])
  {
  }

  lemma SideUses(E: Edges, a1: int, a2: int, a3: int, v1: int, v2: int, v3: int, nt: int)
    requires a1 in E && a2 in E && a3 in E
    ensures SideUse(E, a1, v1, nt).edge == a1 && SideUse(E, a2, v2, nt).edge == a2 && SideUse(E, a3, v3, nt).edge == a3
    ensures SideUse(E, a1, v1, nt).t1 == nt && SideUse(E, a2, v2, nt).t1 == nt && SideUse(E, a3, v3, nt).t1 == nt
  {
  }

  /** The three edges are different and do not list the new triangle. */
  lemma EmitSides(E: Edges, T: seq<Tri>, a1: int, a2: int, a3: int, v1: int, v2: int, v3: int, nt: int)
    requires MeshInv(NeatAll(E), T) && v1 != v2 && v2 != v3 && v3 != v1 && 1 <= nt < |T| && T[nt].a1 == 0
    requires Names(E, a1, v1, v2) && Names(E, a2, v2, v3) && Names(E, a3, v3, v1)
    ensures a1 != a2 && a2 != a3 && a3 != a1 && a1 > 0 && a2 > 0 && a3 > 0 && a1 in E && a2 in E && a3 in E
    ensures !Listed(E[a1], nt) && !Listed(E[a2], nt) && !Listed(E[a3], nt)
  {
    assert EdgeOk(NeatAll(E), T, a1) && EdgeOk(NeatAll(E), T, a2) && EdgeOk(NeatAll(E), T, a3);
    hide MeshInv;
  }

  lemma MarkedAt(E: Edges, i: int, j: int, k: int, nt: int)
    requires i in E && j in E && k in E && i != j && j != k && k != i
    ensures MarkAll(E, i, j, k, nt).Keys == E.Keys && Grows(E, MarkAll(E, i, j, k, nt))
    ensures MarkAll(E, i, j, k, nt)[i] == AddTo(E[i], nt) && MarkAll(E, i, j, k, nt)[j] == AddTo(E[j], nt)
      && MarkAll(E, i, j, k, nt)[k] == AddTo(E[k], nt)
    ensures forall m | m in E && m != i && m != j && m != k :: MarkAll(E, i, j, k, nt)[m] == E[m]
  {
  }

  lemma NewTriangleOk(E: Edges, T': seq<Tri>, a1: int, a2: int, a3: int, v1: int, v2: int, v3: int, nt: int)
    requires a1 in E && a2 in E && a3 in E && a1 > 0 && a2 > 0 && a3 > 0 && a1 != a2 && a2 != a3 && a3 != a1
    requires 1 <= nt < |T'| && T'[nt] == Tri(Signed(E, a1, v1), Signed(E, a2, v2), Signed(E, a3, v3))
    ensures NewUser(T', [nt], nt, Signed(E, a1, v1)) && NewUser(T', [nt], nt, Signed(E, a2, v2))
      && NewUser(T', [nt], nt, Signed(E, a3, v3))
    ensures Abs(T'[nt].a1) == a1 && Abs(T'[nt].a2) == a2 && Abs(T'[nt].a3) == a3 && T'[nt].a1 != 0
  {
    assert [nt][0] == nt;
  }

  lemma EmitPatched(F: Edges, T: seq<Tri>, E': Edges, T': seq<Tri>, us: seq<Use>, nt: int, a1: int, a2: int, a3: int)
    requires |us| == 3 && us[0].edge == a1 && us[1].edge == a2 && us[2].edge == a3 && a1 != a2 && a2 != a3 && a3 != a1
    requires us[0].t1 == nt && us[1].t1 == nt && us[2].t1 == nt
    requires UseOk(F, T, E', T', [nt], us[0]) && UseOk(F, T, E', T', [nt], us[1]) && UseOk(F, T, E', T', [nt], us[2])
    requires E'.Keys == F.Keys && forall m | m in F && m != a1 && m != a2 && m != a3 :: E'[m] == F[m]
    requires 1 <= nt < |T| == |T'| && T[nt].a1 == 0 && T' == T[nt := T'[nt]] && T'[nt].a1 != 0 && Cycle(E', T'[nt])
    requires Abs(T'[nt].a1) == a1 && Abs(T'[nt].a2) == a2 && Abs(T'[nt].a3) == a3
    ensures Patched(F, T, E', T', us, [nt])
  {
    hide UseOk, Cycle;
    assert ListedIn(us, a1, nt) && ListedIn(us, a2, nt) && ListedIn(us, a3, nt) by {
      assert us[0].edge == a1 && us[1].edge == a2 && us[2].edge == a3;
    }
    forall i | i in F && (forall k | 0 <= k < |us| :: us[k].edge != i) ensures E'[i] == F[i] {
      assert us[0].edge != i && us[1].edge != i && us[2].edge != i;
    }
  }
}
