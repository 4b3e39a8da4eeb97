/** Adding triangles to a mesh: which edges may take them, and that the mesh stays one. */
module Patch {
  import opened Lists
  import opened EdgeTable
  import opened Mesh
  import opened Triangles

  /** Edge `edge` takes triangle t1, which runs along it the way of the sign way, and if t2 > 0 also
      triangle t2, which runs the other way. */
  datatype Use = Use(edge: int, way: int, t1: int, t2: int)

  /** The triangles e lists, if any, do not use the signed edge a. */
  ghost predicate Unused(T: seq<Tri>, e: Edge, a: int) {
    && (0 < e.tr1 < |T| ==> !Uses(T[e.tr1], a)) && (0 < e.tr2 < |T| ==> !Uses(T[e.tr2], a))
  }

  /** Edge e has room for what u adds to it. */
  ghost predicate Room(T: seq<Tri>, e: Edge, u: Use) {
    if u.t2 > 0 then e.tr1 <= 0 && e.tr2 <= 0
    else (e.tr1 <= 0 || e.tr2 <= 0) && Unused(T, e, if u.way > 0 then u.edge else -u.edge)
  }

  function After(e: Edge, u: Use): (r: Edge) {
    if u.t2 > 0 then AddTo(AddTo(e, u.t1), u.t2) else AddTo(e, u.t1)
  }

  /** e' has the ends of e and lists, in whatever order, the triangles of e and those of u. */
  ghost predicate Gains(e: Edge, e': Edge, u: Use) {
    && e'.st1 == e.st1 && e'.st2 == e.st2
    && (if u.t2 > 0 then (e'.tr1 == u.t1 && e'.tr2 == u.t2) || (e'.tr1 == u.t2 && e'.tr2 == u.t1)
        else if e.tr1 > 0 then (e'.tr1 == e.tr1 && e'.tr2 == u.t1) || (e'.tr1 == u.t1 && e'.tr2 == e.tr1)
        else if e.tr2 > 0 then (e'.tr1 == e.tr2 && e'.tr2 == u.t1) || (e'.tr1 == u.t1 && e'.tr2 == e.tr2)
        else (e'.tr1 == u.t1 && e'.tr2 <= 0) || (e'.tr2 == u.t1 && e'.tr1 <= 0))
  }

  lemma AfterGains(T: seq<Tri>, e: Edge, u: Use)
    requires Room(T, e, u) && u.t1 > 0
    ensures Gains(e, After(e, u), u)
  {
  }

  function Along(u: Use): (r: int) {
    if u.way > 0 then u.edge else -u.edge
  }

  /** One of the uses lists triangle t on edge i. */
  ghost predicate ListedIn(us: seq<Use>, i: int, t: int) {
    exists k :: 0 <= k < |us| && us[k].edge == i && (us[k].t1 == t || (us[k].t2 > 0 && us[k].t2 == t))
  }

  /** Triangle t is new and, of the two ways along edge i, uses exactly that of the signed edge a. */
  ghost predicate NewUser(T': seq<Tri>, nts: seq<int>, t: int, a: int) {
    t in nts && 0 < t < |T'| && Uses(T'[t], a) && !Uses(T'[t], -a)
  }

  ghost predicate UseOk(E: Edges, T: seq<Tri>, E': Edges, T': seq<Tri>, nts: seq<int>, u: Use) {
    && u.edge in E && u.edge in E' && u.edge > 0 && (u.way == 1 || u.way == -1) && Room(T, E[u.edge], u)
    && Gains(E[u.edge], E'[u.edge], u)
    && NewUser(T', nts, u.t1, Along(u)) && (u.t2 > 0 ==> u.t2 != u.t1 && NewUser(T', nts, u.t2, -Along(u)))
  }

  ghost predicate NewOk(T: seq<Tri>, E': Edges, T': seq<Tri>, us: seq<Use>, t: int) {
    && 1 <= t < |T| == |T'| && T[t].a1 == 0 && T'[t].a1 != 0 && Cycle(E', T'[t])
    && ListedIn(us, Abs(T'[t].a1), t) && ListedIn(us, Abs(T'[t].a2), t) && ListedIn(us, Abs(T'[t].a3), t)
  }

  /** (E', T') is (E, T) with the new triangles nts, listed by the edges of us. */
  ghost predicate Patched(E: Edges, T: seq<Tri>, E': Edges, T': seq<Tri>, us: seq<Use>, nts: seq<int>) {
    && E'.Keys == E.Keys && |T'| == |T|
    && (forall j, k | 0 <= j < k < |us| :: us[j].edge != us[k].edge)
    && (forall k {:trigger us[k]} | 0 <= k < |us| :: UseOk(E, T, E', T', nts, us[k]))
    && (forall i | i in E && (forall k | 0 <= k < |us| :: us[k].edge != i) :: E'[i] == E[i])
    && (forall t | t in nts :: NewOk(T, E', T', us, t))
    && (forall t | 0 <= t < |T| && t !in nts :: T'[t] == T[t])
  }

  /** The mesh stays a mesh. */
  lemma PatchKeeps(E: Edges, T: seq<Tri>, E': Edges, T': seq<Tri>, us: seq<Use>, nts: seq<int>)
    requires MeshInv(E, T) && Patched(E, T, E', T', us, nts)
    ensures MeshInv(E', T')
  {
    forall i | i in E' ensures i > 0 && EdgeOk(E', T', i) {
      assert EdgeOk(E, T, i);
      if k :| 0 <= k < |us| && us[k].edge == i {
        PatchEdge(E, T, E', T', us, nts, k);
      } else {
        PatchOther(E, T, E', T', us, nts, i);
      }
    }
    forall t | Active(T', t) ensures TriOk(E', T', t) {
      if t in nts {
        PatchNew(E, T, E', T', us, nts, t);
      } else {
        PatchOld(E, T, E', T', us, nts, t);
      }
    }
  }

  lemma PatchEdge(E: Edges, T: seq<Tri>, E': Edges, T': seq<Tri>, us: seq<Use>, nts: seq<int>, k: int)
    requires Patched(E, T, E', T', us, nts) && 0 <= k < |us| && us[k].edge in E && EdgeOk(E, T, us[k].edge)
    ensures us[k].edge in E' && EdgeOk(E', T', us[k].edge)
  {
    var u := us[k];
    assert UseOk(E, T, E', T', nts, u);
    assert NewOk(T, E', T', us, u.t1);
    assert u.t2 > 0 ==> NewOk(T, E', T', us, u.t2);
    var e := E[u.edge];
    assert e.tr1 > 0 ==> e.tr1 !in nts by {
      assert e.tr1 in nts ==> NewOk(T, E', T', us, e.tr1);
    }
    assert e.tr2 > 0 ==> e.tr2 !in nts by {
      assert e.tr2 in nts ==> NewOk(T, E', T', us, e.tr2);
    }
    hide Cycle, NewOk, Uses, Gains, Room;
    GainEdge(T, T', e, E'[u.edge], u);
  }

  /** EdgeOk for the record e of edge i. */
  predicate RecordOk(T: seq<Tri>, i: int, e: Edge) {
    && 0 < e.st1 < e.st2
    && (e.tr1 > 0 ==> Active(T, e.tr1) && (Uses(T[e.tr1], i) || Uses(T[e.tr1], -i)))
    && (e.tr2 > 0 ==> Active(T, e.tr2) && (Uses(T[e.tr2], i) || Uses(T[e.tr2], -i)))
    && (e.tr1 > 0 && e.tr2 > 0 ==> !(Uses(T[e.tr1], i) && Uses(T[e.tr2], i))
                                   && !(Uses(T[e.tr1], -i) && Uses(T[e.tr2], -i)))
  }

  lemma GainEdge(T: seq<Tri>, T': seq<Tri>, e: Edge, e': Edge, u: Use)
    requires RecordOk(T, u.edge, e) && Room(T, e, u) && Gains(e, e', u) && (u.way == 1 || u.way == -1) && |T'| == |T|
      && u.t1 > 0
    requires e.tr1 > 0 ==> T'[e.tr1] == T[e.tr1]
    requires e.tr2 > 0 ==> T'[e.tr2] == T[e.tr2]
    requires Active(T', u.t1) && Uses(T'[u.t1], Along(u)) && !Uses(T'[u.t1], -Along(u))
    requires u.t2 > 0 ==> Active(T', u.t2) && Uses(T'[u.t2], -Along(u)) && !Uses(T'[u.t2], Along(u))
    ensures RecordOk(T', u.edge, e')
  {
    hide Uses;
  }

  lemma PatchOther(E: Edges, T: seq<Tri>, E': Edges, T': seq<Tri>, us: seq<Use>, nts: seq<int>, i: int)
    requires Patched(E, T, E', T', us, nts) && i in E && EdgeOk(E, T, i) && forall k | 0 <= k < |us| :: us[k].edge != i
    ensures i in E' && EdgeOk(E', T', i)
  {
    var e := E[i];
    assert e.tr1 > 0 ==> e.tr1 !in nts by {
      assert e.tr1 in nts ==> NewOk(T, E', T', us, e.tr1);
    }
    assert e.tr2 > 0 ==> e.tr2 !in nts by {
      assert e.tr2 in nts ==> NewOk(T, E', T', us, e.tr2);
    }
    hide Cycle, NewOk;
  }

  lemma ListedNow(E: Edges, T: seq<Tri>, E': Edges, T': seq<Tri>, us: seq<Use>, nts: seq<int>, i: int, t: int)
    requires Patched(E, T, E', T', us, nts) && ListedIn(us, i, t)
    ensures i in E' && Listed(E'[i], t)
  {
    var k :| 0 <= k < |us| && us[k].edge == i && (us[k].t1 == t || (us[k].t2 > 0 && us[k].t2 == t));
    assert UseOk(E, T, E', T', nts, us[k]);
    hide Patched;
  }

  lemma PatchNew(E: Edges, T: seq<Tri>, E': Edges, T': seq<Tri>, us: seq<Use>, nts: seq<int>, t: int)
    requires Patched(E, T, E', T', us, nts) && t in nts
    ensures 0 <= t < |T'| && TriOk(E', T', t)
  {
    assert NewOk(T, E', T', us, t);
    hide Patched, ListedIn;
    ListedNow(E, T, E', T', us, nts, Abs(T'[t].a1), t);
    ListedNow(E, T, E', T', us, nts, Abs(T'[t].a2), t);
    ListedNow(E, T, E', T', us, nts, Abs(T'[t].a3), t);
  }

  /** Every edge keeps its ends and the triangles it lists. */
  lemma PatchGrows(E: Edges, T: seq<Tri>, E': Edges, T': seq<Tri>, us: seq<Use>, nts: seq<int>, i: int)
    requires Patched(E, T, E', T', us, nts) && i in E
    ensures i in E' && E'[i].st1 == E[i].st1 && E'[i].st2 == E[i].st2
    ensures (E[i].tr1 > 0 ==> Listed(E'[i], E[i].tr1)) && (E[i].tr2 > 0 ==> Listed(E'[i], E[i].tr2))
  {
    if k :| 0 <= k < |us| && us[k].edge == i {
      assert UseOk(E, T, E', T', nts, us[k]);
    }
  }

  lemma PatchOld(E: Edges, T: seq<Tri>, E': Edges, T': seq<Tri>, us: seq<Use>, nts: seq<int>, t: int)
    requires MeshInv(E, T) && Patched(E, T, E', T', us, nts) && t !in nts && Active(T', t)
    ensures TriOk(E', T', t)
  {
    OldTriangle(E, T, E', T', us, nts, t);
    hide Patched, MeshInv;
    PatchGrows(E, T, E', T', us, nts, Abs(T[t].a1));
    PatchGrows(E, T, E', T', us, nts, Abs(T[t].a2));
    PatchGrows(E, T, E', T', us, nts, Abs(T[t].a3));
    GrownSide(E, E', T[t].a1, t);
    GrownSide(E, E', T[t].a2, t);
    GrownSide(E, E', T[t].a3, t);
    hide Start, End, Listed, Abs;
  }

  lemma OldTriangle(E: Edges, T: seq<Tri>, E': Edges, T': seq<Tri>, us: seq<Use>, nts: seq<int>, t: int)
    requires MeshInv(E, T) && Patched(E, T, E', T', us, nts) && t !in nts && Active(T', t)
    ensures t < |T| && T'[t] == T[t] && TriOk(E, T, t)
  {
    hide UseOk, NewOk;
  }

  lemma GrownSide(E: Edges, E': Edges, a: int, t: int)
    requires Abs(a) in E && Abs(a) in E' && E'[Abs(a)].st1 == E[Abs(a)].st1 && E'[Abs(a)].st2 == E[Abs(a)].st2
    requires t > 0 && Listed(E[Abs(a)], t) && (E[Abs(a)].tr1 > 0 ==> Listed(E'[Abs(a)], E[Abs(a)].tr1))
      && (E[Abs(a)].tr2 > 0 ==> Listed(E'[Abs(a)], E[Abs(a)].tr2))
    ensures Start(E', a) == Start(E, a) && End(E', a) == End(E, a) && Listed(E'[Abs(a)], t)
  {
  }

  /** An edge that lists no triangle disturbs nothing. */
  lemma BareEdge(E: Edges, T: seq<Tri>, i: int, e: Edge)
    requires MeshInv(E, T) && i !in E && i > 0 && 0 < e.st1 < e.st2 && e.tr1 <= 0 && e.tr2 <= 0
    ensures MeshInv(E[i := e], T)
  {
    var E' := E[i := e];
    forall k | k in E' ensures k > 0 && EdgeOk(E', T, k) {
      assert k != i ==> EdgeOk(E, T, k);
    }
    forall t | Active(T, t) ensures TriOk(E', T, t) {
      assert TriOk(E, T, t);
    }
  }

  predicate Listing(e: Edge) {
    e.tr1 > 0 || e.tr2 > 0
  }

  /** From E to E' edges keep their line and some triangle if they had one; a new edge has no line and
      has a triangle. */
  ghost predicate LinesKept(E: Edges, E': Edges) {
    && (forall i | i in E :: i in E' && E'[i].line == E[i].line && (Listing(E[i]) ==> Listing(E'[i])))
    && (forall i | i in E' && i !in E :: E'[i].line == 0 && Listing(E'[i]))
  }

  lemma LinesNone(E: Edges)
    ensures LinesKept(E, E)
  {
  }

  lemma LinesTwice(E: Edges, E1: Edges, E2: Edges)
    requires LinesKept(E, E1) && LinesKept(E1, E2)
    ensures LinesKept(E, E2)
  {
  }

  /** One edge changed or new. */
  lemma LinesOne(E: Edges, E': Edges, i: int)
    requires i in E' && E' == E[i := E'[i]] && Listing(E'[i])
    requires E'[i].line == if i in E then E[i].line else 0
    ensures LinesKept(E, E')
  {
  }

  /** Triangle t no longer listed. */
  function Drop(e: Edge, t: int): (r: Edge) {
    if e.tr1 == t then e.(tr1 := 0) else if e.tr2 == t then e.(tr2 := 0) else e
  }

  function DropAll(E: Edges, x: Tri, t: int): (r: Edges)
    requires Abs(x.a1) in E && Abs(x.a2) in E && Abs(x.a3) in E
  {
    E[Abs(x.a1) := Drop(E[Abs(x.a1)], t)][Abs(x.a2) := Drop(E[Abs(x.a2)], t)][Abs(x.a3) := Drop(E[Abs(x.a3)], t)]
  }

  lemma DropAt(E: Edges, x: Tri, t: int, i: int)
    requires Abs(x.a1) in E && Abs(x.a2) in E && Abs(x.a3) in E && i in E
    ensures DropAll(E, x, t).Keys == E.Keys
    ensures DropAll(E, x, t)[i] == if i == Abs(x.a1) || i == Abs(x.a2) || i == Abs(x.a3) then Drop(E[i], t) else E[i]
  {
  }

  /** A triangle taken out of the mesh. */
  lemma DropKeeps(E: Edges, T: seq<Tri>, t: int, gone: Tri)
    requires MeshInv(E, T) && Active(T, t) && gone.a1 == 0
    ensures Abs(T[t].a1) in E && Abs(T[t].a2) in E && Abs(T[t].a3) in E
    ensures MeshInv(DropAll(E, T[t], t), T[t := gone])
  {
    var x := T[t];
    assert TriOk(E, T, t);
    var E', T' := DropAll(E, x, t), T[t := gone];
    DropAt(E, x, t, Abs(x.a1));
    hide DropAll, TriOk;
    forall i | i in E' ensures i > 0 && EdgeOk(E', T', i) {
      assert EdgeOk(E, T, i);
      DropAt(E, x, t, i);
      DropEdge(T, t, gone, i, E[i], E'[i]);
    }
    forall u | Active(T', u) ensures TriOk(E', T', u) {
      assert TriOk(E, T, u);
      SidesIn(E, T, u);
      DropAt(E, x, t, Abs(T[u].a1));
      DropAt(E, x, t, Abs(T[u].a2));
      DropAt(E, x, t, Abs(T[u].a3));
      DropOther(E, T, E', T', u);
    }
  }

  lemma DropEdge(T: seq<Tri>, t: int, gone: Tri, i: int, e: Edge, e': Edge)
    requires RecordOk(T, i, e) && Active(T, t) && gone.a1 == 0 && i > 0
    requires e' == if i == Abs(T[t].a1) || i == Abs(T[t].a2) || i == Abs(T[t].a3) then Drop(e, t) else e
    ensures RecordOk(T[t := gone], i, e')
  {
  }

  lemma SidesIn(E: Edges, T: seq<Tri>, u: int)
    requires 0 <= u < |T| && TriOk(E, T, u)
    ensures Abs(T[u].a1) in E && Abs(T[u].a2) in E && Abs(T[u].a3) in E
  {
  }

  predicate Loses(e: Edge, e': Edge, u: int) {
    e'.st1 == e.st1 && e'.st2 == e.st2 && (Listed(e, u) ==> Listed(e', u))
  }

  lemma DropOther(E: Edges, T: seq<Tri>, E': Edges, T': seq<Tri>, u: int)
    requires 0 <= u < |T| && u < |T'| && T'[u] == T[u] && TriOk(E, T, u) && E'.Keys == E.Keys
    requires Abs(T[u].a1) in E' && Loses(E[Abs(T[u].a1)], E'[Abs(T[u].a1)], u)
    requires Abs(T[u].a2) in E' && Loses(E[Abs(T[u].a2)], E'[Abs(T[u].a2)], u)
    requires Abs(T[u].a3) in E' && Loses(E[Abs(T[u].a3)], E'[Abs(T[u].a3)], u)
    ensures TriOk(E', T', u)
  {
  }
}
