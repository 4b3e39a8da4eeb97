/** The end of `tesuex_`: the triangles marked as outside are set free, those inside are numbered,
    and the edges forget the triangles outside. */
module Tesuex {
  import opened Lists
  import opened Ranks
  import opened EdgeTable
  import opened Mesh
  import opened Exchange
  import opened Triangles
  import opened Etoile

  /** The triangles up to n that are marked outside are gone; the others are as before. */
  ghost predicate Cleaned(T: seq<Tri>, T': seq<Tri>, m: seq<int>, n: int) {
    && |T'| == |T| == |m|
    && forall t | 0 <= t < |T| :: if Active(T, t) && !(t <= n && m[t] <= 0) then T'[t] == T[t]
                                  else T'[t].a1 == 0 || !(1 <= t)
  }

  /** Vertex s is a corner of a triangle up to n marked inside. */
  ghost predicate Used(E: Edges, T: seq<Tri>, m: seq<int>, n: int, s: int) {
    exists t :: t <= n && Inside(T, m, t) && IsCorner(E, T[t], s)
  }

  predicate Inside(T: seq<Tri>, m: seq<int>, t: int) {
    Marked(m, t) && t < |T|
  }

  /** Edge i is a side of a triangle up to n marked inside, with the end s. */
  ghost predicate Bears(E: Edges, T: seq<Tri>, m: seq<int>, n: int, i: int, s: int) {
    Touches(E, i, s) && exists t :: t <= n && Inside(T, m, t) && Has(T, t, i)
  }

  /** A vertex inside names a side inside and is no longer marked outside; the others are unchanged. */
  ghost predicate VertexState(E: Edges, T: seq<Tri>, m: seq<int>, n: int, s: int, a0: int, a: int, l0: int, l: int) {
    if Used(E, T, m, n, s) then Bears(E, T, m, n, a, s) && l == (if l0 < 0 then 0 else l0)
    else a == a0 && l == l0
  }

  /** The ends of edge noar name it and lose the mark. */
  method MarkSide(table: Table, nslign: array<int>, noar: int)
    requires table.Valid() && noar in table.Live() && Numbered(table.Live(), noar, table.mxsomm)
    requires nslign.Length == table.mxsomm + 1 && nslign != table.noarst
    modifies table.noarst, nslign
    ensures forall s {:trigger table.noarst[s]} | 0 <= s <= table.mxsomm ::
              table.noarst[s] == if Touches(table.Live(), noar, s) then noar else old(table.noarst[s])
    ensures forall s {:trigger nslign[s]} | 0 <= s <= table.mxsomm ::
              nslign[s] == if Touches(table.Live(), noar, s) && old(nslign[s]) < 0 then 0 else old(nslign[s])
  {
    hide TableInv, LiveEdges;
    LiveCells(table, noar);
    var ns1, ns2 := table.nosoar[noar].st1, table.nosoar[noar].st2;
    table.noarst[ns1] := noar;
    table.noarst[ns2] := noar;
    if nslign[ns1] < 0 {
      nslign[ns1] := 0;
    }
    if nslign[ns2] < 0 {
      nslign[ns2] := 0;
    }
  }

  /** The ends of edge i are vertices. */
  ghost predicate Numbered(E: Edges, i: int, mx: int) {
    i in E && 1 <= E[i].st1 <= mx && 1 <= E[i].st2 <= mx
  }

  lemma SidesOfTriangle(E: Edges, T: seq<Tri>, t: int, mx: int)
    requires MeshInv(E, T) && Active(T, t) && Bounded(E, mx)
    ensures Numbered(E, Abs(T[t].a1), mx) && Numbered(E, Abs(T[t].a2), mx) && Numbered(E, Abs(T[t].a3), mx)
    ensures forall s :: IsCorner(E, T[t], s) <==> Touches(E, Abs(T[t].a1), s) || Touches(E, Abs(T[t].a2), s)
                                                  || Touches(E, Abs(T[t].a3), s)
  {
    SidesDistinct(E, T, t);
    var x := T[t];
    TriCycle(E, T, t);
    NonZero(E, T, t);
    SideNumbered(E, T, Abs(x.a1), mx);
    SideNumbered(E, T, Abs(x.a2), mx);
    SideNumbered(E, T, Abs(x.a3), mx);
    hide MeshInv, Start, End, Numbered, Touches;
    forall s ensures IsCorner(E, T[t], s) <==>
      Touches(E, Abs(x.a1), s) || Touches(E, Abs(x.a2), s) || Touches(E, Abs(x.a3), s) {
      TouchWay(E, x.a1, s);
      TouchWay(E, x.a2, s);
      TouchWay(E, x.a3, s);
    }
  }

  lemma TriCycle(E: Edges, T: seq<Tri>, t: int)
    requires MeshInv(E, T) && Active(T, t)
    ensures Cycle(E, T[t])
  {
    assert TriOk(E, T, t);
  }

  lemma SideNumbered(E: Edges, T: seq<Tri>, i: int, mx: int)
    requires MeshInv(E, T) && i in E && Bounded(E, mx)
    ensures Numbered(E, i, mx)
  {
    assert EdgeOk(E, T, i);
  }

  lemma TouchWay(E: Edges, a: int, s: int)
    requires Abs(a) in E && a != 0
    ensures Touches(E, Abs(a), s) <==> Start(E, a) == s || End(E, a) == s
  {
  }

  /** The arrays after triangle number t, marked inside. */
  ghost predicate Stepped(E: Edges, T: seq<Tri>, t: int, st: seq<int>, st': seq<int>, li: seq<int>, li': seq<int>) {
    && |st| == |st'| == |li| == |li'| && 0 <= t < |T|
    && forall s {:trigger st'[s]} | 0 <= s < |st| ::
         if IsCorner(E, T[t], s) then Touches(E, st'[s], s) && Has(T, t, st'[s])
                                      && li'[s] == (if li[s] < 0 then 0 else li[s])
         else st'[s] == st[s] && li'[s] == li[s]
  }

  /** The marking of the vertices of triangle nt. */
  method MarkCorners(table: Table, noartr: array<Tri>, nslign: array<int>, nt: int, ghost T: seq<Tri>)
    requires table.Valid() && MeshInv(table.Live(), T) && Bounded(table.Live(), table.mxsomm)
    requires Active(T, nt) && nt < noartr.Length && noartr[nt] == T[nt]
    requires nslign.Length == table.mxsomm + 1 && nslign != table.noarst
    modifies table.noarst, nslign
    ensures Stepped(table.Live(), T, nt, old(table.noarst[..]), table.noarst[..], old(nslign[..]), nslign[..])
  {
    hide TableInv, LiveEdges, MeshInv, Bounded, IsCorner;
    ghost var E := table.Live();
    SidesOfTriangle(E, T, nt, table.mxsomm);
    hide Numbered;
    ghost var st0, li0 := table.noarst[..], nslign[..];
    MarkSide(table, nslign, Abs(noartr[nt].a1));
    ghost var st1, li1 := table.noarst[..], nslign[..];
    MarkSide(table, nslign, Abs(noartr[nt].a2));
    ghost var st2, li2 := table.noarst[..], nslign[..];
    MarkSide(table, nslign, Abs(noartr[nt].a3));
    hide Touches;
    forall s | 0 <= s < |st0| ensures
        if IsCorner(E, T[nt], s) then Touches(E, table.noarst[s], s) && Has(T, nt, table.noarst[s])
                                      && nslign[s] == (if li0[s] < 0 then 0 else li0[s])
        else table.noarst[s] == st0[s] && nslign[s] == li0[s] {
      assert st1[s] == if Touches(E, Abs(T[nt].a1), s) then Abs(T[nt].a1) else st0[s];
      assert st2[s] == if Touches(E, Abs(T[nt].a2), s) then Abs(T[nt].a2) else st1[s];
      assert li1[s] == if Touches(E, Abs(T[nt].a1), s) && li0[s] < 0 then 0 else li0[s];
      assert li2[s] == if Touches(E, Abs(T[nt].a2), s) && li1[s] < 0 then 0 else li1[s];
    }
  }

  ghost predicate States(E: Edges, T: seq<Tri>, m: seq<int>, n: int, st: seq<int>, st': seq<int>, li: seq<int>,
      li': seq<int>) {
    && |st| == |st'| == |li| == |li'|
    && forall s {:trigger st'[s]} | 0 <= s < |st| :: VertexState(E, T, m, n, s, st[s], st'[s], li[s], li'[s])
  }

  lemma StatesNext(E: Edges, T: seq<Tri>, m: seq<int>, n: int, st: seq<int>, st1: seq<int>, st2: seq<int>, li: seq<int>,
      li1: seq<int>, li2: seq<int>)
    requires 0 <= n && n + 1 < |T| == |m| && States(E, T, m, n, st, st1, li, li1)
    requires if m[n + 1] > 0 then Stepped(E, T, n + 1, st1, st2, li1, li2) else st2 == st1 && li2 == li1
    ensures States(E, T, m, n + 1, st, st2, li, li2)
  {
    hide IsCorner, Touches, Has;
    forall s | 0 <= s < |st| ensures VertexState(E, T, m, n + 1, s, st[s], st2[s], li[s], li2[s]) {
      assert VertexState(E, T, m, n, s, st[s], st1[s], li[s], li1[s]);
      assert st2[s] == st2[s] && st1[s] == st1[s];
      UsedNext(E, T, m, n, s);
      if Used(E, T, m, n, s) {
        BearsNext(E, T, m, n, st1[s], s);
      }
      if m[n + 1] > 0 && IsCorner(E, T[n + 1], s) {
        assert Inside(T, m, n + 1) && Has(T, n + 1, st2[s]);
        assert Bears(E, T, m, n + 1, st2[s], s);
      }
    }
  }

  lemma UsedNext(E: Edges, T: seq<Tri>, m: seq<int>, n: int, s: int)
    requires 0 <= n && n + 1 < |T| == |m|
    ensures Used(E, T, m, n + 1, s) <==> Used(E, T, m, n, s) || (m[n + 1] > 0 && IsCorner(E, T[n + 1], s))
  {
    hide IsCorner;
    if m[n + 1] > 0 && IsCorner(E, T[n + 1], s) {
      assert Inside(T, m, n + 1);
    }
    if Used(E, T, m, n, s) {
      var t :| t <= n && Inside(T, m, t) && IsCorner(E, T[t], s);
      assert t <= n + 1;
    }
  }

  lemma BearsNext(E: Edges, T: seq<Tri>, m: seq<int>, n: int, i: int, s: int)
    requires Bears(E, T, m, n, i, s)
    ensures Bears(E, T, m, n + 1, i, s)
  {
    var t :| t <= n && Inside(T, m, t) && Has(T, t, i);
    assert t <= n + 1;
  }

  /** The loop over the triangles. */
  method Sweep(table: Table, store: Store, letrsu: array<int>, nslign: array<int>) returns (nbtria: nat)
    requires table.Valid() && store.Valid() && MeshInv(table.Live(), store.noartr[..])
      && Bounded(table.Live(), table.mxsomm)
    requires letrsu.Length == store.noartr.Length && forall t | Marked(letrsu[..], t) :: Active(store.noartr[..], t)
    requires nslign.Length == table.mxsomm + 1 && nslign != table.noarst && letrsu != nslign && letrsu != table.noarst
    modifies letrsu, nslign, table.noarst, store`n1artr, store`vacant, store.noartr
    ensures table.Valid() && store.Valid()
    ensures Cleaned(old(store.noartr[..]), store.noartr[..], old(letrsu[..]), letrsu.Length - 1)
    ensures letrsu[..] == Renumbered(old(letrsu[..]), letrsu.Length - 1)
      && nbtria == Rank(old(letrsu[..]), letrsu.Length - 1)
    ensures States(table.Live(), old(store.noartr[..]), old(letrsu[..]), letrsu.Length - 1, old(table.noarst[..]),
      table.noarst[..], old(nslign[..]), nslign[..])
  {
    hide TableInv, LiveEdges, Vacancy, MeshInv, Bounded, States, Stepped, Cleaned, Renumbered, Rank;
    ghost var E, T, m, st, li := table.Live(), store.noartr[..], letrsu[..], table.noarst[..], nslign[..];
    nbtria := 0;
    StoreSize(store);
    assert Rank(m, 0) == 0 by {
      RankNext(m, 0);
    }
    SweepStart(E, T, m, st, li);
    var nt := 1;
    while nt < letrsu.Length
      invariant 1 <= nt <= letrsu.Length && table.Valid() && store.Valid()
      invariant table.Live() == E
      invariant Cleaned(T, store.noartr[..], m, nt - 1)
      invariant letrsu[..] == Renumbered(m, nt - 1) && nbtria == Rank(m, nt - 1)
      invariant States(E, T, m, nt - 1, st, table.noarst[..], li, nslign[..])
    {
      ghost var T1, st1, li1 := store.noartr[..], table.noarst[..], nslign[..];
      RenumberedAt(m, nt - 1, nt);
      RankNext(m, nt);
      CleanedAt(T, T1, m, nt - 1, nt);
      if letrsu[nt] <= 0 {
        if store.noartr[nt].a1 != 0 {
          store.Give(nt);
        }
      } else {
        nbtria := nbtria + 1;
        letrsu[nt] := nbtria;
        MarkCorners(table, store.noartr, nslign, nt, T);
      }
      CleanedNext(T, T1, store.noartr[..], m, nt - 1);
      StatesNext(E, T, m, nt - 1, st, st1, table.noarst[..], li, li1, nslign[..]);
      RenumberedNext(m, letrsu[..], nt - 1);
      nt := nt + 1;
    }
  }

  lemma RankNext(m: seq<int>, k: nat)
    ensures Rank(m, k) == if k == 0 then 0 else Rank(m, k - 1) + if k < |m| && m[k] > 0 then 1 else 0
  {
  }

  lemma StoreSize(store: Store)
    requires store.Valid()
    ensures store.noartr.Length > 0
  {
  }

  lemma SweepStart(E: Edges, T: seq<Tri>, m: seq<int>, st: seq<int>, li: seq<int>)
    requires |T| == |m| && |st| == |li| && T != []
    ensures Cleaned(T, T, m, 0) && States(E, T, m, 0, st, st, li, li) && Renumbered(m, 0) == m
  {
  }

  lemma RenumberedAt(m: seq<int>, n: nat, t: nat)
    requires n < t < |m|
    ensures |Renumbered(m, n)| == |m| && Renumbered(m, n)[t] == m[t]
    ensures m[t] > 0 ==> Marked(m, t)
  {
  }

  lemma RenumberedNext(m: seq<int>, m': seq<int>, n: nat)
    requires n + 1 < |m| && m' == Renumbered(m, n)[n + 1 := if m[n + 1] > 0 then Rank(m, n + 1) else m[n + 1]]
    ensures m' == Renumbered(m, n + 1)
  {
  }

  lemma CleanedAt(T: seq<Tri>, T': seq<Tri>, m: seq<int>, n: int, t: int)
    requires Cleaned(T, T', m, n) && n < t < |T| && t >= 1
    ensures |T'| == |T| == |m| && (Active(T, t) ==> T'[t] == T[t]) && (T'[t].a1 == 0 <==> !Active(T, t))
  {
  }

  lemma CleanedNext(T: seq<Tri>, T1: seq<Tri>, T2: seq<Tri>, m: seq<int>, n: int)
    requires Cleaned(T, T1, m, n) && 0 <= n && n + 1 < |T| && |T2| == |T1|
    requires forall t | 0 <= t < |T| && t != n + 1 :: T2[t] == T1[t]
    requires if m[n + 1] <= 0 then T2[n + 1].a1 == 0 else T2[n + 1] == T1[n + 1]
    ensures Cleaned(T, T2, m, n + 1)
  {
  }

  // ---------------------------------------------------------------- the edges

  /** An edge without the triangles outside; what is left moves to the first place. */
  function Pruned(e: Edge, m: seq<int>): (r: Edge) {
    var t2 := if 0 < e.tr2 < |m| && m[e.tr2] <= 0 then 0 else e.tr2;
    if 0 < e.tr1 < |m| && m[e.tr1] <= 0 then
      if t2 > 0 then e.(tr1 := t2, tr2 := 0) else e.(tr1 := 0, tr2 := t2)
    else e.(tr2 := t2)
  }

  ghost function PrunedTo(E: Edges, m: seq<int>, n: int): (r: Edges) {
    map i | i in E :: if i <= n then Pruned(E[i], m) else E[i]
  }

  /** The loop over the edges. */
  method PruneEdges(table: Table, letrsu: array<int>, ghost T: seq<Tri>)
    requires table.Valid() && MeshInv(table.Live(), T) && letrsu.Length == |T| > 0 && letrsu != table.noarst
    modifies table.nosoar
    ensures table.Valid() && table.Live() == PrunedTo(old(table.Live()), letrsu[..], table.mxsoar)
  {
    hide TableInv, MeshInv, Pruned, EdgeOk, LiveEdges;
    ghost var E, m := table.Live(), letrsu[..];
    var noar := 1;
    assert PrunedTo(E, m, 0) == E by {
      Positive(E, T);
    }
    LiveSize(table);
    while noar <= table.mxsoar
      invariant 1 <= noar <= table.mxsoar + 1 && table.Valid() && table.Live() == PrunedTo(E, m, noar - 1)
    {
      LiveWhen(table, noar);
      if table.nosoar[noar].st1 > 0 {
        ghost var e := E[noar];
        ListsIn(E, T, noar);
        LiveCells(table, noar);
        PruneOne(table, letrsu, noar);
      }
      noar := noar + 1;
    }
  }

  lemma Positive(E: Edges, T: seq<Tri>)
    requires MeshInv(E, T)
    ensures forall i | i in E :: i > 0
  {
  }

  lemma LiveSize(table: Table)
    requires table.Valid()
    ensures table.nosoar.Length == table.mxsoar + 1
  {
  }

  lemma LiveWhen(table: Table, i: int)
    requires table.Valid() && 1 <= i <= table.mxsoar
    ensures i < table.nosoar.Length && (i in table.Live() <==> table.nosoar[i].st1 > 0)
  {
  }

  lemma ListsIn(E: Edges, T: seq<Tri>, i: int)
    requires MeshInv(E, T) && i in E && T != []
    ensures E[i].tr1 < |T| && E[i].tr2 < |T|
  {
    EdgeSound(E, T, i);
  }

  /** The body of the loop over the edges. */
  method PruneOne(table: Table, letrsu: array<int>, noar: int)
    requires table.Valid() && noar in table.Live() && letrsu != table.noarst
    requires table.Live()[noar].tr1 < letrsu.Length && table.Live()[noar].tr2 < letrsu.Length
    modifies table.nosoar
    ensures table.Valid() && table.Live() == old(table.Live())[noar := Pruned(old(table.Live())[noar], letrsu[..])]
  {
    hide TableInv, LiveEdges;
    LiveCells(table, noar);
    ghost var e := EdgeOf(table.nosoar[noar]);
    var nt := table.nosoar[noar].tr2;
    if nt > 0 && letrsu[nt] <= 0 {
      table.Write(noar, EdgeOf(table.nosoar[noar]).(tr2 := 0));
      LiveCells(table, noar);
    }
    nt := table.nosoar[noar].tr1;
    if nt > 0 && letrsu[nt] <= 0 {
      if table.nosoar[noar].tr2 > 0 {
        table.Write(noar, EdgeOf(table.nosoar[noar]).(tr1 := table.nosoar[noar].tr2));
        LiveCells(table, noar);
        table.Write(noar, EdgeOf(table.nosoar[noar]).(tr2 := 0));
      } else {
        table.Write(noar, EdgeOf(table.nosoar[noar]).(tr1 := 0));
      }
    }
  }

  /** What a pruned edge lists: of its triangles those inside. */
  lemma PrunedLists(e: Edge, m: seq<int>)
    requires e.tr1 < |m| && e.tr2 < |m| && (e.tr1 > 0 ==> e.tr1 != e.tr2)
    ensures var e' := Pruned(e, m);
            && e'.st1 == e.st1 && e'.st2 == e.st2 && e'.line == e.line && e'.chain == e.chain
            && (forall t | t > 0 :: Listed(e', t) <==> Listed(e, t) && m[t] > 0)
            && (e'.tr1 > 0 && e'.tr2 > 0 ==> e' == e)
  {
  }

  /** An edge with one triangle left holds it in the first place, if and only if it did not hold a
      triangle inside in the second place only. */
  lemma FirstPlace(e: Edge, m: seq<int>)
    requires e.tr1 < |m| && e.tr2 < |m|
    ensures (Pruned(e, m).tr2 > 0 ==> Pruned(e, m).tr1 > 0) <==> !(e.tr1 <= 0 && e.tr2 > 0 && m[e.tr2] > 0)
  {
  }

  lemma PrunedAt(E: Edges, m: seq<int>, n: int, i: int)
    requires i in E && i <= n
    ensures i in PrunedTo(E, m, n) && PrunedTo(E, m, n)[i] == Pruned(E[i], m)
  {
  }

  lemma PrunedWay(E: Edges, T: seq<Tri>, m: seq<int>, n: int, a: int)
    requires MeshInv(E, T) && |m| == |T| > 0 && Abs(a) in E && Abs(a) <= n
    ensures Start(PrunedTo(E, m, n), a) == Start(E, a) && End(PrunedTo(E, m, n), a) == End(E, a)
  {
    PrunedAt(E, m, n, Abs(a));
    ListsIn(E, T, Abs(a));
    TwoTriangles(E, T, Abs(a));
    PrunedLists(E[Abs(a)], m);
    hide MeshInv, Pruned, PrunedTo;
  }

  lemma CleanEdge(E: Edges, T: seq<Tri>, T': seq<Tri>, m: seq<int>, n: int, i: int)
    requires MeshInv(E, T) && T != [] && Cleaned(T, T', m, |T| - 1) && i in E && i <= n
    ensures EdgeOk(PrunedTo(E, m, n), T', i)
  {
    EdgeSound(E, T, i);
    PrunedAt(E, m, n, i);
    ListsIn(E, T, i);
    TwoTriangles(E, T, i);
    PrunedLists(E[i], m);
    hide MeshInv, Pruned, PrunedTo;
    var e := E[i];
    var e' := Pruned(e, m);
    assert e'.tr1 > 0 ==> Listed(e', e'.tr1);
    assert e'.tr2 > 0 ==> Listed(e', e'.tr2);
    hide Has;
  }

  lemma CleanTriangle(E: Edges, T: seq<Tri>, T': seq<Tri>, m: seq<int>, n: int, t: int)
    requires MeshInv(E, T) && T != [] && Cleaned(T, T', m, |T| - 1) && Active(T', t) && (forall i | i in E :: i <= n)
    ensures TriOk(PrunedTo(E, m, n), T', t)
  {
    assert T'[t] == T[t] && m[t] > 0 && Active(T, t);
    var x := T[t];
    SidesDistinct(E, T, t);
    assert TriOk(E, T, t);
    CleanSide(E, T, m, n, t, x.a1);
    CleanSide(E, T, m, n, t, x.a2);
    CleanSide(E, T, m, n, t, x.a3);
    hide MeshInv, PrunedTo, Start, End, Has, Cleaned;
  }

  lemma CleanSide(E: Edges, T: seq<Tri>, m: seq<int>, n: int, t: int, a: int)
    requires MeshInv(E, T) && |m| == |T| > 0 && Abs(a) in E && Abs(a) <= n && t > 0 && t < |m| && m[t] > 0
      && Listed(E[Abs(a)], t)
    ensures Abs(a) in PrunedTo(E, m, n) && Listed(PrunedTo(E, m, n)[Abs(a)], t)
    ensures Start(PrunedTo(E, m, n), a) == Start(E, a) && End(PrunedTo(E, m, n), a) == End(E, a)
  {
    PrunedWay(E, T, m, n, a);
    PrunedAt(E, m, n, Abs(a));
    ListsIn(E, T, Abs(a));
    TwoTriangles(E, T, Abs(a));
    hide MeshInv, PrunedTo, Start, End;
    PrunedLists(E[Abs(a)], m);
  }

  /** The mesh that is left: its triangles are those marked inside, no edge lists another, and the
      invariant holds again. */
  lemma CleanMesh(E: Edges, T: seq<Tri>, T': seq<Tri>, m: seq<int>, n: int)
    requires MeshInv(E, T) && T != [] && Cleaned(T, T', m, |T| - 1) && (forall i | i in E :: i <= n)
    requires forall t | Marked(m, t) :: Active(T, t)
    ensures MeshInv(PrunedTo(E, m, n), T')
    ensures forall t :: Active(T', t) <==> Marked(m, t)
    ensures forall i, t | i in E && t > 0 :: Listed(PrunedTo(E, m, n)[i], t) <==> Listed(E[i], t) && Marked(m, t)
  {
    CleanInv(E, T, T', m, n);
    CleanActive(T, T', m);
    assert |m| == |T|;
    PrunedKeys(E, m, n);
    hide MeshInv, PrunedTo, Cleaned, Marked, Active, Listed;
    forall i, t | i in E && t > 0 ensures Listed(PrunedTo(E, m, n)[i], t) <==> Listed(E[i], t) && Marked(m, t) {
      CleanListed(E, T, m, n, i, t);
    }
  }

  lemma CleanInv(E: Edges, T: seq<Tri>, T': seq<Tri>, m: seq<int>, n: int)
    requires MeshInv(E, T) && T != [] && Cleaned(T, T', m, |T| - 1) && (forall i | i in E :: i <= n)
    ensures MeshInv(PrunedTo(E, m, n), T')
  {
    hide MeshInv, EdgeOk, TriOk, PrunedTo, Cleaned;
    var E' := PrunedTo(E, m, n);
    PrunedKeys(E, m, n);
    forall i | i in E' ensures i > 0 && EdgeOk(E', T', i) {
      EdgeSound(E, T, i);
      CleanEdge(E, T, T', m, n, i);
    }
    forall t | Active(T', t) ensures TriOk(E', T', t) {
      CleanTriangle(E, T, T', m, n, t);
    }
    MeshOf(E', T');
  }

  lemma PrunedKeys(E: Edges, m: seq<int>, n: int)
    ensures PrunedTo(E, m, n).Keys == E.Keys
  {
  }

  lemma CleanActive(T: seq<Tri>, T': seq<Tri>, m: seq<int>)
    requires T != [] && Cleaned(T, T', m, |T| - 1) && forall t | Marked(m, t) :: Active(T, t)
    ensures forall t :: Active(T', t) <==> Marked(m, t)
  {
  }

  lemma CleanListed(E: Edges, T: seq<Tri>, m: seq<int>, n: int, i: int, t: int)
    requires MeshInv(E, T) && |m| == |T| > 0 && i in E && i <= n && t > 0
    ensures i in PrunedTo(E, m, n) && (Listed(PrunedTo(E, m, n)[i], t) <==> Listed(E[i], t) && Marked(m, t))
  {
    PrunedAt(E, m, n, i);
    ListsIn(E, T, i);
    TwoTriangles(E, T, i);
    PrunedLists(E[i], m);
    hide MeshInv, PrunedTo, Pruned;
  }

  // ---------------------------------------------------------------- the whole clean-up

  /** The marks of the vertices when every vertex not on a line or imposed counts as outside. */
  function Supposed(li: seq<int>, n: int): (r: seq<int>) {
    seq(|li|, s requires 0 <= s < |li| => if 1 <= s <= n && li[s] == 0 then -1 else li[s])
  }

  method SupposeOutside(nslign: array<int>, nbsomm: int)
    requires 0 <= nbsomm < nslign.Length
    modifies nslign
    ensures nslign[..] == Supposed(old(nslign[..]), nbsomm)
  {
    var ns1 := 1;
    while ns1 <= nbsomm
      invariant 1 <= ns1 <= nbsomm + 1 && nslign[..] == Supposed(old(nslign[..]), ns1 - 1)
    {
      assert nslign[..][ns1] == Supposed(old(nslign[..]), ns1 - 1)[ns1];
      if nslign[ns1] == 0 {
        nslign[ns1] := -1;
      }
      assert nslign[..] == Supposed(old(nslign[..]), ns1 - 1)[ns1 := nslign[ns1]];
      ns1 := ns1 + 1;
    }
  }

  /** `tesuex_` from label 110 on: letrsu holds the marks of the triangles, nslign those of the vertices. */
  method CleanUp(table: Table, store: Store, letrsu: array<int>, nslign: array<int>, nbsomm: int) returns (nbtria: nat)
    requires table.Valid() && store.Valid() && MeshInv(table.Live(), store.noartr[..])
      && Bounded(table.Live(), table.mxsomm)
    requires letrsu.Length == store.noartr.Length && forall t | Marked(letrsu[..], t) :: Active(store.noartr[..], t)
    requires nslign.Length == table.mxsomm + 1 && nslign != table.noarst && letrsu != nslign && letrsu != table.noarst
      && 0 <= nbsomm <= table.mxsomm
    modifies letrsu, nslign, table.nosoar, table.noarst, store`n1artr, store`vacant, store.noartr
    ensures table.Valid() && store.Valid() && MeshInv(table.Live(), store.noartr[..])
    ensures forall t :: Active(store.noartr[..], t) <==> Marked(old(letrsu[..]), t)
    ensures Cleaned(old(store.noartr[..]), store.noartr[..], old(letrsu[..]), letrsu.Length - 1)
    ensures letrsu[..] == Renumbered(old(letrsu[..]), letrsu.Length - 1)
      && nbtria == Rank(old(letrsu[..]), letrsu.Length - 1)
    ensures table.Live() == PrunedTo(old(table.Live()), old(letrsu[..]), table.mxsoar)
    ensures States(old(table.Live()), old(store.noartr[..]), old(letrsu[..]), letrsu.Length - 1,
                   old(table.noarst[..]), table.noarst[..], Supposed(old(nslign[..]), nbsomm), nslign[..])
  {
    hide TableInv, LiveEdges, Vacancy, MeshInv, Bounded, States, Cleaned, Renumbered, Supposed, PrunedTo, Marked,
      Active;
    ghost var E, T, m := table.Live(), store.noartr[..], letrsu[..];
    SupposeOutside(nslign, nbsomm);
    nbtria := Sweep(table, store, letrsu, nslign);
    StoreSize(store);
    CleanedSize(T, store.noartr[..], m);
    PruneEdges(table, letrsu, T);
    SameMarks(E, T, m, letrsu[..], table.mxsoar);
    PrunedKeys(E, m, table.mxsoar);
    LiveRange(table, E, T);
    CleanMesh(E, T, store.noartr[..], m, table.mxsoar);
  }

  lemma CleanedSize(T: seq<Tri>, T': seq<Tri>, m: seq<int>)
    requires Cleaned(T, T', m, |m| - 1)
    ensures |T| == |T'| == |m|
  {
  }

  /** Numbering the marks inside does not change which are. */
  lemma SameMarks(E: Edges, T: seq<Tri>, m: seq<int>, m': seq<int>, n: int)
    requires MeshInv(E, T) && |m| == |T| > 0 && m' == Renumbered(m, |m| - 1)
    ensures PrunedTo(E, m', n) == PrunedTo(E, m, n)
  {
    forall t | 1 <= t < |m| ensures m'[t] <= 0 <==> m[t] <= 0 {
      if m[t] > 0 {
        RankOrder(m, t, t);
      }
    }
    hide Renumbered, Rank;
    forall i | i in E ensures Pruned(E[i], m') == Pruned(E[i], m) {
      ListsIn(E, T, i);
    }
    hide Pruned, MeshInv;
  }

  lemma LiveRange(table: Table, E: Edges, T: seq<Tri>)
    requires table.Valid() && table.Live().Keys == E.Keys
    ensures forall i | i in E :: i <= table.mxsoar
  {
    forall i | i in E ensures i <= table.mxsoar {
      assert i in table.Live();
    }
  }

  /** Afterwards a vertex is marked outside exactly when it was supposed to be and is no corner of a
      triangle left; a corner names an edge of a triangle left. */
  lemma OutsideExactly(E: Edges, T: seq<Tri>, m: seq<int>, st: seq<int>, st': seq<int>, li: seq<int>, li': seq<int>,
      n: int, s: int)
    requires States(E, T, m, |m| - 1, st, st', Supposed(li, n), li') && 1 <= s < |st| && s <= n
    ensures s < |li| == |li'| && (li'[s] < 0 <==> li[s] <= 0 && !Used(E, T, m, |m| - 1, s))
    ensures li[s] > 0 ==> li'[s] == li[s]
    ensures Used(E, T, m, |m| - 1, s) ==> Bears(E, T, m, |m| - 1, st'[s], s)
  {
    assert st'[s] == st'[s];
    assert VertexState(E, T, m, |m| - 1, s, st[s], st'[s], Supposed(li, n)[s], li'[s]);
  }
}
