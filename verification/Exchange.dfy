/** The exchange of the diagonal of two triangles, on the arrays themselves. */
module Exchange {
  import opened EdgeTable
  import opened Mesh

  /** Every vertex that names an edge names a live edge of its own. */
  ghost predicate Anchored(E: Edges, st: seq<int>) {
    forall s | 0 <= s < |st| && st[s] > 0 :: Touches(E, st[s], s)
  }

  ghost predicate Bounded(E: Edges, mxsomm: int) {
    forall i | i in E :: E[i].st1 <= mxsomm && E[i].st2 <= mxsomm
  }

  /** Table, triangles and vertex-to-edge array fit together. */
  ghost predicate Sound(table: Table, noartr: array<Tri>)
    reads table, table.nosoar, table.noarst, noartr
  {
    && table.Valid() && noartr.Length > 0
    && MeshInv(table.Live(), noartr[..])
    && Bounded(table.Live(), table.mxsomm)
    && Anchored(table.Live(), table.noarst[..])
  }

  /** The pair a, b already is an edge with a triangle. */
  ghost predicate Occupied(E: Edges, a: int, b: int) {
    exists k | k in E :: (E[k].st1, E[k].st2) == Pair(a, b) && (E[k].tr1 > 0 || E[k].tr2 > 0)
  }

  lemma KeyedOf(mx: nat, nsom: nat, cells: seq<Cell>, n1: int, p: Plan)
    requires TableInv(mx, nsom, cells, n1, p)
    ensures Keyed(LiveEdges(cells), p.index)
  {
  }

  /** Side number k of a triangle. */
  function Side(x: Tri, k: int): (r: int) {
    if k == 1 then x.a1 else if k == 2 then x.a2 else x.a3
  }

  function Next3(k: int): (r: int) {
    if k < 3 then k + 1 else 1
  }

  /** The search for edge na among the sides of triangle nt; 4 when it is not one. */
  method FindSide(noartr: array<Tri>, nt: int, na: int) returns (n: int)
    requires 0 <= nt < noartr.Length && na > 0
    ensures 1 <= n <= 4
    ensures n < 4 ==> Abs(Side(noartr[nt], n)) == na
    ensures n < 4 ==>
      Turn(noartr[nt], na) == Tri(Side(noartr[nt], n), Side(noartr[nt], Next3(n)), Side(noartr[nt], Next3(Next3(n))))
    ensures n == 4 ==> !Uses(noartr[nt], na) && !Uses(noartr[nt], -na)
  {
    n := 1;
    while n <= 3 && Abs(Side(noartr[nt], n)) != na
      invariant 1 <= n <= 4
      invariant forall k | 1 <= k < n :: Abs(Side(noartr[nt], k)) != na
    {
      n := n + 1;
    }
    assert n == 4 ==> Abs(Side(noartr[nt], 1)) != na && Abs(Side(noartr[nt], 2)) != na
                      && Abs(Side(noartr[nt], 3)) != na;
  }

  /** The end of side a that is neither p nor q. */
  function OtherEnd(E: Edges, a: int, p: int, q: int): (r: int)
    requires a in E
  {
    if E[a].st1 == p || E[a].st1 == q then E[a].st2 else E[a].st1
  }

  lemma ThirdCorner(E: Edges, T: seq<Tri>, i: int, t1: int, t2: int, x: Tri, y: Tri)
    requires Pocket(E, T, i, t1, t2, x, y)
    ensures var s1, s2 := Start(E, x.a1), Start(E, x.a2);
            && OtherEnd(E, Abs(x.a2), s1, s2) == Start(E, x.a3)
            && OtherEnd(E, Abs(y.a2), s1, s2) == Start(E, y.a3) && OtherEnd(E, Abs(y.a3), s1, s2) == Start(E, y.a3)
    ensures Start(E, x.a1) == (if x.a1 > 0 then E[i].st1 else E[i].st2) && Start(E, x.a2) == if x.a1 > 0 then E[i].st2
      else E[i].st1
    ensures Abs(T[t2].a1) in E && Abs(T[t2].a2) in E
    ensures if Abs(T[t2].a1) == i then Abs(T[t2].a2) == Abs(y.a2)
      else Abs(T[t2].a1) == Abs(y.a2) || Abs(T[t2].a1) == Abs(y.a3)
    ensures Abs(T[t2].a1) == i || Abs(T[t2].a2) == i || Abs(T[t2].a3) == i
  {
  }

  /** `mt4sqa_`: the corners of the two triangles of edge na; ns4 == 0 when there are not two. */
  method Mt4sqa(table: Table, noartr: array<Tri>, na: int) returns (ns1: int, ns2: int, ns3: int, ns4: int)
    requires Sound(table, noartr) && na <= table.mxsoar
    ensures ns4 != 0 <==> Inner(table.Live(), noartr[..], na)
    ensures ns4 != 0 ==> (ns1, ns2, ns3, ns4) == Quad(table.Live(), noartr[..], na)
  {
    hide TableInv, Turn, Start, Pocket;
    ns1, ns2, ns3, ns4 := 0, 0, 0, 0;
    if na <= 0 || table.nosoar[na].st1 <= 0 {
      return;
    }
    ghost var E, T := table.Live(), noartr[..];
    assert EdgeOk(E, T, na);
    var nt := table.nosoar[na].tr1;
    if nt <= 0 {
      return;
    }
    SideFacts(E, T, nt, na);
    var i := FindSide(noartr, nt, na);
    if i == 4 {
      assert false;
    }
    if Side(noartr[nt], i) > 0 {
      ns1, ns2 := table.nosoar[na].st1, table.nosoar[na].st2;
    } else {
      ns1, ns2 := table.nosoar[na].st2, table.nosoar[na].st1;
    }
    var naa := Abs(Side(noartr[nt], Next3(i)));
    ns3 := table.nosoar[naa].st1;
    if ns3 == ns1 || ns3 == ns2 {
      ns3 := table.nosoar[naa].st2;
    }
    nt := table.nosoar[na].tr2;
    if nt <= 0 {
      return;
    }
    naa := Abs(noartr[nt].a1);
    if naa == na {
      naa := Abs(noartr[nt].a2);
    }
    PocketOf(E, T, na);
    ThirdCorner(E, T, na, E[na].tr1, E[na].tr2, First(E, T, na), Second(E, T, na));
    ns4 := table.nosoar[naa].st1;
    if ns4 == ns1 || ns4 == ns2 {
      ns4 := table.nosoar[naa].st2;
    }
  }

  /** The state te2t2t_ leaves when it exchanges diagonal i for edge d: 123, 142 become 143, 234. */
  ghost predicate Exchanged(E: Edges, T: seq<Tri>, i: int, d: int, E': Edges, T': seq<Tri>)
    requires Inner(E, T, i)
  {
    var x, y, t1, t2 := First(E, T, i), Second(E, T, i), E[i].tr1, E[i].tr2;
    && Abs(x.a2) in E && Abs(y.a2) in E && d in E'
    && NewDiagonal(E, i, d, E'[d], t1, t2, x, y)
    && E'[d] == Edge(E'[d].st1, E'[d].st2, if d in E then E[d].line else 0, t1, t2, if d in E then E[d].chain else -1)
    && E' == FlipEdges(E, i, d, E'[d], t1, t2, x, y)
    && T' == FlipTris(T, Side43(E'[d], d, Start(E, x.a3)), t1, t2, x, y)
  }

  /** The opposite corners of edge i already are an edge with a triangle. */
  ghost predicate Blocked(E: Edges, T: seq<Tri>, i: int)
    requires Inner(E, T, i)
  {
    Occupied(E, Quad(E, T, i).2, Quad(E, T, i).3)
  }

  /** The two triangles of edge i have the same three corners. */
  ghost predicate Folded(E: Edges, T: seq<Tri>, i: int)
    requires Inner(E, T, i)
  {
    Quad(E, T, i).2 == Quad(E, T, i).3
  }

  /** The pair of a vertex with itself is no edge of a mesh. */
  lemma NoLoop(E: Edges, T: seq<Tri>, s: int)
    requires MeshInv(E, T)
    ensures !Occupied(E, s, s) && forall k | k in E :: (E[k].st1, E[k].st2) != Pair(s, s)
  {
    forall k | k in E ensures (E[k].st1, E[k].st2) != Pair(s, s) {
      assert EdgeOk(E, T, k);
    }
  }

  /** An edge from a vertex to itself breaks the mesh. */
  lemma LoopBreaks(E: Edges, T: seq<Tri>, k: int)
    requires k in E && E[k].st1 == E[k].st2
    ensures !MeshInv(E, T)
  {
    assert !EdgeOk(E, T, k);
  }

  /** No column of the table is free, so that it has an edge in every column above the bucket heads. */
  ghost predicate Full(table: Table)
    reads table, table.nosoar
  {
    table.Valid() && Spare(table.plan) == 0 && |table.Live()| >= table.mxsoar - table.mxsomm
  }

  lemma FullTable(table: Table)
    requires table.Valid() && Spare(table.plan) == 0
    ensures Full(table)
  {
    SpareRoom(table.mxsoar, table.mxsomm, table.nosoar[..], table.n1soar, table.plan);
  }

  /** The two sides after the side na of triangle nt. */
  method NextSides(noartr: array<Tri>, nt: int, na: int) returns (b: int, c: int)
    requires 0 <= nt < noartr.Length && na > 0 && (Uses(noartr[nt], na) || Uses(noartr[nt], -na))
    ensures b == Turn(noartr[nt], na).a2 && c == Turn(noartr[nt], na).a3
  {
    var n1 := FindSide(noartr, nt, na);
    if n1 == 4 { assert false; }
    var n2 := Next3(n1);
    b := Side(noartr[nt], n2);
    var n3 := Next3(n2);
    c := Side(noartr[nt], n3);
  }

  /** `te2t2t_`: exchange the diagonal noaret; noar34 is the new diagonal, 0 when there was no
      exchange.  A line edge is never exchanged.  The mesh survives unless the opposite corners
      already are an edge with a triangle: then no diagonal moves, but that edge is left listing
      a triangle that does not use it.  Nor does it survive where the two triangles have the same
      three corners: an edge from the opposite corner to itself is entered. */
  method Te2t2t(table: Table, noartr: array<Tri>, noaret: int) returns (noar34: int)
    requires Sound(table, noartr) && Inner(table.Live(), noartr[..], noaret)
    modifies table`n1soar, table`plan, table.nosoar, table.noarst, noartr
    ensures old(table.Live())[noaret].line > 0 ==> noar34 == 0
    ensures noar34 == 0 && (old(table.Live())[noaret].line > 0 || !old(Blocked(table.Live(), noartr[..], noaret)))
            ==> Sound(table, noartr) && table.Live() == old(table.Live()) && noartr[..] == old(noartr[..])
                && table.noarst[..] == old(table.noarst[..])
    ensures old(table.Live())[noaret].line <= 0 && old(Blocked(table.Live(), noartr[..], noaret))
            ==> noar34 == 0 && !MeshInv(table.Live(), noartr[..])
    ensures noar34 == 0 && old(table.Live())[noaret].line <= 0 && !old(Blocked(table.Live(), noartr[..], noaret))
            ==> Full(table)
    ensures noar34 != 0 && !old(Folded(table.Live(), noartr[..], noaret)) ==>
              Sound(table, noartr)
              && Exchanged(old(table.Live()), old(noartr[..]), noaret, noar34, table.Live(), noartr[..])
    ensures noar34 != 0 && old(Folded(table.Live(), noartr[..], noaret)) ==> !MeshInv(table.Live(), noartr[..])
  {
    hide TableInv, LiveEdges, MeshInv, Turn, Start, Cycle, Exchanged;
    noar34 := 0;
    ghost var E, T := table.Live(), noartr[..];
    LiveCells(table, noaret);
    if table.nosoar[noaret].line > 0 {
      return;
    }
    ghost var x, y := First(E, T, noaret), Second(E, T, noaret);
    PocketOf(E, T, noaret);
    var ns1, ns2, ns3, ns4 := Mt4sqa(table, noartr, noaret);
    var nt1, nt2 := table.nosoar[noaret].tr1, table.nosoar[noaret].tr2;
    TurnUses(T[nt1], noaret, x.a1);
    var na23, na31 := NextSides(noartr, nt1, noaret);
    TurnUses(T[nt2], noaret, y.a1);
    var na14, na42 := NextSides(noartr, nt2, noaret);
    assert x == Tri(x.a1, na23, na31) && y == Tri(y.a1, na14, na42);
    hide Quad, Occupied, FlipEdges, FlipTris, NewDiagonal, Bounded, Anchored, Full, Pocket;
    ExchangeFacts(E, T, noaret, table.mxsomm);
    var ierr;
    noar34, ierr := EnterDiagonal(table, noartr, noaret, ns3, ns4, nt1, nt2);
    if ierr > 0 {
      noar34 := 0;
      return;
    }
    ghost var E1, st := table.Live(), table.noarst[..];
    Rewire(table, noartr, noaret, noar34, ns1, ns2, ns3, ns4, nt1, nt2, na23, na31, na14, na42);
    if ns3 == ns4 {
      FoldedLoop(E1, noaret, Abs(na23), Abs(na14), nt1, nt2, noar34);
      LoopBreaks(table.Live(), noartr[..], noar34);
    } else {
      ExchangeDone(E, T, noaret, noar34, E1, table.Live(), noartr[..], table.mxsomm, st, table.noarst[..]);
    }
  }

  lemma FoldedLoop(E: Edges, i: int, a: int, b: int, t1: int, t2: int, d: int)
    requires a in E && b in E && a != i && b != i && d in E && d != i && E[d].st1 == E[d].st2
    ensures var E' := Rewired(E, i, a, b, t1, t2); d in E' && E'[d].st1 == E'[d].st2
  {
  }

  lemma ExchangeDone(E: Edges, T: seq<Tri>, i: int, d: int, E1: Edges, E': Edges, T': seq<Tri>, mx: int, st: seq<int>,
      st': seq<int>)
    requires MeshInv(E, T) && Inner(E, T, i) && Bounded(E, mx) && d in E1 && E1 == E[d := E1[d]]
      && Diagonal(E, T, i, d, E1[d])
    requires var x, y := First(E, T, i), Second(E, T, i);
      && Abs(x.a2) in E1 && Abs(y.a2) in E1 && Abs(x.a2) != i && Abs(y.a2) != i
      && E' == Rewired(E1, i, Abs(x.a2), Abs(y.a2), E[i].tr1, E[i].tr2)
      && 0 <= E[i].tr1 < |T| && 0 <= E[i].tr2 < |T|
      && T' == FlipTris(T, Side43(E1[d], d, Quad(E, T, i).2), E[i].tr1, E[i].tr2, x, y)
    requires |st| == |st'| == mx + 1
    requires var s := Quad(E, T, i);
      && (forall u | 0 <= u <= mx && u != s.0 && u != s.1 && u != s.2 && u != s.3 && st'[u] > 0 ::
        st'[u] == st[u] && Touches(E, st[u], u))
      && 0 <= s.0 <= mx && 0 <= s.1 <= mx && 0 <= s.2 <= mx && 0 <= s.3 <= mx
      && st'[s.0] == Abs(Second(E, T, i).a2) && st'[s.1] == Abs(First(E, T, i).a2) && st'[s.2] == d && st'[s.3] == d
    ensures Exchanged(E, T, i, d, E', T') && MeshInv(E', T') && Bounded(E', mx) && Anchored(E', st')
  {
    var x, y := First(E, T, i), Second(E, T, i);
    PocketOf(E, T, i);
    SidesDiffer(E, T, i, d, E1[d], E[i].tr1, E[i].tr2, x, y);
    FlipKeeps(E, T, i, d, E1[d]);
    hide MeshInv, Turn, Start, Cycle, EdgeOk;
    assert E' == FlipEdges(E, i, d, E1[d], E[i].tr1, E[i].tr2, x, y);
    ExchangeAnchored(E, T, i, d, E1[d], E[i].tr1, E[i].tr2, x, y, mx, st');
  }

  /** What te2t2t_ needs to know of the two triangles. */
  lemma ExchangeFacts(E: Edges, T: seq<Tri>, i: int, mx: int)
    requires MeshInv(E, T) && Inner(E, T, i) && Bounded(E, mx)
    ensures var s, x, y := Quad(E, T, i), First(E, T, i), Second(E, T, i);
      && i in E && E[i].st2 <= mx && E[i].st1 in [s.0, s.1] && E[i].st2 in [s.0, s.1]
      && Abs(x.a2) in E && Abs(y.a2) in E && Abs(x.a2) != i && Abs(y.a2) != i
      && 1 <= s.0 <= mx && 1 <= s.1 <= mx && 1 <= s.2 <= mx && 1 <= s.3 <= mx
      && s.0 != s.1 && s.0 != s.2 && s.0 != s.3 && s.1 != s.2 && s.1 != s.3
      && 0 <= E[i].tr1 < |T| && 0 <= E[i].tr2 < |T| && E[i].tr1 != E[i].tr2
  {
    var x, y := First(E, T, i), Second(E, T, i);
    PocketOf(E, T, i);
    CornersBounded(E, T, i, E[i].tr1, E[i].tr2, x, y, mx);
    hide MeshInv, Turn;
  }

  /** e is the record of d as the new diagonal of the triangles of edge i. */
  ghost predicate Diagonal(E: Edges, T: seq<Tri>, i: int, d: int, e: Edge) {
    Inner(E, T, i) && NewDiagonal(E, i, d, e, E[i].tr1, E[i].tr2, First(E, T, i), Second(E, T, i))
    && e == Edge(e.st1, e.st2, if d in E then E[d].line else 0, E[i].tr1, E[i].tr2, if d in E then E[d].chain else -1)
  }

  /** The call of `fasoar_` for the new diagonal ns3-ns4.  Equal corners become an edge too. */
  method EnterDiagonal(table: Table, noartr: array<Tri>, noaret: int, ns3: int, ns4: int, nt1: int, nt2: int)
    returns (noar34: int, ierr: int)
    requires table.Valid() && MeshInv(table.Live(), noartr[..]) && Inner(table.Live(), noartr[..], noaret)
    requires 1 <= ns3 <= table.mxsomm && 1 <= ns4 <= table.mxsomm
    requires ns3 == Quad(table.Live(), noartr[..], noaret).2 && ns4 == Quad(table.Live(), noartr[..], noaret).3
    requires nt1 == table.Live()[noaret].tr1 && nt2 == table.Live()[noaret].tr2
    modifies table`n1soar, table`plan, table.nosoar, table.noarst
    ensures table.Valid() && ierr >= 0
    ensures ierr > 0 ==> if old(Blocked(table.Live(), noartr[..], noaret)) then !MeshInv(table.Live(), noartr[..])
                         else table.Live() == old(table.Live()) && table.noarst[..] == old(table.noarst[..])
                              && Full(table)
    ensures ierr == 0 ==> !old(Blocked(table.Live(), noartr[..], noaret)) && noar34 in table.Live() && noar34 != 0
    ensures ierr == 0 ==> table.Live() == old(table.Live())[noar34 := table.Live()[noar34]]
    ensures ierr == 0 ==> forall s | 0 <= s <= table.mxsomm && s != ns3 && s != ns4 ::
                          table.noarst[s] == old(table.noarst[s])
    ensures ierr == 0 && ns3 != ns4 ==>
              Diagonal(old(table.Live()), noartr[..], noaret, noar34, table.Live()[noar34])
    ensures ierr == 0 && ns3 == ns4 ==>
              noar34 !in old(table.Live()) && table.Live()[noar34].st1 == table.Live()[noar34].st2
  {
    hide TableInv, LiveEdges, MeshInv, Quad, Occupied, NewDiagonal, Full, Attach;
    ghost var E, T, index := table.Live(), noartr[..], table.plan.index;
    KeyedOf(table.mxsoar, table.mxsomm, table.nosoar[..], table.n1soar, table.plan);
    NoLoop(E, T, ns3);
    noar34, ierr := table.Fasoar(ns3, ns4, nt1, nt2, 0);
    if ierr > 0 {
      if ns3 != ns4 {
        ExchangeRefused(E, T, noaret, index, ierr);
      }
      if noar34 == 0 {
        FullTable(table);
      }
      return;
    }
    LiveCells(table, noar34);
    if ns3 != ns4 {
      ExchangeEntered(E, T, noaret, index, noar34, table.Live());
    }
  }

  /** The second half of te2t2t_, once the new diagonal is in the table. */
  method Rewire(table: Table, noartr: array<Tri>, noaret: int, noar34: int, ns1: int, ns2: int, ns3: int, ns4: int,
                nt1: int, nt2: int, na23: int, na31: int, na14: int, na42: int)
    requires table.Valid() && noar34 in table.Live() && noaret in table.Live() && noaret != noar34
    requires table.Live()[noaret].line <= 0 && table.Live()[noaret].st2 <= table.mxsomm
    requires table.Live()[noaret].st1 in [ns1, ns2] && table.Live()[noaret].st2 in [ns1, ns2]
    requires 0 <= nt1 < noartr.Length && 0 <= nt2 < noartr.Length && nt1 != nt2
    requires Abs(na23) in table.Live() && Abs(na14) in table.Live() && Abs(na23) != noaret && Abs(na14) != noaret
    requires 0 <= ns1 <= table.mxsomm && 0 <= ns2 <= table.mxsomm && 0 <= ns3 <= table.mxsomm
      && 0 <= ns4 <= table.mxsomm
    modifies table`n1soar, table`plan, table.nosoar, table.noarst, noartr
    ensures table.Valid()
    ensures table.Live() == Rewired(old(table.Live()), noaret, Abs(na23), Abs(na14), nt1, nt2)
    ensures var n := Side43(old(table.Live())[noar34], noar34, ns3);
      noartr[..] == old(noartr[..])[nt1 := Tri(na14, n, na31)][nt2 := Tri(na23, -n, na42)]
    ensures forall s | 0 <= s <= table.mxsomm && s != ns1 && s != ns2 && s != ns3 && s != ns4 && table.noarst[s] > 0 ::
              table.noarst[s] == old(table.noarst[s])
    ensures table.noarst[ns4] == noar34 && (ns3 == ns4 || table.noarst[ns3] == noar34)
    ensures ns2 != ns3 && ns2 != ns4 ==> table.noarst[ns2] == Abs(na23)
    ensures ns1 != ns2 && ns1 != ns3 && ns1 != ns4 ==> table.noarst[ns1] == Abs(na14)
  {
    hide TableInv, LiveEdges;
    table.Sasoar(noaret, 0);
    WriteTriangles(table, noartr, nt1, nt2, noar34, ns3, na14, na31, na23, na42);
    ReplaceTriangle(table, Abs(na23), nt1, nt2);
    ReplaceTriangle(table, Abs(na14), nt2, nt1);
    Anchor(table, ns1, ns2, ns3, ns4, Abs(na14), Abs(na23), noar34);
  }

  /** Edge i removed, and on the edges a and b the triangles t1 and t2 replaced by each other. */
  ghost function Rewired(E: Edges, i: int, a: int, b: int, t1: int, t2: int): (r: Edges)
    requires a in E && b in E && a != i && b != i
  {
    var E1 := E - {i};
    var E2 := E1[a := Relist(E1[a], t1, t2)];
    E2[b := Relist(E2[b], t2, t1)]
  }

  /** The writes of te2t2t_ to the two columns of noartr. */
  method WriteTriangles(table: Table, noartr: array<Tri>, nt1: int, nt2: int, noar34: int, ns3: int, na14: int,
      na31: int, na23: int, na42: int)
    requires 0 <= nt1 < noartr.Length && 0 <= nt2 < noartr.Length && nt1 != nt2
    requires table.Valid() && noar34 in table.Live()
    modifies noartr
    ensures noartr[..] == old(noartr[..])[nt1 := Tri(na14, Side43(table.Live()[noar34], noar34, ns3), na31)]
                                         [nt2 := Tri(na23, -Side43(table.Live()[noar34], noar34, ns3), na42)]
  {
    hide TableInv;
    LiveCells(table, noar34);
    var n := if table.nosoar[noar34].st1 == ns3 then -noar34 else noar34;
    noartr[nt1] := Tri(na14, n, na31);
    noartr[nt2] := Tri(na23, -n, na42);
  }

  /** Triangle t gives way to t' in the record of edge na. */
  method ReplaceTriangle(table: Table, na: int, t: int, t': int)
    requires table.Valid() && na in table.Live()
    modifies table.nosoar
    ensures table.Valid() && table.Live() == old(table.Live())[na := Relist(old(table.Live())[na], t, t')]
  {
    hide TableInv;
    var e := EdgeOf(table.nosoar[na]);
    if e.tr1 == t {
      e := e.(tr1 := t');
    } else {
      e := e.(tr2 := t');
    }
    table.Write(na, e);
  }

  /** An edge of its own for each of the four corners. */
  method Anchor(table: Table, ns1: int, ns2: int, ns3: int, ns4: int, na14: int, na23: int, na34: int)
    requires table.Valid()
    requires 0 <= ns1 <= table.mxsomm && 0 <= ns2 <= table.mxsomm && 0 <= ns3 <= table.mxsomm
      && 0 <= ns4 <= table.mxsomm
    modifies table.noarst
    ensures table.Valid()
    ensures table.noarst[..] == old(table.noarst[..])[ns1 := na14][ns2 := na23][ns3 := na34][ns4 := na34]
  {
    table.noarst[ns1] := na14;
    table.noarst[ns2] := na23;
    table.noarst[ns3] := na34;
    table.noarst[ns4] := na34;
  }

  lemma ExchangeAnchored(E: Edges, T: seq<Tri>, i: int, d: int, e34: Edge, t1: int, t2: int, x: Tri, y: Tri, mx: int,
      st: seq<int>)
    requires Pocket(E, T, i, t1, t2, x, y) && NewDiagonal(E, i, d, e34, t1, t2, x, y)
    requires Bounded(E, mx) && |st| == mx + 1
    requires var (s1, s2, s3) := Verts(E, x); var s4 := Start(E, y.a3);
             && s1 <= mx && s2 <= mx && s3 <= mx && s4 <= mx
             && st[s1] == Abs(y.a2) && st[s2] == Abs(x.a2) && st[s3] == d && st[s4] == d
             && forall s | 0 <= s <= mx && s !in {s1, s2, s3, s4} && st[s] > 0 :: Touches(E, st[s], s)
    ensures Bounded(FlipEdges(E, i, d, e34, t1, t2, x, y), mx)
    ensures Anchored(FlipEdges(E, i, d, e34, t1, t2, x, y), st)
  {
    SidesDiffer(E, T, i, d, e34, t1, t2, x, y);
    var E' := FlipEdges(E, i, d, e34, t1, t2, x, y);
    forall k | k in E' ensures E'[k].st1 <= mx && E'[k].st2 <= mx {
      FlipLookup(E, T, i, d, e34, t1, t2, x, y, k);
    }
    forall s | 0 <= s <= mx && st[s] > 0 ensures Touches(E', st[s], s) {
      FlipLookup(E, T, i, d, e34, t1, t2, x, y, st[s]);
    }
  }

  lemma CornersBounded(E: Edges, T: seq<Tri>, i: int, t1: int, t2: int, x: Tri, y: Tri, mx: int)
    requires Pocket(E, T, i, t1, t2, x, y) && Bounded(E, mx)
    ensures Start(E, x.a1) <= mx && Start(E, x.a2) <= mx && Start(E, x.a3) <= mx && Start(E, y.a3) <= mx
  {
    SideBounded(E, x.a1, mx);
    SideBounded(E, x.a2, mx);
    SideBounded(E, x.a3, mx);
    SideBounded(E, y.a3, mx);
  }

  lemma SideBounded(E: Edges, a: int, mx: int)
    requires Bounded(E, mx) && Abs(a) in E
    ensures Start(E, a) <= mx
  {
  }

  /** An error of `fasoar_`: a full table changes nothing, an occupied pair breaks the mesh. */
  lemma ExchangeRefused(E: Edges, T: seq<Tri>, i: int, index: map<(int, int), int>, ierr: int)
    requires MeshInv(E, T) && Inner(E, T, i) && Keyed(E, index)
    requires Quad(E, T, i).2 != Quad(E, T, i).3
    requires var q := Pair(Quad(E, T, i).2, Quad(E, T, i).3);
             if q in index then ierr > 0 && ierr == Attach(E[index[q]], E[i].tr1, E[i].tr2).1 else ierr == 1
    ensures var q := Pair(Quad(E, T, i).2, Quad(E, T, i).3);
            if q in index then Occupied(E, Quad(E, T, i).2, Quad(E, T, i).3)
                               && !MeshInv(E[index[q] := Attach(E[index[q]], E[i].tr1, E[i].tr2).0], T)
            else !Occupied(E, Quad(E, T, i).2, Quad(E, T, i).3)
  {
    var s3, s4 := Quad(E, T, i).2, Quad(E, T, i).3;
    var q := Pair(s3, s4);
    if q in index {
      var k := index[q];
      OccupiedBreaks(E, T, i, k);
    }
  }

  lemma ExchangeEntered(E: Edges, T: seq<Tri>, i: int, index: map<(int, int), int>, d: int, E1: Edges)
    requires MeshInv(E, T) && Inner(E, T, i) && Keyed(E, index)
    requires Quad(E, T, i).2 != Quad(E, T, i).3
    requires var q := Pair(Quad(E, T, i).2, Quad(E, T, i).3);
             if q in index then d == index[q] && E1 == E[d := Attach(E[d], E[i].tr1, E[i].tr2).0]
                                && Attach(E[d], E[i].tr1, E[i].tr2).1 == 0
             else d !in E && d > 0 && E1 == E[d := Edge(q.0, q.1, 0, E[i].tr1, E[i].tr2, -1)]
    ensures !Occupied(E, Quad(E, T, i).2, Quad(E, T, i).3)
    ensures NewDiagonal(E, i, d, E1[d], E[i].tr1, E[i].tr2, First(E, T, i), Second(E, T, i))
    ensures E1[d] == Edge(E1[d].st1, E1[d].st2, if d in E then E[d].line
      else 0, E[i].tr1, E[i].tr2, if d in E then E[d].chain else -1)
  {
    var s3, s4 := Quad(E, T, i).2, Quad(E, T, i).3;
    var q := Pair(s3, s4);
    PocketOf(E, T, i);
    if q in index && (E[d].tr1 > 0 || E[d].tr2 > 0) {
      OccupiedBreaks(E, T, i, d);
    }
  }

  lemma LiveCells(table: Table, i: int)
    requires table.Valid() && i in table.Live()
    ensures 1 <= i <= table.mxsoar && table.Live()[i] == EdgeOf(table.nosoar[i])
  {
  }
}
