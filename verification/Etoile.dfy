/** `caetoi_`: the edges of a set of triangles are collected so that those of two triangles of the
    set drop out and those of one triangle stay, chained through the table. */
module Etoile {
  import opened Lists
  import opened EdgeTable
  import opened Mesh
  import opened Exchange
  import opened Contours
  import opened Triangles

  /** The chain of simple edges: from n1 through the chain fields; every other edge has a negative field. */
  ghost predicate StarChain(E: Edges, n1: int, ch: seq<int>) {
    && n1 == At(ch, 0) && Unique(ch)
    && (forall k {:trigger ch[k]} | 0 <= k < |ch| :: ch[k] in E && ch[k] > 0 && E[ch[k]].chain == At(ch, k + 1))
    && (forall i | i in E && i !in ch :: E[i].chain < 0)
  }

  /** The list without its member number k. */
  function Without(l: seq<int>, k: int): (r: seq<int>)
    requires 0 <= k < |l|
  {
    l[..k] + l[k + 1..]
  }

  /** The table once the edge ch[k] is out of the chain; prev is the edge before it, 0 if none. */
  ghost function Unchained(E: Edges, ch: seq<int>, k: int): (r: Edges)
    requires 0 <= k < |ch| && (forall j | 0 <= j < |ch| :: ch[j] in E)
  {
    var E1 := if k > 0 then E[ch[k - 1] := E[ch[k - 1]].(chain := E[ch[k]].chain)] else E;
    E1[ch[k] := E1[ch[k]].(chain := -1)]
  }

  lemma WithoutMembers(ch: seq<int>, k: int)
    requires Unique(ch) && 0 <= k < |ch|
    ensures |Without(ch, k)| == |ch| - 1 && forall j | 0 <= j < |ch| - 1 ::
      Without(ch, k)[j] == ch[if j < k then j else j + 1]
    ensures ch[k] !in Without(ch, k) && forall i :: i in Without(ch, k) <==> i in ch && i != ch[k]
    ensures Unique(Without(ch, k))
  {
    var l := Without(ch, k);
    forall i ensures i in l <==> i in ch && i != ch[k] {
      if i in ch && i != ch[k] {
        var j :| 0 <= j < |ch| && ch[j] == i;
        assert l[if j < k then j else j - 1] == i;
      }
    }
  }

  lemma UnchainedAt(E: Edges, ch: seq<int>, k: int, i: int)
    requires 0 <= k < |ch| && Unique(ch) && (forall j | 0 <= j < |ch| :: ch[j] in E)
    ensures Unchained(E, ch, k).Keys == E.Keys
    ensures i in E ==> Unchained(E, ch, k)[i] == if i == ch[k] then E[i].(chain := -1)
                       else if k > 0 && i == ch[k - 1] then E[i].(chain := E[ch[k]].chain) else E[i]
  {
  }

  lemma UnchainedChain(E: Edges, n1: int, ch: seq<int>, k: int)
    requires StarChain(E, n1, ch) && 0 <= k < |ch|
    ensures StarChain(Unchained(E, ch, k), if k > 0 then n1 else E[ch[k]].chain, Without(ch, k))
    ensures StarChain(Unchained(E, ch, k) - {ch[k]}, if k > 0 then n1 else E[ch[k]].chain, Without(ch, k))
  {
    hide StarChain, Unchained, Without, Unique;
    ChainMembers(E, n1, ch);
    OthersOut(E, n1, ch);
    var l, E' := Without(ch, k), Unchained(E, ch, k);
    WithoutMembers(ch, k);
    UnchainedAt(E, ch, k, ch[k]);
    forall j | 0 <= j < |l| ensures l[j] in E' && l[j] > 0 && l[j] != ch[k] && E'[l[j]].chain == At(l, j + 1) {
      UnchainedLink(E, n1, ch, k, l, j);
    }
    forall i | i in E' && i !in l ensures E'[i].chain < 0 {
      UnchainedAt(E, ch, k, i);
    }
    UnchainedHead(E, n1, ch, k, l);
    ChainOf(E', if k > 0 then n1 else E[ch[k]].chain, l);
    ChainOf(E' - {ch[k]}, if k > 0 then n1 else E[ch[k]].chain, l);
  }

  lemma ChainOf(E: Edges, n1: int, l: seq<int>)
    requires n1 == At(l, 0) && Unique(l)
      && (forall k | 0 <= k < |l| :: l[k] in E && l[k] > 0 && E[l[k]].chain == At(l, k + 1))
    requires forall i | i in E && i !in l :: E[i].chain < 0
    ensures StarChain(E, n1, l)
  {
  }

  lemma OthersOut(E: Edges, n1: int, ch: seq<int>)
    requires StarChain(E, n1, ch)
    ensures forall i | i in E && i !in ch :: E[i].chain < 0
  {
  }

  lemma UnchainedHead(E: Edges, n1: int, ch: seq<int>, k: int, l: seq<int>)
    requires StarChain(E, n1, ch) && 0 <= k < |ch| && |l| == |ch| - 1 && forall j | 0 <= j < |l| ::
      l[j] == ch[if j < k then j else j + 1]
    ensures (if k > 0 then n1 else E[ch[k]].chain) == At(l, 0)
  {
    assert k == 0 ==> E[ch[0]].chain == At(ch, 1);
  }

  lemma UnchainedLink(E: Edges, n1: int, ch: seq<int>, k: int, l: seq<int>, j: int)
    requires StarChain(E, n1, ch) && 0 <= k < |ch| && |l| == |ch| - 1 && forall j | 0 <= j < |l| ::
      l[j] == ch[if j < k then j else j + 1]
    requires 0 <= j < |l|
    ensures l[j] in Unchained(E, ch, k) && l[j] > 0 && l[j] != ch[k] && Unchained(E, ch, k)[l[j]].chain == At(l, j + 1)
  {
    var m := if j < k then j else j + 1;
    assert ch[m] == l[j] && m != k;
    assert E[ch[m]].chain == At(ch, m + 1) && E[ch[k]].chain == At(ch, k + 1);
    UnchainedAt(E, ch, k, ch[m]);
    hide Unchained;
  }

  lemma ChainedFirst(E: Edges, n1: int, ch: seq<int>, i: int)
    requires StarChain(E, n1, ch) && i in E && i > 0 && i !in ch
    ensures StarChain(E[i := E[i].(chain := n1)], i, [i] + ch)
  {
    var l, E' := [i] + ch, E[i := E[i].(chain := n1)];
    forall k | 0 <= k < |l| ensures l[k] in E' && l[k] > 0 && E'[l[k]].chain == At(l, k + 1) {
      if k > 0 {
        assert l[k] == ch[k - 1] && ch[k - 1] in ch;
      }
    }
    UniqueOn(i, ch);
  }

  /** The place of x in l. */
  function IndexOf(l: seq<int>, x: int): (r: nat) {
    if l == [] || l[0] == x then 0 else 1 + IndexOf(l[1..], x)
  }

  /** The chain after edge x: x joins it in front, or leaves it. */
  function Toggle(l: seq<int>, x: int): (r: seq<int>) {
    if x in l && IndexOf(l, x) < |l| then Without(l, IndexOf(l, x)) else [x] + l
  }

  /** The chain after the edges sd. */
  function Toggled(sd: seq<int>): (r: seq<int>) {
    if sd == [] then [] else Toggle(Toggled(sd[..|sd| - 1]), sd[|sd| - 1])
  }

  lemma {:induction false} IndexAt(l: seq<int>, k: int)
    requires Unique(l) && 0 <= k < |l|
    ensures IndexOf(l, l[k]) == k
  {
    if k > 0 {
      IndexAt(l[1..], k - 1);
    }
  }

  lemma ToggledNext(sd: seq<int>, x: int)
    ensures Toggled(sd + [x]) == Toggle(Toggled(sd), x)
  {
    assert (sd + [x])[..|sd|] == sd;
  }

  /** At least 513 edges of the chain come before x. */
  ghost predicate LateIn(l: seq<int>, x: int) {
    exists k :: 513 <= k < |l| && l[k] == x
  }

  /** Side number k of sd is met when at least 513 edges of the chain come before it. */
  ghost predicate LateAt(sd: seq<int>, k: int) {
    0 <= k < |sd| && LateIn(Toggled(sd[..k]), sd[k])
  }

  /** Some side of sd is. */
  ghost predicate TooLong(sd: seq<int>) {
    exists k :: LateAt(sd, k)
  }

  lemma {:induction false} ToggledSize(sd: seq<int>)
    ensures |Toggled(sd)| <= |sd|
  {
    if sd != [] {
      ToggledSize(sd[..|sd| - 1]);
    }
  }

  /** The 512 steps that the code allows are enough for 171 triangles. */
  lemma FewTriangles(T: seq<Tri>, ts: seq<int>)
    requires |ts| <= 171
    ensures !TooLong(SidesOf(T, ts))
  {
    var sd := SidesOf(T, ts);
    SidesSize(T, ts);
    forall k | 0 <= k < |sd| ensures !LateAt(sd, k) {
      ToggledSize(sd[..k]);
    }
  }

  lemma {:induction false} SidesSize(T: seq<Tri>, ts: seq<int>)
    ensures |SidesOf(T, ts)| <= 3 * |ts|
  {
    if ts != [] {
      SidesSize(T, ts[..|ts| - 1]);
    }
  }

  /** `caetoi_`: an edge not in the chain joins it, nbtrar = 1; an edge in it leaves the chain and,
      unless it is on a line, the table, nbtrar = 2.  nbtrar = 0 when at least 513 edges come before it. */
  method Caetoi(table: Table, noar: int, n1aeoc: int, ghost ch: seq<int>)
      returns (n1: int, nbtrar: int, ghost ch': seq<int>)
    requires table.Valid() && noar in table.Live() && Bounded(table.Live(), table.mxsomm)
      && StarChain(table.Live(), n1aeoc, ch)
    modifies table`n1soar, table`plan, table.nosoar, table.noarst
    ensures table.Valid() && (nbtrar == 0 || nbtrar == 1 || nbtrar == 2)
    ensures nbtrar == 0 <==> LateIn(ch, noar)
    ensures nbtrar == 1 <==> noar !in ch
    ensures nbtrar > 0 ==> ch' == Toggle(ch, noar)
    ensures nbtrar == 1 ==> n1 == noar && ch' == [noar] + ch
                            && table.Live() == old(table.Live())[noar := old(table.Live())[noar].(chain := n1aeoc)]
    ensures nbtrar == 2 ==> exists k :: 0 <= k < |ch| && ch[k] == noar && ch' == Without(ch, k)
                              && table.Live() == if old(table.Live())[noar].line <= 0 then
                                Unchained(old(table.Live()), ch, k) - {noar}
                                                 else Unchained(old(table.Live()), ch, k)
    ensures nbtrar > 0 ==> StarChain(table.Live(), n1, ch')
  {
    hide TableInv, LiveEdges, Unchained, StarChain, Without;
    ghost var E := table.Live();
    LiveCells(table, noar);
    ChainMembers(E, n1aeoc, ch);
    hide Unique;
    n1, ch' := n1aeoc, ch;
    ChainedOrNot(E, n1aeoc, ch, noar);
    if table.nosoar[noar].chain < 0 {
      ChainedFirst(E, n1aeoc, ch, noar);
      table.Write(noar, EdgeOf(table.nosoar[noar]).(chain := n1aeoc));
      return noar, 1, [noar] + ch;
    }
    var na0, found;
    ghost var k;
    na0, found, k := Before(table, noar, n1aeoc, ch);
    if !found {
      return n1, 0, ch';
    }
    IndexAt(ch, k);
    UnchainedChain(E, n1aeoc, ch, k);
    n1 := Unchain(table, noar, na0, n1aeoc, ch, k);
    ChainMembers(E, n1aeoc, ch);
    UnchainedAt(E, ch, k, noar);
    table.Sasoar(noar, table.mxsoar);
    ch' := Without(ch, k);
    nbtrar := 2;
  }

  lemma ChainMembers(E: Edges, n1: int, ch: seq<int>)
    requires StarChain(E, n1, ch)
    ensures Unique(ch) && forall j | 0 <= j < |ch| :: ch[j] in E
  {
  }

  lemma ChainedOrNot(E: Edges, n1: int, ch: seq<int>, i: int)
    requires StarChain(E, n1, ch) && i in E
    ensures E[i].chain < 0 <==> i !in ch
  {
    if i in ch {
      var k :| 0 <= k < |ch| && ch[k] == i;
      assert k + 1 < |ch| ==> ch[k + 1] > 0;
    }
  }

  lemma ChainStep(E: Edges, n1: int, ch: seq<int>, k: int)
    requires StarChain(E, n1, ch) && 0 <= k < |ch|
    ensures n1 == ch[0] && ch[k] in E && E[ch[k]].chain == At(ch, k + 1) && (k + 1 < |ch| ==> ch[k + 1] > 0)
  {
    assert k + 1 < |ch| ==> ch[k + 1] > 0;
  }

  /** The search of `caetoi_` for the edge before noar; not found when at least 513 edges come before noar. */
  method Before(table: Table, noar: int, n1aeoc: int, ghost ch: seq<int>) returns (na0: int, found: bool, ghost k: int)
    requires table.Valid() && StarChain(table.Live(), n1aeoc, ch) && noar in ch
    ensures found ==> 0 <= k < |ch| && ch[k] == noar && na0 == if k > 0 then ch[k - 1] else 0
    ensures !found <==> LateIn(ch, noar)
  {
    hide TableInv, LiveEdges, StarChain;
    ChainMembers(table.Live(), n1aeoc, ch);
    ghost var pos: int :| 0 <= pos < |ch| && ch[pos] == noar;
    ghost var E := table.Live();
    ChainStep(E, n1aeoc, ch, 0);
    na0, found, k := 0, false, 0;
    var na, nbpass := n1aeoc, 0;
    while na != noar
      invariant 0 <= nbpass <= pos && nbpass <= 512 && na == ch[nbpass] && na0 == (if nbpass > 0 then ch[nbpass - 1]
        else 0)
      decreases pos - nbpass
    {
      ChainStep(E, n1aeoc, ch, nbpass);
      LiveCells(table, ch[nbpass]);
      na0 := na;
      na := table.nosoar[na].chain;
      if na <= 0 {
        return;
      }
      nbpass := nbpass + 1;
      if nbpass > 512 {
        return;
      }
    }
    found, k := true, nbpass;
  }

  /** Edge noar leaves the chain; na0 is the one before it. */
  method Unchain(table: Table, noar: int, na0: int, n1aeoc: int, ghost ch: seq<int>, ghost k: int) returns (n1: int)
    requires table.Valid() && StarChain(table.Live(), n1aeoc, ch) && 0 <= k < |ch| && noar == ch[k]
      && na0 == if k > 0 then ch[k - 1] else 0
    modifies table.nosoar
    ensures table.Valid() && (forall j | 0 <= j < |ch| :: ch[j] in old(table.Live()))
      && table.Live() == Unchained(old(table.Live()), ch, k)
    ensures n1 == if k > 0 then n1aeoc else old(table.Live())[noar].chain
  {
    hide TableInv, LiveEdges;
    n1 := n1aeoc;
    LiveCells(table, noar);
    var next := table.nosoar[noar].chain;
    if na0 > 0 {
      assert ch[k - 1] == na0;
      LiveCells(table, na0);
      table.Write(na0, EdgeOf(table.nosoar[na0]).(chain := next));
    } else {
      n1 := next;
    }
    LiveCells(table, noar);
    table.Write(noar, EdgeOf(table.nosoar[noar]).(chain := -1));
  }

  // ---------------------------------------------------------------- the sides of a set of triangles

  function SidesOf(T: seq<Tri>, ts: seq<int>): (r: seq<int>) {
    if ts == [] then [] else SidesOf(T, ts[..|ts| - 1]) + SidesAt(T, ts[|ts| - 1])
  }

  function SidesAt(T: seq<Tri>, t: int): (r: seq<int>) {
    if 0 <= t < |T| then [Abs(T[t].a1), Abs(T[t].a2), Abs(T[t].a3)] else []
  }

  /** Triangle t has the edge i as a side. */
  predicate Has(T: seq<Tri>, t: int, i: int) {
    0 <= t < |T| && (Abs(T[t].a1) == i || Abs(T[t].a2) == i || Abs(T[t].a3) == i)
  }

  function Once(b: bool): (r: nat) {
    if b then 1 else 0
  }

  /** How often edge i is a side of a triangle of ts. */
  function Count(T: seq<Tri>, ts: seq<int>, i: int): (r: nat) {
    multiset(SidesOf(T, ts))[i]
  }

  lemma SidesLast(T: seq<Tri>, l: seq<int>)
    ensures l == [] ==> SidesOf(T, l) == []
    ensures l != [] ==> SidesOf(T, l) == SidesOf(T, l[..|l| - 1]) + SidesAt(T, l[|l| - 1])
  {
  }

  lemma {:induction false} SidesAdd(T: seq<Tri>, a: seq<int>, b: seq<int>)
    ensures SidesOf(T, a + b) == SidesOf(T, a) + SidesOf(T, b)
  {
    hide SidesOf, SidesAt;
    SidesLast(T, b);
    if b == [] {
      assert a + b == a;
    } else {
      var u := b[..|b| - 1];
      SidesAdd(T, a, u);
      SidesLast(T, a + b);
      assert (a + b)[..|a + b| - 1] == a + u && (a + b)[|a + b| - 1] == b[|b| - 1];
    }
  }

  /** The triangles of ts are different triangles of the mesh. */
  ghost predicate Chosen(T: seq<Tri>, ts: seq<int>) {
    Unique(ts) && forall t | t in ts :: Active(T, t)
  }

  lemma SidesDistinct(E: Edges, T: seq<Tri>, t: int)
    requires MeshInv(E, T) && Active(T, t)
    ensures var x := T[t]; Abs(x.a1) != Abs(x.a2) && Abs(x.a2) != Abs(x.a3) && Abs(x.a3) != Abs(x.a1)
    ensures Abs(T[t].a1) in E && Abs(T[t].a2) in E && Abs(T[t].a3) in E
    ensures forall i | Has(T, t, i) :: i in E && Listed(E[i], t)
  {
    var x := T[t];
    assert TriOk(E, T, t) && EdgeOk(E, T, Abs(x.a1)) && EdgeOk(E, T, Abs(x.a2)) && EdgeOk(E, T, Abs(x.a3)) && 0 !in E;
    hide MeshInv;
    CornersDiffer(E, x);
    hide Cycle;
  }

  lemma CountAt(E: Edges, T: seq<Tri>, t: int, i: int)
    requires MeshInv(E, T) && Active(T, t)
    ensures multiset(SidesAt(T, t))[i] == Once(Has(T, t, i))
  {
    SidesDistinct(E, T, t);
    hide MeshInv;
  }

  /** The two triangles an edge lists are the only ones it can be a side of. */
  lemma {:induction false} CountListed(E: Edges, T: seq<Tri>, ts: seq<int>, i: int)
    requires MeshInv(E, T) && Chosen(T, ts) && i in E
    ensures Count(T, ts, i) == Once(E[i].tr1 > 0 && E[i].tr1 in ts) + Once(E[i].tr2 > 0 && E[i].tr2 in ts)
  {
    if ts != [] {
      var n := |ts| - 1;
      var us, t := ts[..n], ts[n];
      assert ts == us + [t];
      assert t in ts;
      assert t !in us;
      assert Chosen(T, us);
      hide MeshInv, Has, SidesOf, SidesAt, Chosen, EdgeOk;
      CountListed(E, T, us, i);
      CountAt(E, T, t, i);
      CountLast(T, us, t, i);
      SidesDistinct(E, T, t);
      EdgeSound(E, T, i);
      HasOrNot(E, T, t, i);
    }
  }

  lemma CountLast(T: seq<Tri>, us: seq<int>, t: int, i: int)
    ensures Count(T, us + [t], i) == Count(T, us, i) + multiset(SidesAt(T, t))[i]
  {
    assert (us + [t])[..|us|] == us;
  }

  lemma HasOrNot(E: Edges, T: seq<Tri>, t: int, i: int)
    requires i in E && i > 0 && EdgeOk(E, T, i) && Active(T, t) && (Has(T, t, i) ==> Listed(E[i], t))
    ensures Has(T, t, i) <==> E[i].tr1 == t || E[i].tr2 == t
    ensures !(E[i].tr1 == t && E[i].tr2 == t)
  {
  }

  lemma EdgeSound(E: Edges, T: seq<Tri>, i: int)
    requires MeshInv(E, T) && i in E
    ensures i > 0 && EdgeOk(E, T, i)
    ensures (E[i].tr1 > 0 ==> Active(T, E[i].tr1) && Has(T, E[i].tr1, i))
      && (E[i].tr2 > 0 ==> Active(T, E[i].tr2) && Has(T, E[i].tr2, i))
  {
    assert i > 0 && EdgeOk(E, T, i);
    hide MeshInv;
  }

  lemma TwoTriangles(E: Edges, T: seq<Tri>, i: int)
    requires MeshInv(E, T) && i in E
    ensures E[i].tr1 > 0 ==> E[i].tr1 != E[i].tr2
  {
    if E[i].tr1 > 0 {
      EdgeSound(E, T, i);
      SidesDistinct(E, T, E[i].tr1);
      HasOrNot(E, T, E[i].tr1, i);
    }
  }

  lemma MeshOf(E: Edges, T: seq<Tri>)
    requires (forall i | i in E :: i > 0 && EdgeOk(E, T, i)) && (forall t | Active(T, t) :: TriOk(E, T, t))
    ensures MeshInv(E, T)
  {
  }

  // ---------------------------------------------------------------- the table while the triangles go

  /** Triangle t taken off edge e, as `focftr_` does it. */
  function Freed(e: Edge, t: int): (r: Edge) {
    if e.tr1 == t then e.(tr1 := e.tr2) else e.(tr2 := -1)
  }

  predicate SameBut(e: Edge, e': Edge) {
    e'.(chain := e.chain) == e
  }

  /** The state of edge i, seen c times so far. */
  ghost predicate EdgeState(E0: Edges, E: Edges, i: int, c: nat, ch: seq<int>, via: map<int, int>)
    requires i in E0
  {
    if c == 0 then i in E && E[i] == E0[i] && i !in ch
    else if c == 1 then i in ch && i in E && i in via && SameBut(E[i], Freed(E0[i], via[i]))
    else i !in ch && i in via && if E0[i].line <= 0 then i !in E else i in E && SameBut(E[i], Freed(E0[i], via[i]))
  }

  /** The sides sd have been handed to `caetoi_`; via says from which triangle an edge was seen first. */
  ghost predicate StarState(E0: Edges, E: Edges, T: seq<Tri>, ts: seq<int>, sd: seq<int>, n1: int, ch: seq<int>,
      via: map<int, int>) {
    && E.Keys <= E0.Keys && StarChain(E, n1, ch)
    && (forall i | i in E0 :: EdgeState(E0, E, i, multiset(sd)[i], ch, via))
    && (forall i | i in via :: via[i] in ts && Has(T, via[i], i))
  }

  lemma StateFirst(E0: Edges, E: Edges, T: seq<Tri>, ts: seq<int>, sd: seq<int>, n1: int, ch: seq<int>, via: map<int,
      int>, i: int, t: int, E': Edges)
    requires StarState(E0, E, T, ts, sd, n1, ch, via) && i in E0 && i > 0 && multiset(sd)[i] == 0 && t in ts
      && Has(T, t, i)
    requires i in E && E' == E[i := Freed(E[i].(chain := n1), t)]
    ensures StarState(E0, E', T, ts, sd + [i], i, [i] + ch, via[i := t])
  {
    ChainedFirst(E, n1, ch, i);
    hide StarChain;
    StarChainSame(E[i := E[i].(chain := n1)], E', i, [i] + ch);
    forall j | j in E0 ensures EdgeState(E0, E', j, multiset(sd + [i])[j], [i] + ch, via[i := t]) {
      assert EdgeState(E0, E, j, multiset(sd)[j], ch, via);
      assert multiset(sd + [i])[j] == multiset(sd)[j] + Once(i == j);
      assert j in [i] + ch <==> j == i || j in ch;
    }
  }

  lemma StarChainSame(E: Edges, E': Edges, n1: int, ch: seq<int>)
    requires StarChain(E, n1, ch) && E'.Keys == E.Keys && forall i | i in E :: E'[i].chain == E[i].chain
    ensures StarChain(E', n1, ch)
  {
  }

  lemma StateSecond(E0: Edges, E: Edges, T: seq<Tri>, ts: seq<int>, sd: seq<int>, n1: int, ch: seq<int>, via: map<int,
      int>, i: int, k: int, E': Edges, n1': int)
    requires StarState(E0, E, T, ts, sd, n1, ch, via) && i in E0 && multiset(sd)[i] == 1
    requires 0 <= k < |ch| && ch[k] == i && (forall j | 0 <= j < |ch| :: ch[j] in E) && i in E
    requires E' == if E[i].line <= 0 then Unchained(E, ch, k) - {i} else Unchained(E, ch, k)
    requires StarChain(E', n1', Without(ch, k))
    ensures StarState(E0, E', T, ts, sd + [i], n1', Without(ch, k), via)
  {
    ChainMembers(E, n1, ch);
    WithoutMembers(ch, k);
    UnchainedAt(E, ch, k, i);
    hide StarChain, Unchained, Without, Unique, EdgeState, Has, Once;
    forall j | j in E0 ensures EdgeState(E0, E', j, multiset(sd + [i])[j], Without(ch, k), via) {
      assert EdgeState(E0, E, j, multiset(sd)[j], ch, via);
      SeenMore(sd, i, j);
      if j in E {
        UnchainedAt(E, ch, k, j);
      }
      SecondAt(E0, E, ch, via, i, k, E', j, multiset(sd)[j], multiset(sd + [i])[j], Without(ch, k));
    }
  }

  lemma SeenMore(sd: seq<int>, i: int, j: int)
    ensures multiset(sd + [i])[j] == multiset(sd)[j] + Once(i == j)
  {
  }

  lemma SecondAt(E0: Edges, E: Edges, ch: seq<int>, via: map<int, int>, i: int, k: int, E': Edges, j: int, c: nat,
      c': nat, l: seq<int>)
    requires j in E0 && EdgeState(E0, E, j, c, ch, via) && c' == c + Once(i == j) && (i == j ==> c == 1)
    requires 0 <= k < |ch| && ch[k] == i && i in E && (forall m :: m in l <==> m in ch && m != i)
    requires (j in E' <==> j in E && !(j == i && E[i].line <= 0))
    requires j in E' ==> E'[j] == if j == i then E[j].(chain := -1)
                         else if k > 0 && j == ch[k - 1] then E[j].(chain := E[i].chain) else E[j]
    ensures EdgeState(E0, E', j, c', l, via)
  {
    assert k > 0 ==> ch[k - 1] in ch;
  }

  // ---------------------------------------------------------------- directed sides

  /** Side i of triangle x, with its sign. */
  function SignedOf(x: Tri, i: int): (r: int) {
    if Abs(x.a1) == i then x.a1 else if Abs(x.a2) == i then x.a2 else x.a3
  }

  /** The quantity f of the signed edge a. */
  ghost function FlowOf(f: (int, int) -> real, E: Edges, a: int): (r: real) {
    f(Start(E, a), End(E, a))
  }

  /** The quantity f over the signed edges as. */
  ghost function SignedSum(f: (int, int) -> real, E: Edges, l: seq<int>): (r: real) {
    if l == [] then 0.0 else SignedSum(f, E, l[..|l| - 1]) + FlowOf(f, E, l[|l| - 1])
  }

  /** The edge i run the way its first triangle runs it. */
  function Way(T: seq<Tri>, via: map<int, int>, i: int): (r: int) {
    if i in via && 0 <= via[i] < |T| then SignedOf(T[via[i]], i) else 0
  }

  /** The quantity f over the edges of the chain, each the way its first triangle runs it. */
  ghost function ChainSum(f: (int, int) -> real, E: Edges, T: seq<Tri>, via: map<int, int>, ch: seq<int>): (r: real) {
    if ch == [] then 0.0 else FlowOf(f, E, Way(T, via, ch[0])) + ChainSum(f, E, T, via, ch[1..])
  }

  /** The signed sides l handed over so far and the chain carry the same quantities. */
  ghost predicate FlowState(E0: Edges, T: seq<Tri>, l: seq<int>, ch: seq<int>, via: map<int, int>) {
    forall f: (int, int) -> real | Odd(f) :: ChainSum(f, E0, T, via, ch) == SignedSum(f, E0, l)
  }

  lemma SignedSnoc(f: (int, int) -> real, E: Edges, l: seq<int>, a: int)
    ensures SignedSum(f, E, l + [a]) == SignedSum(f, E, l) + FlowOf(f, E, a)
  {
    assert (l + [a])[..|l|] == l;
  }

  lemma {:induction false} ChainSumVia(f: (int, int) -> real, E: Edges, T: seq<Tri>, via: map<int, int>, ch: seq<int>,
      i: int, t: int)
    requires i !in ch
    ensures ChainSum(f, E, T, via[i := t], ch) == ChainSum(f, E, T, via, ch)
  {
    if ch != [] {
      ChainSumVia(f, E, T, via, ch[1..], i, t);
    }
  }

  lemma {:induction false} ChainSumWithout(f: (int, int) -> real, E: Edges, T: seq<Tri>, via: map<int, int>,
      ch: seq<int>, k: int)
    requires 0 <= k < |ch|
    ensures ChainSum(f, E, T, via, Without(ch, k)) == ChainSum(f, E, T, via, ch) - FlowOf(f, E, Way(T, via, ch[k]))
  {
    if k > 0 {
      ChainSumWithout(f, E, T, via, ch[1..], k - 1);
      assert Without(ch, k)[1..] == Without(ch[1..], k - 1) && Without(ch, k)[0] == ch[0];
    } else {
      assert Without(ch, k) == ch[1..];
    }
  }

  lemma FlowFirst(E0: Edges, T: seq<Tri>, l: seq<int>, ch: seq<int>, via: map<int, int>, a: int, t: int)
    requires FlowState(E0, T, l, ch, via) && Abs(a) !in ch && 0 <= t < |T| && SignedOf(T[t], Abs(a)) == a
    ensures FlowState(E0, T, l + [a], [Abs(a)] + ch, via[Abs(a) := t])
  {
    var i := Abs(a);
    forall f: (int, int) -> real | Odd(f) ensures ChainSum(f, E0, T, via[i := t], [i] + ch)
      == SignedSum(f, E0, l + [a]) {
      SignedSnoc(f, E0, l, a);
      ChainSumVia(f, E0, T, via, ch, i, t);
      assert ([i] + ch)[1..] == ch;
    }
  }

  lemma FlowSecond(E0: Edges, T: seq<Tri>, l: seq<int>, ch: seq<int>, via: map<int, int>, a: int, k: int)
    requires FlowState(E0, T, l, ch, via) && 0 <= k < |ch| && ch[k] == Abs(a) && Way(T, via, Abs(a)) == -a
    ensures FlowState(E0, T, l + [a], Without(ch, k), via)
  {
    forall f: (int, int) -> real | Odd(f) ensures ChainSum(f, E0, T, via, Without(ch, k)) == SignedSum(f, E0, l + [a]) {
      SignedSnoc(f, E0, l, a);
      ChainSumWithout(f, E0, T, via, ch, k);
      assert FlowOf(f, E0, -a) == -FlowOf(f, E0, a);
    }
  }

  /** Two triangles of an edge run it in opposite ways. */
  lemma OppositeWays(E: Edges, T: seq<Tri>, i: int, t: int, u: int)
    requires MeshInv(E, T) && Active(T, t) && Active(T, u) && t != u && Has(T, t, i) && Has(T, u, i) && i > 0
    ensures SignedOf(T[t], i) == -SignedOf(T[u], i)
  {
    hide MeshInv;
    SidesDistinct(E, T, t);
    SidesDistinct(E, T, u);
    EdgeSound(E, T, i);
    OppositeUses(E[i], T, i, t, u);
  }

  lemma OppositeUses(e: Edge, T: seq<Tri>, i: int, t: int, u: int)
    requires Active(T, t) && Active(T, u) && t != u && Has(T, t, i) && Has(T, u, i) && i > 0 && Listed(e, t)
      && Listed(e, u)
    requires !(Uses(T[e.tr1], i) && Uses(T[e.tr2], i)) && !(Uses(T[e.tr1], -i) && Uses(T[e.tr2], -i))
    ensures SignedOf(T[t], i) == -SignedOf(T[u], i)
  {
  }

  /** One side noar of triangle nt goes to `caetoi_`; a side seen for the first time loses nt. */
  method HandleSide(table: Table, noar: int, nt: int, n1aeoc: int, ghost E0: Edges, ghost T: seq<Tri>,
      ghost ts: seq<int>,
                    ghost sd: seq<int>, ghost l: seq<int>, ghost a: int, ghost ch: seq<int>, ghost via: map<int, int>)
    returns (n1: int, ierr: int, ghost ch': seq<int>, ghost via': map<int, int>)
    requires table.Valid() && Bounded(table.Live(), table.mxsomm)
      && StarState(E0, table.Live(), T, ts, sd, n1aeoc, ch, via)
    requires noar in E0 && noar > 0 && Few(sd, noar) && nt in ts && Has(T, nt, noar)
    requires FlowState(E0, T, l, ch, via) && Abs(a) == noar && 0 <= nt < |T| && SignedOf(T[nt], noar) == a
    requires (noar in ch && noar in via ==> Way(T, via, noar) == -a) && ch == Toggled(sd)
    modifies table`n1soar, table`plan, table.nosoar, table.noarst
    ensures table.Valid() && (ierr == 0 || ierr == 17)
    ensures ierr == 0 ==> Bounded(table.Live(), table.mxsomm)
                          && StarState(E0, table.Live(), T, ts, sd + [noar], n1, ch', via')
    ensures ierr == 0 ==> FlowState(E0, T, l + [a], ch', via')
    ensures ierr == 17 <==> LateIn(Toggled(sd), noar)
    ensures ierr == 0 ==> ch' == Toggled(sd + [noar])
    ensures via' == via || via' == via[noar := nt]
  {
    hide TableInv, LiveEdges, StarState, StarChain, EdgeState, Unchained, Without, FlowState, Way, SignedOf, Toggled,
      Toggle, LateIn;
    ghost var E := table.Live();
    ToggledNext(sd, noar);
    StateAt(E0, E, T, ts, sd, n1aeoc, ch, via, noar);
    var nbtrar;
    n1, nbtrar, ch' := Caetoi(table, noar, n1aeoc, ch);
    via', ierr := via, 0;
    if nbtrar <= 0 {
      ierr := 17;
      return;
    }
    if nbtrar == 1 {
      LiveCells(table, noar);
      if table.nosoar[noar].tr1 == nt {
        table.Write(noar, EdgeOf(table.nosoar[noar]).(tr1 := table.nosoar[noar].tr2));
      } else {
        table.Write(noar, EdgeOf(table.nosoar[noar]).(tr2 := -1));
      }
      via' := via[noar := nt];
      StateFirst(E0, E, T, ts, sd, n1aeoc, ch, via, noar, nt, table.Live());
      FlowFirst(E0, T, l, ch, via, a, nt);
      FreedBounded(E, table.Live(), noar, table.mxsomm);
    } else {
      ChainMembers(E, n1aeoc, ch);
      ghost var k :| 0 <= k < |ch| && ch[k] == noar && ch' == Without(ch, k)
                     && table.Live() == if E[noar].line <= 0 then Unchained(E, ch, k) - {noar} else Unchained(E, ch, k);
      StateSecond(E0, E, T, ts, sd, n1aeoc, ch, via, noar, k, table.Live(), n1);
      StateVia(E0, E, T, ts, sd, n1aeoc, ch, via, noar);
      FlowSecond(E0, T, l, ch, via, a, k);
      SecondBounded(E, table.Live(), ch, k, noar, table.mxsomm);
    }
  }

  /** What the state says about the edge that comes next. */
  lemma StateAt(E0: Edges, E: Edges, T: seq<Tri>, ts: seq<int>, sd: seq<int>, n1: int, ch: seq<int>, via: map<int, int>,
      i: int)
    requires StarState(E0, E, T, ts, sd, n1, ch, via) && i in E0 && multiset(sd)[i] <= 1
    ensures i in E && StarChain(E, n1, ch) && (i in ch <==> multiset(sd)[i] == 1) && E[i].line == E0[i].line
  {
    hide StarChain;
    assert EdgeState(E0, E, i, multiset(sd)[i], ch, via);
  }

  lemma StateVia(E0: Edges, E: Edges, T: seq<Tri>, ts: seq<int>, sd: seq<int>, n1: int, ch: seq<int>, via: map<int,
      int>, i: int)
    requires StarState(E0, E, T, ts, sd, n1, ch, via) && i in E0 && i in ch
    ensures i in via && via[i] in ts && Has(T, via[i], i)
  {
    hide StarChain;
    assert EdgeState(E0, E, i, multiset(sd)[i], ch, via);
  }

  lemma FreedBounded(E: Edges, E': Edges, i: int, mx: int)
    requires Bounded(E, mx) && i in E && i in E' && E' == E[i := E'[i]] && E'[i].st1 == E[i].st1
      && E'[i].st2 == E[i].st2
    ensures Bounded(E', mx)
  {
  }

  lemma SecondBounded(E: Edges, E': Edges, ch: seq<int>, k: int, i: int, mx: int)
    requires Bounded(E, mx) && 0 <= k < |ch| && Unique(ch) && (forall j | 0 <= j < |ch| :: ch[j] in E) && ch[k] == i
    requires E' == if E[i].line <= 0 then Unchained(E, ch, k) - {i} else Unchained(E, ch, k)
    ensures Bounded(E', mx)
  {
    UnchainedAt(E, ch, k, i);
    hide Unchained, Unique;
    forall j | j in E' ensures E'[j].st1 <= mx && E'[j].st2 <= mx {
      UnchainedAt(E, ch, k, j);
    }
  }

  /** The vertex s joins the list l unless it is in it. */
  function AddVertex(l: seq<int>, s: int): (r: seq<int>) {
    if s in l then l else l + [s]
  }

  /** The corners of triangle nt, read while its sides are still in the table. */
  method CornersOf(table: Table, noartr: array<Tri>, nt: int, ghost E0: Edges) returns (s1: int, s2: int, s3: int)
    requires table.Valid() && MeshInv(E0, noartr[..]) && Active(noartr[..], nt)
    requires forall i | Has(noartr[..], nt, i) :: i in table.Live() && i in E0 && table.Live()[i].st1 == E0[i].st1
                                                  && table.Live()[i].st2 == E0[i].st2
    ensures (s1, s2, s3) == Verts(E0, noartr[nt])
  {
    hide TableInv, LiveEdges;
    ghost var T, x := noartr[..], noartr[nt];
    assert TriOk(E0, T, nt) && EdgeOk(E0, T, Abs(x.a1)) && EdgeOk(E0, T, Abs(x.a2)) && EdgeOk(E0, T, Abs(x.a3))
      && 0 !in E0;
    hide MeshInv;
    CornersDiffer(E0, x);
    assert Has(T, nt, Abs(x.a1)) && Has(T, nt, Abs(x.a2));
    LiveCells(table, Abs(x.a1));
    LiveCells(table, Abs(x.a2));
    var na := noartr[nt].a1;
    if na > 0 {
      s1, s2 := table.nosoar[na].st1, table.nosoar[na].st2;
    } else {
      na := -na;
      s1, s2 := table.nosoar[na].st2, table.nosoar[na].st1;
    }
    na := Abs(noartr[nt].a2);
    s3 := table.nosoar[na].st1;
    if s3 == s1 || s3 == s2 {
      s3 := table.nosoar[na].st2;
    }
  }

  /** The prefix of the sides that has been handled when side j of triangle number i comes. */
  lemma PrefixCount(E: Edges, T: seq<Tri>, ts: seq<int>, i: int, part: seq<int>, rest: seq<int>, noar: int)
    requires MeshInv(E, T) && Chosen(T, ts) && 0 <= i < |ts| && SidesAt(T, ts[i]) == part + [noar] + rest && noar in E
    ensures multiset(SidesOf(T, ts[..i]) + part)[noar] <= 1
  {
    CountListed(E, T, ts, noar);
    assert ts == ts[..i] + ([ts[i]] + ts[i + 1..]);
    SidesAdd(T, ts[..i], [ts[i]] + ts[i + 1..]);
    SidesAdd(T, [ts[i]], ts[i + 1..]);
    OneSides(T, ts[i]);
    hide SidesOf, SidesAt, MeshInv;
    var a, b := SidesOf(T, ts[..i]), SidesOf(T, ts[i + 1..]);
    assert SidesOf(T, ts) == a + ((part + [noar] + rest) + b);
    CountParts(a, part, noar, rest, b);
  }

  lemma OneSides(T: seq<Tri>, t: int)
    ensures SidesOf(T, [t]) == SidesAt(T, t)
  {
    assert [t][..0] == [];
  }

  lemma CountParts(a: seq<int>, part: seq<int>, x: int, rest: seq<int>, b: seq<int>)
    ensures multiset(a + ((part + [x] + rest) + b))[x] >= multiset(a + part)[x] + 1
  {
  }

  /** A side of triangle number i of ts, after the sides part of it. */
  method NextSide(table: Table, noar: int, nt: int, n1aeoc: int, ghost E0: Edges, ghost T: seq<Tri>, ghost ts: seq<int>,
      ghost i: int, ghost part: seq<int>,
                  ghost sd: seq<int>, ghost l: seq<int>, ghost a: int, ghost ch: seq<int>, ghost via: map<int, int>)
    returns (n1: int, ierr: int, ghost ch': seq<int>, ghost via': map<int, int>)
    requires table.Valid() && Bounded(table.Live(), table.mxsomm)
      && StarState(E0, table.Live(), T, ts, sd, n1aeoc, ch, via)
    requires MeshInv(E0, T) && Chosen(T, ts) && 0 <= i < |ts| && nt == ts[i] && Seen(ts, i, part, via) && noar !in part
    requires noar in E0 && noar > 0 && Few(sd, noar) && nt in ts && Has(T, nt, noar)
    requires FlowState(E0, T, l, ch, via) && Abs(a) == noar && 0 <= nt < |T| && SignedOf(T[nt], noar) == a
      && ch == Toggled(sd)
    modifies table`n1soar, table`plan, table.nosoar, table.noarst
    ensures table.Valid() && (ierr == 0 || ierr == 17) && (ierr == 17 <==> LateIn(Toggled(sd), noar))
    ensures ierr == 0 ==> Bounded(table.Live(), table.mxsomm)
                          && StarState(E0, table.Live(), T, ts, sd + [noar], n1, ch', via')
    ensures ierr == 0 ==> FlowState(E0, T, l + [a], ch', via') && Seen(ts, i, part + [noar], via')
                          && Seen(ts, i + 1, [], via')
    ensures ierr == 0 ==> ch' == Toggled(sd + [noar])
  {
    hide TableInv, LiveEdges, StarState, MeshInv, Bounded, FlowState, SignedOf, Way, Seen, Chosen, Has, Toggled, LateIn;
    StateVias(E0, table.Live(), T, ts, sd, n1aeoc, ch, via);
    Ways(E0, T, ts, via, i, part, a);
    n1, ierr, ch', via' := HandleSide(table, noar, nt, n1aeoc, E0, T, ts, sd, l, a, ch, via);
    SeenNext(ts, i, part, via, via', noar);
  }

  /** The three sides of triangle number i of ts. */
  method HandleTriangle(table: Table, noartr: array<Tri>, nt: int, n1aeoc: int, ghost E0: Edges, ghost ts: seq<int>,
      ghost i: int,
                        ghost ch: seq<int>, ghost via: map<int, int>)
    returns (n1: int, ierr: int, ghost ch': seq<int>, ghost via': map<int, int>)
    requires table.Valid() && Bounded(table.Live(), table.mxsomm) && MeshInv(E0, noartr[..]) && Chosen(noartr[..], ts)
    requires 0 <= i < |ts| && nt == ts[i] && StarState(E0, table.Live(), noartr[..], ts, SidesOf(noartr[..], ts[..i]),
      n1aeoc, ch, via)
    requires FlowState(E0, noartr[..], SignedSides(noartr[..], ts[..i]), ch, via) && Seen(ts, i, [], via)
    requires ch == Toggled(SidesOf(noartr[..], ts[..i])) && Early(SidesOf(noartr[..], ts[..i]))
    modifies table`n1soar, table`plan, table.nosoar, table.noarst
    ensures table.Valid() && (ierr == 0 || ierr == 17)
    ensures ierr == 17 ==> TooLong(SidesOf(noartr[..], ts))
    ensures ierr == 0 ==> ch' == Toggled(SidesOf(noartr[..], ts[..i + 1])) && Early(SidesOf(noartr[..], ts[..i + 1]))
    ensures ierr == 0 ==> Bounded(table.Live(), table.mxsomm)
                          && StarState(E0, table.Live(), noartr[..], ts, SidesOf(noartr[..], ts[..i + 1]), n1, ch',
                          via')
    ensures ierr == 0 ==> FlowState(E0, noartr[..], SignedSides(noartr[..], ts[..i + 1]), ch', via')
                          && Seen(ts, i + 1, [], via')
  {
    hide TableInv, LiveEdges, StarState, MeshInv, SidesOf, SidesAt, Few, Bounded, FlowState, SignedOf, Way, SignedSides,
      Seen, Has, Chosen, Toggled, LateIn, Early, TooLong;
    ghost var T := noartr[..];
    ChosenAt(T, ts, i);
    ghost var x := noartr[nt];
    var a1, a2, a3 := Abs(noartr[nt].a1), Abs(noartr[nt].a2), Abs(noartr[nt].a3);
    ghost var sd, l := SidesOf(T, ts[..i]), SignedSides(T, ts[..i]);
    TriangleSides(E0, T, ts, i);
    assert [] + [a1] == [a1] && [a1] + [a2] == [a1, a2];
    SidesPrefix(T, ts, i);
    EarlyNext(SidesOf(T, ts), sd, a1);
    EarlyNext(SidesOf(T, ts), sd + [a1], a2);
    EarlyNext(SidesOf(T, ts), sd + [a1] + [a2], a3);
    PrefixTwice(sd, a1, a2, a3, SidesOf(T, ts));
    n1, ierr, ch', via' := NextSide(table, a1, nt, n1aeoc, E0, T, ts, i, [], sd, l, x.a1, ch, via);
    if ierr != 0 {
      return;
    }
    n1, ierr, ch', via' := NextSide(table, a2, nt, n1, E0, T, ts, i, [a1], sd + [a1], l + [x.a1], x.a2, ch', via');
    if ierr != 0 {
      return;
    }
    n1, ierr, ch', via' := NextSide(table, a3, nt, n1, E0, T, ts, i, [a1, a2], sd + [a1] + [a2], l + [x.a1] + [x.a2],
      x.a3, ch', via');
  }

  /** No side of sd comes late. */
  ghost predicate Early(sd: seq<int>) {
    forall k :: !LateAt(sd, k)
  }

  lemma EarlyNext(all: seq<int>, sd: seq<int>, x: int)
    ensures Early(sd) && !LateIn(Toggled(sd), x) ==> Early(sd + [x])
    ensures LateIn(Toggled(sd), x) && sd + [x] <= all ==> TooLong(all)
  {
    hide Toggled, LateIn;
    var l := sd + [x];
    assert l[..|sd|] == sd && l[|sd|] == x;
    forall k ensures LateAt(l, k) <==> LateAt(sd, k) || (k == |sd| && LateIn(Toggled(sd), x)) {
      if 0 <= k < |sd| {
        assert l[..k] == sd[..k];
      }
    }
    if l <= all {
      assert all[..|sd|] == sd && all[|sd|] == x;
      assert LateIn(Toggled(sd), x) ==> LateAt(all, |sd|);
    }
  }

  lemma PrefixTwice(sd: seq<int>, a: int, b: int, c: int, all: seq<int>)
    requires sd + [a] + [b] + [c] <= all
    ensures sd + [a] <= all && sd + [a] + [b] <= all
  {
    var l := sd + [a] + [b] + [c];
    assert l[..|sd| + 1] == sd + [a] && l[..|sd| + 2] == sd + [a] + [b];
  }

  lemma SidesPrefix(T: seq<Tri>, ts: seq<int>, i: int)
    requires 0 <= i < |ts|
    ensures SidesOf(T, ts[..i + 1]) <= SidesOf(T, ts)
  {
    assert ts == ts[..i + 1] + ts[i + 1..];
    SidesAdd(T, ts[..i + 1], ts[i + 1..]);
  }

  /** The sides of triangle number i, one by one. */
  lemma TriangleSides(E: Edges, T: seq<Tri>, ts: seq<int>, i: int)
    requires MeshInv(E, T) && Chosen(T, ts) && 0 <= i < |ts|
    ensures ts[i] in ts && Active(T, ts[i])
    ensures var x, t, sd, l := T[ts[i]], ts[i], SidesOf(T, ts[..i]), SignedSides(T, ts[..i]);
            var a1, a2, a3 := Abs(x.a1), Abs(x.a2), Abs(x.a3);
            && a1 in E && a2 in E && a3 in E && a1 > 0 && a2 > 0 && a3 > 0
            && a2 !in [a1] && a3 !in [a1, a2] && Has(T, t, a1) && Has(T, t, a2) && Has(T, t, a3)
            && SignedOf(x, a1) == x.a1 && SignedOf(x, a2) == x.a2 && SignedOf(x, a3) == x.a3
            && Few(sd, a1) && Few(sd + [a1], a2) && Few(sd + [a1] + [a2], a3)
            && SidesOf(T, ts[..i + 1]) == sd + [a1] + [a2] + [a3]
            && SignedSides(T, ts[..i + 1]) == l + [x.a1] + [x.a2] + [x.a3]
  {
    ChosenAt(T, ts, i);
    var nt := ts[i];
    SidesDistinct(E, T, nt);
    SignedAt(E, T, nt);
    NonZero(E, T, nt);
    SignedNext(T, ts, i);
    hide SidesOf, SidesAt, SignedSides, MeshInv, Chosen;
    SidesCounts(E, T, ts, i, Abs(T[nt].a1), Abs(T[nt].a2), Abs(T[nt].a3));
    Append3(SignedSides(T, ts[..i]), T[nt].a1, T[nt].a2, T[nt].a3);
  }

  lemma Append3(l: seq<int>, a: int, b: int, c: int)
    ensures l + [a, b, c] == l + [a] + [b] + [c]
  {
  }

  lemma SidesCounts(E: Edges, T: seq<Tri>, ts: seq<int>, i: int, a1: int, a2: int, a3: int)
    requires MeshInv(E, T) && Chosen(T, ts) && 0 <= i < |ts| && a1 in E && a2 in E && a3 in E
      && SidesAt(T, ts[i]) == [a1, a2, a3]
    ensures Few(SidesOf(T, ts[..i]), a1) && Few(SidesOf(T, ts[..i]) + [a1], a2)
      && Few(SidesOf(T, ts[..i]) + [a1] + [a2], a3)
    ensures SidesOf(T, ts[..i + 1]) == SidesOf(T, ts[..i]) + [a1] + [a2] + [a3]
  {
    SidesNext(T, ts, i);
    hide SidesOf, SidesAt, MeshInv, Chosen, Few;
    var sd := SidesOf(T, ts[..i]);
    Append3(sd, a1, a2, a3);
    ThreeAs(a1, a2, a3);
    assert sd + [] == sd;
    SeenCount(E, T, ts, i, [], [a2, a3], a1, sd);
    SeenCount(E, T, ts, i, [a1], [a3], a2, sd + [a1]);
    assert sd + [a1] + [a2] == sd + [a1, a2];
    SeenCount(E, T, ts, i, [a1, a2], [], a3, sd + [a1] + [a2]);
  }

  /** x is at most once in l. */
  ghost predicate Few(l: seq<int>, x: int) {
    multiset(l)[x] <= 1
  }

  lemma ThreeAs(a: int, b: int, c: int)
    ensures [a, b, c] == [] + [a] + [b, c] && [a, b, c] == [a] + [b] + [c] && [a, b, c] == [a, b] + [c] + []
  {
  }

  lemma SeenCount(E: Edges, T: seq<Tri>, ts: seq<int>, i: int, part: seq<int>, rest: seq<int>, noar: int, sd: seq<int>)
    requires MeshInv(E, T) && Chosen(T, ts) && 0 <= i < |ts| && SidesAt(T, ts[i]) == part + [noar] + rest && noar in E
    requires sd == SidesOf(T, ts[..i]) + part
    ensures Few(sd, noar)
  {
    PrefixCount(E, T, ts, i, part, rest, noar);
  }

  /** The signed sides of the triangles ts. */
  function SignedSides(T: seq<Tri>, ts: seq<int>): (r: seq<int>) {
    if ts == [] then []
    else
      var t := ts[|ts| - 1];
      SignedSides(T, ts[..|ts| - 1]) + if 0 <= t < |T| then [T[t].a1, T[t].a2, T[t].a3] else []
  }

  lemma SignedNext(T: seq<Tri>, ts: seq<int>, i: int)
    requires 0 <= i < |ts| && 0 <= ts[i] < |T|
    ensures SignedSides(T, ts[..i + 1]) == SignedSides(T, ts[..i]) + [T[ts[i]].a1, T[ts[i]].a2, T[ts[i]].a3]
  {
    assert ts[..i + 1][..i] == ts[..i];
  }

  lemma SignedAt(E: Edges, T: seq<Tri>, t: int)
    requires MeshInv(E, T) && Active(T, t)
    ensures var x := T[t]; SignedOf(x, Abs(x.a1)) == x.a1 && SignedOf(x, Abs(x.a2)) == x.a2
                           && SignedOf(x, Abs(x.a3)) == x.a3
  {
    SidesDistinct(E, T, t);
    hide MeshInv;
  }

  /** The triangles in via are before number i, or it, for the sides part. */
  ghost predicate Seen(ts: seq<int>, i: int, part: seq<int>, via: map<int, int>) {
    0 <= i <= |ts| && forall j | j in via :: via[j] in ts[..i] || (i < |ts| && via[j] == ts[i] && j in part)
  }

  /** When the side a of triangle number i is in the chain already, it was put there by another
      triangle, which runs it the other way. */
  lemma Ways(E0: Edges, T: seq<Tri>, ts: seq<int>, via: map<int, int>, i: int, part: seq<int>, a: int)
    requires MeshInv(E0, T) && Chosen(T, ts) && 0 <= i < |ts| && Seen(ts, i, part, via) && Abs(a) !in part
    requires Has(T, ts[i], Abs(a)) && Abs(a) > 0 && SignedOf(T[ts[i]], Abs(a)) == a
    requires Abs(a) in via ==> via[Abs(a)] in ts && Has(T, via[Abs(a)], Abs(a))
    ensures Abs(a) in via ==> Way(T, via, Abs(a)) == -a
  {
    if Abs(a) in via {
      var t := via[Abs(a)];
      ChosenAt(T, ts, i);
      assert ts[..i][..] == ts[..i];
      assert t != ts[i] by {
        assert t in ts[..i];
      }
      OppositeWays(E0, T, Abs(a), t, ts[i]);
    }
  }

  lemma SeenNext(ts: seq<int>, i: int, part: seq<int>, via: map<int, int>, via': map<int, int>, noar: int)
    requires Seen(ts, i, part, via) && i < |ts| && (via' == via || via' == via[noar := ts[i]])
    ensures Seen(ts, i, part + [noar], via')
    ensures Seen(ts, i + 1, [], via')
  {
    assert ts[..i + 1] == ts[..i] + [ts[i]];
    assert (part + [noar])[|part|] == noar;
    forall j | j in via' ensures via'[j] in ts[..i] || (via'[j] == ts[i] && j in part + [noar]) {
      if j in via && via'[j] == via[j] && via[j] !in ts[..i] {
        assert j in part;
      }
    }
  }

  lemma StateVias(E0: Edges, E: Edges, T: seq<Tri>, ts: seq<int>, sd: seq<int>, n1: int, ch: seq<int>, via: map<int,
      int>)
    requires StarState(E0, E, T, ts, sd, n1, ch, via)
    ensures forall i | i in via :: via[i] in ts && Has(T, via[i], i)
  {
  }

  lemma NonZero(E: Edges, T: seq<Tri>, t: int)
    requires MeshInv(E, T) && Active(T, t)
    ensures Abs(T[t].a1) > 0 && Abs(T[t].a2) > 0 && Abs(T[t].a3) > 0
  {
    assert TriOk(E, T, t);
  }

  lemma SidesNext(T: seq<Tri>, ts: seq<int>, i: int)
    requires 0 <= i < |ts|
    ensures SidesOf(T, ts[..i + 1]) == SidesOf(T, ts[..i]) + SidesAt(T, ts[i])
  {
    assert ts[..i + 1][..i] == ts[..i];
  }

  /** The corners met so far: each once. */
  ghost predicate Met(E: Edges, T: seq<Tri>, ts: seq<int>, l: seq<int>) {
    && Unique(l)
    && (forall s :: s in l <==> exists t :: t in ts && 0 <= t < |T| && IsCorner(E, T[t], s))
  }

  predicate IsCorner(E: Edges, x: Tri, s: int) {
    var (a, b, c) := Verts(E, x);
    s == a || s == b || s == c
  }

  lemma MetNext(E: Edges, T: seq<Tri>, ts: seq<int>, i: int, l: seq<int>)
    requires 0 <= i < |ts| && 0 <= ts[i] < |T| && Met(E, T, ts[..i], l)
    ensures var (a, b, c) := Verts(E, T[ts[i]]);
            Met(E, T, ts[..i + 1], AddVertex(AddVertex(AddVertex(l, a), b), c))
  {
    var (a, b, c) := Verts(E, T[ts[i]]);
    var us, l' := ts[..i + 1], AddVertex(AddVertex(AddVertex(l, a), b), c);
    assert us == ts[..i] + [ts[i]];
    AddUnique(l, a);
    AddUnique(AddVertex(l, a), b);
    AddUnique(AddVertex(AddVertex(l, a), b), c);
    hide AddVertex, Unique;
    forall s ensures s in l' <==> exists t :: t in us && 0 <= t < |T| && IsCorner(E, T[t], s) {
      if s == a || s == b || s == c {
        assert ts[i] in us && IsCorner(E, T[ts[i]], s);
      } else if s in l {
        var t :| t in ts[..i] && 0 <= t < |T| && IsCorner(E, T[t], s);
        assert t in us;
      } else if t :| t in us && 0 <= t < |T| && IsCorner(E, T[t], s) {
        assert t in ts[..i] || t == ts[i];
      }
    }
  }

  lemma AddUnique(l: seq<int>, s: int)
    requires Unique(l)
    ensures Unique(AddVertex(l, s)) && forall u :: u in AddVertex(l, s) <==> u in l || u == s
  {
    var r := AddVertex(l, s);
    if s !in l {
      forall i, j | 0 <= i < j < |r| ensures r[i] != r[j] {
        assert r[i] == l[i] && l[i] in l;
      }
      forall u ensures u in r <==> u in l || u == s {
        assert r[|l|] == s;
      }
    }
  }

  /** The first loop of `focftr_`: all sides of all triangles notrcf, and their vertices nostpe. */
  method Gather(table: Table, noartr: array<Tri>, notrcf: seq<int>, ghost E0: Edges)
    returns (n1aeoc: int, nostpe: seq<int>, ierr: int, ghost ch: seq<int>, ghost via: map<int, int>)
    requires table.Valid() && Bounded(table.Live(), table.mxsomm) && MeshInv(table.Live(), noartr[..])
      && E0 == table.Live()
    requires Chosen(noartr[..], notrcf) && forall i | i in E0 :: E0[i].chain < 0
    modifies table`n1soar, table`plan, table.nosoar, table.noarst
    ensures table.Valid() && (ierr == 0 || ierr == 17) && (ierr == 17 <==> TooLong(SidesOf(noartr[..], notrcf)))
    ensures ierr == 0 ==> Bounded(table.Live(), table.mxsomm)
                          && StarState(E0, table.Live(), noartr[..], notrcf, SidesOf(noartr[..], notrcf), n1aeoc, ch,
                          via)
    ensures ierr == 0 ==> Met(E0, noartr[..], notrcf, nostpe)
                          && FlowState(E0, noartr[..], SignedSides(noartr[..], notrcf), ch, via)
  {
    hide TableInv, LiveEdges, StarState, MeshInv, SidesOf, Bounded, Met, Verts, Chosen, AddVertex, FlowState,
      SignedSides, Seen, Toggled, Early, TooLong;
    ghost var T := noartr[..];
    n1aeoc, nostpe, ierr, ch, via := 0, [], 0, [], map[];
    var i := 0;
    GatherStart(E0, T, notrcf);
    assert notrcf[..0] == [];
    while i < |notrcf|
      invariant 0 <= i <= |notrcf| && ierr == 0 && table.Valid() && Bounded(table.Live(), table.mxsomm)
      invariant StarState(E0, table.Live(), T, notrcf, SidesOf(T, notrcf[..i]), n1aeoc, ch, via)
      invariant Met(E0, T, notrcf[..i], nostpe)
      invariant FlowState(E0, T, SignedSides(T, notrcf[..i]), ch, via) && Seen(notrcf, i, [], via)
      invariant ch == Toggled(SidesOf(T, notrcf[..i])) && Early(SidesOf(T, notrcf[..i]))
    {
      var nt := notrcf[i];
      ChosenAt(T, notrcf, i);
      GatherSides(E0, table.Live(), T, notrcf, i, n1aeoc, ch, via);
      var s1, s2, s3 := CornersOf(table, noartr, nt, E0);
      MetNext(E0, T, notrcf, i, nostpe);
      nostpe := AddVertex(AddVertex(AddVertex(nostpe, s1), s2), s3);
      n1aeoc, ierr, ch, via := HandleTriangle(table, noartr, nt, n1aeoc, E0, notrcf, i, ch, via);
      if ierr != 0 {
        return;
      }
      i := i + 1;
    }
    assert notrcf[..|notrcf|] == notrcf;
    NotTooLong(SidesOf(T, notrcf));
  }

  lemma NotTooLong(sd: seq<int>)
    requires Early(sd)
    ensures !TooLong(sd)
  {
  }

  lemma ChosenAt(T: seq<Tri>, ts: seq<int>, i: int)
    requires Chosen(T, ts) && 0 <= i < |ts|
    ensures Active(T, ts[i])
  {
    assert ts[i] in ts;
  }

  lemma GatherStart(E: Edges, T: seq<Tri>, ts: seq<int>)
    requires forall i | i in E :: E[i].chain < 0
    ensures StarState(E, E, T, ts, SidesOf(T, []), 0, [], map[]) && Met(E, T, [], [])
    ensures FlowState(E, T, SignedSides(T, []), [], map[]) && Seen(ts, 0, [], map[])
    ensures Toggled(SidesOf(T, [])) == [] && Early(SidesOf(T, []))
  {
  }

  /** The sides of a triangle not handled yet are in the table. */
  lemma GatherSides(E0: Edges, E: Edges, T: seq<Tri>, ts: seq<int>, i: int, n1: int, ch: seq<int>, via: map<int, int>)
    requires MeshInv(E0, T) && Chosen(T, ts) && 0 <= i < |ts|
      && StarState(E0, E, T, ts, SidesOf(T, ts[..i]), n1, ch, via)
    ensures forall j | Has(T, ts[i], j) :: j in E && j in E0 && E[j].st1 == E0[j].st1 && E[j].st2 == E0[j].st2
  {
    hide MeshInv, SidesOf, StarState, Chosen;
    var t := ts[i];
    ChosenAt(T, ts, i);
    SidesDistinct(E0, T, t);
    var x, sd := T[t], SidesOf(T, ts[..i]);
    forall j | Has(T, t, j) ensures j in E && j in E0 && E[j].st1 == E0[j].st1 && E[j].st2 == E0[j].st2 {
      var part := if j == Abs(x.a1) then [] else if j == Abs(x.a2) then [Abs(x.a1)] else [Abs(x.a1), Abs(x.a2)];
      var rest := if j == Abs(x.a1) then [Abs(x.a2), Abs(x.a3)] else if j == Abs(x.a2) then [Abs(x.a3)] else [];
      assert SidesAt(T, t) == part + [j] + rest;
      PrefixCount(E0, T, ts, i, part, rest, j);
      PrefixLess(sd, part, j);
      StateEnds(E0, E, T, ts, sd, n1, ch, via, j);
    }
  }

  lemma PrefixLess(a: seq<int>, b: seq<int>, x: int)
    ensures multiset(a + b)[x] >= multiset(a)[x]
  {
  }

  lemma StateEnds(E0: Edges, E: Edges, T: seq<Tri>, ts: seq<int>, sd: seq<int>, n1: int, ch: seq<int>, via: map<int,
      int>, j: int)
    requires StarState(E0, E, T, ts, sd, n1, ch, via) && j in E0 && multiset(sd)[j] <= 1
    ensures j in E && E[j].st1 == E0[j].st1 && E[j].st2 == E0[j].st2
  {
    hide StarChain;
    assert EdgeState(E0, E, j, multiset(sd)[j], ch, via);
  }
}
