/** `focftr_`: the simple edges of a set of triangles are put in order as a closed contour, the
    triangles go to the free list, and the vertices that are lost are listed. */
module Focftr {
  import opened Lists
  import opened EdgeTable
  import opened Mesh
  import opened Exchange
  import opened Contours
  import opened Triangles
  import opened Etoile

  predicate HasEnd(E: Edges, i: int, s: int) {
    i in E && (E[i].st1 == s || E[i].st2 == s)
  }

  predicate Joins(E: Edges, i: int, u: int, v: int) {
    i in E && ((E[i].st1 == u && E[i].st2 == v) || (E[i].st1 == v && E[i].st2 == u))
  }

  /** A vertex of the edges of ch is an end of exactly two of them. */
  ghost predicate TwoRegular(E: Edges, ch: seq<int>) {
    && (forall i | i in ch :: i in E && E[i].st1 != E[i].st2)
    && (forall i, s | i in ch && HasEnd(E, i, s) :: exists j :: j in ch && j != i && HasEnd(E, j, s))
    && (forall i, j, k, s | i in ch && j in ch && k in ch && HasEnd(E, i, s) && HasEnd(E, j, s) && HasEnd(E, k, s) ::
      i == j || j == k || i == k)
  }

  /** Some of the edges of ch, but not all. */
  ghost predicate PartOf(a: set<int>, ch: seq<int>) {
    (exists i :: i in a) && (forall i | i in a :: i in ch) && exists j :: j in ch && j !in a
  }

  /** The edges of ch do not fall into two parts without a common vertex. */
  ghost predicate Connected(E: Edges, ch: seq<int>) {
    forall a: set<int> | PartOf(a, ch) ::
      exists i, j, s :: i in a && j in ch && j !in a && HasEnd(E, i, s) && HasEnd(E, j, s)
  }

  /** The edges order have been walked along, through the vertices v; rem are the edges not walked. */
  ghost predicate Walked(E: Edges, ch: seq<int>, order: seq<int>, v: seq<int>, rem: seq<int>) {
    && |v| == |order| + 1 && |order| > 0 && Unique(order)
    && (forall k {:trigger order[k]} | 0 <= k < |order| ::
      order[k] in ch && order[k] !in rem && Joins(E, order[k], v[k], v[k + 1]))
    && (forall i | i in rem :: i in ch && i !in order)
    && (forall i | i in ch :: i in order || i in rem)
  }

  /** No edge left has the last vertex: the walk is back where it began, and has no vertex in common
      with what is left. */
  lemma WalkCloses(E: Edges, ch: seq<int>, order: seq<int>, v: seq<int>, rem: seq<int>)
    requires TwoRegular(E, ch) && Walked(E, ch, order, v, rem)
    requires forall i | i in rem :: !HasEnd(E, i, v[|order|])
    ensures v[|order|] == v[0]
    ensures forall i, j, s | i in order && j in rem && HasEnd(E, i, s) :: !HasEnd(E, j, s)
  {
    var m := |order| - 1;
    var e, last := order[m], v[m + 1];
    assert HasEnd(E, e, last);
    var j :| j in ch && j != e && HasEnd(E, j, last);
    assert j in order;
    var k :| 0 <= k < |order| && order[k] == j;
    WalkBack(E, ch, order, v, rem, k);
    forall i, j, s | i in order && j in rem && HasEnd(E, i, s) ensures !HasEnd(E, j, s) {
      var k :| 0 <= k < |order| && order[k] == i;
      WalkApart(E, ch, order, v, rem, k, j, s);
    }
  }

  /** A second edge at the last vertex is the first edge of the walk, at its start. */
  lemma WalkBack(E: Edges, ch: seq<int>, order: seq<int>, v: seq<int>, rem: seq<int>, k: int)
    requires TwoRegular(E, ch) && Walked(E, ch, order, v, rem) && 0 <= k < |order| - 1
      && HasEnd(E, order[k], v[|order|])
    ensures v[|order|] == v[0]
  {
    var m := |order| - 1;
    assert HasEnd(E, order[m], v[m + 1]);
    assert order[k] != order[m] && order[k] != order[k + 1];
    assert HasEnd(E, order[k + 1], v[k + 1]);
    assert forall i | 0 < i < |order| :: HasEnd(E, order[i - 1], v[i]) by {
      assert forall i | 0 <= i < |order| :: Joins(E, order[i], v[i], v[i + 1]);
    }
  }

  lemma WalkApart(E: Edges, ch: seq<int>, order: seq<int>, v: seq<int>, rem: seq<int>, k: int, j: int, s: int)
    requires TwoRegular(E, ch) && Walked(E, ch, order, v, rem) && v[|order|] == v[0] && 0 <= k < |order| && j in rem
      && HasEnd(E, order[k], s)
    ensures !HasEnd(E, j, s)
  {
    var n := |order|;
    assert j in ch && j !in order;
    assert Joins(E, order[k], v[k], v[k + 1]);
    assert |order| > 1;
    if s == v[k] {
      var p := if k == 0 then n - 1 else k - 1;
      assert Joins(E, order[p], v[p], v[p + 1]);
      assert HasEnd(E, order[p], s) && order[p] != order[k];
    } else {
      var q := if k == n - 1 then 0 else k + 1;
      assert Joins(E, order[q], v[q], v[q + 1]);
      assert HasEnd(E, order[q], s) && order[q] != order[k];
    }
  }

  /** When the edges hang together, the walk has gone through all of them. */
  lemma WalkAll(E: Edges, ch: seq<int>, order: seq<int>, v: seq<int>, rem: seq<int>)
    requires Connected(E, ch) && Walked(E, ch, order, v, rem)
    requires forall i, j, s | i in order && j in rem && HasEnd(E, i, s) :: !HasEnd(E, j, s)
    ensures rem == []
  {
    if rem != [] {
      var a := set i | i in order;
      var r := rem[0];
      assert order[0] in a;
      assert r in rem;
      assert r in ch && r !in a;
      assert PartOf(a, ch);
    }
  }

  // ---------------------------------------------------------------- the direction of the contour

  /** A step that leaves s counts 1, a step that enters it -1. */
  ghost function AtVertex(s: int): (r: (int, int) -> real) {
    (u: int, v: int) => (if u == s then 1.0 else 0.0) - (if v == s then 1.0 else 0.0)
  }

  lemma AtVertexOdd(s: int)
    ensures Odd(AtVertex(s))
  {
  }

  lemma SignedThree(f: (int, int) -> real, E: Edges, l: seq<int>, a: int, b: int, c: int)
    ensures SignedSum(f, E, l + [a, b, c]) == SignedSum(f, E, l) + FlowOf(f, E, a) + FlowOf(f, E, b) + FlowOf(f, E, c)
  {
    SignedSnoc(f, E, l, a);
    SignedSnoc(f, E, l + [a], b);
    SignedSnoc(f, E, l + [a] + [b], c);
    assert l + [a, b, c] == l + [a] + [b] + [c];
  }

  /** The corners of the triangles ts. */
  ghost function CornersAll(E: Edges, T: seq<Tri>, ts: seq<int>): (r: seq<(int, int, int)>) {
    if ts == [] then []
    else
      var t := ts[|ts| - 1];
      CornersAll(E, T, ts[..|ts| - 1]) + if 0 <= t < |T| then [Verts(E, T[t])] else []
  }

  /** The signed sides of triangles, and the triangles, carry the same. */
  lemma {:induction false} SignedTriangles(f: (int, int) -> real, E: Edges, T: seq<Tri>, ts: seq<int>)
    requires MeshInv(E, T) && forall t | t in ts :: Active(T, t)
    ensures SignedSum(f, E, SignedSides(T, ts)) == OfTriangles(f, CornersAll(E, T, ts))
  {
    if ts != [] {
      var us, t := ts[..|ts| - 1], ts[|ts| - 1];
      assert t in ts;
      SignedTriangles(f, E, T, us);
      assert TriOk(E, T, t);
      var x := T[t];
      SignedThree(f, E, SignedSides(T, us), x.a1, x.a2, x.a3);
      var c := CornersAll(E, T, us);
      assert (c + [Verts(E, x)])[..|c|] == c;
    }
  }

  lemma {:induction false} TrianglesBalance(s: int, tris: seq<(int, int, int)>)
    ensures OfTriangles(AtVertex(s), tris) == 0.0
  {
    if tris != [] {
      TrianglesBalance(s, tris[..|tris| - 1]);
    }
  }

  lemma {:induction false} ChainSumNone(f: (int, int) -> real, E: Edges, T: seq<Tri>, via: map<int, int>, ch: seq<int>)
    requires forall x | x in ch :: FlowOf(f, E, Way(T, via, x)) == 0.0
    ensures ChainSum(f, E, T, via, ch) == 0.0
  {
    if ch != [] {
      ChainSumNone(f, E, T, via, ch[1..]);
    }
  }

  /** Only two edges of the chain carry f. */
  lemma ChainSumTwo(f: (int, int) -> real, E: Edges, T: seq<Tri>, via: map<int, int>, ch: seq<int>, i: int, j: int)
    requires Unique(ch) && i in ch && j in ch && i != j
    requires forall x | x in ch && x != i && x != j :: FlowOf(f, E, Way(T, via, x)) == 0.0
    ensures ChainSum(f, E, T, via, ch) == FlowOf(f, E, Way(T, via, i)) + FlowOf(f, E, Way(T, via, j))
  {
    var k :| 0 <= k < |ch| && ch[k] == i;
    ChainSumWithout(f, E, T, via, ch, k);
    WithoutMembers(ch, k);
    var l := Without(ch, k);
    var m :| 0 <= m < |l| && l[m] == j;
    ChainSumWithout(f, E, T, via, l, m);
    WithoutMembers(l, m);
    ChainSumNone(f, E, T, via, Without(l, m));
  }

  /** The way of an edge in via is one of its two directions. */
  lemma WayEnds(E: Edges, T: seq<Tri>, via: map<int, int>, i: int)
    requires i in E && i > 0 && i in via && Has(T, via[i], i)
    ensures var a := Way(T, via, i);
            Abs(a) == i
              && ((Start(E, a) == E[i].st1 && End(E, a) == E[i].st2)
              || (Start(E, a) == E[i].st2 && End(E, a) == E[i].st1))
  {
  }

  /** What is known of the chain when all triangles have been handled. */
  ghost predicate Chain0(E: Edges, T: seq<Tri>, ts: seq<int>, ch: seq<int>, via: map<int, int>) {
    && MeshInv(E, T) && Chosen(T, ts) && Unique(ch) && FlowState(E, T, SignedSides(T, ts), ch, via)
    && forall i | i in ch :: i in E && i > 0 && i in via && via[i] in ts && Has(T, via[i], i)
  }

  /** At a vertex of two simple edges, one comes in and one goes out. */
  lemma InAndOut(E: Edges, T: seq<Tri>, ts: seq<int>, ch: seq<int>, via: map<int, int>, i: int, j: int, s: int)
    requires Chain0(E, T, ts, ch, via) && TwoRegular(E, ch) && i in ch && j in ch && i != j && HasEnd(E, i, s)
      && HasEnd(E, j, s)
    ensures End(E, Way(T, via, i)) == s <==> Start(E, Way(T, via, j)) == s
  {
    var f := AtVertex(s);
    AtVertexOdd(s);
    SignedTriangles(f, E, T, ts);
    TrianglesBalance(s, CornersAll(E, T, ts));
    assert ChainSum(f, E, T, via, ch) == SignedSum(f, E, SignedSides(T, ts));
    forall x | x in ch ensures x != i && x != j ==> FlowOf(f, E, Way(T, via, x)) == 0.0 {
      WayEnds(E, T, via, x);
      assert HasEnd(E, x, s) ==> x == i || x == j;
    }
    WayEnds(E, T, via, i);
    WayEnds(E, T, via, j);
    hide MeshInv, FlowState, ChainSum, SignedSum, Way, Chosen;
    ChainSumTwo(f, E, T, via, ch, i, j);
  }

  /** A walk that starts the way its first edge runs goes the way of all its edges. */
  lemma {:induction false} WalkWay(E: Edges, T: seq<Tri>, ts: seq<int>, ch: seq<int>, via: map<int, int>,
      order: seq<int>, v: seq<int>, rem: seq<int>, k: int)
    requires Chain0(E, T, ts, ch, via) && TwoRegular(E, ch) && Walked(E, ch, order, v, rem) && 0 <= k < |order|
    requires Start(E, Way(T, via, order[0])) == v[0] && End(E, Way(T, via, order[0])) == v[1]
    ensures Start(E, Way(T, via, order[k])) == v[k] && End(E, Way(T, via, order[k])) == v[k + 1]
    decreases k
  {
    hide Chain0, TwoRegular, Walked, Way, Start;
    if k > 0 {
      WalkWay(E, T, ts, ch, via, order, v, rem, k - 1);
      WalkStep(E, T, ts, ch, via, order, v, rem, k);
      InAndOut(E, T, ts, ch, via, order[k - 1], order[k], v[k]);
      WayEnds(E, T, via, order[k]);
    }
  }

  lemma WalkStep(E: Edges, T: seq<Tri>, ts: seq<int>, ch: seq<int>, via: map<int, int>, order: seq<int>, v: seq<int>,
      rem: seq<int>, k: int)
    requires Chain0(E, T, ts, ch, via) && TwoRegular(E, ch) && Walked(E, ch, order, v, rem) && 0 < k < |order|
    ensures |v| == |order| + 1 && order[k - 1] in ch && order[k] in ch && order[k - 1] != order[k]
      && HasEnd(E, order[k - 1], v[k]) && HasEnd(E, order[k], v[k])
    ensures Joins(E, order[k], v[k], v[k + 1]) && order[k] in E && order[k] > 0 && order[k] in via
      && Has(T, via[order[k]], order[k])
    ensures E[order[k]].st1 != E[order[k]].st2
  {
    hide MeshInv, Chosen, FlowState;
    assert Joins(E, order[k - 1], v[k - 1], v[k]) && Joins(E, order[k], v[k], v[k + 1]);
  }

  lemma {:induction false} ChainSumAlong(f: (int, int) -> real, E: Edges, T: seq<Tri>, via: map<int, int>,
      order: seq<int>, v: seq<int>)
    requires |v| == |order| + 1
    requires forall k {:trigger order[k]} | 0 <= k < |order| ::
      Start(E, Way(T, via, order[k])) == v[k] && End(E, Way(T, via, order[k])) == v[k + 1]
    ensures ChainSum(f, E, T, via, order) == Along(f, v)
  {
    if order != [] {
      assert order[0] == order[0];
      ChainSumAlong(f, E, T, via, order[1..], v[1..]);
    }
  }

  lemma NoMembers(b: seq<int>)
    ensures b == [] || exists x :: x in b
  {
    if b != [] {
      var x := b[0];
      assert x in b;
    }
  }

  /** The order of the edges does not matter. */
  lemma {:induction false} ChainSumOrder(f: (int, int) -> real, E: Edges, T: seq<Tri>, via: map<int, int>, a: seq<int>,
      b: seq<int>)
    requires Unique(a) && Unique(b) && forall x :: x in a <==> x in b
    ensures ChainSum(f, E, T, via, a) == ChainSum(f, E, T, via, b)
    decreases |a|
  {
    if a == [] {
      NoMembers(b);
    } else {
      assert a[0] in a;
      var k :| 0 <= k < |b| && b[k] == a[0];
      ChainSumWithout(f, E, T, via, b, k);
      ChainSumWithout(f, E, T, via, a, 0);
      WithoutMembers(b, k);
      WithoutMembers(a, 0);
      ChainSumOrder(f, E, T, via, Without(a, 0), Without(b, k));
    }
  }

  /** The contour of all the simple edges carries what the removed triangles carried. */
  lemma ContourFlow(f: (int, int) -> real, E: Edges, T: seq<Tri>, ts: seq<int>, ch: seq<int>, via: map<int, int>,
      order: seq<int>, v: seq<int>)
    requires Odd(f) && Chain0(E, T, ts, ch, via) && TwoRegular(E, ch) && Walked(E, ch, order, v, [])
    requires Start(E, Way(T, via, order[0])) == v[0] && End(E, Way(T, via, order[0])) == v[1]
    ensures OfTriangles(f, CornersAll(E, T, ts)) == Along(f, v)
  {
    forall k | 0 <= k < |order| ensures Start(E, Way(T, via, order[k])) == v[k]
      && End(E, Way(T, via, order[k])) == v[k + 1] {
      WalkWay(E, T, ts, ch, via, order, v, [], k);
    }
    ChainSumAlong(f, E, T, via, order, v);
    SignedTriangles(f, E, T, ts);
    forall x ensures x in ch <==> x in order {
      assert x in order ==> exists k :: 0 <= k < |order| && order[k] == x;
    }
    hide MeshInv, ChainSum, SignedSum, Way, Along;
    ChainSumOrder(f, E, T, via, ch, order);
  }

  // ---------------------------------------------------------------- the walk in the table

  /** E has the edges of E0 that are in ch, with their ends. */
  ghost predicate SameEnds(E0: Edges, E: Edges, ch: seq<int>) {
    forall i | i in ch :: i in E && i in E0 && E[i].st1 == E0[i].st1 && E[i].st2 == E0[i].st2
  }

  /** The first edge left in the chain with the end ns1; na1 == 0 when there is none. */
  method FindNext(table: Table, n1aeoc: int, ns1: int, ghost rem: seq<int>)
      returns (na0: int, na1: int, ns2: int, ghost k: int)
    requires table.Valid() && StarChain(table.Live(), n1aeoc, rem)
    ensures na1 == 0 ==> forall i | i in rem :: !HasEnd(table.Live(), i, ns1)
    ensures na1 != 0 ==> 0 <= k < |rem| && rem[k] == na1 && na1 in table.Live() && na0 == if k > 0 then rem[k - 1]
                         else 0
    ensures na1 != 0 ==> Joins(table.Live(), na1, ns1, ns2)
  {
    hide TableInv, LiveEdges;
    ghost var E := table.Live();
    na0, na1, ns2, k := 0, n1aeoc, 0, 0;
    ChainEnd(E, n1aeoc, rem, 0);
    while na1 > 0
      invariant 0 <= k <= |rem| && na1 == At(rem, k) && na0 == (if k > 0 then rem[k - 1] else 0)
        && (na1 > 0 <==> k < |rem|)
      invariant forall j | 0 <= j < k :: !HasEnd(E, rem[j], ns1)
      decreases |rem| - k
    {
      LiveCells(table, rem[k]);
      if ns1 == table.nosoar[na1].st1 {
        ns2 := table.nosoar[na1].st2;
        return;
      } else if ns1 == table.nosoar[na1].st2 {
        ns2 := table.nosoar[na1].st1;
        return;
      }
      ChainEnd(E, n1aeoc, rem, k + 1);
      na0 := na1;
      na1 := table.nosoar[na1].chain;
      k := k + 1;
    }
    return 0, 0, 0, k;
  }

  lemma ChainEnd(E: Edges, n1: int, ch: seq<int>, k: int)
    requires StarChain(E, n1, ch) && 0 <= k <= |ch|
    ensures At(ch, k) > 0 <==> k < |ch|
    ensures k > 0 ==> ch[k - 1] in E && E[ch[k - 1]].chain == At(ch, k)
    ensures k == 0 ==> n1 == At(ch, 0)
    ensures k == |ch| ==> At(ch, k) == 0
  {
  }

  /** The slots 1 to n of the contour: the vertices and edges walked along. */
  ghost predicate Slots(s: seq<Slot>, order: seq<int>, v: seq<int>, n: int) {
    && |order| == n < |s| && |v| == n + 1
    && forall k {:trigger order[k]} | 0 <= k < n :: s[k + 1] == Slot(v[k], k + 2, order[k])
  }

  /** The state of the walk. */
  ghost predicate Walking(E0: Edges, E: Edges, ch: seq<int>, order: seq<int>, v: seq<int>, rem: seq<int>, n1: int,
      s: seq<Slot>, n: int) {
    && Walked(E0, ch, order, v, rem) && StarChain(E, n1, rem) && SameEnds(E0, E, ch) && Slots(s, order, v, n)
  }

  /** The next edge rem[k], from ns1 to ns2. */
  lemma WalkingNext(E0: Edges, E: Edges, ch: seq<int>, order: seq<int>, v: seq<int>, rem: seq<int>, n1: int,
      s: seq<Slot>, n: int, k: int, ns2: int, n1': int, s': seq<Slot>)
    requires Walking(E0, E, ch, order, v, rem, n1, s, n) && 0 <= k < |rem| && (forall j | 0 <= j < |rem| :: rem[j] in E)
    requires Joins(E, rem[k], v[|order|], ns2) && n + 1 < |s| && s' == s[n + 1 := Slot(v[|order|], n + 2, rem[k])]
    requires n1' == if k > 0 then n1 else E[rem[k]].chain
    ensures Walking(E0, Unchained(E, rem, k), ch, order + [rem[k]], v + [ns2], Without(rem, k), n1', s', n + 1)
  {
    UnchainedChain(E, n1, rem, k);
    ChainMembers(E, n1, rem);
    WithoutMembers(rem, k);
    assert rem[k] in rem;
    hide StarChain, Unchained, Without, Walked, SameEnds, Slots;
    NextEnds(E0, E, ch, rem, k);
    NextWalked(E0, E, ch, order, v, rem, k, ns2, Without(rem, k));
    NextSlots(s, order, v, n, rem[k], ns2, s');
  }

  lemma NextEnds(E0: Edges, E: Edges, ch: seq<int>, rem: seq<int>, k: int)
    requires SameEnds(E0, E, ch) && 0 <= k < |rem| && Unique(rem) && (forall j | 0 <= j < |rem| :: rem[j] in E)
    ensures SameEnds(E0, Unchained(E, rem, k), ch)
  {
    UnchainedAt(E, rem, k, rem[k]);
    hide Unchained, Unique;
    forall j | j in ch ensures j in Unchained(E, rem, k) && Unchained(E, rem, k)[j].st1 == E0[j].st1
      && Unchained(E, rem, k)[j].st2 == E0[j].st2 {
      UnchainedAt(E, rem, k, j);
    }
  }

  lemma NextSlots(s: seq<Slot>, order: seq<int>, v: seq<int>, n: int, i: int, ns2: int, s': seq<Slot>)
    requires Slots(s, order, v, n) && n + 1 < |s| && s' == s[n + 1 := Slot(v[|order|], n + 2, i)]
    ensures Slots(s', order + [i], v + [ns2], n + 1)
  {
    var order', v' := order + [i], v + [ns2];
    forall j | 0 <= j < n + 1 ensures s'[j + 1] == Slot(v'[j], j + 2, order'[j]) {
      if j < n {
        assert order'[j] == order[j];
      }
    }
  }

  lemma NextWalked(E0: Edges, E: Edges, ch: seq<int>, order: seq<int>, v: seq<int>, rem: seq<int>, k: int, ns2: int,
      rem': seq<int>)
    requires Walked(E0, ch, order, v, rem) && SameEnds(E0, E, ch) && 0 <= k < |rem| && Joins(E, rem[k], v[|order|], ns2)
    requires rem[k] in rem && forall i :: i in rem' <==> i in rem && i != rem[k]
    ensures Walked(E0, ch, order + [rem[k]], v + [ns2], rem')
  {
    var order', v', i := order + [rem[k]], v + [ns2], rem[k];
    assert i in ch && i !in order;
    UniqueSnoc(order, i);
    forall x ensures x in order' <==> x in order || x == i {
      assert order'[|order|] == i;
    }
    hide Unique;
    forall j | 0 <= j < |order'| ensures order'[j] in ch && order'[j] !in rem'
      && Joins(E0, order'[j], v'[j], v'[j + 1]) {
      if j < |order| {
        assert order'[j] == order[j] && order[j] !in rem;
      }
    }
  }

  /** The loop of `focftr_` that puts the simple edges in order, from the first one on. */
  method Walk(table: Table, noarcf: array<Slot>, n1: int, ns0: int, start: int, ghost E0: Edges, ghost ch: seq<int>,
      ghost order0: seq<int>, ghost v0: seq<int>, ghost rem0: seq<int>)
    returns (n1aeoc: int, ns1: int, nbarcf: int, ghost order: seq<int>, ghost v: seq<int>, ghost rem: seq<int>)
    requires table.Valid() && Bounded(table.Live(), table.mxsomm) && |order0| == 1 && |v0| == 2 && v0[0] == ns0
      && v0[1] == start
    requires Walking(E0, table.Live(), ch, order0, v0, rem0, n1, noarcf[..], 1) && |ch| < noarcf.Length
    requires forall i, s | i in ch && HasEnd(E0, i, s) :: 1 <= s <= table.mxsomm
    modifies table.nosoar, table.noarst, noarcf
    ensures table.Valid() && Bounded(table.Live(), table.mxsomm)
    ensures Walking(E0, table.Live(), ch, order, v, rem, n1aeoc, noarcf[..], nbarcf) && ns1 == v[|order|]
      && order0 <= order && v0 <= v
    ensures forall i | i in rem :: !HasEnd(E0, i, ns1)
    ensures EdgesKept(old(table.Live()), table.Live())
  {
    hide TableInv, LiveEdges, StarChain, Unchained, Without, Walked, SameEnds, Slots, Bounded;
    ghost var E1 := table.Live();
    n1aeoc, ns1, nbarcf, order, v, rem := n1, start, 1, order0, v0, rem0;
    while n1aeoc > 0
      invariant table.Valid() && Bounded(table.Live(), table.mxsomm)
      invariant Walking(E0, table.Live(), ch, order, v, rem, n1aeoc, noarcf[..], nbarcf) && |v| == |order| + 1
        && ns1 == v[|order|] && order0 <= order && v0 <= v
      invariant EdgesKept(E1, table.Live())
      decreases |rem|
    {
      ghost var E, k := table.Live(), 0;
      var na0, na1, ns2;
      na0, na1, ns2, k := FindNext(table, n1aeoc, ns1, rem);
      if na1 == 0 {
        EndsSame(E0, E, ch, order, v, rem, ns1);
        return;
      }
      WalkSizes(E0, ch, order, v, rem, k, ns1, E, ns2);
      nbarcf := nbarcf + 1;
      SlotsFit(E0, E, ch, order, v, rem, n1aeoc, noarcf[..], nbarcf - 1, k);
      ghost var s := noarcf[..];
      noarcf[nbarcf] := Slot(ns1, nbarcf + 1, na1);
      table.noarst[ns1] := na1;
      ghost var before := n1aeoc;
      n1aeoc := Unchain(table, na1, na0, n1aeoc, rem, k);
      WalkingNext(E0, E, ch, order, v, rem, before, s, nbarcf - 1, k, ns2, n1aeoc, noarcf[..]);
      UnchainedKept(E, rem, k, table.mxsomm);
      KeptTwice(E1, E, table.Live());
      WithoutShorter(rem, k);
      order, v, rem := order + [na1], v + [ns2], Without(rem, k);
      ns1 := ns2;
    }
    NoneLeft(table.Live(), n1aeoc, rem);
  }

  /** Only chain fields differ. */
  ghost predicate EdgesKept(E: Edges, E': Edges) {
    E'.Keys == E.Keys && forall i | i in E :: SameBut(E[i], E'[i])
  }

  lemma KeptTwice(E: Edges, F: Edges, G: Edges)
    requires EdgesKept(E, F) && EdgesKept(F, G)
    ensures EdgesKept(E, G)
  {
  }

  lemma UnchainedKept(E: Edges, ch: seq<int>, k: int, mx: int)
    requires 0 <= k < |ch| && Unique(ch) && (forall j | 0 <= j < |ch| :: ch[j] in E) && Bounded(E, mx)
    ensures EdgesKept(E, Unchained(E, ch, k)) && Bounded(Unchained(E, ch, k), mx)
  {
    UnchainedAt(E, ch, k, ch[k]);
    hide Unchained;
    forall i | i in E ensures SameBut(E[i], Unchained(E, ch, k)[i]) {
      UnchainedAt(E, ch, k, i);
    }
    forall i | i in Unchained(E, ch, k) ensures Unchained(E, ch, k)[i].st1 <= mx && Unchained(E, ch, k)[i].st2 <= mx {
      UnchainedAt(E, ch, k, i);
    }
  }

  lemma WithoutShorter(l: seq<int>, k: int)
    requires 0 <= k < |l|
    ensures |Without(l, k)| == |l| - 1
  {
  }

  lemma EndsSame(E0: Edges, E: Edges, ch: seq<int>, order: seq<int>, v: seq<int>, rem: seq<int>, s: int)
    requires Walked(E0, ch, order, v, rem) && SameEnds(E0, E, ch) && forall i | i in rem :: !HasEnd(E, i, s)
    ensures forall i | i in rem :: !HasEnd(E0, i, s)
  {
  }

  lemma NoneLeft(E: Edges, n1: int, rem: seq<int>)
    requires StarChain(E, n1, rem) && n1 <= 0
    ensures rem == []
  {
    ChainEnd(E, n1, rem, 0);
  }

  lemma WalkSizes(E0: Edges, ch: seq<int>, order: seq<int>, v: seq<int>, rem: seq<int>, k: int, s: int, E: Edges,
      ns2: int)
    requires Walked(E0, ch, order, v, rem) && SameEnds(E0, E, ch) && 0 <= k < |rem| && Joins(E, rem[k], s, ns2)
    ensures rem[k] in ch && HasEnd(E0, rem[k], s)
  {
    assert rem[k] in rem;
  }

  /** There is a slot for every edge. */
  lemma SlotsFit(E0: Edges, E: Edges, ch: seq<int>, order: seq<int>, v: seq<int>, rem: seq<int>, n1: int, s: seq<Slot>,
      n: int, k: int)
    requires Walking(E0, E, ch, order, v, rem, n1, s, n) && 0 <= k < |rem| && |ch| < |s|
    ensures n + 1 <= |ch| && Unique(rem) && forall j | 0 <= j < |rem| :: rem[j] in E
  {
    ChainMembers(E, n1, rem);
    assert rem[k] in rem;
    assert rem[k] !in order;
    UniqueSnoc(order, rem[k]);
    var l := order + [rem[k]];
    forall x | x in l ensures x in ch {
      assert x in order || x == rem[k];
    }
    Pigeons(l, ch);
  }

  // ---------------------------------------------------------------- the first edge

  /** The list with its first member moved to the end. */
  function Turned(l: seq<int>): (r: seq<int>)
    requires l != []
  {
    l[1..] + [l[0]]
  }

  lemma TurnedMembers(ch: seq<int>)
    requires ch != [] && Unique(ch)
    ensures |Turned(ch)| == |ch| && Unique(Turned(ch)) && forall i :: i in Turned(ch) <==> i in ch
    ensures forall k | 0 <= k < |ch| :: Turned(ch)[k] == ch[if k == |ch| - 1 then 0 else k + 1]
  {
    var l, n := Turned(ch), |ch|;
    forall i | i in ch ensures i in l {
      var k :| 0 <= k < n && ch[k] == i;
      assert l[if k == 0 then n - 1 else k - 1] == i;
    }
  }

  /** The table once the first edge of the chain is its last. */
  ghost predicate TurnedChain(E: Edges, ch: seq<int>, E': Edges) {
    && |ch| >= 2 && ch[0] != ch[|ch| - 1]
    && E'.Keys == E.Keys
    && (forall i | i in E :: E'[i] == if i == ch[0] then E[i].(chain := 0)
                             else if i == ch[|ch| - 1] then E[i].(chain := ch[0]) else E[i])
  }

  lemma TurnedLink(E: Edges, n1: int, ch: seq<int>, E': Edges, k: int)
    requires StarChain(E, n1, ch) && TurnedChain(E, ch, E') && 0 <= k < |ch|
    requires |Turned(ch)| == |ch| && forall j | 0 <= j < |ch| :: Turned(ch)[j] == ch[if j == |ch| - 1 then 0 else j + 1]
    ensures var l := Turned(ch);
            l[k] in E' && l[k] > 0 && E'[l[k]].chain == At(l, k + 1)
  {
    hide Turned;
    var m := if k == |ch| - 1 then 0 else k + 1;
    assert Turned(ch)[k] == ch[m];
    assert ch[m] in E && E[ch[m]].chain == At(ch, m + 1);
    assert k < |ch| - 1 ==> Turned(ch)[k + 1] == ch[if k == |ch| - 2 then 0 else k + 2];
  }

  lemma TurnedOthers(E: Edges, n1: int, ch: seq<int>, E': Edges)
    requires StarChain(E, n1, ch) && TurnedChain(E, ch, E')
    ensures forall i | i in E' && i !in ch :: E'[i].chain < 0
    ensures EdgesKept(E, E') && |ch| > 1 && ch[0] in E && E[ch[0]].chain == ch[1]
  {
    hide StarChain, Unique;
    OthersOut(E, n1, ch);
    TwoEnds(E, n1, ch);
    assert ch[0] in ch && ch[|ch| - 1] in ch;
  }

  lemma TwoEnds(E: Edges, n1: int, ch: seq<int>)
    requires StarChain(E, n1, ch) && |ch| > 1
    ensures ch[0] in E && ch[|ch| - 1] in E && E[ch[0]].chain == ch[1]
  {
  }

  lemma RotateChain(E: Edges, n1: int, ch: seq<int>, E': Edges)
    requires StarChain(E, n1, ch) && TurnedChain(E, ch, E')
    ensures ch[0] in E && StarChain(E', E[ch[0]].chain, Turned(ch)) && EdgesKept(E, E')
  {
    ChainMembers(E, n1, ch);
    TurnedMembers(ch);
    TurnedOthers(E, n1, ch, E');
    var l := Turned(ch);
    hide Turned, EdgesKept, Unique, StarChain, TurnedChain;
    forall k | 0 <= k < |l| ensures l[k] in E' && l[k] > 0 && E'[l[k]].chain == At(l, k + 1) {
      TurnedLink(E, n1, ch, E', k);
    }
    ChainOf(E', l[0], l);
  }

  /** The end of the chain. */
  method LastOf(table: Table, n1aeoc: int, ghost ch: seq<int>, ghost from: int) returns (na0: int)
    requires table.Valid() && 0 <= from <= |ch| && n1aeoc == At(ch, from)
    requires (forall k {:trigger ch[k]} | 0 <= k < |ch| ::
      ch[k] in table.Live() && ch[k] > 0 && table.Live()[ch[k]].chain == At(ch, k + 1))
    ensures na0 == if from < |ch| then ch[|ch| - 1] else 0
  {
    hide TableInv, LiveEdges;
    var noar := n1aeoc;
    na0 := 0;
    ghost var k := from;
    while noar > 0
      invariant from <= k <= |ch| && noar == At(ch, k) && na0 == if k > from then ch[k - 1] else 0
      decreases |ch| - k
    {
      assert ch[k] == noar;
      LiveCells(table, ch[k]);
      na0 := noar;
      noar := table.nosoar[noar].chain;
      k := k + 1;
    }
  }

  /** The search of `focftr_` for a simple edge with a triangle on its outer side, which becomes the
      first of the chain.  ierr == 16 when all of several edges are without, 15 for a single one. */
  method FirstEdge(table: Table, n1: int, ghost ch0: seq<int>)
      returns (n1aeoc: int, nt: int, ierr: int, ghost ch: seq<int>)
    requires table.Valid() && Bounded(table.Live(), table.mxsomm) && StarChain(table.Live(), n1, ch0) && ch0 != []
    modifies table.nosoar
    ensures table.Valid() && (ierr == 0 || ierr == 15 || ierr == 16)
    ensures ierr != 0 ==> forall i | i in ch0 :: i in old(table.Live()) && old(table.Live())[i].tr1 <= 0
                                                 && old(table.Live())[i].tr2 <= 0
    ensures ierr == 0 ==> Bounded(table.Live(), table.mxsomm) && StarChain(table.Live(), n1aeoc, ch)
                          && EdgesKept(old(table.Live()), table.Live())
    ensures ierr == 0 ==> ch != [] && n1aeoc == ch[0] && n1aeoc in table.Live() && forall i :: i in ch <==> i in ch0
    ensures ierr == 0 ==> nt > 0 && nt == if table.Live()[n1aeoc].tr1 > 0 then table.Live()[n1aeoc].tr1
                          else table.Live()[n1aeoc].tr2
  {
    hide TableInv, LiveEdges, StarChain, EdgesKept, Bounded, Unique, Turned, RotatedTo, BareUpTo;
    ghost var E0 := table.Live();
    n1aeoc, ch, ierr := n1, ch0, 0;
    var n1ae00 := n1;
    ghost var r := 0;
    Linked(E0, n1, ch0);
    ChainMembers(E0, n1, ch0);
    KeptSelf(E0);
    RotatedStart(E0, ch0);
    while true
      invariant table.Valid() && Bounded(table.Live(), table.mxsomm) && StarChain(table.Live(), n1aeoc, ch)
        && EdgesKept(E0, table.Live())
      invariant 0 <= r < |ch0| && RotatedTo(ch0, r, ch) && n1aeoc == ch0[r] && n1ae00 == ch0[0] && Unique(ch0)
      invariant BareUpTo(E0, ch0, r)
      decreases |ch0| - r
    {
      ghost var E := table.Live();
      RotatedMembers(ch0, r, ch);
      HeadLive(E, n1aeoc, ch);
      KeptAt(E0, E, n1aeoc);
      LiveCells(table, n1aeoc);
      var na1 := n1aeoc;
      nt := table.nosoar[na1].tr1;
      if nt <= 0 {
        nt := table.nosoar[na1].tr2;
      }
      if nt > 0 {
        return;
      }
      BareNext(E0, ch0, r);
      n1aeoc := table.nosoar[na1].chain;
      NextHead(E, na1, ch, ch0, r);
      if n1aeoc == n1ae00 {
        AllBare(E0, ch0, r);
        ierr := 16;
        return;
      }
      var found := Rotate(table, na1, n1aeoc, ch);
      if !found {
        AllBare(E0, ch0, r);
        ierr := 15;
        return;
      }
      KeptTwice(E0, E, table.Live());
      KeptBounded(E, table.Live(), table.mxsomm);
      RotatedBy(ch0, r, ch);
      ch := Turned(ch);
      r := r + 1;
    }
  }

  /** ch is ch0 with its first r members moved to the end. */
  ghost predicate RotatedTo(ch0: seq<int>, r: int, ch: seq<int>) {
    0 <= r < |ch0| && ch == ch0[r..] + ch0[..r]
  }

  /** The first r edges of ch0 have no triangle. */
  ghost predicate BareUpTo(E: Edges, ch0: seq<int>, r: int) {
    forall j | 0 <= j < r && j < |ch0| :: ch0[j] in E && E[ch0[j]].tr1 <= 0 && E[ch0[j]].tr2 <= 0
  }

  lemma RotatedStart(E: Edges, ch0: seq<int>)
    requires ch0 != []
    ensures RotatedTo(ch0, 0, ch0) && BareUpTo(E, ch0, 0)
  {
    assert ch0[0..] + ch0[..0] == ch0;
  }

  lemma BareNext(E: Edges, ch0: seq<int>, r: int)
    requires BareUpTo(E, ch0, r) && 0 <= r < |ch0| && ch0[r] in E && E[ch0[r]].tr1 <= 0 && E[ch0[r]].tr2 <= 0
    ensures BareUpTo(E, ch0, r + 1)
  {
  }

  lemma RotatedMembers(ch0: seq<int>, r: int, ch: seq<int>)
    requires RotatedTo(ch0, r, ch)
    ensures |ch| == |ch0| && ch[0] == ch0[r] && forall i :: i in ch <==> i in ch0
  {
    assert ch0 == ch0[..r] + ch0[r..];
  }

  lemma HeadLive(E: Edges, n1: int, ch: seq<int>)
    requires StarChain(E, n1, ch) && ch != []
    ensures n1 == ch[0] && n1 in E && n1 > 0
  {
  }

  /** The first edge na1 of the chain becomes its last; next is the edge after it.  Not when it is
      the only one. */
  method Rotate(table: Table, na1: int, next: int, ghost ch: seq<int>) returns (found: bool)
    requires table.Valid() && StarChain(table.Live(), na1, ch) && ch != [] && na1 in table.Live()
      && next == table.Live()[na1].chain
    modifies table.nosoar
    ensures table.Valid() && found == (|ch| > 1)
    ensures !found ==> table.Live() == old(table.Live())
    ensures found ==> StarChain(table.Live(), next, Turned(ch)) && EdgesKept(old(table.Live()), table.Live())
  {
    hide TableInv, LiveEdges, Turned;
    ghost var E := table.Live();
    Linked(E, na1, ch);
    hide StarChain;
    var na0 := LastOf(table, next, ch, 1);
    if na0 <= 0 {
      return false;
    }
    LiveCells(table, na0);
    table.Write(na0, EdgeOf(table.nosoar[na0]).(chain := na1));
    LiveCells(table, na1);
    table.Write(na1, EdgeOf(table.nosoar[na1]).(chain := 0));
    assert TurnedChain(E, ch, table.Live());
    RotateChain(E, na1, ch, table.Live());
    return true;
  }

  lemma Linked(E: Edges, n1: int, ch: seq<int>)
    requires StarChain(E, n1, ch) && ch != []
    ensures n1 == ch[0] && E[n1].chain == At(ch, 1) && (|ch| > 1 ==> ch[0] != ch[|ch| - 1])
    ensures forall k {:trigger ch[k]} | 0 <= k < |ch| :: ch[k] in E && ch[k] > 0 && E[ch[k]].chain == At(ch, k + 1)
  {
  }

  lemma KeptBounded(E: Edges, E': Edges, mx: int)
    requires Bounded(E, mx) && EdgesKept(E, E')
    ensures Bounded(E', mx)
  {
  }

  lemma KeptSelf(E: Edges)
    ensures EdgesKept(E, E)
  {
  }

  lemma KeptAt(E: Edges, E': Edges, i: int)
    requires EdgesKept(E, E') && i in E'
    ensures i in E && SameBut(E[i], E'[i])
  {
  }

  lemma RotatedBy(l: seq<int>, r: int, ch: seq<int>)
    requires RotatedTo(l, r, ch) && r < |l| - 1
    ensures RotatedTo(l, r + 1, Turned(ch))
  {
    assert Turned(ch) == l[r + 1..] + l[..r + 1];
  }

  /** What follows the head of the chain turned r times. */
  lemma NextHead(E: Edges, n1: int, ch: seq<int>, ch0: seq<int>, r: int)
    requires StarChain(E, n1, ch) && Unique(ch0) && RotatedTo(ch0, r, ch) && n1 == ch0[r]
    ensures n1 in E && E[n1].chain == if |ch0| == 1 then 0 else if r + 1 < |ch0| then ch0[r + 1] else ch0[0]
    ensures E[n1].chain == ch0[0] ==> r == |ch0| - 1
  {
    assert ch[0] == ch0[r];
    assert E[ch[0]].chain == At(ch, 1);
    assert |ch| > 1 ==> ch[1] > 0;
    assert ch[0] > 0;
    assert |ch| > 1 ==> ch[1] == if r + 1 < |ch0| then ch0[r + 1] else ch0[0];
  }

  lemma AllBare(E: Edges, ch0: seq<int>, r: int)
    requires r == |ch0| - 1 && BareUpTo(E, ch0, r + 1)
    ensures forall i | i in ch0 :: i in E && E[i].tr1 <= 0 && E[i].tr2 <= 0
  {
  }

  // ---------------------------------------------------------------- the vertices that are lost

  /** The vertices of l, in order, that are off the contour and numbered up to nbarpi. */
  function LostOf(l: seq<int>, contour: seq<int>, nbarpi: int): (r: seq<int>) {
    if l == [] then []
    else LostOf(l[..|l| - 1], contour, nbarpi) + if l[|l| - 1] in contour || l[|l| - 1] > nbarpi then []
         else [l[|l| - 1]]
  }

  /** The vertices of the removed triangles without those of the contour and those that may go. */
  method LostVertices(nostpe: seq<int>, contour: seq<int>, nbarpi: int) returns (lost: seq<int>)
    requires Unique(nostpe) && forall s | s in nostpe :: s > 0
    ensures lost == LostOf(nostpe, contour, nbarpi)
  {
    var l := nostpe;
    var i := 0;
    while i < |contour|
      invariant 0 <= i <= |contour| && |l| == |nostpe|
      invariant forall j | 0 <= j < |l| :: l[j] == if nostpe[j] in contour[..i] then 0 else nostpe[j]
    {
      var ns1, j := contour[i], 0;
      while j < |l| && ns1 != l[j]
        invariant 0 <= j <= |l| && forall m | 0 <= m < j :: l[m] != ns1
      {
        j := j + 1;
      }
      assert contour[..i + 1] == contour[..i] + [ns1];
      if j < |l| {
        Crossed(nostpe, l, contour[..i], ns1, j);
        l := l[j := 0];
      } else {
        NotThere(nostpe, l, contour[..i], ns1);
      }
      i := i + 1;
    }
    assert contour[..|contour|] == contour;
    lost := [];
    i := 0;
    while i < |l|
      invariant 0 <= i <= |l| && lost == LostOf(nostpe[..i], contour, nbarpi)
    {
      assert nostpe[..i + 1][..i] == nostpe[..i];
      assert nostpe[i] in nostpe;
      if !(l[i] == 0 || l[i] > nbarpi) {
        lost := lost + [l[i]];
      }
      i := i + 1;
    }
    assert nostpe[..|l|] == nostpe;
  }

  lemma Crossed(nostpe: seq<int>, l: seq<int>, seen: seq<int>, s: int, j: int)
    requires Unique(nostpe) && (forall s | s in nostpe :: s > 0) && |l| == |nostpe| && 0 <= j < |l| && l[j] == s
    requires forall j | 0 <= j < |l| :: l[j] == if nostpe[j] in seen then 0 else nostpe[j]
    ensures forall k | 0 <= k < |l| :: l[j := 0][k] == if nostpe[k] in seen + [s] then 0 else nostpe[k]
  {
    assert nostpe[j] in nostpe;
  }

  lemma NotThere(nostpe: seq<int>, l: seq<int>, seen: seq<int>, s: int)
    requires (forall s | s in nostpe :: s > 0) && |l| == |nostpe| && forall m | 0 <= m < |l| :: l[m] != s
    requires forall j | 0 <= j < |l| :: l[j] == if nostpe[j] in seen then 0 else nostpe[j]
    ensures forall k | 0 <= k < |l| :: l[k] == if nostpe[k] in seen + [s] then 0 else nostpe[k]
  {
  }

  // ---------------------------------------------------------------- what the first loop leaves

  /** ch are the edges used by one triangle of the set. */
  ghost predicate Simple(E: Edges, T: seq<Tri>, ts: seq<int>, ch: seq<int>) {
    Unique(ch) && forall i :: i in ch <==> i in E && Count(T, ts, i) == 1
  }

  /** The edges used by one triangle of the set. */
  ghost function SimpleSet(E: Edges, T: seq<Tri>, ts: seq<int>): (r: set<int>) {
    set i | i in E && Count(T, ts, i) == 1
  }

  lemma {:induction false} UniqueSize(l: seq<int>)
    requires Unique(l)
    ensures |set i | i in l| == |l|
  {
    if l != [] {
      UniqueSize(l[1..]);
      assert l[0] !in l[1..];
      assert l == [l[0]] + l[1..];
      assert (set i | i in l) == (set i | i in l[1..]) + {l[0]};
    }
  }

  lemma SimpleSize(E: Edges, T: seq<Tri>, ts: seq<int>, ch: seq<int>)
    requires Simple(E, T, ts, ch)
    ensures |SimpleSet(E, T, ts)| == |ch|
  {
    UniqueSize(ch);
    assert SimpleSet(E, T, ts) == set i | i in ch;
  }

  /** The edges after the triangles have been taken off: those of two of the triangles are gone
      unless they are on a line; the others keep the triangles of the rest of the mesh. */
  ghost predicate Taken(E0: Edges, E: Edges, T: seq<Tri>, ts: seq<int>, via: map<int, int>) {
    && E.Keys <= E0.Keys
    && forall i | i in E0 :: TakenAt(E0, E, i, Count(T, ts, i), via)
  }

  ghost predicate TakenAt(E0: Edges, E: Edges, i: int, c: nat, via: map<int, int>)
    requires i in E0
  {
    if c == 0 then i in E && SameBut(E0[i], E[i])
    else if c == 1 then i in E && i in via && SameBut(Freed(E0[i], via[i]), E[i])
    else i in via && if E0[i].line <= 0 then i !in E else i in E && SameBut(Freed(E0[i], via[i]), E[i])
  }

  lemma TakenFrom(E0: Edges, E: Edges, T: seq<Tri>, ts: seq<int>, n1: int, ch: seq<int>, via: map<int, int>)
    requires StarState(E0, E, T, ts, SidesOf(T, ts), n1, ch, via)
    ensures Taken(E0, E, T, ts, via)
  {
    hide StarChain, SidesOf;
    forall i | i in E0 ensures TakenAt(E0, E, i, Count(T, ts, i), via) {
      assert EdgeState(E0, E, i, multiset(SidesOf(T, ts))[i], ch, via);
      assert i in E ==> SameBut(E[i], E[i]);
    }
  }

  lemma TakenKept(E0: Edges, E: Edges, E': Edges, T: seq<Tri>, ts: seq<int>, via: map<int, int>)
    requires Taken(E0, E, T, ts, via) && EdgesKept(E, E')
    ensures Taken(E0, E', T, ts, via)
  {
    hide Count;
    forall i | i in E0 ensures TakenAt(E0, E', i, Count(T, ts, i), via) {
      assert TakenAt(E0, E, i, Count(T, ts, i), via);
    }
  }

  /** The chain consists of the simple edges. */
  lemma ChainSimple(E0: Edges, E: Edges, T: seq<Tri>, ts: seq<int>, n1: int, ch: seq<int>, via: map<int, int>)
    requires StarState(E0, E, T, ts, SidesOf(T, ts), n1, ch, via)
    ensures Simple(E0, T, ts, ch)
  {
    ChainMembers(E, n1, ch);
    hide StarChain, SidesOf, Unique;
    forall i | i in E0 ensures i in ch <==> Count(T, ts, i) == 1 {
      assert EdgeState(E0, E, i, multiset(SidesOf(T, ts))[i], ch, via);
    }
    forall i | i in ch ensures i in E0 {
      assert i in E;
    }
  }

  lemma ChainKnown(E0: Edges, E: Edges, T: seq<Tri>, ts: seq<int>, n1: int, ch: seq<int>, via: map<int, int>)
    requires MeshInv(E0, T) && Chosen(T, ts) && StarState(E0, E, T, ts, SidesOf(T, ts), n1, ch, via)
      && FlowState(E0, T, SignedSides(T, ts), ch, via)
    ensures Chain0(E0, T, ts, ch, via) && SameEnds(E0, E, ch)
  {
    ChainMembers(E, n1, ch);
    ChainSimple(E0, E, T, ts, n1, ch, via);
    hide StarChain, SidesOf, Unique, Simple, FlowState, SignedSides, Chosen, Has;
    forall i | i in ch ensures i in E0 && i > 0 && i in via && via[i] in ts && Has(T, via[i], i) && i in E
      && E[i].st1 == E0[i].st1 && E[i].st2 == E0[i].st2 {
      SimpleAt(E0, T, ts, ch, i);
      assert EdgeState(E0, E, i, multiset(SidesOf(T, ts))[i], ch, via);
    }
    hide MeshInv;
  }

  lemma SimpleAt(E: Edges, T: seq<Tri>, ts: seq<int>, ch: seq<int>, i: int)
    requires Simple(E, T, ts, ch) && i in ch
    ensures i in E && multiset(SidesOf(T, ts))[i] == 1
  {
  }

  /** A triangle outside the set has the edge i. */
  ghost predicate HasOuter(E: Edges, ts: seq<int>, i: int) {
    i in E && ((E[i].tr1 > 0 && E[i].tr1 !in ts) || (E[i].tr2 > 0 && E[i].tr2 !in ts))
  }

  /** What a simple edge lists when its triangle of the set is taken off: the triangle outside. */
  lemma OuterLeft(E0: Edges, E: Edges, T: seq<Tri>, ts: seq<int>, ch: seq<int>, via: map<int, int>, i: int)
    requires MeshInv(E0, T) && Chosen(T, ts) && Simple(E0, T, ts, ch) && Taken(E0, E, T, ts, via) && i in ch
    requires i in via && via[i] in ts && Has(T, via[i], i)
    ensures i in E && (HasOuter(E0, ts, i) <==> E[i].tr1 > 0 || E[i].tr2 > 0)
    ensures var nt := if E[i].tr1 > 0 then E[i].tr1 else E[i].tr2;
            nt > 0 ==> Active(T, nt) && nt !in ts && Has(T, nt, i)
  {
    OuterFacts(E0, E, T, ts, ch, via, i);
    hide MeshInv, Chosen, Taken, Simple, Has, Active, Count;
  }

  lemma OuterFacts(E0: Edges, E: Edges, T: seq<Tri>, ts: seq<int>, ch: seq<int>, via: map<int, int>, i: int)
    requires MeshInv(E0, T) && Chosen(T, ts) && Simple(E0, T, ts, ch) && Taken(E0, E, T, ts, via) && i in ch
    requires i in via && via[i] in ts && Has(T, via[i], i)
    ensures i in E0 && i in E && SameBut(Freed(E0[i], via[i]), E[i])
    ensures E0[i].tr1 == via[i] || E0[i].tr2 == via[i]
    ensures !(E0[i].tr1 == via[i] && E0[i].tr2 == via[i])
    ensures 1 == Once(E0[i].tr1 > 0 && E0[i].tr1 in ts) + Once(E0[i].tr2 > 0 && E0[i].tr2 in ts)
    ensures via[i] > 0
    ensures (E0[i].tr1 > 0 ==> Active(T, E0[i].tr1) && Has(T, E0[i].tr1, i))
      && (E0[i].tr2 > 0 ==> Active(T, E0[i].tr2) && Has(T, E0[i].tr2, i))
  {
    SimpleAt(E0, T, ts, ch, i);
    CountListed(E0, T, ts, i);
    ChosenIn(T, ts, via[i]);
    SidesDistinct(E0, T, via[i]);
    EdgeSound(E0, T, i);
    HasOrNot(E0, T, via[i], i);
    TakenOnce(E0, E, T, ts, via, i);
    hide MeshInv, Chosen, Taken, SidesOf, Simple, Has;
  }

  lemma TakenOnce(E0: Edges, E: Edges, T: seq<Tri>, ts: seq<int>, via: map<int, int>, i: int)
    requires Taken(E0, E, T, ts, via) && i in E0 && Count(T, ts, i) == 1
    ensures i in E && i in via && SameBut(Freed(E0[i], via[i]), E[i])
  {
    hide Count;
    assert TakenAt(E0, E, i, Count(T, ts, i), via);
  }

  lemma ChosenIn(T: seq<Tri>, ts: seq<int>, t: int)
    requires Chosen(T, ts) && t in ts
    ensures Active(T, t)
  {
  }

  /** The contour in the slots 1 to n: the vertices and edges of the walk, the last slot leading to
      the first. */
  ghost predicate RingOf(s: seq<Slot>, order: seq<int>, v: seq<int>, n: int) {
    && 1 <= n == |order| && n < |s| && |v| == n + 1 && v[n] == v[0]
    && forall k {:trigger order[k]} | 0 <= k < n :: s[k + 1] == Slot(v[k], if k == n - 1 then 1 else k + 2, order[k])
  }

  /** The signed number of edge na1 in the contour, from the triangle nt on its other side. */
  method Orient(table: Table, noartr: array<Tri>, na1: int, nt: int) returns (ns0: int, ns1: int)
    requires table.Valid() && na1 in table.Live() && Active(noartr[..], nt) && Has(noartr[..], nt, na1)
    ensures na1 > 0 && var a := -SignedOf(noartr[nt], na1);
            ns0 == Start(table.Live(), a) && ns1 == End(table.Live(), a)
  {
    hide TableInv, LiveEdges;
    LiveCells(table, na1);
    ns0, ns1 := table.nosoar[na1].st1, table.nosoar[na1].st2;
    var x, i := noartr[nt], 1;
    while i <= 3
      invariant 1 <= i <= 4
      invariant (i > 1 ==> Abs(x.a1) != na1) && (i > 2 ==> Abs(x.a2) != na1) && (i > 3 ==> Abs(x.a3) != na1)
      invariant ns0 == table.Live()[na1].st1 && ns1 == table.Live()[na1].st2
    {
      var a := if i == 1 then x.a1 else if i == 2 then x.a2 else x.a3;
      if Abs(a) == na1 {
        if a > 0 {
          ns0, ns1 := ns1, ns0;
        }
        return;
      }
      i := i + 1;
    }
  }

  lemma WalkingFirst(E0: Edges, E: Edges, ch: seq<int>, ns0: int, ns1: int, s: seq<Slot>)
    requires StarChain(E, At(ch, 0), ch) && ch != [] && SameEnds(E0, E, ch) && Joins(E0, ch[0], ns0, ns1) && |s| > 1
      && s[1] == Slot(ns0, 2, ch[0])
    ensures (forall j | 0 <= j < |ch| :: ch[j] in E)
    ensures Walking(E0, Unchained(E, ch, 0), ch, [ch[0]], [ns0, ns1], Without(ch, 0), E[ch[0]].chain, s, 1)
  {
    ChainMembers(E, At(ch, 0), ch);
    UnchainedChain(E, At(ch, 0), ch, 0);
    NextEnds(E0, E, ch, ch, 0);
    WithoutMembers(ch, 0);
    hide StarChain, Unchained, SameEnds, Unique, Without, Walked;
    WalkedFirst(E0, ch, ns0, ns1, Without(ch, 0));
  }

  lemma WalkedFirst(E0: Edges, ch: seq<int>, ns0: int, ns1: int, rem: seq<int>)
    requires ch != [] && Joins(E0, ch[0], ns0, ns1) && forall x :: x in rem <==> x in ch && x != ch[0]
    ensures Walked(E0, ch, [ch[0]], [ns0, ns1], rem)
  {
    var order, v := [ch[0]], [ns0, ns1];
    assert order[0] == ch[0] && v[0] == ns0 && v[1] == ns1;
    assert forall x :: x in order <==> x == ch[0];
  }

  /** The walk order through the vertices v over the simple edges ch, in the direction of the
      triangles taken off, up to a vertex that no edge left over has. */
  ghost predicate Ordered(E0: Edges, T: seq<Tri>, ts: seq<int>, ch: seq<int>, via: map<int, int>, order: seq<int>,
      v: seq<int>, rem: seq<int>) {
    && Chain0(E0, T, ts, ch, via) && Simple(E0, T, ts, ch) && Walked(E0, ch, order, v, rem)
    && (forall i | i in rem :: !HasEnd(E0, i, v[|order|]))
    && Start(E0, Way(T, via, order[0])) == v[0] && End(E0, Way(T, via, order[0])) == v[1]
    && exists i :: i in ch && HasOuter(E0, ts, i)
  }

  /** No simple edge has a triangle outside the set. */
  ghost predicate NoOuter(E0: Edges, T: seq<Tri>, ts: seq<int>) {
    forall i | i in E0 && Count(T, ts, i) == 1 :: !HasOuter(E0, ts, i)
  }

  /** The first loop of `focftr_` and the choice of the first simple edge na1, with the triangle nt
      outside the set. */
  method Begin(table: Table, noartr: array<Tri>, notrcf: seq<int>, ghost E0: Edges)
    returns (na1: int, nt: int, nostpe: seq<int>, ierr: int, ghost ch: seq<int>, ghost ch0: seq<int>,
        ghost via: map<int, int>)
    requires table.Valid() && Bounded(table.Live(), table.mxsomm) && MeshInv(table.Live(), noartr[..])
      && E0 == table.Live()
    requires Chosen(noartr[..], notrcf) && forall i | i in E0 :: E0[i].chain < 0
    modifies table`n1soar, table`plan, table.nosoar, table.noarst
    ensures table.Valid() && (ierr == 0 || ierr == 15 || ierr == 16 || ierr == 17 || ierr == -1)
    ensures ierr == 17 <==> TooLong(SidesOf(noartr[..], notrcf))
    ensures ierr == 15 || ierr == 16 ==> NoOuter(E0, noartr[..], notrcf)
    ensures ierr == -1 ==> SimpleSet(E0, noartr[..], notrcf) == {}
    ensures ierr == 0 ==> Bounded(table.Live(), table.mxsomm) && StarChain(table.Live(), na1, ch)
                          && SameEnds(E0, table.Live(), ch) && ch != [] && na1 == ch[0]
    ensures ierr == 0 ==> Met(E0, noartr[..], notrcf, nostpe) && Taken(E0, table.Live(), noartr[..], notrcf, via)
    ensures ierr == 0 ==> Chain0(E0, noartr[..], notrcf, ch0, via) && Simple(E0, noartr[..], notrcf, ch0)
                          && Simple(E0, noartr[..], notrcf, ch)
    ensures ierr == 0 ==> Active(noartr[..], nt) && Has(noartr[..], nt, na1) && nt !in notrcf
                          && HasOuter(E0, notrcf, na1)
  {
    hide TableInv, LiveEdges, StarState, MeshInv, SidesOf, Bounded, Met, Chosen, FlowState, SignedSides, StarChain,
      EdgesKept, Simple, Chain0, Taken, HasOuter, Has, SameEnds, Active, TooLong;
    ghost var T := noartr[..];
    na1, nt, ch, ch0 := 0, 0, [], [];
    var n1aeoc;
    n1aeoc, nostpe, ierr, ch0, via := Gather(table, noartr, notrcf, E0);
    if ierr != 0 {
      return;
    }
    ghost var E1 := table.Live();
    ChainKnown(E0, E1, T, notrcf, n1aeoc, ch0, via);
    ChainSimple(E0, E1, T, notrcf, n1aeoc, ch0, via);
    TakenFrom(E0, E1, T, notrcf, n1aeoc, ch0, via);
    StateChain(E0, E1, T, notrcf, n1aeoc, ch0, via);
    if n1aeoc <= 0 {
      SimpleNone(E0, E1, T, notrcf, n1aeoc, ch0);
      ierr := -1;
      return;
    }
    ChainFull(E1, n1aeoc, ch0);
    na1, nt, ierr, ch := FirstEdge(table, n1aeoc, ch0);
    if ierr != 0 {
      BareNone(E0, E1, T, notrcf, ch0, via);
      return;
    }
    BeginFacts(E0, E1, table.Live(), T, notrcf, na1, ch0, ch, via);
  }

  lemma StateChain(E0: Edges, E: Edges, T: seq<Tri>, ts: seq<int>, n1: int, ch: seq<int>, via: map<int, int>)
    requires StarState(E0, E, T, ts, SidesOf(T, ts), n1, ch, via)
    ensures StarChain(E, n1, ch)
  {
  }

  lemma SimpleNone(E0: Edges, E: Edges, T: seq<Tri>, ts: seq<int>, n1: int, ch: seq<int>)
    requires StarChain(E, n1, ch) && n1 <= 0 && Simple(E0, T, ts, ch)
    ensures SimpleSet(E0, T, ts) == {}
  {
    NoneLeft(E, n1, ch);
  }

  lemma ChainFull(E: Edges, n1: int, ch: seq<int>)
    requires StarChain(E, n1, ch) && n1 > 0
    ensures ch != []
  {
  }

  lemma BareNone(E0: Edges, E: Edges, T: seq<Tri>, ts: seq<int>, ch: seq<int>, via: map<int, int>)
    requires Chain0(E0, T, ts, ch, via) && Simple(E0, T, ts, ch) && Taken(E0, E, T, ts, via)
    requires forall i | i in ch :: i in E && E[i].tr1 <= 0 && E[i].tr2 <= 0
    ensures NoOuter(E0, T, ts)
  {
    forall i | i in ch ensures !HasOuter(E0, ts, i) {
      ViaAt(E0, T, ts, ch, via, i);
      OuterLeft(E0, E, T, ts, ch, via, i);
    }
  }

  lemma ViaAt(E0: Edges, T: seq<Tri>, ts: seq<int>, ch: seq<int>, via: map<int, int>, i: int)
    requires Chain0(E0, T, ts, ch, via) && i in ch
    ensures MeshInv(E0, T) && Chosen(T, ts) && i in E0 && i > 0 && i in via && via[i] in ts && Has(T, via[i], i)
  {
  }

  lemma BeginFacts(E0: Edges, E1: Edges, E: Edges, T: seq<Tri>, ts: seq<int>, na1: int, ch0: seq<int>, ch: seq<int>,
      via: map<int, int>)
    requires Chain0(E0, T, ts, ch0, via) && Simple(E0, T, ts, ch0) && Taken(E0, E1, T, ts, via) && EdgesKept(E1, E)
      && SameEnds(E0, E1, ch0)
    requires StarChain(E, na1, ch) && ch != [] && na1 == ch[0] && na1 in E && (forall i :: i in ch <==> i in ch0)
    requires E[na1].tr1 > 0 || E[na1].tr2 > 0
    ensures SameEnds(E0, E, ch) && Simple(E0, T, ts, ch) && Taken(E0, E, T, ts, via)
    ensures var nt := if E[na1].tr1 > 0 then E[na1].tr1 else E[na1].tr2;
            Active(T, nt) && Has(T, nt, na1) && nt !in ts && HasOuter(E0, ts, na1)
  {
    TakenKept(E0, E1, E, T, ts, via);
    assert na1 in ch;
    ViaAt(E0, T, ts, ch0, via, na1);
    OuterLeft(E0, E, T, ts, ch0, via, na1);
    ChainMembers(E, na1, ch);
    hide StarChain, Chain0, Taken, HasOuter, Has, Count, Unique, MeshInv, Chosen, Active;
    assert forall i | i in ch :: i in ch0 && i in E1 && i in E;
  }

  /** The first edge, seen from the triangle nt outside, runs the way of its triangle of the set. */
  lemma FirstSide(E0: Edges, E: Edges, T: seq<Tri>, ts: seq<int>, ch: seq<int>, ch0: seq<int>, via: map<int, int>,
      i: int, nt: int, mx: int)
    requires Chain0(E0, T, ts, ch0, via) && i in ch && Simple(E0, T, ts, ch) && Simple(E0, T, ts, ch0)
      && SameEnds(E0, E, ch) && Bounded(E0, mx)
    requires Active(T, nt) && Has(T, nt, i) && nt !in ts
    ensures i in E0 && 0 <= nt < |T| && Way(T, via, i) == -SignedOf(T[nt], i)
    ensures var a := Way(T, via, i);
            Start(E, a) == Start(E0, a) && End(E, a) == End(E0, a) && Joins(E0, i, Start(E0, a), End(E0, a))
              && 1 <= Start(E0, a) <= mx
  {
    assert i in ch0;
    ViaAt(E0, T, ts, ch0, via, i);
    ChosenIn(T, ts, via[i]);
    OppositeWays(E0, T, i, nt, via[i]);
    WayEnds(E0, T, via, i);
    EdgeSound(E0, T, i);
    hide MeshInv, Chosen, Simple, Chain0, SignedOf, Has;
  }

  lemma SidesNumbered(E0: Edges, T: seq<Tri>, ts: seq<int>, ch: seq<int>, mx: int)
    requires MeshInv(E0, T) && Simple(E0, T, ts, ch) && Bounded(E0, mx)
    ensures forall i, s | i in ch && HasEnd(E0, i, s) :: 1 <= s <= mx
  {
    forall i, s | i in ch && HasEnd(E0, i, s) ensures 1 <= s <= mx {
      EdgeSound(E0, T, i);
    }
  }

  /** The contour and the chains where the walk ends. */
  lemma WalkEnds(E0: Edges, E: Edges, ch: seq<int>, order: seq<int>, v: seq<int>, rem: seq<int>, n1: int, s: seq<Slot>,
      n: int)
    requires Walking(E0, E, ch, order, v, rem, n1, s, n)
    ensures |order| == n && |v| == n + 1 && 1 <= n < |s| && Walked(E0, ch, order, v, rem)
    ensures v[n] == v[0] ==> RingOf(s[n := s[n].(suiv := 1)], order, v, n)
    ensures forall i | i in E && i !in rem :: E[i].chain < 0
  {
    OthersOut(E, n1, rem);
    hide StarChain, SameEnds;
  }

  lemma Chain0Order(E0: Edges, T: seq<Tri>, ts: seq<int>, ch0: seq<int>, ch: seq<int>, via: map<int, int>)
    requires Chain0(E0, T, ts, ch0, via) && Simple(E0, T, ts, ch0) && Simple(E0, T, ts, ch)
    ensures Chain0(E0, T, ts, ch, via)
  {
    hide MeshInv, Chosen, SignedSides, Has;
    assert forall x :: x in ch <==> x in ch0;
    forall f: (int, int) -> real | Odd(f) ensures ChainSum(f, E0, T, via, ch) == SignedSum(f, E0, SignedSides(T, ts)) {
      ChainSumOrder(f, E0, T, via, ch, ch0);
    }
  }

  lemma OrderedOf(E0: Edges, T: seq<Tri>, ts: seq<int>, ch0: seq<int>, ch: seq<int>, via: map<int, int>,
      order: seq<int>, v: seq<int>, rem: seq<int>, na1: int, ns0: int, ns1: int)
    requires Chain0(E0, T, ts, ch0, via) && Simple(E0, T, ts, ch0) && Simple(E0, T, ts, ch)
      && Walked(E0, ch, order, v, rem)
    requires (forall i | i in rem :: !HasEnd(E0, i, v[|order|])) && [na1] <= order && [ns0, ns1] <= v
    requires na1 in ch && HasOuter(E0, ts, na1) && Start(E0, Way(T, via, na1)) == ns0
      && End(E0, Way(T, via, na1)) == ns1
    ensures Ordered(E0, T, ts, ch, via, order, v, rem)
  {
    Chain0Order(E0, T, ts, ch0, ch, via);
    hide Chain0, Simple, Walked, HasOuter, Way, Start, End;
    assert order[0] == na1 && v[0] == ns0 && v[1] == ns1;
  }

  /** The part of `focftr_` that makes the contour; nostpe are the corners of the triangles. */
  method Order(table: Table, noartr: array<Tri>, noarcf: array<Slot>, n1arcf: array<int>, notrcf: seq<int>,
      ghost E0: Edges)
    returns (nbarcf: int, nostpe: seq<int>, ierr: int, ghost ch: seq<int>, ghost via: map<int, int>,
        ghost order: seq<int>, ghost v: seq<int>, ghost rem: seq<int>)
    requires table.Valid() && Bounded(table.Live(), table.mxsomm) && MeshInv(table.Live(), noartr[..])
      && E0 == table.Live()
    requires Chosen(noartr[..], notrcf) && (forall i | i in E0 :: E0[i].chain < 0)
      && |SimpleSet(E0, noartr[..], notrcf)| < noarcf.Length
    requires n1arcf.Length > 1 && n1arcf != table.noarst
    modifies table`n1soar, table`plan, table.nosoar, table.noarst, noarcf, n1arcf
    ensures table.Valid() && (ierr == 0 || ierr == 14 || ierr == 15 || ierr == 16 || ierr == 17 || ierr == -1)
    ensures ierr == 17 <==> TooLong(SidesOf(noartr[..], notrcf))
    ensures ierr == 15 || ierr == 16 ==> NoOuter(E0, noartr[..], notrcf)
    ensures ierr == -1 ==> SimpleSet(E0, noartr[..], notrcf) == {}
    ensures ierr == 0 || ierr == 14 ==> Ordered(E0, noartr[..], notrcf, ch, via, order, v, rem)
                                        && (ierr == 0 <==> v[|order|] == v[0])
    ensures ierr == 0 ==> Bounded(table.Live(), table.mxsomm) && RingOf(noarcf[..], order, v, nbarcf) && n1arcf[1] == 1
    ensures ierr == 0 ==> Met(E0, noartr[..], notrcf, nostpe) && Taken(E0, table.Live(), noartr[..], notrcf, via)
    ensures ierr == 0 ==> forall i | i in table.Live() && i !in rem :: table.Live()[i].chain < 0
  {
    hide TableInv, LiveEdges, MeshInv, Bounded, Met, Chosen, StarChain, EdgesKept, Simple, Chain0, Taken, HasOuter, Has,
      SameEnds, Active, Walking, Walked, Way, SignedOf, Unchained, Without, RingOf, SimpleSet, TooLong, SidesOf;
    ghost var T, ch0 := noartr[..], [];
    var na1, nt;
    nbarcf, ch, order, v, rem := 0, [], [], [], [];
    na1, nt, nostpe, ierr, ch, ch0, via := Begin(table, noartr, notrcf, E0);
    if ierr != 0 {
      return;
    }
    ghost var E2 := table.Live();
    HeadLive(E2, na1, ch);
    SimpleSize(E0, T, notrcf, ch);
    FirstSide(E0, E2, T, notrcf, ch, ch0, via, na1, nt, table.mxsomm);
    ChainMembers(E2, na1, ch);
    var ns0, ns1 := Orient(table, noartr, na1, nt);
    assert noartr[nt] == T[nt];
    n1arcf[1] := 1;
    noarcf[1] := Slot(ns0, 2, na1);
    table.noarst[ns0] := na1;
    var n1aeoc := Unchain(table, na1, 0, na1, ch, 0);
    WalkingFirst(E0, E2, ch, ns0, ns1, noarcf[..]);
    UnchainedKept(E2, ch, 0, table.mxsomm);
    SidesNumbered(E0, T, notrcf, ch, table.mxsomm);
    n1aeoc, ns1, nbarcf, order, v, rem := Walk(table, noarcf, n1aeoc, ns0, ns1, E0, ch, [na1], [ns0, ns1],
      Without(ch, 0));
    KeptTwice(E2, Unchained(E2, ch, 0), table.Live());
    TakenKept(E0, E2, table.Live(), T, notrcf, via);
    WalkEnds(E0, table.Live(), ch, order, v, rem, n1aeoc, noarcf[..], nbarcf);
    OrderedOf(E0, T, notrcf, ch0, ch, via, order, v, rem, na1, ns0, v[1]);
    if ns1 != ns0 {
      ierr := 14;
      return;
    }
    noarcf[nbarcf] := noarcf[nbarcf].(suiv := 1);
  }

  // ---------------------------------------------------------------- when all goes well

  /** When every vertex of the simple edges has two of them, the walk comes back, leaves no vertex
      of its contour to the other edges, and passes each of its vertices once. */
  lemma OrderCloses(E0: Edges, T: seq<Tri>, ts: seq<int>, ch: seq<int>, via: map<int, int>, order: seq<int>,
      v: seq<int>, rem: seq<int>)
    requires Ordered(E0, T, ts, ch, via, order, v, rem) && TwoRegular(E0, ch)
    ensures v[|order|] == v[0]
    ensures forall i, j, s | i in order && j in rem && HasEnd(E0, i, s) :: !HasEnd(E0, j, s)
    ensures Unique(v[..|order|])
  {
    WalkCloses(E0, ch, order, v, rem);
    hide Chain0, Simple, TwoRegular, Walked;
    forall a, b | 0 <= a < b < |order| ensures v[..|order|][a] != v[..|order|][b] {
      VerticesDiffer(E0, ch, order, v, rem, a, b);
    }
  }

  lemma VerticesDiffer(E: Edges, ch: seq<int>, order: seq<int>, v: seq<int>, rem: seq<int>, a: int, b: int)
    requires TwoRegular(E, ch) && Walked(E, ch, order, v, rem) && v[|order|] == v[0] && 0 <= a < b < |order|
    ensures v[a] != v[b]
  {
    var p := if a == 0 then |order| - 1 else a - 1;
    StepAt(E, ch, order, v, rem, p);
    StepAt(E, ch, order, v, rem, a);
    StepAt(E, ch, order, v, rem, b - 1);
    StepAt(E, ch, order, v, rem, b);
    hide Walked;
    if v[a] == v[b] {
      var q := if p == b then b - 1 else p;
      OneOfTwo(E, ch, order[q], order[a], order[b], v[a]);
    }
  }

  lemma OneOfTwo(E: Edges, ch: seq<int>, i: int, j: int, k: int, s: int)
    requires TwoRegular(E, ch) && i in ch && j in ch && k in ch && HasEnd(E, i, s) && HasEnd(E, j, s) && HasEnd(E, k, s)
    ensures i == j || j == k || i == k
  {
  }

  lemma StepAt(E: Edges, ch: seq<int>, order: seq<int>, v: seq<int>, rem: seq<int>, k: int)
    requires TwoRegular(E, ch) && Walked(E, ch, order, v, rem) && 0 <= k < |order|
    ensures order[k] in ch && HasEnd(E, order[k], v[k]) && HasEnd(E, order[k], v[k + 1]) && v[k] != v[k + 1]
    ensures forall j | 0 <= j < |order| && j != k :: order[j] != order[k]
  {
    assert Joins(E, order[k], v[k], v[k + 1]);
  }

  /** The simple edges are one closed curve. */
  ghost predicate OneCurve(E: Edges, T: seq<Tri>, ts: seq<int>) {
    forall ch | Simple(E, T, ts, ch) :: TwoRegular(E, ch) && Connected(E, ch)
  }

  /** When the simple edges are one closed curve, the contour goes through all of them and carries
      what the triangles taken off carried: every quantity of directed edges, so also the area. */
  lemma OrderAll(E0: Edges, T: seq<Tri>, ts: seq<int>, ch: seq<int>, via: map<int, int>, order: seq<int>, v: seq<int>,
      rem: seq<int>)
    requires Ordered(E0, T, ts, ch, via, order, v, rem) && OneCurve(E0, T, ts)
    ensures v[|order|] == v[0] && Unique(v[..|order|])
    ensures rem == [] && forall i :: i in order <==> i in E0 && Count(T, ts, i) == 1
    ensures forall f: (int, int) -> real | Odd(f) :: OfTriangles(f, CornersAll(E0, T, ts)) == Along(f, v)
  {
    OrderCloses(E0, T, ts, ch, via, order, v, rem);
    WalkAll(E0, ch, order, v, rem);
    OrderMembers(E0, ch, order, v);
    forall f: (int, int) -> real | Odd(f) ensures OfTriangles(f, CornersAll(E0, T, ts)) == Along(f, v) {
      hide TwoRegular, Connected, Chain0, Simple, Walked, OneCurve, Way;
      ContourFlow(f, E0, T, ts, ch, via, order, v);
    }
    hide Chain0, Way, Walked;
  }

  lemma OrderMembers(E: Edges, ch: seq<int>, order: seq<int>, v: seq<int>)
    requires Walked(E, ch, order, v, [])
    ensures forall i :: i in order <==> i in ch
  {
    forall i | i in order ensures i in ch {
      var k :| 0 <= k < |order| && order[k] == i;
      assert order[k] in ch;
    }
  }

  // ---------------------------------------------------------------- the contour as a ring of slots

  function Upto(n: nat): (r: seq<int>)
    ensures |r| == n
  {
    seq(n, k => k + 1)
  }

  /** The slots 1 to n are a ring that the contour operations can work on. */
  lemma RingPath(E0: Edges, E: Edges, T: seq<Tri>, ts: seq<int>, ch: seq<int>, via: map<int, int>, s: seq<Slot>,
      order: seq<int>, v: seq<int>, rem: seq<int>, n: int)
    requires Ordered(E0, T, ts, ch, via, order, v, rem) && RingOf(s, order, v, n) && Taken(E0, E, T, ts, via)
    ensures Path(E, s, Closed(Upto(n))) && Poly(s, Upto(n)) == v[..n] && Closed(v[..n]) == v
  {
    hide Ordered, Taken, RingOf, Arc, Path;
    OrderSizes(s, order, v, n);
    var p := Closed(Upto(n));
    RingAt(s, order, v, n, 0);
    assert |p| == n + 1 && forall k | 0 <= k <= n :: p[k] == if k == n then 1 else k + 1;
    forall k | 0 <= k < n ensures Arc(E, s, p[k], p[k + 1]) {
      RingArc(E0, E, T, ts, ch, via, s, order, v, rem, n, k);
    }
    PathOf(E, s, p);
    RingPoly(s, order, v, n);
    assert v == v[..n] + [v[n]];
  }

  lemma RingPoly(s: seq<Slot>, order: seq<int>, v: seq<int>, n: int)
    requires RingOf(s, order, v, n)
    ensures Poly(s, Upto(n)) == v[..n]
  {
    forall k | 0 <= k < n ensures Poly(s, Upto(n))[k] == v[k] {
      RingAt(s, order, v, n, k);
    }
  }

  lemma RingAt(s: seq<Slot>, order: seq<int>, v: seq<int>, n: int, k: int)
    requires RingOf(s, order, v, n) && 0 <= k < n
    ensures |order| == n < |s| && |v| == n + 1 && v[n] == v[0]
    ensures s[k + 1] == Slot(v[k], if k == n - 1 then 1 else k + 2, order[k])
  {
    assert order[k] == order[k];
  }

  lemma {:induction false} PathOf(E: Edges, s: seq<Slot>, p: seq<int>)
    requires forall k | 0 <= k < |p| - 1 :: Arc(E, s, p[k], p[k + 1])
    ensures Path(E, s, p)
  {
    if |p| > 1 {
      assert Arc(E, s, p[0], p[0 + 1]);
      forall k | 0 <= k < |p[1..]| - 1 ensures Arc(E, s, p[1..][k], p[1..][k + 1]) {
        assert Arc(E, s, p[k + 1], p[k + 1 + 1]);
      }
      PathOf(E, s, p[1..]);
    }
  }

  lemma RingArc(E0: Edges, E: Edges, T: seq<Tri>, ts: seq<int>, ch: seq<int>, via: map<int, int>, s: seq<Slot>,
      order: seq<int>, v: seq<int>, rem: seq<int>, n: int, k: int)
    requires Ordered(E0, T, ts, ch, via, order, v, rem) && RingOf(s, order, v, n) && Taken(E0, E, T, ts, via)
      && 0 <= k < n
    ensures Arc(E, s, k + 1, if k == n - 1 then 1 else k + 2)
  {
    hide Ordered, RingOf, Taken, Count, Arc;
    var m := if k == n - 1 then 0 else k + 1;
    RingAt(s, order, v, n, k);
    RingAt(s, order, v, n, m);
    WalkedAt(E0, T, ts, ch, via, order, v, rem, k);
    WalkedAt(E0, T, ts, ch, via, order, v, rem, m);
    TakenOnce(E0, E, T, ts, via, order[k]);
    hide Joins;
    ArcOf(E0, E, s, k + 1, if k == n - 1 then 1 else k + 2, order[k], v[k], v[k + 1]);
  }

  lemma ArcOf(E0: Edges, E: Edges, s: seq<Slot>, x: int, y: int, i: int, u: int, w: int)
    requires 1 <= x < |s| && 1 <= y < |s| && s[x] == Slot(u, y, i) && s[y].som == w
    requires i > 0 && i in E0 && i in E && Joins(E0, i, u, w) && 0 < E0[i].st1 < E0[i].st2 && E[i].st1 == E0[i].st1
      && E[i].st2 == E0[i].st2
    ensures Arc(E, s, x, y)
  {
  }

  lemma WalkedAt(E0: Edges, T: seq<Tri>, ts: seq<int>, ch: seq<int>, via: map<int, int>, order: seq<int>, v: seq<int>,
      rem: seq<int>, k: int)
    requires Ordered(E0, T, ts, ch, via, order, v, rem) && 0 <= k < |order|
    ensures order[k] in E0 && order[k] > 0 && Count(T, ts, order[k]) == 1 && Joins(E0, order[k], v[k], v[k + 1])
    ensures 0 < E0[order[k]].st1 < E0[order[k]].st2
  {
    assert order[k] in ch && Joins(E0, order[k], v[k], v[k + 1]);
    hide Walked, Way;
    ViaAt(E0, T, ts, ch, via, order[k]);
    EdgeSound(E0, T, order[k]);
  }

  // ---------------------------------------------------------------- vertices and triangles set free

  /** The lost vertices are those off the contour that must not go. */
  lemma {:induction false} LostExactly(l: seq<int>, contour: seq<int>, nbarpi: int)
    requires Unique(l)
    ensures Unique(LostOf(l, contour, nbarpi))
    ensures forall s :: s in LostOf(l, contour, nbarpi) <==> s in l && s !in contour && s <= nbarpi
  {
    if l != [] {
      var u, x := l[..|l| - 1], l[|l| - 1];
      LostExactly(u, contour, nbarpi);
      assert l == u + [x];
      assert x !in u;
      UniqueSnoc(LostOf(u, contour, nbarpi), x);
      hide Unique;
    }
  }

  /** The triangles ts are free, the others as before. */
  ghost predicate Emptied(T: seq<Tri>, T': seq<Tri>, ts: seq<int>) {
    && |T'| == |T|
    && forall t | 0 <= t < |T| :: if t in ts then T'[t].a1 == 0 else T'[t] == T[t]
  }

  function Reversed(l: seq<int>): (r: seq<int>) {
    if l == [] then [] else [l[|l| - 1]] + Reversed(l[..|l| - 1])
  }

  /** The last loop of `focftr_`. */
  method Release(store: Store, notrcf: seq<int>)
    requires store.Valid() && Chosen(store.noartr[..], notrcf)
    modifies store`n1artr, store`vacant, store.noartr
    ensures store.Valid() && Emptied(old(store.noartr[..]), store.noartr[..], notrcf)
    ensures store.vacant == Reversed(notrcf) + old(store.vacant)
  {
    hide Vacancy, VacancyBut;
    ghost var T := store.noartr[..];
    var n := 0;
    while n < |notrcf|
      invariant 0 <= n <= |notrcf| && store.Valid() && Emptied(T, store.noartr[..], notrcf[..n])
      invariant store.vacant == Reversed(notrcf[..n]) + old(store.vacant)
    {
      assert notrcf[..n + 1] == notrcf[..n] + [notrcf[n]];
      assert notrcf[n] in notrcf && notrcf[n] !in notrcf[..n];
      store.Give(notrcf[n]);
      n := n + 1;
    }
    assert notrcf[..|notrcf|] == notrcf;
  }

  /** `focftr_`: the contour of the triangles notrcf in the slots 1 to nbarcf, the triangles set
      free, the vertices lost in nostpe.  ierr is 14 when the walk does not come back, 15 or 16 when
      no simple edge has a triangle outside, 17 from `caetoi_`; -1 stands for the read of column 0
      when there is no simple edge.  With more than 512 corners the code stops early without an error. */
  method Focftr(table: Table, store: Store, noarcf: array<Slot>, n1arcf: array<int>, notrcf: seq<int>, nbarpi: int)
    returns (nbarcf: int, nostpe: seq<int>, ierr: int, ghost ch: seq<int>, ghost via: map<int, int>,
        ghost order: seq<int>, ghost v: seq<int>, ghost rem: seq<int>, ghost corners: seq<int>)
    requires table.Valid() && store.Valid() && Bounded(table.Live(), table.mxsomm)
      && MeshInv(table.Live(), store.noartr[..])
    requires Chosen(store.noartr[..], notrcf) && (forall i | i in table.Live() :: table.Live()[i].chain < 0)
    requires |SimpleSet(table.Live(), store.noartr[..], notrcf)| < noarcf.Length && n1arcf.Length > 1
      && n1arcf != table.noarst
    modifies table`n1soar, table`plan, table.nosoar, table.noarst, noarcf, n1arcf, store`n1artr, store`vacant,
      store.noartr
    ensures table.Valid() && store.Valid()
    ensures ierr == 0 || ierr == 14 || ierr == 15 || ierr == 16 || ierr == 17 || ierr == -1
    ensures ierr == 17 <==> TooLong(SidesOf(old(store.noartr[..]), notrcf))
    ensures ierr == 15 || ierr == 16 ==> NoOuter(old(table.Live()), old(store.noartr[..]), notrcf)
    ensures ierr == -1 ==> SimpleSet(old(table.Live()), old(store.noartr[..]), notrcf) == {}
    ensures ierr == 0 || ierr == 14 ==>
      Ordered(old(table.Live()), old(store.noartr[..]), notrcf, ch, via, order, v, rem)
      && (ierr == 0 <==> v[|order|] == v[0])
    ensures ierr == 0 ==> Bounded(table.Live(), table.mxsomm) && RingOf(noarcf[..], order, v, nbarcf) && n1arcf[1] == 1
    ensures ierr == 0 ==> Taken(old(table.Live()), table.Live(), old(store.noartr[..]), notrcf, via)
                          && Met(old(table.Live()), old(store.noartr[..]), notrcf, corners)
    ensures ierr == 0 ==> forall i | i in table.Live() && i !in rem :: table.Live()[i].chain < 0
    ensures ierr == 0 && |corners| <= 512 ==> nostpe == if |corners| > nbarcf then LostOf(corners, v[..nbarcf], nbarpi)
                                              else []
    ensures ierr == 0 && |corners| <= 512 ==> Emptied(old(store.noartr[..]), store.noartr[..], notrcf)
                                              && store.vacant == Reversed(notrcf) + old(store.vacant)
    ensures ierr != 0 || |corners| > 512 ==> store.noartr[..] == old(store.noartr[..])
                                             && store.vacant == old(store.vacant)
  {
    hide TableInv, LiveEdges, Vacancy, MeshInv, Bounded, Met, Chosen, Ordered, Taken, Emptied, SimpleSet, NoOuter,
      RingOf, TooLong, SidesOf;
    ghost var E0 := table.Live();
    corners := [];
    nbarcf, nostpe, ierr, ch, via, order, v, rem := Order(table, store.noartr, noarcf, n1arcf, notrcf, E0);
    corners := nostpe;
    if ierr != 0 || |nostpe| > 512 {
      return;
    }
    OrderSizes(noarcf[..], order, v, nbarcf);
    if |nostpe| > nbarcf {
      var contour := seq(nbarcf, k requires 0 <= k < nbarcf reads noarcf => if k + 1 < noarcf.Length then
        noarcf[k + 1].som else 0);
      RingSoms(noarcf[..], order, v, nbarcf, contour);
      CornersPositive(E0, store.noartr[..], notrcf, corners);
      nostpe := LostVertices(nostpe, contour, nbarpi);
    } else {
      nostpe := [];
    }
    Release(store, notrcf);
  }

  lemma OrderSizes(s: seq<Slot>, order: seq<int>, v: seq<int>, n: int)
    requires RingOf(s, order, v, n)
    ensures 1 <= n < |s| && |v| == n + 1
  {
  }

  lemma RingSoms(s: seq<Slot>, order: seq<int>, v: seq<int>, n: int, c: seq<int>)
    requires RingOf(s, order, v, n) && |c| == n && forall k | 0 <= k < n :: c[k] == s[k + 1].som
    ensures c == v[..n]
  {
    assert forall k | 0 <= k < n :: s[k + 1] == Slot(v[k], if k == n - 1 then 1 else k + 2, order[k]);
  }

  lemma CornersPositive(E: Edges, T: seq<Tri>, ts: seq<int>, l: seq<int>)
    requires MeshInv(E, T) && Chosen(T, ts) && Met(E, T, ts, l)
    ensures Unique(l) && forall s | s in l :: s > 0
  {
    forall s | s in l ensures s > 0 {
      var t :| t in ts && 0 <= t < |T| && IsCorner(E, T[t], s);
      ChosenIn(T, ts, t);
      SidesDistinct(E, T, t);
      assert TriOk(E, T, t);
      EdgeSound(E, T, Abs(T[t].a1));
      EdgeSound(E, T, Abs(T[t].a2));
      EdgeSound(E, T, Abs(T[t].a3));
      hide MeshInv, Chosen, Met;
    }
  }

  /** When the simple edges are one closed curve, the vertices handed back are the corners inside it
      that must stay. */
  lemma LostInside(E0: Edges, T: seq<Tri>, ts: seq<int>, ch: seq<int>, via: map<int, int>, order: seq<int>, v: seq<int>,
      rem: seq<int>, corners: seq<int>, nbarpi: int)
    requires Ordered(E0, T, ts, ch, via, order, v, rem) && OneCurve(E0, T, ts) && Unique(corners)
    requires forall k | 0 <= k < |order| :: v[k] in corners
    ensures var lost := if |corners| > |order| then LostOf(corners, v[..|order|], nbarpi) else [];
            Unique(lost) && forall s :: s in lost <==> s in corners && s !in v[..|order|] && s <= nbarpi
  {
    OrderAll(E0, T, ts, ch, via, order, v, rem);
    OrderedSizes(E0, T, ts, ch, via, order, v, rem);
    hide Ordered, OneCurve;
    LostExactly(corners, v[..|order|], nbarpi);
    if |corners| <= |order| {
      AllThere(v[..|order|], corners);
    }
  }

  lemma OrderedSizes(E0: Edges, T: seq<Tri>, ts: seq<int>, ch: seq<int>, via: map<int, int>, order: seq<int>,
      v: seq<int>, rem: seq<int>)
    requires Ordered(E0, T, ts, ch, via, order, v, rem)
    ensures |v| == |order| + 1
  {
  }

  /** As many different members as the list has are all of it. */
  lemma AllThere(a: seq<int>, l: seq<int>)
    requires Unique(a) && |l| <= |a| && forall x | x in a :: x in l
    ensures forall x | x in l :: x in a
  {
    forall x | x in l ensures x in a {
      if x !in a {
        UniqueSnoc(a, x);
        assert forall y | y in a + [x] :: y in l;
        Pigeons(a + [x], l);
      }
    }
  }
}
