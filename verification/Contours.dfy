/** The closed contours `noarcf`/`n1arcf` still to be filled with triangles.  A contour is a ring of
    slots, each holding a vertex, the next slot and the edge to the next vertex; unused slots form
    a free list.  Pure part: the rings, their pieces when a triangle is cut off, and what a cut
    conserves. */
module Contours {
  import opened Lists
  import opened EdgeTable
  import opened Mesh

  /** A column of `noarcf`. */
  datatype Slot = Slot(som: int, suiv: int, noar: int)

  /** Edge a joins the vertices u and v. */
  predicate Names(E: Edges, a: int, u: int, v: int) {
    a > 0 && a in E && (E[a].st1, E[a].st2) == Pair(u, v)
  }

  /** Slot x leads to slot y. */
  predicate Arc(E: Edges, s: seq<Slot>, x: int, y: int) {
    && 1 <= x < |s| && 1 <= y < |s| && s[x].som > 0
    && s[x].suiv == y && Names(E, s[x].noar, s[x].som, s[y].som)
  }

  predicate Path(E: Edges, s: seq<Slot>, p: seq<int>) {
    |p| <= 1 || (Arc(E, s, p[0], p[1]) && Path(E, s, p[1..]))
  }

  /** A ring, written out to its first member again. */
  function Closed(p: seq<int>): (r: seq<int>) {
    if p == [] then [] else p + [p[0]]
  }

  function Som(s: seq<Slot>, x: int): (r: int) {
    if 0 <= x < |s| then s[x].som else 0
  }

  /** The vertices of a list of slots. */
  function Poly(s: seq<Slot>, l: seq<int>): (r: seq<int>)
    ensures |r| == |l|
  {
    seq(|l|, k requires 0 <= k < |l| => Som(s, l[k]))
  }

  function Polys(s: seq<Slot>, lists: seq<seq<int>>): (r: seq<seq<int>>)
    ensures |r| == |lists|
  {
    seq(|lists|, c requires 0 <= c < |lists| => Poly(s, lists[c]))
  }

  /** The first edge of contour c: the vertices of the slot heads[c + 1] and of the next. */
  function FirstOf(s: seq<Slot>, heads: seq<int>, c: int): (r: (int, int)) {
    var x := if 0 <= c + 1 < |heads| then heads[c + 1] else 0;
    (Som(s, x), if 0 <= x < |s| then Som(s, s[x].suiv) else 0)
  }

  /** The first edges of n contours. */
  function FirstsOf(s: seq<Slot>, heads: seq<int>, n: nat): (r: seq<(int, int)>)
    ensures |r| == n
  {
    seq(n, c requires 0 <= c < n => FirstOf(s, heads, c))
  }

  /** The free list, ended by 0. */
  ghost predicate Chain(s: seq<Slot>, l: seq<int>) {
    l == [] || (0 <= l[0] < |s| && s[l[0]].suiv == At(l, 1) && Chain(s, l[1..]))
  }

  function Sum(lists: seq<seq<int>>): (r: multiset<int>) {
    if lists == [] then multiset{} else Sum(lists[..|lists| - 1]) + multiset(lists[|lists| - 1])
  }

  /** Every slot is in one place only. */
  ghost predicate Pool(n: int, m: multiset<int>) {
    forall x | x in m :: 1 <= x < n && m[x] == 1
  }

  ghost predicate Rings(E: Edges, s: seq<Slot>, heads: seq<int>, lists: seq<seq<int>>) {
    && |heads| > |lists|
    && forall c {:trigger lists[c]} | 0 <= c < |lists| :: heads[c + 1] in lists[c] && Path(E, s, Closed(lists[c]))
  }

  /** The arrays hold the free list and the contours. */
  ghost predicate Held(E: Edges, s: seq<Slot>, heads: seq<int>, free: seq<int>, lists: seq<seq<int>>) {
    && Pool(|s|, multiset(free) + Sum(lists))
    && Chain(s, free) && |heads| > 0 && heads[0] == At(free, 0)
    && Rings(E, s, heads, lists)
  }

  // ---------------------------------------------------------------- paths

  lemma {:induction false} PathJoin(E: Edges, s: seq<Slot>, a: seq<int>, x: int, b: seq<int>)
    ensures Path(E, s, a + [x] + b) <==> Path(E, s, a + [x]) && Path(E, s, [x] + b)
  {
    if a == [] {
      assert a + [x] + b == [x] + b;
    } else {
      PathJoin(E, s, a[1..], x, b);
      assert (a + [x] + b)[1..] == a[1..] + [x] + b && (a + [x])[1..] == a[1..] + [x];
    }
  }

  /** A ring may be entered anywhere. */
  lemma Rotate(E: Edges, s: seq<Slot>, a: seq<int>, b: seq<int>)
    requires a != [] && b != [] && Path(E, s, Closed(a + b))
    ensures Path(E, s, Closed(b + a))
  {
    PathJoin(E, s, a, b[0], b[1..] + [a[0]]);
    PathJoin(E, s, b, a[0], a[1..] + [b[0]]);
    assert Closed(a + b) == a + [b[0]] + (b[1..] + [a[0]]) && [b[0]] + (b[1..] + [a[0]]) == b + [a[0]];
    assert Closed(b + a) == b + [a[0]] + (a[1..] + [b[0]]) && [a[0]] + (a[1..] + [b[0]]) == a + [b[0]];
  }

  /** Edges are only added. */
  ghost predicate Grows(E: Edges, E': Edges) {
    forall i | i in E :: i in E' && E'[i].st1 == E[i].st1 && E'[i].st2 == E[i].st2
  }

  lemma {:induction false} PathGrows(E: Edges, E': Edges, s: seq<Slot>, p: seq<int>)
    requires Grows(E, E') && Path(E, s, p)
    ensures Path(E', s, p)
  {
    if |p| > 1 {
      PathGrows(E, E', s, p[1..]);
    }
  }

  lemma HeldGrows(E: Edges, E': Edges, s: seq<Slot>, heads: seq<int>, free: seq<int>, lists: seq<seq<int>>)
    requires Grows(E, E') && Held(E, s, heads, free, lists)
    ensures Held(E', s, heads, free, lists)
  {
    hide Grows, Path, Pool, Chain;
    forall c | 0 <= c < |lists| ensures Path(E', s, Closed(lists[c])) {
      PathGrows(E, E', s, Closed(lists[c]));
    }
  }

  /** A path survives changes elsewhere. */
  lemma {:induction false} PathSame(E: Edges, s: seq<Slot>, s': seq<Slot>, p: seq<int>)
    requires Path(E, s, p) && |s'| == |s|
    requires forall x | x in p && 0 <= x < |s| :: s'[x] == s[x]
    ensures Path(E, s', p)
  {
    if |p| > 1 {
      assert p[0] in p && p[1] in p;
      PathSame(E, s, s', p[1..]);
    }
  }

  lemma {:induction false} ChainSame(s: seq<Slot>, s': seq<Slot>, l: seq<int>)
    requires Chain(s, l) && |s'| == |s|
    requires forall x | x in l && 0 <= x < |s| :: s'[x].suiv == s[x].suiv
    ensures Chain(s', l)
  {
    if l != [] {
      assert l[0] in l;
      ChainSame(s, s', l[1..]);
    }
  }

  lemma {:induction false} SumAdd(a: seq<seq<int>>, b: seq<seq<int>>)
    ensures Sum(a + b) == Sum(a) + Sum(b)
  {
    if b == [] {
      assert a + b == a;
    } else {
      var n := |b| - 1;
      SumAdd(a, b[..n]);
      assert (a + b)[..|a + b| - 1] == a + b[..n];
    }
  }

  lemma {:induction false} InSum(lists: seq<seq<int>>, c: int, x: int)
    requires 0 <= c < |lists| && x in lists[c]
    ensures x in Sum(lists)
  {
    var n := |lists| - 1;
    if c < n {
      InSum(lists[..n], c, x);
    }
  }

  // ---------------------------------------------------------------- cutting a ring

  /** The path [x] + m + [y0] moved onto the slots [x'] + m + [y]. */
  lemma {:induction false} Repoint(E: Edges, s: seq<Slot>, s': seq<Slot>, x: int, m: seq<int>, y0: int, x': int, y: int)
    requires Path(E, s, [x] + m + [y0]) && |s'| == |s| && 1 <= x' < |s| && 1 <= y < |s| && 0 <= x < |s| && 0 <= y0 < |s|
    requires s'[y].som == s[y0].som
    requires m != [] ==> s'[x'] == s[x]
    requires m == [] ==> s'[x'] == s[x].(suiv := y)
    requires forall k | 0 <= k < |m| && 0 <= m[k] < |s| ::
      s'[m[k]] == if k == |m| - 1 then s[m[k]].(suiv := y) else s[m[k]]
    ensures Path(E, s', [x'] + m + [y])
    decreases |m|
  {
    var p, p' := [x] + m + [y0], [x'] + m + [y];
    assert Arc(E, s, p[0], p[1]);
    if m == [] {
      assert p' == [x', y];
      assert Path(E, s', p'[1..]);
    } else {
      assert p[1..] == [m[0]] + m[1..] + [y0] && p'[1..] == [m[0]] + m[1..] + [y];
      assert 1 <= m[0] < |s| && p[1] == m[0] && p'[1] == m[0];
      Repoint(E, s, s', m[0], m[1..], y0, m[0], y);
    }
  }

  /** The piece of a ring between x and y0, closed by a slot y that repeats y0 and leads to x',
      which is x or a copy of it. */
  ghost predicate Piece(E: Edges, s: seq<Slot>, s': seq<Slot>, x: int, m: seq<int>, y0: int, x': int, y: int) {
    && |s'| == |s| && 1 <= x' < |s| && 1 <= y < |s| && 1 <= x < |s| && 1 <= y0 < |s|
    && m != [] && s'[x'] == s[x]
    && s'[y].som == s[y0].som > 0 && s'[y].suiv == x' && Names(E, s'[y].noar, s[y0].som, s[x].som)
    && forall z | z in m && 0 <= z < |s| :: s'[z] == if z == m[|m| - 1] then s[z].(suiv := y) else s[z]
  }

  lemma PieceRing(E: Edges, s: seq<Slot>, s': seq<Slot>, x: int, m: seq<int>, y0: int, x': int, y: int)
    requires Path(E, s, [x] + m + [y0]) && Unique(m) && Piece(E, s, s', x, m, y0, x', y)
    ensures Path(E, s', Closed([y, x'] + m))
    ensures Poly(s', [y, x'] + m) == [s[y0].som, s[x].som] + Poly(s, m)
  {
    hide Path, Names;
    forall k | 0 <= k < |m| && 0 <= m[k] < |s| ensures s'[m[k]] == if k == |m| - 1 then s[m[k]].(suiv := y)
      else s[m[k]] {
      assert m[k] in m;
      assert k < |m| - 1 ==> m[k] != m[|m| - 1];
    }
    PieceClosed(E, s, s', x, m, y0, x', y);
  }

  lemma PieceClosed(E: Edges, s: seq<Slot>, s': seq<Slot>, x: int, m: seq<int>, y0: int, x': int, y: int)
    requires Path(E, s, [x] + m + [y0]) && Piece(E, s, s', x, m, y0, x', y)
    requires forall k | 0 <= k < |m| && 0 <= m[k] < |s| ::
      s'[m[k]] == if k == |m| - 1 then s[m[k]].(suiv := y) else s[m[k]]
    ensures Path(E, s', Closed([y, x'] + m))
    ensures Poly(s', [y, x'] + m) == [s[y0].som, s[x].som] + Poly(s, m)
  {
    Repoint(E, s, s', x, m, y0, x', y);
    assert Closed([y, x'] + m)[1..] == [x'] + m + [y];
    assert forall k | 0 <= k < |m| :: Som(s', m[k]) == Som(s, m[k]);
  }

  /** Replacing the last contour by its pieces. */
  lemma Assemble(E: Edges, s: seq<Slot>, h: seq<int>, free: seq<int>, below: seq<seq<int>>, l: seq<int>,
                 s': seq<Slot>, h': seq<int>, free': seq<int>, pieces: seq<seq<int>>)
    requires Held(E, s, h, free, below + [l])
    requires |s'| == |s| && forall x | 0 <= x < |s| && s'[x] != s[x] :: x in l || x in free
    requires multiset(free') + Sum(pieces) == multiset(free) + multiset(l)
    requires Chain(s', free') && |h'| > |below| + |pieces| && h'[0] == At(free', 0)
    requires forall c | 1 <= c <= |below| :: h'[c] == h[c]
    requires forall c | 0 <= c < |pieces| :: h'[|below| + 1 + c] in pieces[c] && Path(E, s', Closed(pieces[c]))
    ensures Held(E, s', h', free', below + pieces)
    ensures Polys(s', below) == Polys(s, below)
  {
    hide Chain, Path, Arc, Pool, Rings, Sum;
    AssemblePool(|s|, free, below, l, free', pieces);
    assert Rings(E, s, h, below + [l]) && Pool(|s|, multiset(free) + Sum(below + [l]));
    forall c | 0 <= c < |below|
      ensures h'[c + 1] in below[c] && Path(E, s', Closed(below[c])) && Poly(s', below[c]) == Poly(s, below[c])
    {
      AssembleBelow(E, s, h, free, below, l, s', c);
    }
    AssembleRings(E, s', h', below, pieces);
  }

  lemma AssemblePool(n: int, free: seq<int>, below: seq<seq<int>>, l: seq<int>, free': seq<int>, pieces: seq<seq<int>>)
    requires Pool(n, multiset(free) + Sum(below + [l]))
    requires multiset(free') + Sum(pieces) == multiset(free) + multiset(l)
    ensures Pool(n, multiset(free') + Sum(below + pieces))
  {
    hide Pool;
    SumAdd(below, [l]);
    SumAdd(below, pieces);
    assert Sum([l]) == multiset(l) by { assert [l][..0] == []; }
    Regroup(multiset(free'), Sum(below), Sum(pieces), multiset(free), multiset(l));
    assert multiset(free') + Sum(below + pieces) == multiset(free) + Sum(below + [l]);
  }

  lemma Regroup(a: multiset<int>, b: multiset<int>, c: multiset<int>, d: multiset<int>, e: multiset<int>)
    requires a + c == d + e
    ensures a + (b + c) == d + (b + e)
  {
    assert a + (b + c) == b + (a + c) && d + (b + e) == b + (d + e);
  }

  /** A slot of the last contour or of the free list is in no other contour. */
  lemma Elsewhere(n: int, free: seq<int>, below: seq<seq<int>>, l: seq<int>, c: int, x: int)
    requires Pool(n, multiset(free) + Sum(below + [l])) && 0 <= c < |below| && x in below[c]
    ensures x !in free && x !in l
  {
    SumAdd(below, [l]);
    assert Sum([l]) == multiset(l) by { assert [l][..0] == []; }
    InSum(below, c, x);
    var m := multiset(free) + Sum(below + [l]);
    assert m[x] == multiset(free)[x] + Sum(below)[x] + multiset(l)[x];
    assert x in m;
  }

  lemma AssembleBelow(E: Edges, s: seq<Slot>, h: seq<int>, free: seq<int>, below: seq<seq<int>>, l: seq<int>,
      s': seq<Slot>, c: int)
    requires Pool(|s|, multiset(free) + Sum(below + [l])) && Rings(E, s, h, below + [l]) && 0 <= c < |below|
    requires |s'| == |s| && forall x | 0 <= x < |s| && s'[x] != s[x] :: x in l || x in free
    ensures h[c + 1] in below[c] && Path(E, s', Closed(below[c])) && Poly(s', below[c]) == Poly(s, below[c])
  {
    hide Pool, Path;
    assert (below + [l])[c] == below[c];
    forall x | x in below[c] && 0 <= x < |s| ensures s'[x] == s[x] {
      Elsewhere(|s|, free, below, l, c, x);
    }
    PathSame(E, s, s', Closed(below[c]));
    assert forall k | 0 <= k < |below[c]| :: below[c][k] in below[c];
  }

  lemma AssembleRings(E: Edges, s: seq<Slot>, h: seq<int>, below: seq<seq<int>>, pieces: seq<seq<int>>)
    requires |h| > |below| + |pieces|
    requires forall c | 0 <= c < |below| :: h[c + 1] in below[c] && Path(E, s, Closed(below[c]))
    requires forall c | 0 <= c < |pieces| :: h[|below| + 1 + c] in pieces[c] && Path(E, s, Closed(pieces[c]))
    ensures Rings(E, s, h, below + pieces)
  {
    hide Path;
    forall c | 0 <= c < |below + pieces|
      ensures h[c + 1] in (below + pieces)[c] && Path(E, s, Closed((below + pieces)[c]))
    {
      if c >= |below| {
        var d := c - |below|;
        assert (below + pieces)[c] == pieces[d];
        assert h[|below| + 1 + d] in pieces[d];
      }
    }
  }

  // ---------------------------------------------------------------- what a cut conserves

  /** A quantity of directed edges that changes sign with the direction. */
  ghost predicate Odd(f: (int, int) -> real) {
    forall u, v :: f(u, v) == -f(v, u)
  }

  /** The quantity f summed along a path of vertices. */
  ghost function Along(f: (int, int) -> real, p: seq<int>): (r: real) {
    if |p| <= 1 then 0.0 else f(p[0], p[1]) + Along(f, p[1..])
  }

  /** Over all contours. */
  ghost function Around(f: (int, int) -> real, polys: seq<seq<int>>): (r: real) {
    if polys == [] then 0.0 else Around(f, polys[..|polys| - 1]) + Along(f, Closed(polys[|polys| - 1]))
  }

  /** Over the sides of all triangles. */
  ghost function OfTriangles(f: (int, int) -> real, tris: seq<(int, int, int)>): (r: real) {
    if tris == [] then 0.0
    else var (a, b, c) := tris[|tris| - 1];
         OfTriangles(f, tris[..|tris| - 1]) + (f(a, b) + f(b, c) + f(c, a))
  }

  lemma {:induction false} AlongJoin(f: (int, int) -> real, a: seq<int>, x: int, b: seq<int>)
    ensures Along(f, a + [x] + b) == Along(f, a + [x]) + Along(f, [x] + b)
  {
    if a == [] {
      assert a + [x] + b == [x] + b;
    } else {
      AlongJoin(f, a[1..], x, b);
      assert (a + [x] + b)[1..] == a[1..] + [x] + b && (a + [x])[1..] == a[1..] + [x];
    }
  }

  lemma {:induction false} AroundAdd(f: (int, int) -> real, a: seq<seq<int>>, b: seq<seq<int>>)
    ensures Around(f, a + b) == Around(f, a) + Around(f, b)
  {
    if b == [] {
      assert a + b == a;
    } else {
      var n := |b| - 1;
      AroundAdd(f, a, b[..n]);
      assert (a + b)[..|a + b| - 1] == a + b[..n];
    }
  }

  lemma RotateAlong(f: (int, int) -> real, a: seq<int>, b: seq<int>)
    ensures Along(f, Closed(a + b)) == Along(f, Closed(b + a))
  {
    if a == [] {
      assert a + b == b == b + a;
    } else if b == [] {
      assert a + b == a == b + a;
    } else {
      AlongJoin(f, a, b[0], b[1..] + [a[0]]);
      AlongJoin(f, b, a[0], a[1..] + [b[0]]);
      assert Closed(a + b) == a + [b[0]] + (b[1..] + [a[0]]) && [b[0]] + (b[1..] + [a[0]]) == b + [a[0]];
      assert Closed(b + a) == b + [a[0]] + (a[1..] + [b[0]]) && [a[0]] + (a[1..] + [b[0]]) == a + [b[0]];
    }
  }

  /** One piece of the polygon [v1] + a + [v2] + b + [v3] + c: nothing when it has no vertex of its own. */
  function PieceOf(v: int, w: int, m: seq<int>): (r: seq<seq<int>>) {
    if m == [] then [] else [[w, v] + m]
  }

  /** What remains of a contour, in the order `trcf3s_` leaves it, once triangle v1 v2 v3 is cut off. */
  function Pieces(v1: int, a: seq<int>, v2: int, b: seq<int>, v3: int, c: seq<int>): (r: seq<seq<int>>) {
    if c == [] then PieceOf(v2, v3, b) + PieceOf(v1, v2, a)
    else if a == [] then PieceOf(v3, v1, c) + PieceOf(v2, v3, b)
    else PieceOf(v1, v2, a) + PieceOf(v2, v3, b) + PieceOf(v3, v1, c)
  }

  /** The piece accounts for its part of the polygon and the new edge back. */
  lemma PieceAlong(f: (int, int) -> real, v: int, w: int, m: seq<int>)
    requires Odd(f)
    ensures Around(f, PieceOf(v, w, m)) == Along(f, [v] + m + [w]) - f(v, w)
  {
    if m == [] {
      assert [v] + m + [w] == [v, w] && [v, w][1..] == [w];
    } else {
      var p := [w, v] + m;
      assert PieceOf(v, w, m)[..0] == [];
      assert Closed(p)[1..] == [v] + m + [w];
      assert f(w, v) == -f(v, w);
    }
  }

  lemma ThreeParts(f: (int, int) -> real, v1: int, a: seq<int>, v2: int, b: seq<int>, v3: int, c: seq<int>)
    ensures Along(f, Closed([v1] + a + [v2] + b + [v3] + c))
         == Along(f, [v1] + a + [v2]) + Along(f, [v2] + b + [v3]) + Along(f, [v3] + c + [v1])
  {
    hide Along;
    AlongJoin(f, [v1] + a, v2, b + [v3] + c + [v1]);
    AlongJoin(f, [v2] + b, v3, c + [v1]);
    assert Closed([v1] + a + [v2] + b + [v3] + c) == [v1] + a + [v2] + (b + [v3] + c + [v1]);
    assert [v2] + (b + [v3] + c + [v1]) == [v2] + b + [v3] + (c + [v1]) && [v3] + (c + [v1]) == [v3] + c + [v1];
  }

  /** Boundary conservation: the pieces and the triangle bound what the contour bounded. */
  lemma CutConserves(f: (int, int) -> real, v1: int, a: seq<int>, v2: int, b: seq<int>, v3: int, c: seq<int>)
    requires Odd(f)
    ensures Around(f, Pieces(v1, a, v2, b, v3, c)) + (f(v1, v2) + f(v2, v3) + f(v3, v1))
         == Along(f, Closed([v1] + a + [v2] + b + [v3] + c))
  {
    hide Along, Odd, Around;
    PieceAlong(f, v1, v2, a);
    PieceAlong(f, v2, v3, b);
    PieceAlong(f, v3, v1, c);
    ThreeParts(f, v1, a, v2, b, v3, c);
    var A, B, C := PieceOf(v1, v2, a), PieceOf(v2, v3, b), PieceOf(v3, v1, c);
    AroundAdd(f, B, A);
    AroundAdd(f, C, B);
    AroundAdd(f, A, B);
    AroundAdd(f, A + B, C);
    assert Around(f, []) == 0.0 by { EmptyAround(f); }
    assert a == [] ==> A == [];
    assert c == [] ==> C == [];
    hide PieceOf, Closed;
  }

  lemma EmptyAround(f: (int, int) -> real)
    ensures Around(f, []) == 0.0
  {
  }

  /** Triangles still to come, contour by contour. */
  function Work(polys: seq<seq<int>>): (r: nat) {
    if polys == [] then 0 else Work(polys[..|polys| - 1]) + if |polys[|polys| - 1]| > 2 then |polys[|polys| - 1]| - 2
                               else 0
  }

  lemma {:induction false} WorkAdd(a: seq<seq<int>>, b: seq<seq<int>>)
    ensures Work(a + b) == Work(a) + Work(b)
  {
    if b == [] {
      assert a + b == a;
    } else {
      var n := |b| - 1;
      WorkAdd(a, b[..n]);
      assert (a + b)[..|a + b| - 1] == a + b[..n];
    }
  }

  lemma PieceWork(v: int, w: int, m: seq<int>)
    ensures Work(PieceOf(v, w, m)) == |m|
  {
    if m != [] {
      assert PieceOf(v, w, m)[..0] == [];
    }
  }

  /** One triangle less to come, and no piece is shorter than a triangle. */
  lemma CutWork(v1: int, a: seq<int>, v2: int, b: seq<int>, v3: int, c: seq<int>)
    ensures Work(Pieces(v1, a, v2, b, v3, c)) + 1 == |[v1] + a + [v2] + b + [v3] + c| - 2
    ensures forall k | 0 <= k < |Pieces(v1, a, v2, b, v3, c)| :: |Pieces(v1, a, v2, b, v3, c)[k]| >= 3
  {
    PieceWork(v1, v2, a);
    PieceWork(v2, v3, b);
    PieceWork(v3, v1, c);
    var A, B, C := PieceOf(v1, v2, a), PieceOf(v2, v3, b), PieceOf(v3, v1, c);
    WorkAdd(B, A);
    WorkAdd(C, B);
    WorkAdd(A, B);
    WorkAdd(A + B, C);
  }
}
