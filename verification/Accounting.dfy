/** What filling the contours conserves: directed edges, vertices, the number of triangles to come,
    and the triangles made so far. */
module Accounting {
  import opened Lists
  import opened EdgeTable
  import opened Mesh
  import opened Contours
  import opened Cutting
  import opened Triangles
  import opened Trcf

  /** The sum over the contours of (edges - 2). */
  function Excess(polys: seq<seq<int>>): (r: int) {
    if polys == [] then 0 else Excess(Below(polys)) + (|Top(polys)| - 2)
  }

  function Vertices(l: seq<int>): (r: set<int>) {
    set x | x in l
  }

  function VerticesOf(polys: seq<seq<int>>): (r: set<int>) {
    if polys == [] then {} else VerticesOf(Below(polys)) + Vertices(Top(polys))
  }

  function CornersOf(tris: seq<(int, int, int)>): (r: set<int>) {
    if tris == [] then {}
    else var (u, v, w) := tris[|tris| - 1];
         CornersOf(tris[..|tris| - 1]) + {u, v, w}
  }

  lemma {:induction false} ExcessAdd(a: seq<seq<int>>, b: seq<seq<int>>)
    ensures Excess(a + b) == Excess(a) + Excess(b)
    ensures VerticesOf(a + b) == VerticesOf(a) + VerticesOf(b)
  {
    if b == [] {
      assert a + b == a;
    } else {
      ExcessAdd(a, Below(b));
      assert Below(a + b) == a + Below(b) && Top(a + b) == Top(b);
    }
  }

  lemma PieceCounts(v: int, w: int, m: seq<int>)
    ensures Excess(PieceOf(v, w, m)) == |m|
    ensures VerticesOf(PieceOf(v, w, m)) == if m == [] then {} else {v, w} + Vertices(m)
  {
    if m != [] {
      assert Below(PieceOf(v, w, m)) == [];
    }
  }

  /** A cut takes one from the excess and keeps the vertices. */
  lemma CutCounts(v1: int, a: seq<int>, v2: int, b: seq<int>, v3: int, c: seq<int>)
    ensures Excess(Pieces(v1, a, v2, b, v3, c)) + 1 == |Ring3(v1, a, v2, b, v3, c)| - 2
    ensures VerticesOf(Pieces(v1, a, v2, b, v3, c)) + {v1, v2, v3} == Vertices(Ring3(v1, a, v2, b, v3, c))
  {
    PieceCounts(v1, v2, a);
    PieceCounts(v2, v3, b);
    PieceCounts(v3, v1, c);
    RingVertices(v1, a, v2, b, v3, c);
    var A, B, C := PieceOf(v1, v2, a), PieceOf(v2, v3, b), PieceOf(v3, v1, c);
    hide PieceOf, Excess, VerticesOf, Vertices;
    ExcessAdd(B, A);
    ExcessAdd(C, B);
    ExcessAdd(A, B);
    ExcessAdd(A + B, C);
    assert Vertices([]) == {} by { NoVertices(); }
  }

  lemma NoVertices()
    ensures Vertices([]) == {}
  {
  }

  lemma RingVertices(v1: int, a: seq<int>, v2: int, b: seq<int>, v3: int, c: seq<int>)
    ensures Vertices(Ring3(v1, a, v2, b, v3, c)) == {v1, v2, v3} + Vertices(a) + Vertices(b) + Vertices(c)
    ensures |Ring3(v1, a, v2, b, v3, c)| == 3 + |a| + |b| + |c|
  {
    JoinVertices([v1] + a + [v2] + b + [v3], c);
    JoinVertices([v1] + a + [v2] + b, [v3]);
    JoinVertices([v1] + a + [v2], b);
    JoinVertices([v1] + a, [v2]);
    JoinVertices([v1], a);
  }

  lemma JoinVertices(a: seq<int>, b: seq<int>)
    ensures Vertices(a + b) == Vertices(a) + Vertices(b)
  {
  }

  /** What a run keeps: q and the triangles tris bound what p bounds, have the vertices of p and of
      fed between them, and account for the excess of p, each fed vertex counting twice. */
  ghost predicate Accounts(p: seq<seq<int>>, q: seq<seq<int>>, tris: seq<(int, int, int)>, fed: seq<int>) {
    && (forall f: (int, int) -> real | Odd(f) :: Around(f, q) + OfTriangles(f, tris) == Around(f, p))
    && |tris| + Excess(q) == Excess(p) + 2 * |fed|
    && VerticesOf(q) + CornersOf(tris) == VerticesOf(p) + Vertices(fed)
  }

  lemma AccountsNothing(p: seq<seq<int>>)
    ensures Accounts(p, p, [], [])
  {
  }

  /** A step from q to q' that emits triangle v. */
  lemma AccountsCut(p: seq<seq<int>>, q: seq<seq<int>>, tris: seq<(int, int, int)>, fed: seq<int>, k: nat,
                    v1: int, a: seq<int>, v2: int, b: seq<int>, v3: int, c: seq<int>, v: (int, int, int))
    requires Accounts(p, q, tris, fed) && q != [] && k <= |Top(q)| && Rotated(v, v1, v2, v3)
    requires Top(q)[k..] + Top(q)[..k] == Ring3(v1, a, v2, b, v3, c)
    ensures Accounts(p, Below(q) + Pieces(v1, a, v2, b, v3, c), tris + [v], fed)
    ensures Work(Below(q) + Pieces(v1, a, v2, b, v3, c)) + 1 == Work(q)
  {
    hide Accounts, Odd, Along, Around, Excess, VerticesOf, CornersOf, Work, OfTriangles, Ring3, Pieces, Vertices;
    var q', tris' := Below(q) + Pieces(v1, a, v2, b, v3, c), tris + [v];
    forall f: (int, int) -> real | Odd(f) ensures Around(f, q') + OfTriangles(f, tris') == Around(f, p) {
      AccountsFor(p, q, tris, fed, f);
      CutAround(f, q, k, v1, a, v2, b, v3, c);
      MoreTriangles(f, tris, v, v1, v2, v3);
    }
    AccountsCounts(p, q, tris, fed);
    CutRest(q, k, v1, a, v2, b, v3, c);
    MoreCorners(tris, v, v1, v2, v3);
    AccountsOf(p, q', tris', fed);
  }

  lemma AccountsFor(p: seq<seq<int>>, q: seq<seq<int>>, tris: seq<(int, int, int)>, fed: seq<int>,
      f: (int, int) -> real)
    requires Accounts(p, q, tris, fed) && Odd(f)
    ensures Around(f, q) + OfTriangles(f, tris) == Around(f, p)
  {
  }

  lemma AccountsCounts(p: seq<seq<int>>, q: seq<seq<int>>, tris: seq<(int, int, int)>, fed: seq<int>)
    requires Accounts(p, q, tris, fed)
    ensures |tris| + Excess(q) == Excess(p) + 2 * |fed|
      && VerticesOf(q) + CornersOf(tris) == VerticesOf(p) + Vertices(fed)
  {
  }

  lemma AccountsOf(p: seq<seq<int>>, q: seq<seq<int>>, tris: seq<(int, int, int)>, fed: seq<int>)
    requires forall f: (int, int) -> real | Odd(f) :: Around(f, q) + OfTriangles(f, tris) == Around(f, p)
    requires |tris| + Excess(q) == Excess(p) + 2 * |fed|
      && VerticesOf(q) + CornersOf(tris) == VerticesOf(p) + Vertices(fed)
    ensures Accounts(p, q, tris, fed)
  {
  }

  lemma MoreTriangles(f: (int, int) -> real, tris: seq<(int, int, int)>, v: (int, int, int), v1: int, v2: int, v3: int)
    requires Rotated(v, v1, v2, v3)
    ensures OfTriangles(f, tris + [v]) == OfTriangles(f, tris) + (f(v1, v2) + f(v2, v3) + f(v3, v1))
  {
    assert (tris + [v])[..|tris|] == tris;
  }

  lemma MoreCorners(tris: seq<(int, int, int)>, v: (int, int, int), v1: int, v2: int, v3: int)
    requires Rotated(v, v1, v2, v3)
    ensures CornersOf(tris + [v]) == CornersOf(tris) + {v1, v2, v3}
  {
    assert (tris + [v])[..|tris|] == tris;
  }

  lemma LastAround(f: (int, int) -> real, q: seq<seq<int>>)
    requires q != []
    ensures Around(f, q) == Around(f, Below(q)) + Along(f, Closed(Top(q)))
  {
  }

  lemma CutAround(f: (int, int) -> real, q: seq<seq<int>>, k: nat, v1: int, a: seq<int>, v2: int, b: seq<int>, v3: int,
      c: seq<int>)
    requires Odd(f) && q != [] && k <= |Top(q)| && Top(q)[k..] + Top(q)[..k] == Ring3(v1, a, v2, b, v3, c)
    ensures Around(f, Below(q) + Pieces(v1, a, v2, b, v3, c)) + (f(v1, v2) + f(v2, v3) + f(v3, v1)) == Around(f, q)
  {
    hide Odd, Along, Around, Pieces, Closed;
    var l := Top(q);
    assert l == l[..k] + l[k..];
    LastAround(f, q);
    AroundAdd(f, Below(q), Pieces(v1, a, v2, b, v3, c));
    RotateAlong(f, l[..k], l[k..]);
    CutConserves(f, v1, a, v2, b, v3, c);
  }

  lemma LastCounts(q: seq<seq<int>>)
    requires q != []
    ensures Excess(q) == Excess(Below(q)) + (|Top(q)| - 2) && VerticesOf(q) == VerticesOf(Below(q)) + Vertices(Top(q))
    ensures Work(q) == Work(Below(q)) + if |Top(q)| > 2 then |Top(q)| - 2 else 0
  {
  }

  lemma CutRest(q: seq<seq<int>>, k: nat, v1: int, a: seq<int>, v2: int, b: seq<int>, v3: int, c: seq<int>)
    requires q != [] && k <= |Top(q)| && Top(q)[k..] + Top(q)[..k] == Ring3(v1, a, v2, b, v3, c)
    ensures var q' := Below(q) + Pieces(v1, a, v2, b, v3, c);
            && Excess(q') + 1 == Excess(q) && VerticesOf(q') + {v1, v2, v3} == VerticesOf(q)
            && Work(q') + 1 == Work(q)
  {
    hide Excess, VerticesOf, Work, Pieces, Vertices;
    var l, r := Top(q), Pieces(v1, a, v2, b, v3, c);
    assert l == l[..k] + l[k..];
    JoinVertices(l[..k], l[k..]);
    JoinVertices(l[k..], l[..k]);
    LastCounts(q);
    ExcessAdd(Below(q), r);
    WorkAdd(Below(q), r);
    CutCounts(v1, a, v2, b, v3, c);
    CutWork(v1, a, v2, b, v3, c);
    RingVertices(v1, a, v2, b, v3, c);
    hide Ring3;
    assert |Ring3(v1, a, v2, b, v3, c)| == |l|;
    SetShuffle(VerticesOf(Below(q)), VerticesOf(r), {v1, v2, v3});
  }

  lemma SetShuffle(a: set<int>, b: set<int>, c: set<int>)
    ensures a + b + c == a + (b + c)
  {
  }

  /** An isolated vertex u joins contour c = [v1] + m. */
  lemma AccountsInsert(p: seq<seq<int>>, q: seq<seq<int>>, tris: seq<(int, int, int)>, fed: seq<int>, c: int, k: nat,
      v1: int, v2: int, m: seq<int>, u: int)
    requires Accounts(p, q, tris, fed) && 0 <= c < |q| && k <= |q[c]| && q[c][k..] + q[c][..k] == [v1] + m
      && v2 == (m + [v1])[0]
    ensures Accounts(p, q[c := [v1, u] + m], tris + [(v1, v2, u)], fed + [u])
  {
    hide Accounts, Odd, Along, Around, Excess, VerticesOf, CornersOf, OfTriangles, Vertices;
    var q', tris' := q[c := [v1, u] + m], tris + [(v1, v2, u)];
    forall f: (int, int) -> real | Odd(f) ensures Around(f, q') + OfTriangles(f, tris') == Around(f, p) {
      AccountsFor(p, q, tris, fed, f);
      InsertAround(f, q, c, k, v1, v2, m, u);
      MoreTriangles(f, tris, (v1, v2, u), v1, v2, u);
    }
    AccountsCounts(p, q, tris, fed);
    InsertCounts(q, c, k, v1, v2, m, u);
    MoreCorners(tris, (v1, v2, u), v1, v2, u);
    JoinVertices(fed, [u]);
    assert Vertices([u]) == {u} by { OneVertex(u); }
    InsertShuffle3(VerticesOf(q), CornersOf(tris), VerticesOf(p), Vertices(fed), v1, v2, u);
    AccountsOf(p, q', tris', fed + [u]);
  }

  lemma OneVertex(u: int)
    ensures Vertices([u]) == {u}
  {
  }

  lemma InsertShuffle3(q: set<int>, t: set<int>, p: set<int>, d: set<int>, v1: int, v2: int, u: int)
    requires q + t == p + d && v1 in q && v2 in q
    ensures (q + {u}) + (t + {v1, v2, u}) == p + (d + {u})
  {
  }

  lemma AroundAt(f: (int, int) -> real, q: seq<seq<int>>, c: int)
    requires 0 <= c < |q|
    ensures Around(f, q) == Around(f, q[..c]) + (Along(f, Closed(q[c])) + Around(f, q[c + 1..]))
  {
    hide *;
    var l, r := [q[c]], q[c + 1..];
    assert q == q[..c] + (l + r);
    OneAround(f, q[c]);
    AroundAdd(f, q[..c], l + r);
    AroundAdd(f, l, r);
  }

  lemma OneAround(f: (int, int) -> real, p: seq<int>)
    ensures Around(f, [p]) == Along(f, Closed(p))
  {
    assert [p][..0] == [];
  }

  lemma CountsAt(q: seq<seq<int>>, c: int)
    requires 0 <= c < |q|
    ensures Excess(q) == Excess(q[..c]) + (|q[c]| - 2 + Excess(q[c + 1..]))
    ensures VerticesOf(q) == VerticesOf(q[..c]) + (Vertices(q[c]) + VerticesOf(q[c + 1..]))
  {
    var l := [q[c]];
    assert q == q[..c] + (l + q[c + 1..]);
    ExcessAdd(q[..c], l + q[c + 1..]);
    ExcessAdd(l, q[c + 1..]);
    assert Below(l) == [];
  }

  lemma InsertAround(f: (int, int) -> real, q: seq<seq<int>>, c: int, k: nat, v1: int, v2: int, m: seq<int>, u: int)
    requires Odd(f) && 0 <= c < |q| && k <= |q[c]| && q[c][k..] + q[c][..k] == [v1] + m && v2 == (m + [v1])[0]
    ensures Around(f, q[c := [v1, u] + m]) + (f(v1, v2) + f(v2, u) + f(u, v1)) == Around(f, q)
  {
    var q' := q[c := [v1, u] + m];
    AroundAt(f, q, c);
    AroundAt(f, q', c);
    assert q'[..c] == q[..c] && q'[c + 1..] == q[c + 1..];
    hide Around;
    var l := q[c];
    assert l == l[..k] + l[k..];
    RotateAlong(f, l[..k], l[k..]);
    InsertAlong(f, v1, v2, m, u);
  }

  lemma InsertAlong(f: (int, int) -> real, v1: int, v2: int, m: seq<int>, u: int)
    requires Odd(f) && v2 == (m + [v1])[0]
    ensures Along(f, Closed([v1, u] + m)) + (f(v1, v2) + f(v2, u) + f(u, v1)) == Along(f, Closed([v1] + m))
  {
    var p, r := Closed([v1, u] + m), Closed([v1] + m);
    assert r[1..] == m + [v1] && p[1..] == [u] + (m + [v1]) && ([u] + (m + [v1]))[1..] == m + [v1];
    assert f(v2, u) == -f(u, v2) && f(u, v1) == -f(v1, u);
  }

  lemma InsertCounts(q: seq<seq<int>>, c: int, k: nat, v1: int, v2: int, m: seq<int>, u: int)
    requires 0 <= c < |q| && k <= |q[c]| && q[c][k..] + q[c][..k] == [v1] + m && v2 == (m + [v1])[0]
    ensures Excess(q[c := [v1, u] + m]) == Excess(q) + 1
    ensures VerticesOf(q[c := [v1, u] + m]) == VerticesOf(q) + {u} && v1 in VerticesOf(q) && v2 in VerticesOf(q)
  {
    var q', l := q[c := [v1, u] + m], q[c];
    CountsAt(q, c);
    CountsAt(q', c);
    assert q'[..c] == q[..c] && q'[c + 1..] == q[c + 1..];
    assert |l| == |[v1] + m| by {
      assert l == l[..k] + l[k..];
    }
    InsertVertices(l, k, v1, v2, m, u);
    hide Excess, VerticesOf, Vertices;
    InsertUnion(VerticesOf(q[..c]), Vertices(l), VerticesOf(q[c + 1..]), Vertices([v1, u] + m), v1, v2, u);
  }

  lemma InsertVertices(l: seq<int>, k: nat, v1: int, v2: int, m: seq<int>, u: int)
    requires k <= |l| && l[k..] + l[..k] == [v1] + m && v2 == (m + [v1])[0]
    ensures Vertices([v1, u] + m) == Vertices(l) + {u} && v1 in Vertices(l) && v2 in Vertices(l)
  {
    assert l == l[..k] + l[k..];
    JoinVertices(l[..k], l[k..]);
    JoinVertices(l[k..], l[..k]);
    JoinVertices([v1], m);
    JoinVertices([v1], [u]);
    JoinVertices([v1, u], m);
    OneVertex(v1);
    OneVertex(u);
    assert [v1] + [u] == [v1, u];
    assert v2 == if m == [] then v1 else m[0];
    assert m != [] ==> m[0] in Vertices(m);
    assert Vertices(l) == {v1} + Vertices(m);
  }

  lemma InsertUnion(a: set<int>, l: set<int>, b: set<int>, l': set<int>, v1: int, v2: int, u: int)
    requires l' == l + {u} && v1 in l && v2 in l
    ensures a + (l' + b) == (a + (l + b)) + {u} && v1 in a + (l + b) && v2 in a + (l + b)
  {
  }

  /** Where a contour is entered does not matter. */
  lemma AccountsTurn(p: seq<seq<int>>, q: seq<seq<int>>, tris: seq<(int, int, int)>, fed: seq<int>, c: int, k: nat)
    requires Accounts(p, q, tris, fed)
    ensures Accounts(p, TurnedAt(q, c, k), tris, fed)
  {
    if 0 <= c < |q| && k <= |q[c]| {
      var l, q' := q[c], TurnedAt(q, c, k);
      assert l == l[..k] + l[k..];
      AccountsCounts(p, q, tris, fed);
      CountsAt(q, c);
      CountsAt(q', c);
      assert q'[..c] == q[..c] && q'[c + 1..] == q[c + 1..] && q'[c] == l[k..] + l[..k];
      JoinVertices(l[..k], l[k..]);
      JoinVertices(l[k..], l[..k]);
      hide Accounts, Excess, VerticesOf, Vertices, Around, TurnedAt;
      forall f: (int, int) -> real | Odd(f) ensures Around(f, q') + OfTriangles(f, tris) == Around(f, p) {
        AccountsFor(p, q, tris, fed, f);
        AroundAt(f, q, c);
        AroundAt(f, q', c);
        RotateAlong(f, l[..k], l[k..]);
      }
      AccountsOf(p, q', tris, fed);
    }
  }

  // ---------------------------------------------------------------- the triangles made so far

  /** Since (E0, T0): notr lists new triangles with the corners tris, and the old ones are unchanged. */
  ghost predicate Traced(E0: Edges, T0: seq<Tri>, E: Edges, T: seq<Tri>, notr: seq<int>, tris: seq<(int, int, int)>) {
    && Grows(E0, E) && |T| == |T0| && |tris| == |notr| && Unique(notr)
    && (forall t | Active(T0, t) :: T[t] == T0[t])
    && (forall k {:trigger notr[k]} | 0 <= k < |notr| ::
          Active(T, notr[k]) && !Active(T0, notr[k]) && Cycle(E, T[notr[k]]) && Verts(E, T[notr[k]]) == tris[k])
  }

  lemma TracedStep(E0: Edges, T0: seq<Tri>, E: Edges, T: seq<Tri>, E': Edges, T': seq<Tri>, notr: seq<int>,
      tris: seq<(int, int, int)>, nt: int, v: (int, int, int))
    requires Traced(E0, T0, E, T, notr, tris) && Emitted(E, T, E', T', nt, v)
    ensures Traced(E0, T0, E', T', notr + [nt], tris + [v])
  {
    GrowsTwice(E0, E, E');
    var notr', tris' := notr + [nt], tris + [v];
    forall k | 0 <= k < |notr'|
      ensures Active(T', notr'[k]) && !Active(T0, notr'[k]) && Cycle(E', T'[notr'[k]])
        && Verts(E', T'[notr'[k]]) == tris'[k]
      ensures k < |notr| ==> notr'[k] != nt
    {
      if k < |notr| {
        assert notr'[k] == notr[k] && Active(T, notr[k]) && T'[notr[k]] == T[notr[k]];
        CycleGrows(E, E', T[notr[k]]);
      }
    }
  }

  lemma CycleGrows(E: Edges, E': Edges, x: Tri)
    requires Grows(E, E') && Cycle(E, x)
    ensures Cycle(E', x) && Verts(E', x) == Verts(E, x)
  {
  }

  lemma TracedGrows(E0: Edges, T0: seq<Tri>, E: Edges, T: seq<Tri>, E': Edges, notr: seq<int>,
      tris: seq<(int, int, int)>)
    requires Traced(E0, T0, E, T, notr, tris) && Grows(E, E')
    ensures Traced(E0, T0, E', T, notr, tris)
  {
    GrowsTwice(E0, E, E');
    forall k | 0 <= k < |notr| ensures Cycle(E', T[notr[k]]) && Verts(E', T[notr[k]]) == tris[k] {
      CycleGrows(E, E', T[notr[k]]);
    }
  }
}
