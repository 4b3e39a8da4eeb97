/** Cutting a triangle off a contour, on values: the four cases of `trcf3s_` and the insertion of an
    isolated vertex, each as the new slots, free list and contours. */
module Cutting {
  import opened Lists
  import opened EdgeTable
  import opened Mesh
  import opened Contours

  /** No slot twice in the free list and a contour written [x1] + a + [x2] + b + [x3] + c. */
  ghost predicate Parted(n: int, free: seq<int>, x1: int, a: seq<int>, x2: int, b: seq<int>, x3: int, c: seq<int>) {
    && x1 != x2 && x2 != x3 && x3 != x1
    && 1 <= x1 < n && 1 <= x2 < n && 1 <= x3 < n
    && (forall x | x in free || x in a || x in b || x in c :: 1 <= x < n && x != x1 && x != x2 && x != x3)
    && (forall x | x in free :: x !in a && x !in b && x !in c)
    && (forall x | x in a :: x !in b && x !in c)
    && (forall x | x in b :: x !in c)
    && Unique(free) && Unique(a) && Unique(b) && Unique(c)
  }

  lemma UniqueOf(l: seq<int>)
    requires forall x :: multiset(l)[x] <= 1
    ensures Unique(l)
  {
    forall i, j | 0 <= i < j < |l| ensures l[i] != l[j] {
      assert l == l[..i] + ([l[i]] + l[i + 1..]);
      assert l[j] == l[i + 1..][j - i - 1] && l[j] in l[i + 1..];
      assert multiset(l)[l[j]] == multiset(l[..i])[l[j]] + One(l[j], l[i]) + multiset(l[i + 1..])[l[j]];
    }
  }

  /** A contour as the corners of a triangle and what lies between them. */
  function Ring3(x1: int, a: seq<int>, x2: int, b: seq<int>, x3: int, c: seq<int>): (r: seq<int>) {
    [x1] + a + [x2] + b + [x3] + c
  }

  function One(x: int, y: int): (r: nat) {
    if x == y then 1 else 0
  }

  lemma CountOf(free: seq<int>, x1: int, a: seq<int>, x2: int, b: seq<int>, x3: int, c: seq<int>, x: int)
    ensures (multiset(free) + multiset(Ring3(x1, a, x2, b, x3, c)))[x]
         == multiset(free)[x] + One(x, x1) + multiset(a)[x] + One(x, x2) + multiset(b)[x] + One(x, x3) + multiset(c)[x]
  {
  }

  lemma RingMultiset(x1: int, a: seq<int>, x2: int, b: seq<int>, x3: int, c: seq<int>)
    ensures multiset(Ring3(x1, a, x2, b, x3, c)) == multiset{x1, x2, x3} + multiset(a) + multiset(b) + multiset(c)
  {
  }

  lemma PartedOf(n: int, free: seq<int>, x1: int, a: seq<int>, x2: int, b: seq<int>, x3: int, c: seq<int>)
    requires Pool(n, multiset(free) + multiset(Ring3(x1, a, x2, b, x3, c)))
    ensures Parted(n, free, x1, a, x2, b, x3, c)
  {
    var m := multiset(free) + multiset(Ring3(x1, a, x2, b, x3, c));
    hide Ring3;
    forall x
      ensures multiset(free)[x] + One(x, x1) + multiset(a)[x] + One(x, x2) + multiset(b)[x] + One(x,
        x3) + multiset(c)[x] <= 1
      ensures x in free || x == x1 || x in a || x == x2 || x in b || x == x3 || x in c ==> 1 <= x < n
    {
      CountOf(free, x1, a, x2, b, x3, c, x);
      assert x in m || m[x] == 0;
    }
    UniqueOf(free);
    UniqueOf(a);
    UniqueOf(b);
    UniqueOf(c);
    assert One(x1, x1) == One(x2, x2) == One(x3, x3) == 1;
  }

  lemma HeldTop(E: Edges, s: seq<Slot>, h: seq<int>, free: seq<int>, below: seq<seq<int>>, l: seq<int>)
    requires Held(E, s, h, free, below + [l])
    ensures Pool(|s|, multiset(free) + multiset(l)) && Path(E, s, Closed(l)) && Chain(s, free) && |h| > 0
      && h[0] == At(free, 0)
  {
    hide Path, Chain;
    var n := |below|;
    assert (below + [l])[n] == l;
    SumAdd(below, [l]);
    assert Sum([l]) == multiset(l) by { assert [l][..0] == []; }
    var m, m' := multiset(free) + Sum(below + [l]), multiset(free) + multiset(l);
    forall x | x in m' ensures 1 <= x < |s| && m'[x] == 1 {
      assert m[x] == m'[x] + Sum(below)[x];
      assert x in m;
    }
  }

  /** A path as its steps. */
  lemma {:induction false} StepOf(E: Edges, s: seq<Slot>, p: seq<int>, k: int)
    requires Path(E, s, p) && 0 <= k < |p| - 1
    ensures Arc(E, s, p[k], p[k + 1])
  {
    if k > 0 {
      StepOf(E, s, p[1..], k - 1);
    }
  }

  /** The slots of a part: the path, and what the slots around it point to. */
  ghost predicate Part(E: Edges, s: seq<Slot>, x: int, m: seq<int>, y: int) {
    && Path(E, s, [x] + m + [y])
    && 1 <= x < |s| && s[x].som > 0 && s[x].suiv == (if m == [] then y else m[0])
    && (m != [] ==> 1 <= m[|m| - 1] < |s| && s[m[|m| - 1]].suiv == y)
  }

  lemma PartOf(E: Edges, s: seq<Slot>, x: int, m: seq<int>, y: int)
    requires Path(E, s, [x] + m + [y])
    ensures Part(E, s, x, m, y)
  {
    StepOf(E, s, [x] + m + [y], 0);
    StepOf(E, s, [x] + m + [y], |m|);
  }

  /** The three parts of a contour, as paths between the corners of a triangle. */
  lemma PartsOf(E: Edges, s: seq<Slot>, x1: int, a: seq<int>, x2: int, b: seq<int>, x3: int, c: seq<int>)
    requires Path(E, s, Closed(Ring3(x1, a, x2, b, x3, c)))
    ensures Part(E, s, x1, a, x2) && Part(E, s, x2, b, x3) && Part(E, s, x3, c, x1)
  {
    hide Path, Part;
    PathJoin(E, s, [x1] + a, x2, b + [x3] + c + [x1]);
    PathJoin(E, s, [x2] + b, x3, c + [x1]);
    assert Closed(Ring3(x1, a, x2, b, x3, c)) == [x1] + a + [x2] + (b + [x3] + c + [x1]);
    assert [x2] + (b + [x3] + c + [x1]) == [x2] + b + [x3] + (c + [x1]) && [x3] + (c + [x1]) == [x3] + c + [x1];
    PartOf(E, s, x1, a, x2);
    PartOf(E, s, x2, b, x3);
    PartOf(E, s, x3, c, x1);
  }

  /** All that is known of the last contour when it is cut at x1, x2, x3. */
  lemma TopFacts(E: Edges, s: seq<Slot>, h: seq<int>, free: seq<int>, below: seq<seq<int>>,
                 x1: int, a: seq<int>, x2: int, b: seq<int>, x3: int, c: seq<int>)
    requires Held(E, s, h, free, below + [Ring3(x1, a, x2, b, x3, c)])
    ensures Parted(|s|, free, x1, a, x2, b, x3, c) && Chain(s, free) && |h| > 0 && h[0] == At(free, 0)
    ensures Part(E, s, x1, a, x2) && Part(E, s, x2, b, x3) && Part(E, s, x3, c, x1)
    ensures multiset(Ring3(x1, a, x2, b, x3, c)) == multiset{x1, x2, x3} + multiset(a) + multiset(b) + multiset(c)
    ensures x1 in Ring3(x1, a, x2, b, x3, c) && x2 in Ring3(x1, a, x2, b, x3, c) && x3 in Ring3(x1, a, x2, b, x3, c)
    ensures c != [] ==> c[|c| - 1] in Ring3(x1, a, x2, b, x3, c)
  {
    RingMultiset(x1, a, x2, b, x3, c);
    hide Ring3, Path, Pool, Held;
    HeldTop(E, s, h, free, below, Ring3(x1, a, x2, b, x3, c));
    PartedOf(|s|, free, x1, a, x2, b, x3, c);
    PartsOf(E, s, x1, a, x2, b, x3, c);
    assert c != [] ==> c[|c| - 1] in multiset(Ring3(x1, a, x2, b, x3, c));
    assert x1 in multiset(Ring3(x1, a, x2, b, x3, c)) && x2 in multiset(Ring3(x1, a, x2, b, x3, c))
      && x3 in multiset(Ring3(x1, a, x2, b, x3, c));
  }

  lemma ChainOn(s: seq<Slot>, x: int, l: seq<int>)
    requires 0 <= x < |s| && s[x].suiv == At(l, 0) && Chain(s, l)
    ensures Chain(s, [x] + l)
  {
    assert ([x] + l)[1..] == l;
  }

  lemma ChainTail(s: seq<Slot>, l: seq<int>)
    requires Chain(s, l) && l != []
    ensures 0 <= l[0] < |s| && s[l[0]].suiv == At(l[1..], 0) && Chain(s, l[1..])
  {
  }

  lemma OneList(a: seq<int>)
    ensures Sum([a]) == multiset(a)
  {
    assert [a][..0] == [];
  }

  lemma TwoLists(a: seq<int>, b: seq<int>)
    ensures Sum([a, b]) == multiset(a) + multiset(b)
  {
    assert [a, b][..1] == [a];
    OneList(a);
  }

  lemma ThreeLists(a: seq<int>, b: seq<int>, c: seq<int>)
    ensures Sum([a, b, c]) == multiset(a) + multiset(b) + multiset(c)
  {
    assert [a, b, c][..2] == [a, b];
    TwoLists(a, b);
  }

  // ---------------------------------------------------------------- three edges on the contour

  lemma CloseHeld(E: Edges, s: seq<Slot>, h: seq<int>, free: seq<int>, below: seq<seq<int>>, x1: int, x2: int, x3: int)
    requires Held(E, s, h, free, below + [Ring3(x1, [], x2, [], x3, [])]) && |h| > |below| + 1
    ensures 1 <= x3 < |s|
    ensures var s', h' := s[x3 := s[x3].(suiv := h[0])], h[0 := x1];
            Held(E, s', h', [x1] + ([x2] + ([x3] + free)), below) && Polys(s', below) == Polys(s, below)
  {
    hide Path, Ring3, Held, Chain;
    TopFacts(E, s, h, free, below, x1, [], x2, [], x3, []);
    var s', h', free' := s[x3 := s[x3].(suiv := h[0])], h[0 := x1], [x1] + ([x2] + ([x3] + free));
    ChainSame(s, s', free);
    ChainOn(s', x3, free);
    ChainOn(s', x2, [x3] + free);
    ChainOn(s', x1, [x2] + ([x3] + free));
    assert below + [] == below;
    assert Sum([]) == multiset{};
    Assemble(E, s, h, free, below, Ring3(x1, [], x2, [], x3, []), s', h', free', []);
  }

  // ---------------------------------------------------------------- two edges on the contour

  function Clip(s: seq<Slot>, x1: int, x2: int, x3: int, noar3: int, first: int): (r: seq<Slot>)
    requires 0 <= x1 < |s| && 0 <= x2 < |s|
  {
    var s1 := s[x1 := s[x1].(suiv := x3, noar := noar3)];
    s1[x2 := s1[x2].(suiv := first)]
  }

  lemma ClipHeld(E: Edges, s: seq<Slot>, h: seq<int>, free: seq<int>, below: seq<seq<int>>, x1: int, x2: int, x3: int,
      c: seq<int>, noar3: int)
    requires Held(E, s, h, free, below + [Ring3(x1, [], x2, [], x3, c)]) && |h| > |below| + 1 && c != []
    requires 0 <= x1 < |s| && 0 <= x2 < |s| && 0 <= x3 < |s| && Names(E, noar3, s[x3].som, s[x1].som)
    ensures var s', h' := Clip(s, x1, x2, x3, noar3, h[0]), h[0 := x2][|below| + 1 := x1];
            && Held(E, s', h', [x2] + free, below + [[x1, x3] + c]) && Polys(s', below) == Polys(s, below)
            && Poly(s', [x1, x3] + c) == [s[x1].som, s[x3].som] + Poly(s, c)
  {
    hide Path, Ring3, Held, Chain, Poly, Polys, Names;
    TopFacts(E, s, h, free, below, x1, [], x2, [], x3, c);
    var s', h', free' := Clip(s, x1, x2, x3, noar3, h[0]), h[0 := x2][|below| + 1 := x1], [x2] + free;
    ChainSame(s, s', free);
    ChainOn(s', x2, free);
    NamesBack(E, noar3, s[x3].som, s[x1].som);
    PieceRing(E, s, s', x3, c, x1, x3, x1);
    var ring := [x1, x3] + c;
    OneList(ring);
    Assemble(E, s, h, free, below, Ring3(x1, [], x2, [], x3, c), s', h', free', [ring]);
  }

  lemma NamesBack(E: Edges, a: int, u: int, v: int)
    requires Names(E, a, u, v)
    ensures Names(E, a, v, u)
  {
  }

  // ---------------------------------------------------------------- one edge on the contour

  function Divide(s: seq<Slot>, x0: int, x1: int, x2: int, x3: int, v: int, noar1: int, noar3: int): (r: seq<Slot>)
    requires 0 <= x0 < |s| && 0 <= x1 < |s| && 0 <= x2 < |s| && 0 <= v < |s|
  {
    var s1 := s[x2 := s[x2].(suiv := x1, noar := noar1)];
    var s2 := s1[v := Slot(s1[x1].som, x3, noar3)];
    s2[x0 := s2[x0].(suiv := v)]
  }

  lemma DividePieces(E: Edges, s: seq<Slot>, free: seq<int>, x1: int, a: seq<int>, x2: int, x3: int, c: seq<int>,
      noar1: int, noar3: int)
    requires Parted(|s|, free, x1, a, x2, [], x3, c) && a != [] && c != [] && free != []
    requires Part(E, s, x1, a, x2) && Part(E, s, x2, [], x3) && Part(E, s, x3, c, x1)
    requires Names(E, noar1, s[x1].som, s[x2].som) && Names(E, noar3, s[x3].som, s[x1].som)
    ensures Unique(a) && Unique(c) && free[0] in free && c[|c| - 1] in c && 1 <= free[0] < |s| && 1 <= c[|c| - 1] < |s|
    ensures var v := free[0];
            var s' := Divide(s, c[|c| - 1], x1, x2, x3, v, noar1, noar3);
            && Piece(E, s, s', x1, a, x2, x1, x2) && Piece(E, s, s', x3, c, x1, x3, v)
            && |s'| == |s|
            && (forall x | 0 <= x < |s| && s'[x] != s[x] :: x == x2 || x == v || x == c[|c| - 1])
            && (forall x | x in free[1..] && 0 <= x < |s| :: s'[x].suiv == s[x].suiv)
  {
    hide Path, Names;
    NamesBack(E, noar1, s[x1].som, s[x2].som);
    NamesBack(E, noar3, s[x3].som, s[x1].som);
    var v, x0 := free[0], c[|c| - 1];
    assert v in free && x0 in c;
    assert forall x | x in free[1..] :: x in free && x != v;
    assert x0 !in a && x2 !in a && v !in a && x0 !in free && v !in c && x2 !in c;
    hide Unique;
  }

  lemma Front(x: int, y: int, m: seq<int>)
    ensures multiset([x, y] + m) == multiset{x, y} + multiset(m)
  {
  }

  lemma First(l: seq<int>)
    requires l != []
    ensures multiset(l) == multiset{l[0]} + multiset(l[1..])
  {
    assert l == [l[0]] + l[1..];
  }

  lemma DivideCount(free: seq<int>, x1: int, a: seq<int>, x2: int, x3: int, c: seq<int>)
    requires free != []
    ensures multiset(free[1..]) + Sum([[x2, x1] + a, [free[0], x3] + c])
      == multiset(free) + multiset(Ring3(x1, a, x2, [], x3, c))
  {
    RingMultiset(x1, a, x2, [], x3, c);
    hide Ring3, Sum;
    TwoLists([x2, x1] + a, [free[0], x3] + c);
    Front(x2, x1, a);
    Front(free[0], x3, c);
    First(free);
    DivideShuffle(x1, x2, x3, free[0], multiset(a), multiset(c), multiset(free[1..]));
  }

  lemma DivideShuffle(x1: int, x2: int, x3: int, v: int, a: multiset<int>, c: multiset<int>, f: multiset<int>)
    ensures f + ((multiset{x2, x1} + a) + (multiset{v, x3} + c))
      == (multiset{v} + f) + (multiset{x1, x2, x3} + a + multiset{} + c)
  {
  }

  lemma DivideHeld(E: Edges, s: seq<Slot>, h: seq<int>, free: seq<int>, below: seq<seq<int>>,
                   x1: int, a: seq<int>, x2: int, x3: int, c: seq<int>, noar1: int, noar3: int)
    requires Held(E, s, h, free, below + [Ring3(x1, a, x2, [], x3, c)]) && |h| > |below| + 2 && a != [] && c != []
      && free != []
    requires 0 <= x1 < |s| && 0 <= x2 < |s| && 0 <= x3 < |s|
    requires Names(E, noar1, s[x1].som, s[x2].som) && Names(E, noar3, s[x3].som, s[x1].som)
    ensures 1 <= free[0] < |s| && 1 <= c[|c| - 1] < |s|
    ensures var v := free[0];
            var s', h' := Divide(s, c[|c| - 1], x1, x2, x3, v, noar1, noar3),
              h[|below| + 1 := x2][0 := s[v].suiv][|below| + 2 := v];
            && Held(E, s', h', free[1..], below + [[x2, x1] + a, [v, x3] + c]) && Polys(s', below) == Polys(s, below)
            && Poly(s', [x2, x1] + a) == [s[x2].som, s[x1].som] + Poly(s, a)
            && Poly(s', [v, x3] + c) == [s[x1].som, s[x3].som] + Poly(s, c)
  {
    hide Path, Ring3, Held, Chain, Poly, Polys, Names;
    TopFacts(E, s, h, free, below, x1, a, x2, [], x3, c);
    var v, x0 := free[0], c[|c| - 1];
    assert v in free && x0 in c;
    DividePieces(E, s, free, x1, a, x2, x3, c, noar1, noar3);
    hide Piece, Divide, Parted;
    var s', h', free' := Divide(s, x0, x1, x2, x3, v, noar1, noar3),
      h[|below| + 1 := x2][0 := s[v].suiv][|below| + 2 := v], free[1..];
    ChainTail(s, free);
    ChainSame(s, s', free');
    PieceRing(E, s, s', x1, a, x2, x1, x2);
    PieceRing(E, s, s', x3, c, x1, x3, v);
    var r1, r2 := [x2, x1] + a, [v, x3] + c;
    DivideCount(free, x1, a, x2, x3, c);
    assert r1[0] == x2 && r2[0] == v && x2 in r1 && v in r2;
    hide Closed, Sum;
    Assemble(E, s, h, free, below, Ring3(x1, a, x2, [], x3, c), s', h', free', [r1, r2]);
  }

  // ---------------------------------------------------------------- no edge on the contour

  function Shatter(s: seq<Slot>, x0: int, x1: int, x2: int, x3: int, v: int, w: int, u: int, noar1: int, noar2: int,
      noar3: int): (r: seq<Slot>)
    requires 0 <= x0 < |s| && 0 <= x1 < |s| && 0 <= x2 < |s| && 0 <= x3 < |s| && 0 <= v < |s| && 0 <= w < |s|
      && 0 <= u < |s|
  {
    var s1 := s[x2 := s[x2].(suiv := x1, noar := noar1)];
    var s2 := s1[v := Slot(s1[x2].som, s[x2].suiv, s[x2].noar)];
    var s3 := s2[x3 := s2[x3].(suiv := v, noar := noar2)];
    var s4 := s3[w := Slot(s3[x3].som, s2[x3].suiv, s2[x3].noar)];
    var s5 := s4[x0 := s4[x0].(suiv := u)];
    s5[u := Slot(s5[x1].som, w, noar3)]
  }

  lemma ShatterAt(s: seq<Slot>, x0: int, x1: int, x2: int, x3: int, v: int, w: int, u: int, noar1: int, noar2: int,
      noar3: int)
    requires 0 <= x0 < |s| && 0 <= x1 < |s| && 0 <= x2 < |s| && 0 <= x3 < |s| && 0 <= v < |s| && 0 <= w < |s|
      && 0 <= u < |s|
    requires x0 != x1 && x0 != x2 && x0 != x3 && x1 != x2 && x2 != x3 && x3 != x1 && v != w && w != u && u != v
    requires forall x | x in [v, w, u] :: x != x0 && x != x1 && x != x2 && x != x3
    ensures var s' := Shatter(s, x0, x1, x2, x3, v, w, u, noar1, noar2, noar3);
            && |s'| == |s|
            && s'[x2] == Slot(s[x2].som, x1, noar1) && s'[v] == s[x2] && s'[x3] == Slot(s[x3].som, v, noar2)
              && s'[w] == s[x3]
            && s'[x0] == s[x0].(suiv := u) && s'[u] == Slot(s[x1].som, w, noar3)
            && forall x | 0 <= x < |s| && s'[x] != s[x] :: x == x2 || x == x3 || x == v || x == w || x == u || x == x0
  {
    assert v in [v, w, u] && w in [v, w, u] && u in [v, w, u];
  }

  lemma ShatterPieces(E: Edges, s: seq<Slot>, free: seq<int>, x1: int, a: seq<int>, x2: int, b: seq<int>, x3: int,
      c: seq<int>,
                      noar1: int, noar2: int, noar3: int)
    requires Parted(|s|, free, x1, a, x2, b, x3, c) && a != [] && b != [] && c != [] && |free| >= 3
    requires Part(E, s, x1, a, x2) && Part(E, s, x2, b, x3) && Part(E, s, x3, c, x1)
    requires Names(E, noar1, s[x1].som, s[x2].som) && Names(E, noar2, s[x2].som, s[x3].som)
      && Names(E, noar3, s[x3].som, s[x1].som)
    ensures Unique(a) && Unique(b) && Unique(c) && c[|c| - 1] in c && 1 <= c[|c| - 1] < |s|
    ensures free[0] in free && free[1] in free && free[2] in free && 1 <= free[0] < |s| && 1 <= free[1] < |s|
      && 1 <= free[2] < |s|
    ensures var v, w, u := free[0], free[1], free[2];
            var s' := Shatter(s, c[|c| - 1], x1, x2, x3, v, w, u, noar1, noar2, noar3);
            && Piece(E, s, s', x1, a, x2, x1, x2) && Piece(E, s, s', x2, b, x3, v, x3)
              && Piece(E, s, s', x3, c, x1, w, u)
            && |s'| == |s|
            && (forall x | 0 <= x < |s| && s'[x] != s[x] ::
              x == x2 || x == x3 || x == v || x == w || x == u || x == c[|c| - 1])
            && (forall x | x in free[1..][1..][1..] && 0 <= x < |s| :: s'[x].suiv == s[x].suiv)
  {
    hide Path, Names;
    NamesBack(E, noar1, s[x1].som, s[x2].som);
    NamesBack(E, noar2, s[x2].som, s[x3].som);
    NamesBack(E, noar3, s[x3].som, s[x1].som);
    var v, w, u, x0 := free[0], free[1], free[2], c[|c| - 1];
    assert v in free && w in free && u in free && x0 in c && v != w && w != u && u != v;
    assert forall x | x in free[1..][1..][1..] :: x in free && x != v && x != w && x != u by {
      assert free[1..][1..][1..] == free[3..];
    }
    assert x0 !in a && x0 !in b && x0 !in free;
    ShatterAt(s, x0, x1, x2, x3, v, w, u, noar1, noar2, noar3);
    hide Unique, Shatter;
  }

  lemma ShatterCount(free: seq<int>, x1: int, a: seq<int>, x2: int, b: seq<int>, x3: int, c: seq<int>)
    requires |free| >= 3
    ensures multiset(free[1..][1..][1..]) + Sum([[x2, x1] + a, [x3, free[0]] + b, [free[2], free[1]] + c])
         == multiset(free) + multiset(Ring3(x1, a, x2, b, x3, c))
  {
    RingMultiset(x1, a, x2, b, x3, c);
    hide Ring3, Sum;
    ThreeLists([x2, x1] + a, [x3, free[0]] + b, [free[2], free[1]] + c);
    Front(x2, x1, a);
    Front(x3, free[0], b);
    Front(free[2], free[1], c);
    First(free);
    First(free[1..]);
    First(free[1..][1..]);
    ShatterShuffle(x1, x2, x3, free[0], free[1], free[2], multiset(a), multiset(b), multiset(c),
      multiset(free[1..][1..][1..]));
  }

  lemma ShatterShuffle(x1: int, x2: int, x3: int, v: int, w: int, u: int, a: multiset<int>, b: multiset<int>,
      c: multiset<int>, f: multiset<int>)
    ensures f + ((multiset{x2, x1} + a) + (multiset{x3, v} + b) + (multiset{u, w} + c))
         == (multiset{v} + (multiset{w} + (multiset{u} + f))) + (multiset{x1, x2, x3} + a + b + c)
  {
    assert multiset{x2, x1} == multiset{x1} + multiset{x2} && multiset{x3, v} == multiset{x3} + multiset{v};
    assert multiset{u, w} == multiset{u} + multiset{w}
      && multiset{x1, x2, x3} == multiset{x1} + multiset{x2} + multiset{x3};
    Regrouped(multiset{x1}, multiset{x2}, multiset{x3}, multiset{v}, multiset{w}, multiset{u}, a, b, c, f);
  }

  lemma Regrouped(x1: multiset<int>, x2: multiset<int>, x3: multiset<int>, v: multiset<int>, w: multiset<int>,
      u: multiset<int>,
                  a: multiset<int>, b: multiset<int>, c: multiset<int>, f: multiset<int>)
    ensures f + ((x1 + x2 + a) + (x3 + v + b) + (u + w + c)) == (v + (w + (u + f))) + (x1 + x2 + x3 + a + b + c)
  {
  }

  lemma ShatterHeld(E: Edges, s: seq<Slot>, h: seq<int>, free: seq<int>, below: seq<seq<int>>,
                    x1: int, a: seq<int>, x2: int, b: seq<int>, x3: int, c: seq<int>, noar1: int, noar2: int,
                      noar3: int)
    requires Held(E, s, h, free, below + [Ring3(x1, a, x2, b, x3, c)]) && |h| > |below| + 3
    requires a != [] && b != [] && c != [] && |free| >= 3
    requires 0 <= x1 < |s| && 0 <= x2 < |s| && 0 <= x3 < |s|
    requires Names(E, noar1, s[x1].som, s[x2].som) && Names(E, noar2, s[x2].som, s[x3].som)
      && Names(E, noar3, s[x3].som, s[x1].som)
    ensures 1 <= free[0] < |s| && 1 <= free[1] < |s| && 1 <= free[2] < |s| && 1 <= c[|c| - 1] < |s|
    ensures s[free[0]].suiv == free[1] && s[free[1]].suiv == free[2]
    ensures var v, w, u := free[0], free[1], free[2];
            var s' := Shatter(s, c[|c| - 1], x1, x2, x3, v, w, u, noar1, noar2, noar3);
            var h' := h[|below| + 1 := x2][|below| + 2 := x3][0 := s[u].suiv][|below| + 3 := u];
            && Held(E, s', h', free[1..][1..][1..], below + [[x2, x1] + a, [x3, v] + b, [u, w] + c])
              && Polys(s', below) == Polys(s, below)
            && Poly(s', [x2, x1] + a) == [s[x2].som, s[x1].som] + Poly(s, a)
            && Poly(s', [x3, v] + b) == [s[x3].som, s[x2].som] + Poly(s, b)
            && Poly(s', [u, w] + c) == [s[x1].som, s[x3].som] + Poly(s, c)
  {
    hide Path, Ring3, Held, Chain, Poly, Polys, Names;
    TopFacts(E, s, h, free, below, x1, a, x2, b, x3, c);
    var v, w, u, x0 := free[0], free[1], free[2], c[|c| - 1];
    ShatterPieces(E, s, free, x1, a, x2, b, x3, c, noar1, noar2, noar3);
    ShatterCount(free, x1, a, x2, b, x3, c);
    hide Piece, Shatter, Parted, Closed, Sum;
    var s' := Shatter(s, x0, x1, x2, x3, v, w, u, noar1, noar2, noar3);
    var h', free' := h[|below| + 1 := x2][|below| + 2 := x3][0 := s[u].suiv][|below| + 3 := u], free[1..][1..][1..];
    ShatterFree(s, s', free);
    ShatterRings(E, s, s', x1, a, x2, b, x3, c, v, w, u);
    hide Part;
    var r1, r2, r3 := [x2, x1] + a, [x3, v] + b, [u, w] + c;
    assert r1[0] == x2 && r2[0] == x3 && r3[0] == u && x2 in r1 && x3 in r2 && u in r3;
    Assemble(E, s, h, free, below, Ring3(x1, a, x2, b, x3, c), s', h', free', [r1, r2, r3]);
  }

  lemma ShatterFree(s: seq<Slot>, s': seq<Slot>, free: seq<int>)
    requires Chain(s, free) && |free| >= 3 && |s'| == |s|
    requires forall x | x in free[1..][1..][1..] && 0 <= x < |s| :: s'[x].suiv == s[x].suiv
    ensures 0 <= free[0] < |s| && 0 <= free[1] < |s| && 0 <= free[2] < |s|
    ensures s[free[0]].suiv == free[1] && s[free[1]].suiv == free[2] && s[free[2]].suiv == At(free[1..][1..][1..], 0)
    ensures Chain(s', free[1..][1..][1..])
  {
    hide Chain;
    ChainTail(s, free);
    ChainTail(s, free[1..]);
    ChainTail(s, free[1..][1..]);
    ChainSame(s, s', free[1..][1..][1..]);
  }

  lemma ShatterRings(E: Edges, s: seq<Slot>, s': seq<Slot>, x1: int, a: seq<int>, x2: int, b: seq<int>, x3: int,
      c: seq<int>, v: int, w: int, u: int)
    requires Unique(a) && Unique(b) && Unique(c)
    requires Part(E, s, x1, a, x2) && Part(E, s, x2, b, x3) && Part(E, s, x3, c, x1)
    requires Piece(E, s, s', x1, a, x2, x1, x2) && Piece(E, s, s', x2, b, x3, v, x3) && Piece(E, s, s', x3, c, x1, w, u)
    ensures Path(E, s', Closed([x2, x1] + a)) && Path(E, s', Closed([x3, v] + b)) && Path(E, s', Closed([u, w] + c))
    ensures Poly(s', [x2, x1] + a) == [s[x2].som, s[x1].som] + Poly(s, a)
    ensures Poly(s', [x3, v] + b) == [s[x3].som, s[x2].som] + Poly(s, b)
    ensures Poly(s', [u, w] + c) == [s[x1].som, s[x3].som] + Poly(s, c)
  {
    hide Path, Poly, Closed, Unique;
    PieceRing(E, s, s', x1, a, x2, x1, x2);
    PieceRing(E, s, s', x2, b, x3, v, x3);
    PieceRing(E, s, s', x3, c, x1, w, u);
  }

  // ---------------------------------------------------------------- an isolated vertex

  /** Replacing contour c alone. */
  lemma Replace(E: Edges, s: seq<Slot>, h: seq<int>, free: seq<int>, lists: seq<seq<int>>, c: int,
                s': seq<Slot>, h': seq<int>, free': seq<int>, l: seq<int>)
    requires Held(E, s, h, free, lists) && 0 <= c < |lists|
    requires |s'| == |s| && forall x | 0 <= x < |s| && s'[x] != s[x] :: x in lists[c] || x in free
    requires multiset(free') + multiset(l) == multiset(free) + multiset(lists[c])
    requires Chain(s', free') && |h'| == |h| && h'[0] == At(free', 0)
    requires forall d | 1 <= d < |h| :: h'[d] == h[d]
    requires h[c + 1] in l && Path(E, s', Closed(l))
    ensures Held(E, s', h', free', lists[c := l])
    ensures Polys(s', lists[c := l]) == Polys(s, lists)[c := Poly(s', l)]
  {
    hide Path, Chain, Pool, Sum, Rings;
    var pre, post := lists[..c], lists[c + 1..];
    SumAt(lists, c);
    SumAt(lists[c := l], c);
    assert lists[c := l][..c] == pre && lists[c := l][c + 1..] == post;
    ReplaceCount(multiset(free'), multiset(l), multiset(free), multiset(lists[c]), Sum(pre), Sum(post));
    forall d | 0 <= d < |lists| && d != c ensures Path(E, s', Closed(lists[d]))
      && Poly(s', lists[d]) == Poly(s, lists[d]) {
      RingOf(E, s, h, lists, d);
      forall x | x in lists[d] && 0 <= x < |s| ensures s'[x] == s[x] {
        ElsewhereOf(|s|, free, lists, c, d, x);
      }
      PathSame(E, s, s', Closed(lists[d]));
      assert forall k | 0 <= k < |lists[d]| :: lists[d][k] in lists[d];
    }
    ReplaceRings(E, s, h, lists, c, s', h', l);
  }

  lemma RingOf(E: Edges, s: seq<Slot>, h: seq<int>, lists: seq<seq<int>>, d: int)
    requires Rings(E, s, h, lists) && 0 <= d < |lists|
    ensures |h| > d + 1 && h[d + 1] in lists[d] && Path(E, s, Closed(lists[d]))
  {
  }

  lemma ReplaceRings(E: Edges, s: seq<Slot>, h: seq<int>, lists: seq<seq<int>>, c: int, s': seq<Slot>, h': seq<int>,
      l: seq<int>)
    requires Rings(E, s, h, lists) && 0 <= c < |lists| && |h'| == |h|
    requires forall d | 1 <= d < |h| :: h'[d] == h[d]
    requires h[c + 1] in l && Path(E, s', Closed(l))
    requires forall d | 0 <= d < |lists| && d != c :: Path(E, s', Closed(lists[d]))
    ensures Rings(E, s', h', lists[c := l])
  {
    hide Path;
  }

  lemma ReplaceCount(f': multiset<int>, l': multiset<int>, f: multiset<int>, l: multiset<int>, a: multiset<int>,
      b: multiset<int>)
    requires f' + l' == f + l
    ensures f' + (a + (l' + b)) == f + (a + (l + b))
  {
    assert f' + (a + (l' + b)) == (f' + l') + (a + b) && f + (a + (l + b)) == (f + l) + (a + b);
  }

  lemma ElsewhereOf(n: int, free: seq<int>, lists: seq<seq<int>>, c: int, d: int, x: int)
    requires Pool(n, multiset(free) + Sum(lists)) && 0 <= c < |lists| && 0 <= d < |lists| && d != c && x in lists[d]
    ensures x !in free && x !in lists[c]
  {
    hide Sum;
    var pre, post := lists[..c], lists[c + 1..];
    SumAt(lists, c);
    if d < c {
      InSum(pre, d, x);
    } else {
      InSum(post, d - c - 1, x);
    }
    var m := multiset(free) + Sum(lists);
    assert m[x] == multiset(free)[x] + (Sum(pre)[x] + (multiset(lists[c])[x] + Sum(post)[x]));
    assert x in m;
  }

  function Insert(s: seq<Slot>, x1: int, x2: int, v: int, ns1: int, ns3: int, noar2: int, noar3: int): (r: seq<Slot>)
    requires 0 <= x1 < |s| && 0 <= v < |s|
  {
    s[x1 := Slot(ns1, v, noar3)][v := Slot(ns3, x2, noar2)]
  }

  /** The vertex ns3 enters contour c = [x1] + m after x1. */
  lemma InsertHeld(E: Edges, s: seq<Slot>, h: seq<int>, free: seq<int>, lists: seq<seq<int>>, c: int, x1: int,
      m: seq<int>, ns3: int, noar2: int, noar3: int)
    requires Held(E, s, h, free, lists) && 0 <= c < |lists| && free != [] && lists[c] == [x1] + m && ns3 > 0
    requires |h| > c + 1 && h[c + 1] == x1
    requires 1 <= x1 < |s| && 1 <= s[x1].suiv < |s|
    requires Names(E, noar2, s[s[x1].suiv].som, ns3) && Names(E, noar3, ns3, s[x1].som)
    ensures 1 <= free[0] < |s|
    ensures var v := free[0];
            var s', h', l := Insert(s, x1, s[x1].suiv, v, s[x1].som, ns3, noar2, noar3), h[0 := s[v].suiv], [x1, v] + m;
            && Held(E, s', h', free[1..], lists[c := l])
            && Polys(s', lists[c := l]) == Polys(s, lists)[c := [s[x1].som, ns3] + Poly(s, m)]
  {
    hide Path, Chain, Pool, Sum, Rings;
    var v, x2 := free[0], s[x1].suiv;
    assert v in free;
    InsertFacts(E, s, h, free, lists, c, x1, m);
    NamesBack(E, noar2, s[x2].som, ns3);
    NamesBack(E, noar3, ns3, s[x1].som);
    var s', h', free', l := Insert(s, x1, x2, v, s[x1].som, ns3, noar2, noar3), h[0 := s[v].suiv], free[1..],
      [x1, v] + m;
    ChainTail(s, free);
    ChainSame(s, s', free');
    InsertPath(E, s, s', x1, m, v, ns3, noar2, noar3);
    assert multiset(free') + multiset(l) == multiset(free) + multiset(lists[c]) by {
      First(free);
      assert multiset([x1, v] + m) == multiset{x1} + multiset{v} + multiset(m);
      InsertShuffle(multiset(free'), multiset{v}, multiset{x1}, multiset(m));
    }
    assert Poly(s', l) == [s[x1].som, ns3] + Poly(s, m) by {
      assert forall k | 0 <= k < |m| :: m[k] in m;
    }
    hide Closed;
    Replace(E, s, h, free, lists, c, s', h', free', l);
  }

  lemma InsertShuffle(f: multiset<int>, v: multiset<int>, x: multiset<int>, m: multiset<int>)
    ensures f + (x + v + m) == (v + f) + (x + m)
  {
  }

  lemma InsertFacts(E: Edges, s: seq<Slot>, h: seq<int>, free: seq<int>, lists: seq<seq<int>>, c: int, x1: int,
      m: seq<int>)
    requires Held(E, s, h, free, lists) && 0 <= c < |lists| && free != [] && lists[c] == [x1] + m
    ensures Path(E, s, [x1] + m + [x1]) && Chain(s, free) && |h| > 0 && h[0] == At(free, 0)
    ensures 1 <= free[0] < |s| && free[0] != x1 && free[0] !in m && x1 !in m
    ensures forall x | x in free[1..] :: x != free[0] && x != x1
  {
    hide Path, Chain, Pool;
    assert Closed(lists[c]) == [x1] + m + [x1];
    RingOf(E, s, h, lists, c);
    SumAt(lists, c);
    First(free);
    First([x1] + m);
    assert ([x1] + m)[1..] == m;
    hide Sum, Rings;
    OnceFacts(|s|, multiset(free) + Sum(lists), free[0], multiset(free[1..]), Sum(lists[..c]), x1, multiset(m),
      Sum(lists[c + 1..]));
    assert forall x | x in free[1..] :: x in multiset(free[1..]);
    assert forall x | x in m :: x in multiset(m);
  }

  lemma SumAt(lists: seq<seq<int>>, c: int)
    requires 0 <= c < |lists|
    ensures Sum(lists) == Sum(lists[..c]) + (multiset(lists[c]) + Sum(lists[c + 1..]))
  {
    var pre, post := lists[..c], lists[c + 1..];
    assert lists == pre + ([lists[c]] + post);
    SumAdd(pre, [lists[c]] + post);
    SumAdd([lists[c]], post);
    OneList(lists[c]);
  }

  lemma OnceFacts(n: int, all: multiset<int>, v: int, f: multiset<int>, p: multiset<int>, x1: int, m: multiset<int>,
      q: multiset<int>)
    requires Pool(n, all) && all == (multiset{v} + f) + (p + ((multiset{x1} + m) + q))
    ensures 1 <= v < n && v != x1 && v !in m && x1 !in m
    ensures forall x | x in f :: x != v && x != x1
  {
    assert v in all && x1 in all;
    assert all[v] == 1 + f[v] + p[v] + One(v, x1) + m[v] + q[v];
    assert all[x1] == One(x1, v) + f[x1] + p[x1] + 1 + m[x1] + q[x1];
  }

  lemma InsertPath(E: Edges, s: seq<Slot>, s': seq<Slot>, x1: int, m: seq<int>, v: int, ns3: int, noar2: int,
      noar3: int)
    requires Path(E, s, [x1] + m + [x1]) && v !in m && x1 !in m && v != x1 && 1 <= v < |s| && 1 <= x1 < |s|
      && 1 <= s[x1].suiv < |s| && ns3 > 0
    requires s' == Insert(s, x1, s[x1].suiv, v, s[x1].som, ns3, noar2, noar3)
    requires Names(E, noar2, ns3, s[s[x1].suiv].som) && Names(E, noar3, s[x1].som, ns3)
    ensures Path(E, s', Closed([x1, v] + m))
  {
    var p := [x1] + m + [x1];
    assert Arc(E, s, p[0], p[1]);
    var x2 := s[x1].suiv;
    assert p[1..] == m + [x1] && (m + [x1])[0] == x2;
    assert forall x | x in m && 0 <= x < |s| :: s'[x] == s[x];
    hide Insert;
    PathLast(E, s, s', m, x1);
    var q := Closed([x1, v] + m);
    assert q == [x1, v] + (m + [x1]);
    assert q[1..] == [v] + (m + [x1]) && ([v] + (m + [x1]))[1..] == m + [x1];
    assert Arc(E, s', v, x2);
    assert Path(E, s', [v] + (m + [x1]));
    assert Arc(E, s', x1, v);
  }

  /** A path survives changes elsewhere, and at its end when the vertex stays. */
  lemma {:induction false} PathLast(E: Edges, s: seq<Slot>, s': seq<Slot>, m: seq<int>, y: int)
    requires Path(E, s, m + [y]) && |s'| == |s| && 0 <= y < |s| && s'[y].som == s[y].som
    requires forall x | x in m && 0 <= x < |s| :: s'[x] == s[x]
    ensures Path(E, s', m + [y])
  {
    if m != [] {
      assert (m + [y])[1..] == m[1..] + [y];
      assert m[0] in m && (m != [m[0]] ==> m[1] in m);
      PathLast(E, s, s', m[1..], y);
    }
  }
}
