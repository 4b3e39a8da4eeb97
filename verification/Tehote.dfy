/** `tehote_`: passes over the tree that subdivide its leaves until they are small enough and no
    leaf has a neighbour subdivided twice. */
module Tehote {
  import opened Lists
  import opened Geometry
  import opened Delaunay
  import opened Lattice
  import opened Tree
  import opened Splitting
  import opened Leaves
  import opened Quadtree
  import opened Teajte
  import opened Refining

  /** The test of `tehote_` against the bounding rectangle. */
  predicate InRect(P: seq<Point>, r: Box, t: Te) {
    var p1, p2, p3 := PointOf(P, t.v1), PointOf(P, t.v2), PointOf(P, t.v3);
    && (r.xmin <= Min(p1.x, p2.x) <= r.xmax || r.xmin <= Max(p1.x, p2.x) <= r.xmax)
    && (r.ymin <= Min(p1.y, p3.y) <= r.ymax || r.ymin <= Max(p1.y, p3.y) <= r.ymax)
  }

  /** The first side of t is longer than 1.34 times the length wished for at one of its corners. */
  predicate TooBig(P: seq<Point>, ideal: Point -> real, t: Te) {
    var p1, p2, p3 := PointOf(P, t.v1), PointOf(P, t.v2), PointOf(P, t.v3);
    var d2 := Dist2(p1, p2);
    var l1, l2, l3 := ideal(p1) * 1.34, ideal(p2) * 1.34, ideal(p3) * 1.34;
    d2 > l1 * l1 || d2 > l2 * l2 || d2 > l3 * l3
  }

  /** The triangle of j's size across side l is not subdivided, or only once along that side. */
  ghost predicate EvenSide(T: seq<Te>, S: Shape, j: int, l: int) {
    Beside(T, S, j, l) ==>
      var n := T[S.at[Mirror(S.geo[j], l)]];
      !Inner(T, S, Sub(n, l)) && !Inner(T, S, Sub(n, Suiv(l)))
  }

  ghost predicate Balanced(T: seq<Te>, S: Shape, j: int) {
    EvenSide(T, S, j, 1) && EvenSide(T, S, j, 2) && EvenSide(T, S, j, 3)
  }

  /** Leaf j is as `tehote_` wants its leaves. */
  ghost predicate Good(T: seq<Te>, S: Shape, P: seq<Point>, r: Box, ideal: Point -> real, j: int) {
    j in S.geo && 1 <= j < |T| && (InRect(P, r, T[j]) ==> Balanced(T, S, j) && !TooBig(P, ideal, T[j]))
  }

  /** What that means in lengths: a leaf with an end of its first side between the sides of the rectangle
      and an end of its third side between its base and top has a first side of at most 1.34 times the
      length wished for at each corner. */
  lemma GoodMeans(T: seq<Te>, S: Shape, P: seq<Point>, r: Box, ideal: Point -> real, j: int)
    requires Good(T, S, P, r, ideal, j)
    ensures 1 <= j < |T|
    ensures var p1, p2, p3 := PointOf(P, T[j].v1), PointOf(P, T[j].v2), PointOf(P, T[j].v3);
      (r.xmin <= p1.x <= r.xmax || r.xmin <= p2.x <= r.xmax) && (r.ymin <= p1.y <= r.ymax || r.ymin <= p3.y <= r.ymax)
      ==> && Balanced(T, S, j)
          && Dist2(p1, p2) <= 1.34 * ideal(p1) * (1.34 * ideal(p1))
          && Dist2(p1, p2) <= 1.34 * ideal(p2) * (1.34 * ideal(p2))
          && Dist2(p1, p2) <= 1.34 * ideal(p3) * (1.34 * ideal(p3))
  {
    hide PointOf, Dist2, Balanced;
  }

  /** Subdividing n, all of whose neighbours of its size are subdivided, that is without making a
      new vertex, does not disturb leaf j. */
  lemma BalanceKept(T: seq<Te>, S: Shape, T': seq<Te>, S': Shape, n: int, j: int, l: int)
    requires Woven(T, S) && Woven(T', S') && Subdivided(T, S, T', S', n) && n in S.geo && !Inner(T, S, n)
    requires forall m | 1 <= m <= 3 :: Beside(T, S, n, m)
    requires j in S.geo && j != n && !Inner(T, S, j) && 1 <= l <= 3 && EvenSide(T, S, j, l)
    ensures EvenSide(T', S', j, l)
  {
    hide Woven, Mirror, Child;
    if Beside(T', S', j, l) {
      var g := Mirror(S.geo[j], l);
      AtAt(T', S', g);
      var m := S'.at[g];
      NodeAt(T, S, j);
      NodeAt(T, S, n);
      MirrorCorners(S.geo[j], l);
      KidNames(T, S, T', S', n);
      assert m in S.geo && S.geo[m] == g;
      NodeAt(T, S, m);
      assert Beside(T, S, n, l);
      assert m != n;
      assert T'[m] == T[m];
      ChildOf(T, S, m, l);
      ChildOf(T, S, m, Suiv(l));
      NotAcross(T, S, j, l, n, m, l);
      NotAcross(T, S, j, l, n, m, Suiv(l));
      StayLeaf(T, S, T', S', n, Sub(T[m], l));
      StayLeaf(T, S, T', S', n, Sub(T[m], Suiv(l)));
    }
  }

  lemma KidNames(T: seq<Te>, S: Shape, T': seq<Te>, S': Shape, n: int)
    requires Subdivided(T, S, T', S', n)
    ensures forall i | i in S'.geo && i !in S.geo :: !Inner(T', S', i)
  {
    assert !Inner(T', S', Sub(T'[n], 0)) && !Inner(T', S', Sub(T'[n], 1)) && !Inner(T', S', Sub(T'[n], 2))
      && !Inner(T', S', Sub(T'[n], 3));
  }

  lemma StayLeaf(T: seq<Te>, S: Shape, T': seq<Te>, S': Shape, n: int, c: int)
    requires Subdivided(T, S, T', S', n) && c in S.geo && c != n && !Inner(T, S, c)
    ensures !Inner(T', S', c)
  {
  }

  /** A leaf n with subdivided neighbours is not a sub-triangle along the side of the neighbour m of a leaf j. */
  lemma NotAcross(T: seq<Te>, S: Shape, j: int, l: int, n: int, m: int, k: int)
    requires Woven(T, S) && j in S.geo && !Inner(T, S, j) && 1 <= l <= 3 && (k == l || k == Suiv(l))
    requires Inner(T, S, m) && S.geo[m] == Mirror(S.geo[j], l) && Beside(T, S, n, l)
    ensures n != Sub(T[m], k)
  {
    hide Woven;
    NodeAt(T, S, j);
    MirrorCorners(S.geo[j], l);
    MirrorChild(S.geo[m], k, l);
    ChildOf(T, S, m, k);
    ChildrenFree(T, S, j);
  }

  lemma GoodKept(T: seq<Te>, S: Shape, T': seq<Te>, S': Shape, P: seq<Point>, P': seq<Point>, nb: int, r: Box,
      ideal: Point -> real, n: int, j: int)
    requires Woven(T, S) && Named(T, S) && Numbered(T, S, nb) && Woven(T', S') && Subdivided(T, S, T', S', n)
      && n in S.geo && !Inner(T, S, n)
    requires forall m | 1 <= m <= 3 :: Beside(T, S, n, m)
    requires j in S.geo && j != n && !Inner(T, S, j) && Good(T, S, P, r, ideal, j) && Extends(P, P', nb)
    ensures Good(T', S', P', r, ideal, j)
  {
    hide Woven, Named, Numbered, Beside, EvenSide;
    SameCorners(T, S, P, P', nb, j);
    assert T'[j] == T[j];
    hide Subdivided;
    if InRect(P, r, T[j]) {
      BalanceKept(T, S, T', S', n, j, 1);
      BalanceKept(T, S, T', S', n, j, 2);
      BalanceKept(T, S, T', S', n, j, 3);
    }
  }

  // ---------------------------------------------------------------- the queue

  /** Place i of a circular queue of mxqueu places. */
  function Wrap(i: int, mxqueu: int): (r: int) {
    if i <= 0 then i + mxqueu else i
  }

  /** The array holds the queue q, its last at lequeu, its first lhqueu places before. */
  ghost predicate Ring(laqueu: seq<int>, lequeu: int, lhqueu: int, q: seq<int>) {
    && |laqueu| > 1 && 1 <= lequeu < |laqueu| && |q| == lhqueu + 1 <= |laqueu| - 1
    && forall k {:trigger q[k]} | 0 <= k < |q| :: q[k] == laqueu[Wrap(lequeu - lhqueu + k, |laqueu| - 1)]
  }

  lemma RingPush(laqueu: seq<int>, lequeu: int, lhqueu: int, q: seq<int>, x: int)
    requires Ring(laqueu, lequeu, lhqueu, q) && lhqueu + 1 < |laqueu| - 1
    ensures var e := if lequeu + 1 > |laqueu| - 1 then lequeu + 1 - (|laqueu| - 1) else lequeu + 1;
            1 <= e < |laqueu| && Ring(laqueu[e := x], e, lhqueu + 1, q + [x])
  {
  }

  lemma RingPop(laqueu: seq<int>, lequeu: int, lhqueu: int, q: seq<int>)
    requires Ring(laqueu, lequeu, lhqueu, q) && lhqueu >= 0
    ensures var i := Wrap(lequeu - lhqueu, |laqueu| - 1);
            1 <= i < |laqueu| && laqueu[i] == q[0] && Ring(laqueu, lequeu, lhqueu - 1, q[1..])
  {
    var i := Wrap(lequeu - lhqueu, |laqueu| - 1);
    assert q[0] == laqueu[i];
    forall k | 0 <= k < |q[1..]| ensures q[1..][k] == laqueu[Wrap(lequeu - (lhqueu - 1) + k, |laqueu| - 1)] {
      assert q[1..][k] == q[k + 1];
    }
  }

  // ---------------------------------------------------------------- one pass

  ghost predicate Known(V: set<int>, Q: seq<int>, j: int) {
    j in V || j in Q
  }

  ghost predicate KidsKnown(t: Te, V: set<int>, Q: seq<int>) {
    Known(V, Q, t.s0) && Known(V, Q, t.s1) && Known(V, Q, t.s2) && Known(V, Q, t.s3)
  }

  /** A pass has handled the triangles V and has the queue Q before it: below V and Q is the whole tree. */
  ghost predicate Swept(T: seq<Te>, S: Shape, V: set<int>, Q: seq<int>) {
    && V <= S.geo.Keys && Unique(Q) && Known(V, Q, 1)
    && (forall j | j in Q :: j in S.geo && j !in V)
    && (forall j | j in V && Inner(T, S, j) :: KidsKnown(T[j], V, Q))
    && (forall j | Known(V, Q, j) && j != 1 && 0 <= j < |T| :: T[j].sur in V)
  }

  lemma SweptStart(T: seq<Te>, S: Shape)
    requires 1 in S.geo
    ensures Swept(T, S, {}, [1])
  {
  }

  lemma SweptSplit(T: seq<Te>, S: Shape, T': seq<Te>, S': Shape, V: set<int>, Q: seq<int>, n: int)
    requires Woven(T, S) && Swept(T, S, V, [n] + Q) && Subdivided(T, S, T', S', n) && !Inner(T, S, n)
    ensures Swept(T', S', V, [n] + Q)
  {
    hide Woven;
    assert n in [n] + Q;
    NodeIndex(T, S, n);
    forall j | j in V && Inner(T', S', j) ensures KidsKnown(T'[j], V, [n] + Q) {
      NodeIndex(T, S, j);
      assert T'[j] == T[j] && Inner(T, S, j);
    }
    forall j | Known(V, [n] + Q, j) && j != 1 && 0 <= j < |T'| ensures T'[j].sur in V {
      assert j in S.geo;
      assert T'[j].sur == T[j].sur;
    }
    hide Subdivided;
  }

  lemma SweptLeaf(T: seq<Te>, S: Shape, V: set<int>, Q: seq<int>, n: int)
    requires Swept(T, S, V, [n] + Q) && !Inner(T, S, n)
    ensures Swept(T, S, V + {n}, Q)
  {
    SweptTail(V, Q, n);
    forall j | j in V + {n} && Inner(T, S, j) ensures KidsKnown(T[j], V + {n}, Q) {
      assert KidsKnown(T[j], V, [n] + Q);
    }
    forall j | Known(V + {n}, Q, j) && j != 1 && 0 <= j < |T| ensures T[j].sur in V + {n} {
      assert Known(V, [n] + Q, j);
    }
    assert Known(V, [n] + Q, 1);
  }

  lemma SweptTail(V: set<int>, Q: seq<int>, n: int)
    requires Unique([n] + Q)
    ensures Unique(Q) && n !in Q && forall j :: j in [n] + Q <==> j == n || j in Q
  {
    assert forall k | 0 <= k < |Q| :: Q[k] == ([n] + Q)[k + 1];
    assert n !in Q by {
      assert ([n] + Q)[0] == n;
    }
  }

  /** The sub-triangles of n join the end of the queue. */
  function Kids(t: Te): (r: seq<int>) {
    [t.s3, t.s2, t.s1, t.s0]
  }

  lemma SweptInner(T: seq<Te>, S: Shape, V: set<int>, Q: seq<int>, n: int)
    requires Woven(T, S) && Swept(T, S, V, [n] + Q) && Inner(T, S, n)
    ensures Swept(T, S, V + {n}, Q + Kids(T[n]))
  {
    SweptTail(V, Q, n);
    assert n in [n] + Q;
    KidsNew(T, S, V, Q, n);
    KidsMembers(T[n]);
    hide Woven, Kids, Unique;
    SweptAppend(T, S, V, Q, n, Kids(T[n]));
  }

  lemma SweptAppend(T: seq<Te>, S: Shape, V: set<int>, Q: seq<int>, n: int, K: seq<int>)
    requires Swept(T, S, V, [n] + Q) && Inner(T, S, n) && Unique(Q + K)
    requires forall j :: j in [n] + Q <==> j == n || j in Q
    requires n !in Q && n !in V && n in S.geo
    requires forall j | j in K :: j in S.geo && 1 < j < |T| && j !in V && j !in Q && j != n && T[j].sur == n
    requires T[n].s0 in K && T[n].s1 in K && T[n].s2 in K && T[n].s3 in K
    ensures Swept(T, S, V + {n}, Q + K)
  {
    hide Unique;
    var Q', V' := Q + K, V + {n};
    forall j ensures Known(V', Q', j) <==> Known(V, [n] + Q, j) || j in K {
      assert j in Q' <==> j in Q || j in K;
    }
    forall j | j in V' && Inner(T, S, j) ensures KidsKnown(T[j], V', Q') {
      if j != n {
        assert KidsKnown(T[j], V, [n] + Q);
      }
    }
    forall j | Known(V', Q', j) && j != 1 && 0 <= j < |T| ensures T[j].sur in V' {
    }
    assert Known(V, [n] + Q, 1);
    forall j | j in Q' ensures j in S.geo && j !in V' {
      assert j in Q || j in K;
      assert j in Q ==> j in [n] + Q;
    }
  }

  lemma KidsMembers(t: Te)
    ensures t.s0 in Kids(t) && t.s1 in Kids(t) && t.s2 in Kids(t) && t.s3 in Kids(t)
  {
    var k := Kids(t);
    assert k[0] == t.s3 && k[1] == t.s2 && k[2] == t.s1 && k[3] == t.s0;
  }

  lemma KidsNew(T: seq<Te>, S: Shape, V: set<int>, Q: seq<int>, n: int)
    requires Woven(T, S) && Swept(T, S, V, [n] + Q) && Inner(T, S, n)
    ensures forall j | j in Kids(T[n]) :: j in S.geo && 1 < j < |T| && j !in V && j !in Q && j != n && T[j].sur == n
    ensures Unique(Q + Kids(T[n]))
  {
    SweptTail(V, Q, n);
    hide Woven, Unique;
    NodeIndex(T, S, n);
    forall j | j in Kids(T[n]) ensures j in S.geo && 1 < j < |T| && j !in V && j !in Q && j != n && T[j].sur == n {
      KidNew(T, S, V, Q, n, j);
    }
    KidsApart(T, S, n);
    hide Kids, Swept;
    UniqueJoin(Q, Kids(T[n]));
  }

  lemma KidsApart(T: seq<Te>, S: Shape, n: int)
    requires Woven(T, S) && Inner(T, S, n)
    ensures Unique(Kids(T[n]))
  {
    hide Woven, Lattice.Child;
    ChildOf(T, S, n, 0);
    ChildOf(T, S, n, 1);
    ChildOf(T, S, n, 2);
    ChildOf(T, S, n, 3);
    KidsDiffer(T, S, n);
  }

  lemma KidNew(T: seq<Te>, S: Shape, V: set<int>, Q: seq<int>, n: int, j: int)
    requires Woven(T, S) && Swept(T, S, V, [n] + Q) && Inner(T, S, n) && j in Kids(T[n])
    requires forall i :: i in [n] + Q <==> i == n || i in Q
    ensures j in S.geo && 1 < j < |T| && j !in V && j !in Q && j != n && T[j].sur == n
  {
    hide Woven, Lattice.Child;
    var k := if j == T[n].s0 then 0 else if j == T[n].s1 then 1 else if j == T[n].s2 then 2 else 3;
    ChildOf(T, S, n, k);
    LevelOf(T, S, n, j);
    SweptCurrent(T, S, V, Q, n);
    SurSwept(T, S, V, [n] + Q, j);
  }

  lemma SurSwept(T: seq<Te>, S: Shape, V: set<int>, Q: seq<int>, j: int)
    requires Swept(T, S, V, Q)
    ensures Known(V, Q, j) && j != 1 && 0 <= j < |T| ==> T[j].sur in V
  {
    hide Unique;
  }

  lemma LevelOf(T: seq<Te>, S: Shape, n: int, j: int)
    requires Woven(T, S) && Inner(T, S, n) && j in S.geo && j != 1 && 1 <= j < |T| && T[j].sur == n
    ensures j != n
  {
    ParentOf(T, S, j);
  }

  lemma KidsDiffer(T: seq<Te>, S: Shape, n: int)
    requires HasChild(T, S, n, 0) && HasChild(T, S, n, 1) && HasChild(T, S, n, 2) && HasChild(T, S, n, 3)
    ensures Unique(Kids(T[n]))
  {
  }

  lemma UniqueJoin(a: seq<int>, b: seq<int>)
    requires Unique(a) && Unique(b) && forall x | x in b :: x !in a
    ensures Unique(a + b)
  {
    forall i, j | 0 <= i < j < |a + b| ensures (a + b)[i] != (a + b)[j] {
      if i < |a| && j >= |a| {
        assert (a + b)[j] == b[j - |a|] && b[j - |a|] in b;
      }
    }
  }

  /** With an empty queue, every triangle of the tree has been handled. */
  lemma {:induction false} SweptAll(T: seq<Te>, S: Shape, V: set<int>, j: int)
    requires Woven(T, S) && Swept(T, S, V, []) && j in S.geo
    ensures j in V
    decreases S.geo[j].level
  {
    hide Woven;
    if j != 1 {
      ParentOf(T, S, j);
      SweptAll(T, S, V, T[j].sur);
    }
  }

  ghost predicate AllGood(T: seq<Te>, S: Shape, P: seq<Point>, r: Box, ideal: Point -> real, V: set<int>) {
    forall j | j in V && !Inner(T, S, j) :: Good(T, S, P, r, ideal, j)
  }

  lemma AllGoodKept(T: seq<Te>, S: Shape, T': seq<Te>, S': Shape, P: seq<Point>, P': seq<Point>, nb: int, r: Box,
      ideal: Point -> real, n: int, V: set<int>)
    requires Woven(T, S) && Named(T, S) && Numbered(T, S, nb) && Woven(T', S') && Subdivided(T, S, T', S', n)
      && n in S.geo && !Inner(T, S, n)
    requires forall m | 1 <= m <= 3 :: Beside(T, S, n, m)
    requires AllGood(T, S, P, r, ideal, V) && n !in V && V <= S.geo.Keys && Extends(P, P', nb)
    ensures AllGood(T', S', P', r, ideal, V)
  {
    forall j | j in V && !Inner(T', S', j) ensures Good(T', S', P', r, ideal, j) {
      NodeIndex(T, S, j);
      assert T'[j] == T[j];
      GoodKept(T, S, T', S', P, P', nb, r, ideal, n, j);
    }
  }

  /** The reason a pass may have to subdivide j: it meets the rectangle and is too big, or a triangle of
      its size beside it is subdivided. */
  ghost predicate Needed(T: seq<Te>, S: Shape, P: seq<Point>, r: Box, ideal: Point -> real, j: int) {
    && j in S.geo && 1 <= j < |T| && InRect(P, r, T[j])
    && (TooBig(P, ideal, T[j]) || Beside(T, S, j, 1) || Beside(T, S, j, 2) || Beside(T, S, j, 3))
  }

  /** What that means in lengths: it meets the rectangle as above, and its first side is longer than 1.34 times
      the length wished for at a corner, or there is a triangle of its size across a side. */
  lemma NeededMeans(T: seq<Te>, S: Shape, P: seq<Point>, r: Box, ideal: Point -> real, j: int)
    requires Needed(T, S, P, r, ideal, j)
    ensures j in S.geo && 1 <= j < |T|
    ensures var p1, p2, p3 := PointOf(P, T[j].v1), PointOf(P, T[j].v2), PointOf(P, T[j].v3);
      && (r.xmin <= p1.x <= r.xmax || r.xmin <= p2.x <= r.xmax)
        && (r.ymin <= p1.y <= r.ymax || r.ymin <= p3.y <= r.ymax)
      && (|| Dist2(p1, p2) > 1.34 * ideal(p1) * (1.34 * ideal(p1))
          || Dist2(p1, p2) > 1.34 * ideal(p2) * (1.34 * ideal(p2))
          || Dist2(p1, p2) > 1.34 * ideal(p3) * (1.34 * ideal(p3))
          || exists l :: 1 <= l <= 3 && Mirror(S.geo[j], l) in S.at && Inner(T, S, S.at[Mirror(S.geo[j], l)]))
  {
    hide PointOf, Dist2;
  }

  /** Each triangle subdivided since (T0, S0) is column 2, or holds one of the points 1 to n too far off,
      or had a reason in a pass. */
  ghost predicate Sparing(T0: seq<Te>, S0: Shape, T: seq<Te>, S: Shape, P: seq<Point>, r: Box, ideal: Point -> real,
      wish: seq<real>, n: int) {
    forall j | Inner(T, S, j) ::
      Inner(T0, S0, j) || j == 2 || TooFar(P, T[j], wish, n) || Needed(T, S, P, r, ideal, j)
  }

  lemma SparingStart(T0: seq<Te>, S0: Shape, T: seq<Te>, S: Shape, P: seq<Point>, r: Box, ideal: Point -> real,
      wish: seq<real>, n: int)
    requires Refined(T0, S0, T, S, P, wish, n)
    ensures Sparing(T0, S0, T, S, P, r, ideal, wish, n)
  {
    hide TooFar, Needed;
  }

  lemma BesideKept(T: seq<Te>, S: Shape, T': seq<Te>, S': Shape, n: int, j: int, l: int)
    requires Woven(T, S) && Woven(T', S') && Subdivided(T, S, T', S', n) && Beside(T, S, j, l)
    ensures Beside(T', S', j, l)
  {
    var m := S.at[Mirror(S.geo[j], l)];
    AtAt(T, S, Mirror(S.geo[j], l));
    hide Woven, Mirror;
    assert m in S'.geo && S'.geo[m] == S.geo[m] && S'.geo[j] == S.geo[j];
    NodeAt(T', S', m);
    assert m != n ==> T'[m] == T[m];
  }

  lemma NeededKept(T: seq<Te>, S: Shape, P: seq<Point>, nb: int, T': seq<Te>, S': Shape, P': seq<Point>, r: Box,
      ideal: Point -> real, n: int, j: int)
    requires Woven(T, S) && Named(T, S) && Numbered(T, S, nb) && Woven(T', S') && Subdivided(T, S, T', S', n)
    requires Extends(P, P', nb) && Needed(T, S, P, r, ideal, j) && SameTriangle(T'[j], T[j])
    ensures Needed(T', S', P', r, ideal, j)
  {
    SameCorners(T, S, P, P', nb, j);
    hide Woven, Named, Numbered, Beside;
    if Beside(T, S, j, 1) {
      BesideKept(T, S, T', S', n, j, 1);
    }
    if Beside(T, S, j, 2) {
      BesideKept(T, S, T', S', n, j, 2);
    }
    if Beside(T, S, j, 3) {
      BesideKept(T, S, T', S', n, j, 3);
    }
    SameTests(P, P', T[j], T'[j], r, ideal);
    hide InRect, TooBig;
  }

  lemma SameTests(P: seq<Point>, P': seq<Point>, t: Te, t': Te, r: Box, ideal: Point -> real)
    requires PointOf(P', t'.v1) == PointOf(P, t.v1) && PointOf(P', t'.v2) == PointOf(P, t.v2)
    requires PointOf(P', t'.v3) == PointOf(P, t.v3)
    ensures (InRect(P', r, t') <==> InRect(P, r, t)) && (TooBig(P', ideal, t') <==> TooBig(P, ideal, t))
  {
    hide PointOf;
  }

  lemma SparingNext(T0: seq<Te>, S0: Shape, T: seq<Te>, S: Shape, P: seq<Point>, nb: int, free: seq<int>,
      home: map<int, int>, T': seq<Te>, S': Shape, P': seq<Point>, nb': int, free': seq<int>, home': map<int, int>,
      r: Box, ideal: Point -> real, n: int, wish: seq<real>, m: int)
    requires TreeOk(T, S, P, nb, free, home) && TreeOk(T', S', P', nb', free', home') && m <= nb
    requires Sparing(T0, S0, T, S, P, r, ideal, wish, m) && Subdivided(T, S, T', S', n) && n in S.geo
    requires Extends(P, P', nb) && Needed(T, S, P, r, ideal, n)
    ensures Sparing(T0, S0, T', S', P', r, ideal, wish, m)
  {
    hide Woven, Named, Numbered, Placed, FreeOk, Stocked, Needed, Subdivided, TooFar, Extends;
    forall j | Inner(T', S', j) && !Inner(T0, S0, j) && j != 2
      ensures TooFar(P', T'[j], wish, m) || Needed(T', S', P', r, ideal, j)
    {
      InnerSplit(T, S, T', S', n, j);
      if Needed(T, S, P, r, ideal, j) {
        NeededKept(T, S, P, nb, T', S', P', r, ideal, n, j);
      } else {
        TooFarStill(T, S, P, nb, P', T'[j], j, wish, m);
      }
    }
  }

  /** The search for a reason to subdivide leaf nte. */
  method Examine(tree: Quadtree, nte: int, nbiter: int, rect: Box, ideal: Point -> real) returns (split: bool)
    requires tree.Valid() && nte in tree.S.geo && !Inner(tree.letree[..], tree.S, nte) && 1 <= nte <= tree.mxtree
    ensures split ==> Needed(tree.letree[..], tree.S, tree.pxyd[..], rect, ideal, nte)
    ensures !split ==> Good(tree.letree[..], tree.S, tree.pxyd[..], rect, ideal, nte)
  {
    hide Woven, Named, Numbered, Placed, FreeOk, Stocked, InRect, TooBig, Mirror, Beside;
    ghost var T, S := tree.letree[..], tree.S;
    if !InRect(tree.pxyd[..], rect, tree.letree[nte]) {
      return false;
    }
    if TooBig(tree.pxyd[..], ideal, tree.letree[nte]) {
      return true;
    }
    var i := 1;
    while i <= 3
      invariant 1 <= i <= 4
      invariant forall l | 1 <= l < i :: EvenSide(T, S, nte, l)
    {
      var noteva, niveau := N1trva(tree.letree, nte, i, S);
      AcrossEven(T, S, nte, i, noteva, niveau);
      if noteva > 0 && niveau <= 0 && tree.letree[noteva].s0 > 0 {
        BesideFound(T, S, nte, i, noteva);
        if nbiter <= 0 {
          return true;
        }
        var ns2 := Sub(tree.letree[noteva], i);
        if tree.letree[ns2].s0 > 0 {
          return true;
        }
        ns2 := Sub(tree.letree[noteva], Suiv(i));
        if tree.letree[ns2].s0 > 0 {
          return true;
        }
      }
      i := i + 1;
    }
    assert EvenSide(T, S, nte, 1) && EvenSide(T, S, nte, 2) && EvenSide(T, S, nte, 3);
    split := false;
  }

  lemma BesideFound(T: seq<Te>, S: Shape, j: int, l: int, q: int)
    requires Woven(T, S) && j in S.geo && q in S.geo && S.geo[q] == Mirror(S.geo[j], l) && 1 <= q < |T| && T[q].s0 > 0
    ensures Beside(T, S, j, l)
  {
    hide Mirror;
    NodeAt(T, S, q);
    hide Woven;
  }

  /** What `n1trva_` finds decides whether the side is even. */
  lemma AcrossEven(T: seq<Te>, S: Shape, j: int, l: int, q: int, h: int)
    requires Woven(T, S) && j in S.geo && 1 <= l <= 3 && h >= 0
    requires q == 0 <==> Border(S.geo[j], l)
    requires q != 0 ==> q > 0 && q in S.geo
                        && (Mirror(S.geo[j], l) in S.at ==> h == 0 && q == S.at[Mirror(S.geo[j], l)])
    ensures q > 0 && h == 0 && Inner(T, S, q) ==>
              && 1 <= Sub(T[q], l) < |T| && 1 <= Sub(T[q], Suiv(l)) < |T| && Sub(T[q], l) in S.geo
                && Sub(T[q], Suiv(l)) in S.geo
              && (!Inner(T, S, Sub(T[q], l)) && !Inner(T, S, Sub(T[q], Suiv(l))) && Mirror(S.geo[j], l) in S.at ==>
                EvenSide(T, S, j, l))
    ensures q > 0 ==> 1 <= q < |T|
    ensures !(q > 0 && h == 0 && Inner(T, S, q)) ==> EvenSide(T, S, j, l)
    ensures q > 0 && Mirror(S.geo[j], l) !in S.at ==> EvenSide(T, S, j, l)
  {
    hide Woven, Mirror, Border;
    if q == 0 {
      NoMirror(T, S, j, l);
    } else {
      NodeIndex(T, S, q);
      if Inner(T, S, q) {
        ChildOf(T, S, q, l);
        ChildOf(T, S, q, Suiv(l));
      }
    }
  }

  /** Column numbers. */
  ghost function Columns(mx: int): (r: set<int>)
    ensures forall i :: i in r <==> 0 <= i <= mx
  {
    if mx < 0 then {} else Columns(mx - 1) + {mx}
  }

  lemma InColumns(T: seq<Te>, S: Shape, V: set<int>, mx: int)
    requires Woven(T, S) && V <= S.geo.Keys && |T| == mx + 1
    ensures V <= Columns(mx)
  {
    forall j | j in V ensures j in Columns(mx) {
      NodeIndex(T, S, j);
    }
  }

  /** Triangle nte, taken from the queue, is subdivided when it is a leaf and there is a reason to.
      nb is the number of vertices at the start of the pass. */
  method SplitIfNeeded(tree: Quadtree, nte: int, nbiter: int, rect: Box, ideal: Point -> real, ghost nb: int,
      ghost b: Before, ghost n: int, ghost V: set<int>, ghost Q: seq<int>,
      ghost T0: seq<Te>, ghost S0: Shape, ghost m: int) returns (ierr: int)
    requires Grown(tree, b, n) && nte in tree.S.geo && Swept(tree.letree[..], tree.S, V, [nte] + Q) && tree.nbsomm >= nb
    requires tree.nbsomm == nb ==> AllGood(tree.letree[..], tree.S, tree.pxyd[..], rect, ideal, V)
    requires Sparing(T0, S0, tree.letree[..], tree.S, tree.pxyd[..], rect, ideal, b.wish, m) && m <= b.nb
    modifies tree`nbsomm, tree`S, tree`free, tree`home, tree.letree, tree.pxyd
    ensures ierr == 0 || ierr == 51 || ierr == 52
    ensures Intact(tree, b)
    ensures ierr == 51 ==> |tree.free| < 4 && 3 * tree.mxtree <= 12 + 8 * tree.mxsomm
    ensures ierr == 52 ==> tree.nbsomm == tree.mxsomm
    ensures ierr == 0 ==> Grown(tree, b, n) && nte in tree.S.geo && 1 <= nte <= tree.mxtree && tree.nbsomm >= nb
                          && Swept(tree.letree[..], tree.S, V, [nte] + Q)
    ensures ierr == 0 ==> Sparing(T0, S0, tree.letree[..], tree.S, tree.pxyd[..], rect, ideal, b.wish, m)
    ensures ierr == 0 && tree.nbsomm == nb ==> AllGood(tree.letree[..], tree.S, tree.pxyd[..], rect, ideal, V)
    ensures ierr == 0 && !Inner(tree.letree[..], tree.S, nte) ==>
      Good(tree.letree[..], tree.S, tree.pxyd[..], rect, ideal, nte)
  {
    hide Woven, Named, Numbered, Placed, FreeOk, Stocked, AllGood, Good, Swept, Subdivided, Extends, Beside, Grew,
      Intact,
      Columned, Needed, Sparing;
    ierr := 0;
    GrownIntact(tree, b, n);
    NodeIndex(tree.letree[..], tree.S, nte);
    if tree.letree[nte].s0 <= 0 {
      var split := Examine(tree, nte, nbiter, rect, ideal);
      if split {
        ghost var T, S, P1, nb1 := tree.letree[..], tree.S, tree.pxyd[..], tree.nbsomm;
        ghost var free, home := tree.free, tree.home;
        EnoughStill(b, n, T, S, P1, nb1, home);
        ierr := Subdivide(tree, nte, b, n);
        if ierr != 0 {
          return;
        }
        SparingNext(T0, S0, T, S, P1, nb1, free, home, tree.letree[..], tree.S, tree.pxyd[..], tree.nbsomm, tree.free,
          tree.home, rect, ideal, nte, b.wish, m);
        SweptSplit(T, S, tree.letree[..], tree.S, V, Q, nte);
        SubdividedIn(T, S, tree.letree[..], tree.S, nte);
        if tree.nbsomm == nb {
          SweptCurrent(T, S, V, Q, nte);
          AllGoodKept(T, S, tree.letree[..], tree.S, P1, tree.pxyd[..], nb1, rect, ideal, nte, V);
        }
      }
    }
  }

  lemma SubdividedIn(T: seq<Te>, S: Shape, T': seq<Te>, S': Shape, n: int)
    requires Subdivided(T, S, T', S', n)
    ensures n in S'.geo && 1 <= n < |T'| && Inner(T', S', n)
  {
  }

  lemma SweptCurrent(T: seq<Te>, S: Shape, V: set<int>, Q: seq<int>, n: int)
    requires Swept(T, S, V, [n] + Q)
    ensures n in S.geo && n !in V && V <= S.geo.Keys
  {
    assert ([n] + Q)[0] == n;
  }

  lemma AllGoodLeaf(T: seq<Te>, S: Shape, P: seq<Point>, r: Box, ideal: Point -> real, V: set<int>, n: int)
    requires AllGood(T, S, P, r, ideal, V) && (!Inner(T, S, n) ==> Good(T, S, P, r, ideal, n))
    ensures AllGood(T, S, P, r, ideal, V + {n})
  {
  }

  /** The four sub-triangles of t join the queue, number 3 first. */
  method PushKids(laqueu: array<int>, lequeu0: int, lhqueu0: int, t: Te, ghost Q: seq<int>)
      returns (lequeu: int, lhqueu: int)
    requires Ring(laqueu[..], lequeu0, lhqueu0, Q) && lhqueu0 + 4 < laqueu.Length - 1
    modifies laqueu
    ensures Ring(laqueu[..], lequeu, lhqueu, Q + Kids(t))
  {
    hide Ring, Kids;
    RingSize(laqueu[..], lequeu0, lhqueu0, Q);
    lequeu, lhqueu := lequeu0, lhqueu0;
    ghost var q := Q;
    KidsWhole(t);
    var i := 3;
    while i >= 0
      invariant -1 <= i <= 3 && lhqueu == lhqueu0 + (3 - i)
      invariant Ring(laqueu[..], lequeu, lhqueu, q) && |Kids(t)| == 4 && q == Q + Kids(t)[..3 - i]
    {
      RingPush(laqueu[..], lequeu, lhqueu, q, Sub(t, i));
      KidsSlice(t, 3 - i);
      lhqueu := lhqueu + 1;
      lequeu := lequeu + 1;
      if lequeu > laqueu.Length - 1 {
        lequeu := lequeu - (laqueu.Length - 1);
      }
      laqueu[lequeu] := Sub(t, i);
      q := q + [Sub(t, i)];
      i := i - 1;
    }
    KidsWhole(t);
  }

  lemma KidsSlice(t: Te, i: int)
    requires 0 <= i < 4
    ensures |Kids(t)| == 4 && Kids(t)[..i] + [Sub(t, 3 - i)] == Kids(t)[..i + 1]
  {
  }

  lemma KidsWhole(t: Te)
    ensures |Kids(t)| == 4 && Kids(t)[..4] == Kids(t)
  {
  }

  /** One pass of `tehote_` over the tree, breadth first.  When it ends without having made a vertex,
      every leaf of the tree that meets the rectangle is small enough and balanced. */
  method Pass(tree: Quadtree, nbiter: int, rect: Box, ideal: Point -> real, laqueu: array<int>, ghost b: Before,
      ghost n: int, ghost T0: seq<Te>, ghost S0: Shape, ghost m: int) returns (ierr: int)
    requires Grown(tree, b, n) && laqueu.Length > 1
    requires Sparing(T0, S0, tree.letree[..], tree.S, tree.pxyd[..], rect, ideal, b.wish, m) && m <= b.nb
    modifies tree`nbsomm, tree`S, tree`free, tree`home, tree.letree, tree.pxyd, laqueu
    ensures ierr == 0 || ierr == 7 || ierr == 51 || ierr == 52
    ensures ierr == 7 ==> laqueu.Length - 1 < tree.mxtree
    ensures Intact(tree, b)
    ensures ierr == 51 ==> |tree.free| < 4 && 3 * tree.mxtree <= 12 + 8 * tree.mxsomm
    ensures ierr == 52 ==> tree.nbsomm == tree.mxsomm
    ensures ierr == 0 ==> Grown(tree, b, n) && tree.nbsomm >= old(tree.nbsomm)
    ensures ierr == 0 ==> Sparing(T0, S0, tree.letree[..], tree.S, tree.pxyd[..], rect, ideal, b.wish, m)
    ensures ierr == 0 && tree.nbsomm == old(tree.nbsomm) ==>
              forall j | j in tree.S.geo && !Inner(tree.letree[..], tree.S, j) ::
                Good(tree.letree[..], tree.S, tree.pxyd[..], rect, ideal, j)
  {
    hide TreeOk, Inner, AllGood, Good, Swept, Extends, Ring, Columns, Kids, Grew, Intact, Columned, Sparing;
    ghost var nb := tree.nbsomm;
    GrownIntact(tree, b, n);
    ghost var V: set<int>, Q: seq<int> := {}, [1];
    var lequeu, lhqueu := 1, 0;
    laqueu[1] := 1;
    RingOne(laqueu[..]);
    PassStart(tree.letree[..], tree.S, tree.pxyd[..], nb, tree.free, tree.home, rect, ideal);
    ierr := 0;
    while lhqueu >= 0
      invariant Intact(tree, b) && Grown(tree, b, n) && tree.nbsomm >= nb && Swept(tree.letree[..], tree.S, V, Q)
        && Ring(laqueu[..], lequeu, lhqueu, Q)
        && |Q| == lhqueu + 1
      invariant tree.nbsomm == nb ==> AllGood(tree.letree[..], tree.S, tree.pxyd[..], rect, ideal, V)
      invariant Sparing(T0, S0, tree.letree[..], tree.S, tree.pxyd[..], rect, ideal, b.wish, m)
      invariant V <= Columns(tree.mxtree)
      decreases Columns(tree.mxtree) - V
    {
      RingPop(laqueu[..], lequeu, lhqueu, Q);
      var i := lequeu - lhqueu;
      if i <= 0 {
        i := laqueu.Length - 1 + i;
      }
      var nte := laqueu[i];
      lhqueu := lhqueu - 1;
      ghost var q := Q[1..];
      assert Q == [nte] + q;
      SweptCurrent(tree.letree[..], tree.S, V, q, nte);
      ghost var V0 := V;
      ierr := SplitIfNeeded(tree, nte, nbiter, rect, ideal, nb, b, n, V, q, T0, S0, m);
      if ierr != 0 {
        return;
      }
      SweptCurrent(tree.letree[..], tree.S, V, q, nte);
      if tree.nbsomm == nb {
        AllGoodLeaf(tree.letree[..], tree.S, tree.pxyd[..], rect, ideal, V, nte);
      }
      V := V + {nte};
      RingSize(laqueu[..], lequeu, lhqueu, q);
      if tree.letree[nte].s0 > 0 {
        SweptKids(tree.letree[..], tree.S, tree.pxyd[..], tree.nbsomm, tree.free, tree.home, V0, q, nte);
        QueueFits(tree.letree[..], tree.S, tree.pxyd[..], tree.nbsomm, tree.free, tree.home, V, q, nte, tree.mxtree);
        if lhqueu + 4 >= laqueu.Length - 1 {
          return 7;
        }
        lequeu, lhqueu := PushKids(laqueu, lequeu, lhqueu, tree.letree[nte], q);
        Q := q + Kids(tree.letree[nte]);
        RingSize(laqueu[..], lequeu, lhqueu, Q);
      } else {
        SweptNoKids(tree.letree[..], tree.S, V0, q, nte);
        Q := q;
      }
      ColumnsKept(tree.letree[..], tree.S, tree.pxyd[..], tree.nbsomm, tree.free, tree.home, V, Q, tree.mxtree);
    }
    assert Q == [];
    PassEnd(tree.letree[..], tree.S, tree.pxyd[..], tree.nbsomm, tree.free, tree.home, V, rect, ideal);
  }

  /** No triangle is twice in the queue, so that a queue as long as the tree never overflows. */
  lemma QueueFits(T: seq<Te>, S: Shape, P: seq<Point>, nb: int, free: seq<int>, home: map<int, int>, V: set<int>,
      q: seq<int>, n: int, mx: nat)
    requires TreeOk(T, S, P, nb, free, home) && |T| == mx + 1 && n in V && n in S.geo && 1 <= n < |T|
    requires Swept(T, S, V, q + Kids(T[n]))
    ensures |q| + 5 <= mx
  {
    hide Named, Numbered, Placed, FreeOk, Stocked, Woven;
    var l := [n] + (q + Kids(T[n]));
    UniqueOn(n, q + Kids(T[n]));
    var r := seq(mx, k => k + 1);
    forall i | i in l ensures i in r {
      NodeIndex(T, S, i);
      assert r[i - 1] == i;
    }
    hide Swept, Unique;
    Pigeons(l, r);
  }

  lemma RingOne(laqueu: seq<int>)
    requires |laqueu| > 1
    ensures laqueu[1] == 1 ==> Ring(laqueu, 1, 0, [1])
  {
  }

  lemma RingSize(laqueu: seq<int>, lequeu: int, lhqueu: int, q: seq<int>)
    requires Ring(laqueu, lequeu, lhqueu, q)
    ensures |q| == lhqueu + 1
  {
  }

  lemma PassStart(T: seq<Te>, S: Shape, P: seq<Point>, nb: int, free: seq<int>, home: map<int, int>, r: Box,
      ideal: Point -> real)
    requires TreeOk(T, S, P, nb, free, home)
    ensures Swept(T, S, {}, [1]) && AllGood(T, S, P, r, ideal, {}) && Extends(P, P, nb)
  {
    SweptStart(T, S);
  }

  lemma SweptKids(T: seq<Te>, S: Shape, P: seq<Point>, nb: int, free: seq<int>, home: map<int, int>, V: set<int>,
      Q: seq<int>, n: int)
    requires TreeOk(T, S, P, nb, free, home) && Swept(T, S, V, [n] + Q) && n in S.geo && 1 <= n < |T| && T[n].s0 > 0
    ensures Swept(T, S, V + {n}, Q + Kids(T[n]))
  {
    hide Swept, Named, Numbered, Placed, FreeOk, Stocked;
    SweptInner(T, S, V, Q, n);
  }

  lemma SweptNoKids(T: seq<Te>, S: Shape, V: set<int>, Q: seq<int>, n: int)
    requires Swept(T, S, V, [n] + Q) && 0 <= n < |T| && T[n].s0 <= 0
    ensures Swept(T, S, V + {n}, Q)
  {
    hide Swept;
    SweptLeaf(T, S, V, Q, n);
  }

  lemma ColumnsKept(T: seq<Te>, S: Shape, P: seq<Point>, nb: int, free: seq<int>, home: map<int, int>, V: set<int>,
      Q: seq<int>, mx: int)
    requires TreeOk(T, S, P, nb, free, home) && Swept(T, S, V, Q) && |T| == mx + 1
    ensures V <= Columns(mx)
  {
    InColumns(T, S, V, mx);
  }

  lemma PassEnd(T: seq<Te>, S: Shape, P: seq<Point>, nb: int, free: seq<int>, home: map<int, int>, V: set<int>, r: Box,
      ideal: Point -> real)
    requires TreeOk(T, S, P, nb, free, home) && Swept(T, S, V, [])
    ensures AllGood(T, S, P, r, ideal, V) ==> forall j | j in S.geo && !Inner(T, S, j) :: Good(T, S, P, r, ideal, j)
  {
    hide Swept, Named, Numbered, Placed, FreeOk, Stocked, Good, Inner;
    forall j | j in S.geo ensures j in V {
      SweptAll(T, S, V, j);
    }
  }

  lemma EnoughStill(b: Before, n: int, T: seq<Te>, S: Shape, P: seq<Point>, nb: int, home: map<int, int>)
    requires Grew(b, n, T, S, P, nb, home)
    ensures n <= nb && b.nb <= nb
  {
    hide Extends, NewNumbers, Tamed;
  }

  lemma GrownStart(T: seq<Te>, S: Shape, P: seq<Point>, nb: int, free: seq<int>, home: map<int, int>, wish: seq<real>)
    requires TreeOk(T, S, P, nb, free, home)
    ensures |T| > 1 && (nb >= 0 ==> Grew(Before(nb, P, S, home, T[1], wish, InnerSet(T, S)), 0, T, S, P, nb, home))
    ensures |T| > 1 && 1 <= T[1].v1 <= nb && 1 <= T[1].v2 <= nb && 1 <= T[1].v3 <= nb
  {
    RootIn(T, S, P, nb, free, home);
    RootCornersOld(T, S, P, nb, free, home);
    hide TreeOk;
    NewNone(S, nb);
  }

  /** `tehote_`: unless the wished sizes come from a function (nutysu > 0), leaves around the points 1
      to nbarpi are subdivided until they are as small as wished; then passes over the tree until one
      makes no vertex.  On exit with ierr = 0 every leaf that meets the rectangle is small enough and
      balanced, and the leaves around the points are still as small as wished. */
  method Tehote(tree: Quadtree, nutysu: int, nbarpi: nat, wish: seq<real>, rect: Box, ideal: Point -> real,
      laqueu: array<int>) returns (ierr: int)
    requires tree.Valid() && tree.mxtree > 2 && laqueu.Length > 1 && nbarpi <= tree.nbsomm && nbarpi < |wish|
    requires forall q | 1 <= q <= nbarpi :: Holds(tree.pxyd[..], tree.letree[1], q)
    modifies tree`nbsomm, tree`S, tree`free, tree`home, tree.letree, tree.pxyd, laqueu
    ensures ierr == 0 || ierr == 7 || ierr == 51 || ierr == 52
    ensures ierr == 7 ==> laqueu.Length - 1 < tree.mxtree
    ensures ierr == 51 ==> |tree.free| < 4 && 3 * tree.mxtree <= 12 + 8 * tree.mxsomm
    ensures ierr == 52 ==> tree.nbsomm == tree.mxsomm
    ensures tree.nbsomm >= old(tree.nbsomm) && Extends(old(tree.pxyd[..]), tree.pxyd[..], old(tree.nbsomm))
    ensures ierr == 0 ==> tree.Valid() && SameTriangle(tree.letree[1], old(tree.letree[1]))
    ensures ierr == 0 ==> NewNumbers(old(tree.S), tree.S, old(tree.nbsomm), tree.nbsomm)
                          && tree.home.Keys == old(tree.home).Keys
    ensures ierr == 0 ==> forall j | j in tree.S.geo && !Inner(tree.letree[..], tree.S, j) ::
                          Good(tree.letree[..], tree.S, tree.pxyd[..], rect, ideal, j)
    ensures ierr == 0 ==> Sparing(old(tree.letree[..]), old(tree.S), tree.letree[..], tree.S, tree.pxyd[..], rect,
                          ideal,
                          wish, if nutysu <= 0 then nbarpi else 0)
    ensures ierr == 0 && nutysu <= 0 ==> Tamed(tree.letree[..], tree.S, tree.pxyd[..], wish, nbarpi)
    ensures ierr == 0 ==> forall j | Inner(old(tree.letree[..]), old(tree.S), j) :: Inner(tree.letree[..], tree.S, j)
    ensures ierr == 0 && Inner(old(tree.letree[..]), old(tree.S), 1) ==>
              Inner(tree.letree[..], tree.S, tree.letree[1].s0)
  {
    hide TreeOk, Inner, Good, Grew, Holds, Columned, Refined, Sparing;
    RefinedNone(tree.letree[..], tree.S, tree.pxyd[..], wish, 0);
    GrownStart(tree.letree[..], tree.S, tree.pxyd[..], tree.nbsomm, tree.free, tree.home, wish);
    ghost var b := Before(tree.nbsomm, tree.pxyd[..], tree.S, tree.home, tree.letree[1], wish,
      InnerSet(tree.letree[..], tree.S));
    ghost var n, T0, S0 := 0, tree.letree[..], tree.S;
    CentreColumn(T0, S0, tree.pxyd[..], tree.nbsomm, tree.free, tree.home, tree.mxtree);
    if nutysu <= 0 {
      n := nbarpi;
      ierr := Refine(tree, nbarpi, wish, b);
      if ierr != 0 {
        return;
      }
    }
    EnoughStill(b, n, tree.letree[..], tree.S, tree.pxyd[..], tree.nbsomm, tree.home);
    ghost var T1, S1, P1, nb1, home1 := tree.letree[..], tree.S, tree.pxyd[..], tree.nbsomm, tree.home;
    ierr := SplitCentre(tree, b, n, T0, S0, n);
    if ierr != 0 {
      return;
    }
    GrownGeo(b, n, T1, S1, P1, nb1, home1);
    InnerMember(T0, S0);
    b := if 2 in S1.geo then b.(split := b.split + {2}) else b;
    SparingStart(T0, S0, tree.letree[..], tree.S, tree.pxyd[..], rect, ideal, wish, n);
    var nbs0 := tree.nbsomm;
    var nbiter := 0;
    ierr := Pass(tree, nbiter, rect, ideal, laqueu, b, n, T0, S0, n);
    while ierr == 0 && nbs0 < tree.nbsomm
      invariant ierr == 0 || ierr == 7 || ierr == 51 || ierr == 52
      invariant ierr == 7 ==> laqueu.Length - 1 < tree.mxtree
      invariant ierr == 51 ==> |tree.free| < 4 && 3 * tree.mxtree <= 12 + 8 * tree.mxsomm
      invariant ierr == 52 ==> tree.nbsomm == tree.mxsomm
      invariant Intact(tree, b)
      invariant ierr == 0 ==> Grown(tree, b, n) && tree.nbsomm >= nbs0
      invariant ierr == 0 ==> Sparing(T0, S0, tree.letree[..], tree.S, tree.pxyd[..], rect, ideal, wish, n)
      invariant ierr == 0 && tree.nbsomm == nbs0 ==>
                  forall j | j in tree.S.geo && !Inner(tree.letree[..], tree.S, j) ::
                    Good(tree.letree[..], tree.S, tree.pxyd[..], rect, ideal, j)
      decreases tree.mxsomm - nbs0
    {
      nbs0 := tree.nbsomm;
      nbiter := nbiter + 1;
      ierr := Pass(tree, nbiter, rect, ideal, laqueu, b, n, T0, S0, n);
    }
    if ierr == 0 {
      CentreColumn(tree.letree[..], tree.S, tree.pxyd[..], tree.nbsomm, tree.free, tree.home, tree.mxtree);
      GrownEnd(b, n, tree.letree[..], tree.S, tree.pxyd[..], tree.nbsomm, tree.home);
    }
  }

  lemma GrownGeo(b: Before, n: int, T: seq<Te>, S: Shape, P: seq<Point>, nb: int, home: map<int, int>)
    requires Grew(b, n, T, S, P, nb, home)
    ensures b.S.geo.Keys <= S.geo.Keys
  {
    hide Extends, NewNumbers, Tamed, AllSplit;
  }

  lemma InnerMember(T: seq<Te>, S: Shape)
    ensures forall j :: j in InnerSet(T, S) <==> Inner(T, S, j)
  {
  }

  lemma GrownEnd(b: Before, n: int, T: seq<Te>, S: Shape, P: seq<Point>, nb: int, home: map<int, int>)
    requires Grew(b, n, T, S, P, nb, home)
    ensures nb >= b.nb && Extends(b.P, P, b.nb) && |T| > 1 && SameTriangle(T[1], b.root)
    ensures NewNumbers(b.S, S, b.nb, nb) && home.Keys == b.home.Keys && Tamed(T, S, P, b.wish, n)
    ensures forall j | j in b.split :: Inner(T, S, j)
  {
  }
}
