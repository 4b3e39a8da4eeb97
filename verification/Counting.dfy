/** How many columns the tree can have, given the number of its vertices. */
module Counting {
  import opened Lattice
  import opened Tree
  import opened Splitting

  // ---------------------------------------------------------------- finite sets

  lemma {:induction false} Injected<A, B>(s: set<A>, t: set<B>, f: A -> B)
    requires forall a | a in s :: f(a) in t
    requires forall a, b | a in s && b in s && f(a) == f(b) :: a == b
    ensures |s| <= |t|
    decreases |s|
  {
    if a :| a in s {
      Injected(s - {a}, t - {f(a)}, f);
    }
  }

  ghost function Pairs<A(!new)>(s: set<A>, k: nat): (r: set<(A, int)>) {
    set a, i | a in s && i in Below(k) :: (a, i)
  }

  ghost function Below(k: nat): (r: set<int>)
    ensures forall i :: i in r <==> 0 <= i < k
    ensures |r| == k
  {
    if k == 0 then {} else Below(k - 1) + {k - 1}
  }

  lemma PairsIn<A(!new)>(s: set<A>, k: nat)
    ensures forall p: (A, int) :: p in Pairs(s, k) <==> p.0 in s && 0 <= p.1 < k
  {
    forall p: (A, int) ensures p in Pairs(s, k) <==> p.0 in s && 0 <= p.1 < k {
      assert p == (p.0, p.1);
    }
  }

  lemma SizeSum<A>(a: set<A>, b: set<A>)
    requires a !! b
    ensures |a + b| == |a| + |b|
  {
  }

  lemma {:induction false} PairsSize<A(!new)>(s: set<A>, k: nat)
    ensures |Pairs(s, k)| == k * |s|
    decreases |s|
  {
    hide *;
    if a :| a in s {
      PairsSize(s - {a}, k);
      PairsSplit(s, k, a);
      SizeSum(Pairs(s - {a}, k), Pairs({a}, k));
      OneSize(a, k);
      assert |s - {a}| == |s| - 1;
      Times(k, |s|);
    } else {
      assert s == {};
      PairsIn(s, k);
      assert Pairs(s, k) == {};
    }
  }

  lemma Times(k: int, n: int)
    ensures k * (n - 1) + k == k * n
  {
  }

  lemma PairsSplit<A(!new)>(s: set<A>, k: nat, a: A)
    requires a in s
    ensures Pairs(s, k) == Pairs(s - {a}, k) + Pairs({a}, k) && Pairs(s - {a}, k) !! Pairs({a}, k)
  {
    PairsIn(s, k);
    PairsIn(s - {a}, k);
    PairsIn({a}, k);
    hide Pairs;
  }

  lemma OneSize<A(!new)>(a: A, k: nat)
    ensures |Pairs({a}, k)| == k
  {
    PairsIn({a}, k);
    hide Pairs;
    Injected(Below(k), Pairs({a}, k), i => (a, i));
    Injected(Pairs({a}, k), Below(k), (p: (A, int)) => p.1);
  }

  // ---------------------------------------------------------------- the tree

  ghost function InnerOf(T: seq<Te>, S: Shape): (r: set<int>) {
    set j | j in S.geo && Inner(T, S, j)
  }

  function Place(T: seq<Te>, j: int): (r: (int, int)) {
    if 0 <= j < |T| then (T[j].sur, T[j].kind) else (0, 0)
  }

  /** Every triangle but the root is one of the four of a subdivided triangle. */
  lemma FourEach(T: seq<Te>, S: Shape)
    requires Woven(T, S)
    ensures |S.geo| <= 1 + 4 * |InnerOf(T, S)|
  {
    hide *;
    var s, t := S.geo.Keys - {1}, Pairs(InnerOf(T, S), 4);
    PairsSize(InnerOf(T, S), 4);
    RootLevel(T, S);
    forall j | j in s ensures Place(T, j) in t {
      PlaceIn(T, S, j);
    }
    forall i, j | i in s && j in s && Place(T, i) == Place(T, j) ensures i == j {
      PlaceOnce(T, S, i, j);
    }
    Injected(s, t, j => Place(T, j));
    assert S.geo.Keys == s + {1};
    SizeSum(s, {1});
  }

  lemma PlaceIn(T: seq<Te>, S: Shape, j: int)
    requires Woven(T, S) && j in S.geo && j != 1
    ensures Place(T, j) in Pairs(InnerOf(T, S), 4)
  {
    PairsIn(InnerOf(T, S), 4);
    hide Woven, Child, Pairs;
    ParentOf(T, S, j);
  }

  lemma PlaceOnce(T: seq<Te>, S: Shape, i: int, j: int)
    requires Woven(T, S) && i in S.geo && j in S.geo && i != 1 && j != 1 && Place(T, i) == Place(T, j)
    ensures i == j
  {
    hide Woven, Child;
    ParentOf(T, S, i);
    ParentOf(T, S, j);
  }

  function MidPlace(S: Shape, q: (int, int)): (r: (Pt, int)) {
    if q.0 in S.geo then (Mid(S.geo[q.0], q.1 + 1), if S.geo[q.0].s == 1 then 0 else 1) else (Pt(0, 0, 0), 0)
  }

  /** The middle of side l of a subdivided triangle has a number. */
  lemma MidNamed(T: seq<Te>, S: Shape, j: int, l: int)
    requires Woven(T, S) && Named(T, S) && Inner(T, S, j) && 1 <= l <= 3
    ensures Mid(S.geo[j], l) in S.num
  {
    hide Woven;
    NodeAt(T, S, j);
    ChildOf(T, S, j, 0);
    ChildCorners(S.geo[j], 0);
    assert CornersNamed(T, S, T[j].s0);
    hide Mid, Corner, Child;
    assert Corner(S.geo[T[j].s0], Pre(l)) == Mid(S.geo[j], Suiv(Pre(l)));
  }

  lemma MidOnce(T: seq<Te>, S: Shape, p: (int, int), q: (int, int))
    requires Woven(T, S) && p.0 in S.geo && q.0 in S.geo && 0 <= p.1 <= 2 && 0 <= q.1 <= 2
    requires MidPlace(S, p) == MidPlace(S, q)
    ensures p == q
  {
    hide *;
    OwnPlace(T, S, p.0);
    OwnPlace(T, S, q.0);
    SameMid(S, p, q);
    MidSame(S.geo[p.0], p.1 + 1, S.geo[q.0], q.1 + 1);
    OtherWay(S.geo[p.0], p.1 + 1);
    assert S.geo[q.0] == S.geo[p.0];
    assert p == (p.0, p.1) && q == (q.0, q.1);
  }

  lemma OwnPlace(T: seq<Te>, S: Shape, j: int)
    requires Woven(T, S) && j in S.geo
    ensures Sound(S.geo[j]) && (S.geo[j].s == 1 || S.geo[j].s == -1) && S.geo[j] in S.at && S.at[S.geo[j]] == j
  {
    NodeAt(T, S, j);
  }

  lemma SameMid(S: Shape, p: (int, int), q: (int, int))
    requires p.0 in S.geo && q.0 in S.geo && MidPlace(S, p) == MidPlace(S, q)
    ensures Mid(S.geo[p.0], p.1 + 1) == Mid(S.geo[q.0], q.1 + 1) && (S.geo[p.0].s == 1 <==> S.geo[q.0].s == 1)
  {
    hide Mid;
  }

  lemma OtherWay(g: Geo, l: int)
    ensures Mirror(g, l).s == -g.s
  {
  }

  /** A middle belongs to at most two subdivided triangles, which have three each. */
  lemma ThreeEach(T: seq<Te>, S: Shape)
    requires Woven(T, S) && Named(T, S)
    ensures 3 * |InnerOf(T, S)| <= 2 * |S.num|
  {
    hide *;
    var s, t := Pairs(InnerOf(T, S), 3), Pairs(S.num.Keys, 2);
    PairsSize(InnerOf(T, S), 3);
    PairsSize(S.num.Keys, 2);
    forall q | q in s ensures MidPlace(S, q) in t {
      MidIn(T, S, q);
    }
    forall p, q | p in s && q in s && MidPlace(S, p) == MidPlace(S, q) ensures p == q {
      InnerPair(T, S, p);
      InnerPair(T, S, q);
      MidOnce(T, S, p, q);
    }
    Injected(s, t, q => MidPlace(S, q));
    assert |S.num| == |S.num.Keys|;
  }

  lemma InnerPair(T: seq<Te>, S: Shape, q: (int, int))
    requires q in Pairs(InnerOf(T, S), 3)
    ensures q.0 in S.geo && Inner(T, S, q.0) && 0 <= q.1 <= 2
  {
    PairsIn(InnerOf(T, S), 3);
    hide Pairs;
  }

  lemma MidIn(T: seq<Te>, S: Shape, q: (int, int))
    requires Woven(T, S) && Named(T, S) && q in Pairs(InnerOf(T, S), 3)
    ensures MidPlace(S, q) in Pairs(S.num.Keys, 2)
  {
    InnerPair(T, S, q);
    MidNamed(T, S, q.0, q.1 + 1);
    PairsIn(S.num.Keys, 2);
    hide Woven, Named, Pairs, Mid;
  }

  function NumberOf(S: Shape, p: Pt): (r: int) {
    if p in S.num then S.num[p] - 1 else 0
  }

  lemma OneNumber(T: seq<Te>, S: Shape, nb: nat)
    requires Numbered(T, S, nb)
    ensures |S.num| <= nb
  {
    forall p | p in S.num ensures NumberOf(S, p) in Below(nb) {
      assert PtOk(T, S, nb, p);
    }
    forall p, q | p in S.num && q in S.num && NumberOf(S, p) == NumberOf(S, q) ensures p == q {
      assert PtOk(T, S, nb, p) && PtOk(T, S, nb, q);
    }
    hide Numbered, PtOk;
    Injected(S.num.Keys, Below(nb), p => NumberOf(S, p));
  }

  /** The tree has at most 1 + 8/3 nb triangles. */
  lemma ColumnsBound(T: seq<Te>, S: Shape, nb: nat)
    requires Woven(T, S) && Named(T, S) && Numbered(T, S, nb)
    ensures 3 * |S.geo| <= 3 + 8 * nb
  {
    hide *;
    FourEach(T, S);
    ThreeEach(T, S);
    OneNumber(T, S, nb);
  }
}
