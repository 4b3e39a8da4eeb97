/** The operations on the quaternary tree: `te4ste_`, `notrpt_`, `teajpt_`, in place. */
module Quadtree {
  import opened Lists
  import opened Geometry
  import opened Delaunay
  import opened Lattice
  import opened Tree
  import opened Splitting
  import opened Leaves
  import opened Counting

  /** The free columns, linked through s0 from column 0, are columns outside the tree. */
  ghost predicate FreeOk(T: seq<Te>, S: Shape, free: seq<int>) {
    && |T| > 0 && T[0].s0 == At(free, 0) && Unique(free)
    && forall k {:trigger free[k]} | 0 <= k < |free| ::
      1 <= free[k] < |T| && free[k] !in S.geo && T[free[k]].s0 == At(free, k + 1)
  }

  /** Each column is in the tree or free, and column 2 is the first to be taken, for the middle of the root. */
  ghost predicate Columned(S: Shape, free: seq<int>, mxtree: nat) {
    && |S.geo| + |free| == mxtree
    && if 2 in S.geo then S.geo[2] == Child(Root(), 0) else free != [] && free[0] == 2 && S.geo.Keys == {1}
  }

  lemma ColumnedSplit(S: Shape, free: seq<int>, mxtree: nat, j: int, m1: int, m2: int, m3: int)
    requires Columned(S, free, mxtree) && j in S.geo && |free| >= 4 && Outside(S, free[0], free[1], free[2], free[3])
    requires Unique(free) && (1 in S.geo ==> S.geo[1] == Root())
    ensures Columned(SplitS(S, j, free[0], free[1], free[2], free[3], m1, m2, m3), free[4..], mxtree)
  {
    hide Child, Mid;
    var S' := SplitS(S, j, free[0], free[1], free[2], free[3], m1, m2, m3);
    assert free[0] != free[1] && free[0] != free[2] && free[0] != free[3] && free[1] != free[2] && free[1] != free[3]
      && free[2] != free[3];
    hide Unique;
    assert S'.geo.Keys == S.geo.Keys + {free[0], free[1], free[2], free[3]};
    SizeSum(S.geo.Keys, {free[0], free[1], free[2], free[3]});
  }

  /** The middle sub-triangle of the root is column 2. */
  lemma CentreColumn(T: seq<Te>, S: Shape, P: seq<Point>, nb: int, free: seq<int>, home: map<int, int>, mxtree: nat)
    requires TreeOk(T, S, P, nb, free, home) && Columned(S, free, mxtree)
    ensures Inner(T, S, 1) ==> |T| > 1 && T[1].s0 == 2 && 2 in S.geo
  {
    hide Woven, Named, Numbered, Placed, FreeOk, Stocked, Child;
    if Inner(T, S, 1) {
      RootPlace(T, S);
      ChildOf(T, S, 1, 0);
      NodeAt(T, S, T[1].s0);
      if 2 in S.geo {
        NodeAt(T, S, 2);
      }
    }
  }

  lemma RootPlace(T: seq<Te>, S: Shape)
    requires Woven(T, S)
    ensures 1 in S.geo && S.geo[1] == Root()
  {
  }

  /** A tree without four free columns has many vertices. */
  lemma FewColumns(T: seq<Te>, S: Shape, P: seq<Point>, nb: nat, free: seq<int>, home: map<int, int>, mxtree: nat)
    requires TreeOk(T, S, P, nb, free, home) && Columned(S, free, mxtree) && |free| < 4
    ensures 3 * mxtree <= 12 + 8 * nb
  {
    hide Woven, Named, Numbered, Placed, FreeOk, Stocked;
    ColumnsBound(T, S, nb);
  }

  ghost predicate TreeOk(T: seq<Te>, S: Shape, P: seq<Point>, nb: int, free: seq<int>, home: map<int, int>) {
    Woven(T, S) && Named(T, S) && Numbered(T, S, nb) && Placed(T, S, P) && FreeOk(T, S, free)
      && Stocked(T, S, P, nb, home)
  }

  /** The triangle of j's size across side l is in the tree and subdivided. */
  ghost predicate Beside(T: seq<Te>, S: Shape, j: int, l: int) {
    j in S.geo && Mirror(S.geo[j], l) in S.at && Inner(T, S, S.at[Mirror(S.geo[j], l)])
  }

  /** The middle of side l of leaf j has a number exactly when the triangle across is subdivided. */
  lemma MidShared(T: seq<Te>, S: Shape, nb: int, j: int, l: int)
    requires Woven(T, S) && Named(T, S) && Numbered(T, S, nb) && j in S.geo && !Inner(T, S, j) && 1 <= l <= 3
    ensures Mid(S.geo[j], l) in S.num <==> Beside(T, S, j, l)
    ensures Beside(T, S, j, l) ==> var n := S.at[Mirror(S.geo[j], l)];
              1 <= T[n].s0 < |T| && S.num[Mid(S.geo[j], l)] == Som(T[T[n].s0], Pre(l))
  {
    hide Woven, Mid, Corner, Mirror;
    NodeAt(T, S, j);
    MirrorCorners(S.geo[j], l);
    var p := Mid(S.geo[j], l);
    if p in S.num {
      assert PtOk(T, S, nb, p);
      MidLevel(S.geo[j], l);
      var i := S.src[p];
      NodeAt(T, S, i);
      MidOwner(S.geo[j], l, S.geo[i]);
    }
    if Beside(T, S, j, l) {
      var n := S.at[Mirror(S.geo[j], l)];
      AtAt(T, S, Mirror(S.geo[j], l));
      ChildOf(T, S, n, 0);
      ChildCorners(S.geo[n], 0);
      assert CornersNamed(T, S, T[n].s0);
    }
  }

  lemma MidLevel(g: Geo, l: int)
    ensures Mid(g, l).level > 0
  {
  }

  lemma MidOwner(g: Geo, l: int, h: Geo)
    requires Sound(g) && Sound(h) && 1 <= l <= 3 && MidOf(h, Mid(g, l))
    ensures h == g || h == Mirror(g, l)
  {
    if Mid(g, l) == Mid(h, 1) {
      MidSame(g, l, h, 1);
    } else if Mid(g, l) == Mid(h, 2) {
      MidSame(g, l, h, 2);
    } else {
      MidSame(g, l, h, 3);
    }
  }

  /** More vertices, none of them in the tree, change nothing. */
  lemma MoreVertices(T: seq<Te>, S: Shape, P: seq<Point>, P': seq<Point>, nb: int, nb': int, free: seq<int>,
      home: map<int, int>)
    requires TreeOk(T, S, P, nb, free, home) && Extends(P, P', nb) && nb <= nb'
    ensures TreeOk(T, S, P', nb', free, home)
  {
    hide Woven, Named, FreeOk;
    PlacedExtends(T, S, P, P', nb);
    forall p | p in S.num ensures PtOk(T, S, nb', p) {
      assert PtOk(T, S, nb, p);
    }
    hide Placed;
    forall j | j in S.geo && 0 <= j < |T| ensures LeafOk(T, P', home, j) {
      assert LeafOk(T, P, home, j);
      SameCorners(T, S, P, P', nb, j);
      forall k | 0 <= k <= 3 && Sub(T[j], k) < 0 && T[j].s0 <= 0 ensures Holds(P', T[j], -Sub(T[j], k)) {
        assert HomeOk(T, S, home, nb, -Sub(T[j], k));
      }
    }
    forall q | q in home ensures HomeOk(T, S, home, nb', q) {
      assert HomeOk(T, S, home, nb, q);
    }
  }

  /** The points that are not in leaf j. */
  ghost function Others(home: map<int, int>, j: int): (r: map<int, int>) {
    map q | q in home && home[q] != j :: home[q]
  }

  lemma SplitStocked(T: seq<Te>, S: Shape, T': seq<Te>, j: int, c0: int, c1: int, c2: int, c3: int, m1: int, m2: int,
      m3: int,
                     P: seq<Point>, nb: int, home: map<int, int>)
    requires Woven(T, S) && Stocked(T, S, P, nb, home) && j in S.geo
    requires SplitT(T, T', j, c0, c1, c2, c3, m1, m2, m3) && Outside(S, c0, c1, c2, c3)
    ensures Stocked(T', SplitS(S, j, c0, c1, c2, c3, m1, m2, m3), P, nb, Others(home, j))
  {
    hide Woven, Child, Mid, Holds;
    var S', home' := SplitS(S, j, c0, c1, c2, c3, m1, m2, m3), Others(home, j);
    forall i | i in S'.geo && 0 <= i < |T'| ensures LeafOk(T', P, home', i) {
      if i in S.geo {
        NodeIndex(T, S, i);
        assert LeafOk(T, P, home, i);
      }
    }
    forall q | q in home' ensures HomeOk(T', S', home', nb, q) {
      assert HomeOk(T, S, home, nb, q);
    }
  }

  lemma SplitFree(T: seq<Te>, S: Shape, T': seq<Te>, j: int, free: seq<int>, m1: int, m2: int, m3: int)
    requires Woven(T, S) && FreeOk(T, S, free) && |free| >= 4 && j in S.geo
    requires SplitT(T, T', j, free[0], free[1], free[2], free[3], m1, m2, m3) && T'[0].s0 == At(free, 4)
    ensures Outside(S, free[0], free[1], free[2], free[3])
    ensures FreeOk(T', SplitS(S, j, free[0], free[1], free[2], free[3], m1, m2, m3), free[4..])
  {
    hide Woven;
    NodeIndex(T, S, j);
    var S', free' := SplitS(S, j, free[0], free[1], free[2], free[3], m1, m2, m3), free[4..];
    forall k | 0 <= k < |free'| ensures 1 <= free'[k] < |T'| && free'[k] !in S'.geo
      && T'[free'[k]].s0 == At(free', k + 1) {
      assert free'[k] == free[k + 4];
    }
  }

  /** The tree after leaf j is subdivided and its points are taken out. */
  lemma SplitOk(T: seq<Te>, S: Shape, T': seq<Te>, j: int, m1: int, m2: int, m3: int, P: seq<Point>, nb: int, nb': int,
      free: seq<int>, home: map<int, int>)
    requires TreeOk(T, S, P, nb', free, home) && Numbered(T, S, nb) && 0 <= nb <= nb' && j in S.geo && |free| >= 4
    requires SplitT(T, T', j, free[0], free[1], free[2], free[3], m1, m2, m3) && T'[0].s0 == At(free, 4)
    requires Fresh(S, nb, nb', Mid(S.geo[j], 1), m1) && Fresh(S, nb, nb', Mid(S.geo[j], 2), m2)
      && Fresh(S, nb, nb', Mid(S.geo[j], 3), m3)
    requires m1 != m2 && m2 != m3 && m3 != m1
    requires PointOf(P, m1) == Middle(PointOf(P, T[j].v1), PointOf(P, T[j].v2))
    requires PointOf(P, m2) == Middle(PointOf(P, T[j].v2), PointOf(P, T[j].v3))
    requires PointOf(P, m3) == Middle(PointOf(P, T[j].v3), PointOf(P, T[j].v1))
    ensures TreeOk(T', SplitS(S, j, free[0], free[1], free[2], free[3], m1, m2, m3), P, nb', free[4..], Others(home, j))
  {
    hide Woven, Named, Numbered, Placed, Stocked, FreeOk, SplitS, SplitT, Middle;
    SplitFree(T, S, T', j, free, m1, m2, m3);
    SplitWoven(T, S, T', j, free[0], free[1], free[2], free[3], m1, m2, m3);
    SplitNamed(T, S, T', j, free[0], free[1], free[2], free[3], m1, m2, m3, nb, nb');
    SplitNumbered(T, S, T', j, free[0], free[1], free[2], free[3], m1, m2, m3, nb, nb');
    SplitPlaced(T, S, T', j, free[0], free[1], free[2], free[3], m1, m2, m3, P);
    SplitStocked(T, S, T', j, free[0], free[1], free[2], free[3], m1, m2, m3, P, nb', home);
  }

  // ---------------------------------------------------------------- writing the columns

  /** Columns free[0..i] are the first i sub-triangles of j, their middles not set yet. */
  ghost predicate KidsUpTo(T: seq<Te>, T': seq<Te>, free: seq<int>, j: int, i: int) {
    && |T'| == |T| && 0 < j < |T| && 0 <= i <= 4 && i <= |free| && T'[0].s0 == At(free, i)
    && (forall n {:trigger T'[n]} | 1 <= n < |T| && n != j && (forall k | 0 <= k < i :: free[k] != n) :: T'[n] == T[n])
    && T'[j] == Te(if i > 0 then free[0]
      else T[j].s0, if i > 1 then free[1] else T[j].s1, if i > 2 then free[2] else T[j].s2,
                   if i > 3 then free[3] else T[j].s3, T[j].sur, T[j].kind, T[j].v1, T[j].v2, T[j].v3)
    && (forall k {:trigger free[k]} | 0 <= k < i :: 1 <= free[k] < |T| && KidHead(T[j], T'[free[k]], j, k))
  }

  predicate KidHead(t: Te, c: Te, j: int, k: int) {
    && c.s0 == 0 && c.s1 == 0 && c.s2 == 0 && c.s3 == 0 && c.sur == j && c.kind == k
    && (k == 1 ==> c.v1 == t.v1) && (k == 2 ==> c.v2 == t.v2) && (k == 3 ==> c.v3 == t.v3)
  }

  lemma FreeHead(T: seq<Te>, S: Shape, free: seq<int>, T': seq<Te>, j: int, i: int)
    requires FreeOk(T, S, free) && KidsUpTo(T, T', free, j, i) && i < 4 && j in S.geo
    ensures T'[0].s0 <= 0 <==> |free| <= i
    ensures i < |free| ==> T'[0].s0 == free[i] && 1 <= free[i] < |T| && free[i] != j
                           && T'[free[i]].s0 == At(free, i + 1)
    ensures i < |free| ==> forall k | 0 <= k < i :: free[k] != free[i]
    ensures 1 <= j < |T'| && |T'| == |T| && Sub(T'[j], i) == Sub(T[j], i) && T'[j].v1 == T[j].v1 && T'[j].v2 == T[j].v2
      && T'[j].v3 == T[j].v3
    ensures i < |free| ==> free[i] < |T'| && T'[0].s0 == At(free, i)
  {
  }

  lemma NoKid(T: seq<Te>, S: Shape, free: seq<int>, j: int)
    requires FreeOk(T, S, free) && 0 < j < |T|
    ensures KidsUpTo(T, T, free, j, 0)
  {
  }

  lemma KidsDone(T: seq<Te>, S: Shape, free: seq<int>, T': seq<Te>, T'': seq<Te>, j: int, m1: int, m2: int, m3: int)
    requires FreeOk(T, S, free) && KidsUpTo(T, T', free, j, 4) && j in S.geo && T[j].s0 <= 0
    requires |T''| == |T'| && T''[0] == T'[0]
    requires T''[free[0]] == T'[free[0]].(v1 := m2, v2 := m3, v3 := m1)
    requires T''[free[1]] == T'[free[1]].(v2 := m1, v3 := m3)
    requires T''[free[2]] == T'[free[2]].(v1 := m1, v3 := m2)
    requires T''[free[3]] == T'[free[3]].(v1 := m3, v2 := m2)
    requires forall n | 1 <= n < |T| && n != free[0] && n != free[1] && n != free[2] && n != free[3] :: T''[n] == T'[n]
    ensures SplitT(T, T'', j, free[0], free[1], free[2], free[3], m1, m2, m3) && T''[0].s0 == At(free, 4)
  {
    assert KidHead(T[j], T'[free[0]], j, 0) && KidHead(T[j], T'[free[1]], j, 1);
    assert KidHead(T[j], T'[free[2]], j, 2) && KidHead(T[j], T'[free[3]], j, 3);
    assert free[0] != j && free[1] != j && free[2] != j && free[3] != j;
    forall n | 1 <= n < |T| && n != j && n != free[0] && n != free[1] && n != free[2]
      && n != free[3] ensures T''[n] == T[n] {
      assert forall k | 0 <= k < 4 :: free[k] != n;
    }
  }

  /** A point q put into the first empty slot k of leaf j. */
  lemma PutOk(T: seq<Te>, S: Shape, P: seq<Point>, nb: int, free: seq<int>, home: map<int, int>, j: int, k: int, q: int)
    requires TreeOk(T, S, P, nb, free, home) && j in S.geo && 1 <= j < |T| && T[j].s0 <= 0 && 0 <= k <= 3
    requires Sub(T[j], k) == 0 && forall i | 0 <= i < k :: Sub(T[j], i) != 0
    requires q !in home && 1 <= q <= nb && Holds(P, T[j], q)
    ensures TreeOk(T[j := SetSub(T[j], k, -q)], S, P, nb, free, home[q := j])
  {
    var T' := T[j := SetSub(T[j], k, -q)];
    hide Holds, Area, Corner, Child;
    PutWoven(T, S, T', j);
    PutStocked(T, S, P, nb, home, j, k, q);
    PutRest(T, S, T', P, nb, free, j);
  }

  lemma PutWoven(T: seq<Te>, S: Shape, T': seq<Te>, j: int)
    requires Woven(T, S) && j in S.geo && 0 <= j < |T| == |T'| && T[j].s0 <= 0
    requires T' == T[j := T[j].(s0 := T'[j].s0, s1 := T'[j].s1, s2 := T'[j].s2, s3 := T'[j].s3)] && T'[j].s0 <= 0
    ensures Woven(T', S)
  {
    forall i | i in S.geo ensures NodeOk(T', S, i) {
      PutNode(T, S, T', j, i);
    }
  }

  lemma PutNode(T: seq<Te>, S: Shape, T': seq<Te>, j: int, i: int)
    requires Woven(T, S) && j in S.geo && 0 <= j < |T| == |T'| && T[j].s0 <= 0 && i in S.geo
    requires T' == T[j := T[j].(s0 := T'[j].s0, s1 := T'[j].s1, s2 := T'[j].s2, s3 := T'[j].s3)] && T'[j].s0 <= 0
    ensures NodeOk(T', S, i)
  {
    hide Woven, Child, InRoot;
    NodeAt(T, S, i);
  }

  lemma PutRest(T: seq<Te>, S: Shape, T': seq<Te>, P: seq<Point>, nb: int, free: seq<int>, j: int)
    requires Woven(T, S) && Named(T, S) && Numbered(T, S, nb) && Placed(T, S, P) && FreeOk(T, S, free)
    requires j in S.geo && 1 <= j < |T| == |T'| && T[j].s0 <= 0
    requires T' == T[j := T[j].(s0 := T'[j].s0, s1 := T'[j].s1, s2 := T'[j].s2, s3 := T'[j].s3)] && T'[j].s0 <= 0
    ensures Named(T', S) && Numbered(T', S, nb) && Placed(T', S, P) && FreeOk(T', S, free)
  {
    hide Woven, Child, Corner, Mid, AreaOf, Middle;
    forall i | i in S.geo ensures CornersNamed(T', S, i) {
      assert CornersNamed(T, S, i);
    }
    forall p | p in S.num ensures PtOk(T', S, nb, p) {
      assert PtOk(T, S, nb, p);
    }
    forall i | i in S.geo && 0 <= i < |T'| ensures HalvedAt(T', S, P, i)
      && AreaOf(P, (T'[i].v1, T'[i].v2, T'[i].v3)) > 0.0 {
      assert HalvedAt(T, S, P, i);
      if Inner(T, S, i) {
        ChildOf(T, S, i, 0);
      }
    }
  }

  // ---------------------------------------------------------------- the tree in its arrays

  lemma NoMirror(T: seq<Te>, S: Shape, j: int, l: int)
    requires Woven(T, S) && j in S.geo && 1 <= l <= 3 && Border(S.geo[j], l)
    ensures Mirror(S.geo[j], l) !in S.at
  {
    hide Woven, Mirror, InRoot, Border;
    NodeAt(T, S, j);
    MirrorOutside(S.geo[j], l);
    if Mirror(S.geo[j], l) in S.at {
      AtAt(T, S, Mirror(S.geo[j], l));
      NodeAt(T, S, S.at[Mirror(S.geo[j], l)]);
    }
  }

  lemma MirrorOutside(g: Geo, l: int)
    requires InRoot(g) && 1 <= l <= 3 && Border(g, l)
    ensures !InRoot(Mirror(g, l))
  {
  }

  /** The levels below j are bounded: a path down meets every triangle once. */
  lemma Deeper(T: seq<Te>, S: Shape, j: int, k: int)
    requires Woven(T, S) && Inner(T, S, j) && 0 <= k <= 3
    ensures Sub(T[j], k) in S.geo && S.geo[Sub(T[j], k)].level == S.geo[j].level + 1
  {
    ChildOf(T, S, j, k);
  }

  /** Where the points of the subdivided leaf j have gone: into its sub-triangles; all others stayed. */
  ghost predicate Moved(T: seq<Te>, home: map<int, int>, home': map<int, int>, j: int) {
    && home'.Keys == home.Keys && 0 <= j < |T|
    && forall q | q in home :: if home[q] != j then home'[q] == home[q]
                               else exists k :: 0 <= k <= 3 && home'[q] == Sub(T[j], k)
  }

  class Quadtree {
    const mxtree: nat
    const mxsomm: nat
    const letree: array<Te>
    const pxyd: array<Point>
    var nbsomm: int
    ghost var S: Shape
    ghost var free: seq<int>
    ghost var home: map<int, int>

    ghost predicate Valid()
      reads this, letree, pxyd
    {
      && letree.Length == mxtree + 1 && pxyd.Length == mxsomm + 1 && 0 <= nbsomm <= mxsomm
      && TreeOk(letree[..], S, pxyd[..], nbsomm, free, home) && Columned(S, free, mxtree)
    }

    /** The tree of `teajte_` before the points: the root alone, its corners the next three vertices. */
    constructor (mxtree: nat, mxsomm: nat, pxyd: array<Point>, nbsomm: nat, a: Point, b: Point, c: Point)
      requires mxtree >= 2 && pxyd.Length == mxsomm + 1 && nbsomm + 3 <= mxsomm && Area(a, b, c) > 0.0
      modifies pxyd
      ensures Valid() && fresh(letree) && this.pxyd == pxyd && this.mxtree == mxtree && this.mxsomm == mxsomm
      ensures this.nbsomm == nbsomm + 3 && home == map[] && |free| == mxtree - 1
      ensures forall v | v in S.pt :: nbsomm < v <= nbsomm + 3
      ensures forall j :: !Inner(letree[..], S, j)
      ensures pxyd[..] == old(pxyd[..])[nbsomm + 1 := a][nbsomm + 2 := b][nbsomm + 3 := c]
      ensures letree[1] == Te(0, 0, 0, 0, 0, 0, nbsomm + 1, nbsomm + 2, nbsomm + 3)
    {
      hide TreeOk, Area, Columned;
      this.mxtree, this.mxsomm, this.pxyd := mxtree, mxsomm, pxyd;
      this.nbsomm := nbsomm + 3;
      letree := new Te[mxtree + 1](_ => Te(0, 0, 0, 0, 0, 0, 0, 0, 0));
      S := FirstShape(nbsomm);
      free := seq(mxtree - 1, k => k + 2);
      home := map[];
      new;
      letree[0] := letree[0].(s0 := 2);
      for i := 2 to mxtree + 1
        invariant letree.Length == mxtree + 1 && fresh(letree) && letree[0].s0 == 2
        invariant forall j | 2 <= j < i :: letree[j].s0 == j + 1
        invariant this.pxyd[..] == old(pxyd[..]) && this.mxtree == mxtree && this.mxsomm == mxsomm && this.pxyd == pxyd
          && this.nbsomm == nbsomm + 3
        invariant S == FirstShape(nbsomm) && free == seq(mxtree - 1, k => k + 2) && home == map[]
      {
        letree[i] := letree[i].(s0 := i + 1);
      }
      letree[mxtree] := letree[mxtree].(s0 := 0);
      letree[1] := Te(0, 0, 0, 0, 0, 0, nbsomm + 1, nbsomm + 2, nbsomm + 3);
      this.pxyd[nbsomm + 1] := a;
      this.pxyd[nbsomm + 2] := b;
      this.pxyd[nbsomm + 3] := c;
      assert pxyd[..] == old(pxyd[..])[nbsomm + 1 := a][nbsomm + 2 := b][nbsomm + 3 := c];
      FirstOk(letree[..], pxyd[..], mxtree, nbsomm);
      FirstColumned(mxtree, nbsomm);
    }

    /** The middle of side i1 of leaf ntrp in `te4ste_`: the vertex of the subdivided triangle across
        the side, or a new vertex; ierr == 52 when there is no room for one. */
    method MiddleVertex(ntrp: int, i1: int) returns (milieu: int, ierr: int)
      requires Valid() && ntrp in S.geo && !Inner(letree[..], S, ntrp) && 1 <= i1 <= 3
      modifies `nbsomm, pxyd
      ensures ierr == 0 || ierr == 52
      ensures ierr == 52 ==> old(nbsomm) == nbsomm == mxsomm
      ensures nbsomm >= old(nbsomm) && Extends(old(pxyd[..]), pxyd[..], old(nbsomm))
      ensures ierr == 0 ==> Valid() && Extends(old(pxyd[..]), pxyd[..], old(nbsomm))
      ensures ierr == 0 && Beside(letree[..], S, ntrp, i1) ==>
        nbsomm == old(nbsomm) && Mid(S.geo[ntrp], i1) in S.num && milieu == S.num[Mid(S.geo[ntrp], i1)]
      ensures ierr == 0 && !Beside(letree[..], S, ntrp, i1) ==>
        nbsomm == old(nbsomm) + 1 && milieu == nbsomm && Mid(S.geo[ntrp], i1) !in S.num
      ensures ierr == 0 ==> 1 <= ntrp <= mxtree && 1 <= milieu <= nbsomm
      ensures ierr == 0 ==>
        PointOf(pxyd[..], milieu) == Middle(PointOf(pxyd[..], Som(letree[ntrp], i1)),
        PointOf(pxyd[..], Som(letree[ntrp], Suiv(i1))))
    {
      hide Woven, Named, Numbered, Placed, FreeOk, Stocked, Mid, Middle;
      ghost var T, P := letree[..], pxyd[..];
      NodeIndex(T, S, ntrp);
      ierr := 0;
      var noteva, niveau := N1trva(letree, ntrp, i1, S);
      MidShared(T, S, nbsomm, ntrp, i1);
      if noteva > 0 {
        NodeAt(T, S, noteva);
        if letree[noteva].s0 > 0 {
          var nsot := letree[noteva].s0;
          milieu := Som(letree[nsot], Pre(i1));
          SharedPlace(T, S, P, nbsomm, ntrp, i1);
          return;
        }
      } else {
        NoMirror(T, S, ntrp, i1);
      }
      assert !Beside(T, S, ntrp, i1);
      if nbsomm + 1 > mxsomm {
        return 0, 52;
      }
      SameCorners(T, S, P, P, nbsomm, ntrp);
      var ns1, ns2 := Som(letree[ntrp], i1), Som(letree[ntrp], Suiv(i1));
      var next := nbsomm + 1;
      pxyd[next] := Middle(pxyd[ns1], pxyd[ns2]);
      MoreVertices(T, S, P, pxyd[..], nbsomm, next, free, home);
      nbsomm := next;
      milieu := nbsomm;
    }

    /** The leaf below notrde that `notrpt_` finds for point q: the one that holds q when notrde does. */
    method Notrpt(q: int, notrde: int) returns (nte: int)
      requires Valid() && notrde in S.geo && 0 <= notrde <= mxtree
      ensures nte in S.geo && 1 <= nte <= mxtree && !Inner(letree[..], S, nte)
      ensures Holds(pxyd[..], letree[notrde], q) ==> Holds(pxyd[..], letree[nte], q)
      ensures !Inner(letree[..], S, notrde) ==> nte == notrde
      ensures Inner(letree[..], S, notrde)
              && (forall k | 0 <= k <= 3 :: !Inner(letree[..], S, Sub(letree[notrde], k)))
              ==> exists k :: 0 <= k <= 3 && nte == Sub(letree[notrde], k)
    {
      hide Woven, Named, Numbered, Placed, FreeOk, Stocked, Holds;
      ghost var T, P := letree[..], pxyd[..];
      nte := notrde;
      ghost var seen: set<int> := {};
      NodeIndex(T, S, nte);
      while letree[nte].s0 > 0
        invariant nte in S.geo && 1 <= nte <= mxtree && (Holds(P, T[notrde], q) ==> Holds(P, T[nte], q))
        invariant seen <= S.geo.Keys && forall j | j in seen :: S.geo[j].level < S.geo[nte].level
        invariant nte == notrde || (exists k :: 0 <= k <= 3 && nte == Sub(T[notrde], k))
          || (exists k :: 0 <= k <= 3 && Inner(T, S, Sub(T[notrde], k)))
        invariant nte != notrde ==> Inner(T, S, notrde)
        decreases S.geo.Keys - seen
      {
        NosstrHolds(T, S, P, nte, q);
        var nsot := Nosstr(pxyd[..], letree[nte], q);
        Deeper(T, S, nte, nsot);
        seen := seen + {nte};
        nte := Sub(letree[nte], nsot);
        NodeIndex(T, S, nte);
      }
    }

    /** Point q goes into the first empty slot of leaf nte; false when the four slots are taken. */
    method Put(nte: int, q: int) returns (done: bool)
      requires Valid() && nte in S.geo && !Inner(letree[..], S, nte) && 1 <= nte <= mxtree
      requires q !in home && 1 <= q <= nbsomm && Holds(pxyd[..], letree[nte], q)
      modifies `home, letree
      ensures Valid()
      ensures !done ==> home == old(home) && letree[..] == old(letree[..]) && forall k | 0 <= k <= 3 ::
                        Sub(letree[nte], k) != 0
      ensures done ==> home == old(home)[q := nte]
      ensures done ==> exists k :: 0 <= k <= 3 && Sub(old(letree[nte]), k) == 0
                                   && (forall i | 0 <= i < k :: Sub(old(letree[nte]), i) != 0)
                         && letree[..] == old(letree[..])[nte := SetSub(old(letree[nte]), k, -q)]
    {
      hide TreeOk, Holds;
      var i := 0;
      while i <= 3
        invariant 0 <= i <= 4
        invariant forall k | 0 <= k < i :: Sub(letree[nte], k) != 0
        invariant letree[..] == old(letree[..])
      {
        if Sub(letree[nte], i) == 0 {
          PutOk(letree[..], S, pxyd[..], nbsomm, free, home, nte, i, q);
          letree[nte] := SetSub(letree[nte], i, -q);
          home := home[q := nte];
          assert letree[..] == old(letree[..])[nte := SetSub(old(letree[nte]), i, -q)];
          return true;
        }
        i := i + 1;
      }
      return false;
    }

    /** The loop of `te4ste_` that takes four free columns for the sub-triangles of leaf ntrp; np is
        what was in its slots. */
    method NewKids(ntrp: int) returns (np: seq<int>, ierr: int)
      requires Valid() && ntrp in S.geo && !Inner(letree[..], S, ntrp)
      modifies letree
      ensures ierr == if |free| < 4 then 51 else 0
      ensures ierr == 0 ==> 1 <= ntrp <= mxtree && KidsUpTo(old(letree[..]), letree[..], free, ntrp, 4)
      ensures ierr == 0 ==>
        np == [-old(letree[ntrp]).s0, -old(letree[ntrp]).s1, -old(letree[ntrp]).s2, -old(letree[ntrp]).s3]
    {
      hide Woven, Named, Numbered, Placed, Stocked, KidsUpTo, FreeOk;
      ghost var T := letree[..];
      NodeIndex(T, S, ntrp);
      NoKid(T, S, free, ntrp);
      np := [];
      var i := 0;
      while i <= 3
        invariant 0 <= i <= 4 && |np| == i && KidsUpTo(T, letree[..], free, ntrp, i)
        invariant i > 0 ==> np[0] == -T[ntrp].s0
        invariant i > 1 ==> np[1] == -T[ntrp].s1
        invariant i > 2 ==> np[2] == -T[ntrp].s2
        invariant i > 3 ==> np[3] == -T[ntrp].s3
      {
        FreeHead(T, S, free, letree[..], ntrp, i);
        ghost var T1 := letree[..];
        var nsot := letree[0].s0;
        if nsot <= 0 {
          return np, 51;
        }
        letree[0] := letree[0].(s0 := letree[nsot].s0);
        np := np + [-Sub(letree[ntrp], i)];
        var t := letree[nsot].(s0 := 0, s1 := 0, s2 := 0, s3 := 0, sur := ntrp, kind := i);
        letree[nsot] := if i == 0 then t else SetSom(t, i, Som(letree[ntrp], i));
        letree[ntrp] := SetSub(letree[ntrp], i, nsot);
        NextKid(T, S, free, T1, letree[..], ntrp, i);
        i := i + 1;
      }
      KidsApart(T, S, free, letree[..], ntrp);
      ierr := 0;
    }

    /** The middles go to the corners of the four sub-triangles. */
    method SetMiddles(ntrp: int, m1: int, m2: int, m3: int, ghost T0: seq<Te>)
      requires letree.Length == mxtree + 1 && FreeOk(T0, S, free) && KidsUpTo(T0, letree[..], free, ntrp, 4)
        && ntrp in S.geo && T0[ntrp].s0 <= 0
      modifies letree
      ensures |free| >= 4 && SplitT(T0, letree[..], ntrp, free[0], free[1], free[2], free[3], m1, m2, m3)
        && letree[0].s0 == At(free, 4)
    {
      hide KidsUpTo, FreeOk, SplitT;
      ghost var T := letree[..];
      KidsApart(T0, S, free, T, ntrp);
      var nsot := letree[ntrp].s0;
      letree[nsot] := letree[nsot].(v1 := m2, v2 := m3, v3 := m1);
      nsot := letree[ntrp].s1;
      letree[nsot] := letree[nsot].(v2 := m1, v3 := m3);
      nsot := letree[ntrp].s2;
      letree[nsot] := letree[nsot].(v1 := m1, v3 := m2);
      nsot := letree[ntrp].s3;
      letree[nsot] := letree[nsot].(v1 := m3, v2 := m2);
      KidsDone(T0, S, free, T, letree[..], ntrp, m1, m2, m3);
    }

    /** The end of `te4ste_`: the points np of ntrp go to its new sub-triangles. */
    method Redistribute(ntrp: int, np: seq<int>, ghost home0: map<int, int>)
      requires Valid() && Inner(letree[..], S, ntrp) && KidsEmpty(letree[..], S, ntrp, 0)
      requires home == Others(home0, ntrp) && Contents(pxyd[..], letree[ntrp], home0, ntrp, np, nbsomm)
      modifies `home, letree
      ensures Valid() && Moved(letree[..], home0, home, ntrp)
      ensures OnlyKids(old(letree[..]), letree[..], ntrp) && KidsEmpty(letree[..], S, ntrp, 4)
    {
      hide TreeOk, Holds, Columned;
      ghost var T := letree[..];
      var i := 0;
      while i <= 3
        invariant 0 <= i <= 4 && Valid() && Inner(letree[..], S, ntrp) && letree[ntrp] == T[ntrp]
        invariant KidsEmpty(letree[..], S, ntrp, i) && OnlyKids(T, letree[..], ntrp)
        invariant PartHome(T, home0, home, ntrp, np, i)
      {
        if np[i] > 0 {
          ContentAt(pxyd[..], letree[ntrp], home0, ntrp, np, nbsomm, i);
          PartNew(T, home0, home, ntrp, np, i, pxyd[..], nbsomm);
          ghost var T1, home1 := letree[..], home;
          KidsAreLeaves(T1, S, ntrp, i);
          var nsot := Notrpt(np[i], ntrp);
          ghost var k: int :| 0 <= k <= 3 && nsot == Sub(T1[ntrp], k);
          KidAt(T1, S, ntrp, i, k);
          var done := Put(nsot, np[i]);
          assert done;
          ghost var m: int :| 0 <= m <= 3 && Sub(T1[nsot], m) == 0 && (forall n | 0 <= n < m :: Sub(T1[nsot], n) != 0)
                                && letree[..] == T1[nsot := SetSub(T1[nsot], m, -np[i])];
          assert m <= i;
          PutKid(T, T1, letree[..], S, ntrp, i, k, m, np[i]);
          PartNext(T, home0, home1, home, ntrp, np, i, k, pxyd[..], nbsomm);
        } else {
          PartSkip(T, home0, home, ntrp, np, i, letree[..], S);
        }
        i := i + 1;
      }
      PartAll(T, home0, home, ntrp, np, letree[..], pxyd[..], nbsomm);
    }

    /** The vertices of `te4ste_`: the middles of the three sides of leaf ntrp. */
    method Middles(ntrp: int) returns (m1: int, m2: int, m3: int, ierr: int)
      requires Valid() && ntrp in S.geo && !Inner(letree[..], S, ntrp)
      modifies `nbsomm, pxyd
      ensures ierr == 0 || ierr == 52
      ensures 1 <= ntrp <= mxtree && ntrp < letree.Length
      ensures ierr == 0 ==> 1 <= m1 <= nbsomm && 1 <= m2 <= nbsomm && 1 <= m3 <= nbsomm
      ensures ierr == 52 ==> nbsomm == mxsomm && old(nbsomm) + 3 > mxsomm
      ensures old(nbsomm) <= nbsomm && Extends(old(pxyd[..]), pxyd[..], old(nbsomm))
      ensures ierr == 0 && nbsomm == old(nbsomm) ==> forall l | 1 <= l <= 3 :: Beside(letree[..], S, ntrp, l)
      ensures ierr == 0 ==>
        Fresh(S, old(nbsomm), nbsomm, Mid(S.geo[ntrp], 1), m1) && Fresh(S, old(nbsomm), nbsomm, Mid(S.geo[ntrp], 2), m2)
        && Fresh(S, old(nbsomm), nbsomm, Mid(S.geo[ntrp], 3), m3) && m1 != m2 && m2 != m3 && m3 != m1
      ensures ierr == 0 ==> PointOf(pxyd[..], m1) == Middle(PointOf(pxyd[..], letree[ntrp].v1),
                            PointOf(pxyd[..], letree[ntrp].v2))
      ensures ierr == 0 ==> PointOf(pxyd[..], m2) == Middle(PointOf(pxyd[..], letree[ntrp].v2),
                            PointOf(pxyd[..], letree[ntrp].v3))
      ensures ierr == 0 ==> PointOf(pxyd[..], m3) == Middle(PointOf(pxyd[..], letree[ntrp].v3),
                            PointOf(pxyd[..], letree[ntrp].v1))
      ensures ierr == 0 ==> Valid()
    {
      hide Woven, Named, Numbered, Placed, FreeOk, Stocked, Extends, Mid, Middle, Beside, Child, PointOf, Fresh;
      ghost var T, P0, nb0 := letree[..], pxyd[..], nbsomm;
      NodeIndex(T, S, ntrp);
      m1, m3 := 0, 0;
      m2, ierr := MiddleVertex(ntrp, 2);
      if ierr != 0 {
        return;
      }
      ghost var P1, nb1 := pxyd[..], nbsomm;
      m3, ierr := MiddleVertex(ntrp, 3);
      ExtendsTwice(P0, P1, pxyd[..], nb0, nb1);
      if ierr != 0 {
        return;
      }
      ghost var P2, nb2 := pxyd[..], nbsomm;
      m1, ierr := MiddleVertex(ntrp, 1);
      ExtendsTwice(P0, P2, pxyd[..], nb0, nb2);
      if ierr != 0 {
        return;
      }
      MiddlesOk(T, S, P0, P1, P2, pxyd[..], nb0, nb1, nb2, nbsomm, ntrp, m1, m2, m3);
    }

    /** `te4ste_`: leaf ntrp is subdivided.  ierr == 52 without room for its vertices, 51 without
        four free columns; the state is then not usable. */
    method Te4ste(ntrp: int) returns (ierr: int)
      requires Valid() && ntrp in S.geo && !Inner(letree[..], S, ntrp)
      modifies `nbsomm, `S, `free, `home, letree, pxyd
      ensures ierr == 0 || ierr == 51 || ierr == 52
      ensures ierr == 52 ==> nbsomm == mxsomm && old(nbsomm) + 3 > mxsomm
      ensures ierr == 51 ==> |free| < 4 && free == old(free) && 3 * mxtree <= 12 + 8 * mxsomm
      ensures ierr == 0 ==> Valid() && |free| == |old(free)| - 4
      ensures ierr == 0 ==> Subdivided(old(letree[..]), old(S), letree[..], S, ntrp)
      ensures ierr == 0 ==> Moved(letree[..], old(home), home, ntrp)
      ensures nbsomm >= old(nbsomm) && Extends(old(pxyd[..]), pxyd[..], old(nbsomm))
      ensures ierr == 0 ==> NewNumbers(old(S), S, old(nbsomm), nbsomm)
      ensures ierr == 0 && nbsomm == old(nbsomm) ==> forall l | 1 <= l <= 3 :: Beside(old(letree[..]), old(S), ntrp, l)
    {
      hide Woven, Named, Numbered, Placed, FreeOk, Stocked, Extends, Mid, Middle, Beside, Child, PointOf, KidsUpTo,
        SplitT, Others, NewNumbers, Columned;
      ghost var T, P0, nb0, S0, home0, free0 := letree[..], pxyd[..], nbsomm, S, home, free;
      NodeIndex(T, S, ntrp);
      var m1, m2, m3;
      m1, m2, m3, ierr := Middles(ntrp);
      if ierr != 0 {
        return;
      }
      ghost var P := pxyd[..];
      var np;
      if |free| < 4 {
        FewColumns(letree[..], S, P, nbsomm, free, home, mxtree);
      }
      np, ierr := NewKids(ntrp);
      if ierr != 0 {
        return;
      }
      SetMiddles(ntrp, m1, m2, m3, T);
      SplitOk(T, S, letree[..], ntrp, m1, m2, m3, P, nb0, nbsomm, free, home);
      SplitContents(T, S, letree[..], P, ntrp, free, m1, m2, m3, home, nbsomm, np);
      FreeApart(T, S, free);
      RootPlace(T, S);
      ColumnedSplit(S, free, mxtree, ntrp, m1, m2, m3);
      SplitNumbers(T, S0, ntrp, free[0], free[1], free[2], free[3], m1, m2, m3, nb0, nbsomm);
      S := SplitS(S, ntrp, free[0], free[1], free[2], free[3], m1, m2, m3);
      free := free[4..];
      home := Others(home, ntrp);
      ghost var T' := letree[..];
      Redistribute(ntrp, np, home0);
      SplitDone(T, S0, T', letree[..], ntrp, free0, m1, m2, m3);
    }

    /** `teajpt_`: the new point ns, which the root holds, goes to the leaf ntrp that holds it, after as
        many subdivisions as it takes to find an empty slot. */
    method Teajpt(ns: int, ghost T0: seq<Te>, ghost S0: Shape, ghost points: set<int>)
        returns (ntrp: int, ierr: int)
      requires Valid() && ns !in home && 1 <= ns <= nbsomm && mxtree > 0 && Holds(pxyd[..], letree[1], ns)
      requires AllCrowded(T0, S0, letree[..], S, pxyd[..], points) && home.Keys + {ns} <= points
      requires forall q | q in points :: 1 <= q <= nbsomm
      modifies `nbsomm, `S, `free, `home, letree, pxyd
      ensures ierr == 0 || ierr == 51 || ierr == 52
      ensures (ierr == 51 ==> |free| < 4 && 3 * mxtree <= 12 + 8 * mxsomm) && (ierr == 52 ==> nbsomm == mxsomm)
      ensures ierr == 0 ==> Valid() && home.Keys == old(home).Keys + {ns} && home[ns] == ntrp
      ensures nbsomm >= old(nbsomm) && Extends(old(pxyd[..]), pxyd[..], old(nbsomm))
      ensures ierr == 0 ==> NewNumbers(old(S), S, old(nbsomm), nbsomm)
      ensures ierr == 0 ==> AllCrowded(T0, S0, letree[..], S, pxyd[..], points)
      ensures ierr == 0 ==> SameTriangle(letree[1], old(letree[1]))
    {
      hide TreeOk, Holds, Inner, Subdivided, Moved, NewNumbers, AllCrowded, Crowded, Columned;
      NewNone(S, nbsomm);
      RootIn(letree[..], S, pxyd[..], nbsomm, free, home);
      ntrp := 1;
      while true
        invariant Valid() && ns !in home && 1 <= ns <= nbsomm && ntrp in S.geo && 0 <= ntrp <= mxtree
          && Holds(pxyd[..], letree[ntrp], ns)
        invariant home.Keys == old(home).Keys && AllCrowded(T0, S0, letree[..], S, pxyd[..], points)
        invariant nbsomm >= old(nbsomm) && Extends(old(pxyd[..]), pxyd[..], old(nbsomm))
        invariant NewNumbers(old(S), S, old(nbsomm), nbsomm)
        invariant SameTriangle(letree[1], old(letree[1]))
        decreases |free|
      {
        ntrp := Notrpt(ns, ntrp);
        ghost var T1 := letree[..];
        var done := Put(ntrp, ns);
        if done {
          LeafNow(T1, S, ntrp);
          LeafPut(T1, letree[..], S, ntrp);
          CrowdedPut(T0, S0, T1, S, pxyd[..], points, letree[..], ntrp);
          return ntrp, 0;
        }
        ghost var P, T, S1, nb1 := pxyd[..], letree[..], S, nbsomm;
        RootIn(letree[..], S, pxyd[..], nbsomm, free, home);
        HoldsLater(letree[..], S, pxyd[..], nbsomm, free, home, ntrp, ns);
        LeafNow(T, S1, ntrp);
        CrowdedNow(T, S1, P, nb1, free, home, ntrp, ns);
        CrowdedMore(P, T[ntrp], home.Keys + {ns}, points);
        ghost var free1, home1 := free, home;
        ierr := Te4ste(ntrp);
        if ierr != 0 {
          return;
        }
        CrowdedNext(T0, S0, T, S1, P, nb1, free1, home1, letree[..], S, pxyd[..], ntrp, points);
        NewTwice(old(S), S1, S, old(nbsomm), nb1, nbsomm);
        MovedKeys(letree[..], home, ntrp);
        SubdividedAt(T, letree[..], S, P, pxyd[..], ntrp, ns);
        SubdividedRoot(T, letree[..], S, ntrp);
      }
    }
  }

  /** The sub-triangles of j are leaves whose slots are empty from number i on. */
  ghost predicate KidsEmpty(T: seq<Te>, S: Shape, j: int, i: int) {
    1 <= j < |T| && forall k | 0 <= k <= 3 ::
      && Sub(T[j], k) in S.geo && 1 < Sub(T[j], k) < |T| && Sub(T[j], k) != j && T[Sub(T[j], k)].s0 <= 0
      && forall m | i <= m <= 3 && 0 <= m :: Sub(T[Sub(T[j], k)], m) == 0
  }

  /** Only the slots of the sub-triangles of j differ. */
  ghost predicate OnlyKids(T: seq<Te>, T': seq<Te>, j: int) {
    && |T'| == |T| && 1 <= j < |T| && T'[j] == T[j]
    && forall n {:trigger T'[n]} | 0 <= n < |T| ::
      T'[n] == T[n].(s0 := T'[n].s0, s1 := T'[n].s1, s2 := T'[n].s2, s3 := T'[n].s3)
         && (n != T[j].s0 && n != T[j].s1 && n != T[j].s2 && n != T[j].s3 ==> T'[n] == T[n])
  }

  /** np lists the points that were at home in j, and each of them once. */
  ghost predicate Contents(P: seq<Point>, t: Te, home0: map<int, int>, j: int, np: seq<int>, nb: int) {
    && |np| == 4
    && (forall i | 0 <= i < 4 && np[i] > 0 :: np[i] in home0 && home0[np[i]] == j && np[i] <= nb && Holds(P, t, np[i]))
    && (forall i, k | 0 <= i < k < 4 && np[i] > 0 :: np[i] != np[k])
    && (forall q | q in home0 && home0[q] == j :: q > 0 && q in np)
  }

  /** The first i of np are at home in sub-triangles of j. */
  ghost predicate PartHome(T: seq<Te>, home0: map<int, int>, home: map<int, int>, j: int, np: seq<int>, i: int) {
    && |np| == 4 && 0 <= i <= 4 && 1 <= j < |T|
    && (forall q | q in home :: q in home0 && if home0[q] != j then home[q] == home0[q]
          else (exists k :: 0 <= k <= 3 && home[q] == Sub(T[j], k)) && q in np[..i])
    && (forall q | q in home0 && home0[q] != j :: q in home)
    && (forall k | 0 <= k < i && np[k] > 0 :: np[k] in home)
  }

  lemma ContentAt(P: seq<Point>, t: Te, home0: map<int, int>, j: int, np: seq<int>, nb: int, i: int)
    requires Contents(P, t, home0, j, np, nb) && 0 <= i < 4 && np[i] > 0
    ensures np[i] in home0 && home0[np[i]] == j && 1 <= np[i] <= nb && Holds(P, t, np[i])
  {
  }

  lemma PartNew(T: seq<Te>, home0: map<int, int>, home: map<int, int>, j: int, np: seq<int>, i: int, P: seq<Point>,
      nb: int)
    requires 1 <= j < |T| && Contents(P, T[j], home0, j, np, nb) && PartHome(T, home0, home, j, np, i) && i < 4
      && np[i] > 0
    ensures np[i] !in home
  {
    hide Holds;
  }

  lemma KidsAreLeaves(T: seq<Te>, S: Shape, j: int, i: int)
    requires KidsEmpty(T, S, j, i)
    ensures forall k | 0 <= k <= 3 :: !Inner(T, S, Sub(T[j], k))
  {
  }

  lemma KidAt(T: seq<Te>, S: Shape, j: int, i: int, k: int)
    requires KidsEmpty(T, S, j, i) && 0 <= k <= 3
    ensures Sub(T[j], k) in S.geo && 1 < Sub(T[j], k) < |T| && Sub(T[j], k) != j && T[Sub(T[j], k)].s0 <= 0
    ensures 0 <= i <= 3 ==> Sub(T[Sub(T[j], k)], i) == 0
  {
  }

  lemma PutKid(T: seq<Te>, T1: seq<Te>, T2: seq<Te>, S: Shape, j: int, i: int, k: int, m: int, q: int)
    requires KidsEmpty(T1, S, j, i) && OnlyKids(T, T1, j) && 0 <= k <= 3 && 0 <= m <= i <= 3 && q > 0
    requires T2 == T1[Sub(T1[j], k) := SetSub(T1[Sub(T1[j], k)], m, -q)]
    ensures KidsEmpty(T2, S, j, i + 1) && OnlyKids(T, T2, j) && T2[j] == T[j]
  {
    var c := Sub(T1[j], k);
    KidAt(T1, S, j, i, k);
    forall h | 0 <= h <= 3
      ensures Sub(T2[j], h) in S.geo && 1 < Sub(T2[j], h) < |T2| && Sub(T2[j], h) != j && T2[Sub(T2[j], h)].s0 <= 0
      ensures forall n | i + 1 <= n <= 3 && 0 <= n :: Sub(T2[Sub(T2[j], h)], n) == 0
    {
      KidAt(T1, S, j, i, h);
      assert forall n | i + 1 <= n <= 3 && 0 <= n :: Sub(T1[Sub(T1[j], h)], n) == 0;
      SubSet(T1[c], m, -q);
    }
  }

  lemma SubSet(t: Te, m: int, x: int)
    requires 0 <= m <= 3
    ensures forall n | 0 <= n <= 3 :: Sub(SetSub(t, m, x), n) == if n == m then x else Sub(t, n)
  {
  }

  lemma PartNext(T: seq<Te>, home0: map<int, int>, home: map<int, int>, home': map<int, int>, j: int, np: seq<int>,
      i: int, k: int, P: seq<Point>, nb: int)
    requires PartHome(T, home0, home, j, np, i) && i < 4 && np[i] > 0 && 0 <= k <= 3
      && Contents(P, T[j], home0, j, np, nb)
    requires home' == home[np[i] := Sub(T[j], k)]
    ensures PartHome(T, home0, home', j, np, i + 1)
  {
    hide Holds;
    assert np[..i + 1] == np[..i] + [np[i]];
  }

  lemma PartSkip(T: seq<Te>, home0: map<int, int>, home: map<int, int>, j: int, np: seq<int>, i: int, T1: seq<Te>,
      S: Shape)
    requires PartHome(T, home0, home, j, np, i) && 0 <= i < 4 && np[i] <= 0 && KidsEmpty(T1, S, j, i)
    ensures PartHome(T, home0, home, j, np, i + 1) && KidsEmpty(T1, S, j, i + 1)
  {
    assert np[..i + 1] == np[..i] + [np[i]];
  }

  lemma PartAll(T: seq<Te>, home0: map<int, int>, home: map<int, int>, j: int, np: seq<int>, T1: seq<Te>, P: seq<Point>,
      nb: int)
    requires PartHome(T, home0, home, j, np, 4) && 1 <= j < |T| && Contents(P, T[j], home0, j, np, nb)
      && OnlyKids(T, T1, j)
    ensures Moved(T1, home0, home, j)
  {
    hide Holds;
    forall q | q in home0 ensures q in home {
      if home0[q] == j {
        var k :| 0 <= k < |np| && np[k] == q;
      }
    }
    assert forall q :: q in home <==> q in home0;
    assert home.Keys == home0.Keys;
    forall q | q in home0 ensures if home0[q] != j then home[q] == home0[q]
      else exists k :: 0 <= k <= 3 && home[q] == Sub(T1[j], k) {
      assert q in home;
    }
  }

  /** From (T, S) to (T', S'): leaf j has got four new leaves as sub-triangles, every other triangle
      is unchanged, and lattice points keep their numbers. */
  ghost predicate Subdivided(T: seq<Te>, S: Shape, T': seq<Te>, S': Shape, j: int) {
    && |T'| == |T| && 1 <= j < |T| && Inner(T', S', j)
    && T'[j] == T[j].(s0 := T'[j].s0, s1 := T'[j].s1, s2 := T'[j].s2, s3 := T'[j].s3)
    && S'.geo.Keys == S.geo.Keys + {T'[j].s0, T'[j].s1, T'[j].s2, T'[j].s3}
    && (forall k | 0 <= k <= 3 :: Sub(T'[j], k) !in S.geo && Sub(T'[j], k) in S'.geo && !Inner(T', S', Sub(T'[j], k)))
    && (forall i | i in S.geo :: S'.geo[i] == S.geo[i] && (i != j && 0 <= i < |T| ==> T'[i] == T[i]))
    && (forall p | p in S.num :: p in S'.num && S'.num[p] == S.num[p])
  }

  lemma MiddlesOk(T: seq<Te>, S: Shape, P0: seq<Point>, P1: seq<Point>, P2: seq<Point>, P: seq<Point>, nb0: int,
      nb1: int, nb2: int, nb: int,
                  j: int, m1: int, m2: int, m3: int)
    requires Woven(T, S) && Named(T, S) && Numbered(T, S, nb0) && j in S.geo && 1 <= j < |T| && 0 <= nb0 < |P0|
    requires Extends(P0, P1, nb0) && Extends(P1, P2, nb1) && Extends(P2, P, nb2) && nb < |P|
    requires Beside(T, S, j, 2) ==> nb1 == nb0 && Mid(S.geo[j], 2) in S.num && m2 == S.num[Mid(S.geo[j], 2)]
    requires !Beside(T, S, j, 2) ==> nb1 == nb0 + 1 && m2 == nb1 && Mid(S.geo[j], 2) !in S.num
    requires Beside(T, S, j, 3) ==> nb2 == nb1 && Mid(S.geo[j], 3) in S.num && m3 == S.num[Mid(S.geo[j], 3)]
    requires !Beside(T, S, j, 3) ==> nb2 == nb1 + 1 && m3 == nb2 && Mid(S.geo[j], 3) !in S.num
    requires Beside(T, S, j, 1) ==> nb == nb2 && Mid(S.geo[j], 1) in S.num && m1 == S.num[Mid(S.geo[j], 1)]
    requires !Beside(T, S, j, 1) ==> nb == nb2 + 1 && m1 == nb && Mid(S.geo[j], 1) !in S.num
    requires PointOf(P1, m2) == Middle(PointOf(P1, T[j].v2), PointOf(P1, T[j].v3))
    requires PointOf(P2, m3) == Middle(PointOf(P2, T[j].v3), PointOf(P2, T[j].v1))
    requires PointOf(P, m1) == Middle(PointOf(P, T[j].v1), PointOf(P, T[j].v2))
    ensures nb0 <= nb && Extends(P0, P, nb0)
    ensures nb == nb0 ==> Beside(T, S, j, 1) && Beside(T, S, j, 2) && Beside(T, S, j, 3)
    ensures Fresh(S, nb0, nb, Mid(S.geo[j], 1), m1) && Fresh(S, nb0, nb, Mid(S.geo[j], 2), m2)
      && Fresh(S, nb0, nb, Mid(S.geo[j], 3), m3)
    ensures m1 != m2 && m2 != m3 && m3 != m1
    ensures PointOf(P, m2) == Middle(PointOf(P, T[j].v2), PointOf(P, T[j].v3))
    ensures PointOf(P, m3) == Middle(PointOf(P, T[j].v3), PointOf(P, T[j].v1))
  {
    hide Woven, Beside, Middle, Named;
    NodeAt(T, S, j);
    MidsDiffer(S.geo[j]);
    SameCorners(T, S, P0, P1, nb0, j);
    hide Mid;
    assert Mid(S.geo[j], 1) in S.num ==> PtOk(T, S, nb0, Mid(S.geo[j], 1));
    assert Mid(S.geo[j], 2) in S.num ==> PtOk(T, S, nb0, Mid(S.geo[j], 2));
    assert Mid(S.geo[j], 3) in S.num ==> PtOk(T, S, nb0, Mid(S.geo[j], 3));
  }

  lemma MidsDiffer(g: Geo)
    requires true
    ensures g.s == 1 || g.s == -1 ==> Mid(g, 1) != Mid(g, 2) && Mid(g, 2) != Mid(g, 3) && Mid(g, 3) != Mid(g, 1)
  {
  }

  lemma FreeApart(T: seq<Te>, S: Shape, free: seq<int>)
    requires FreeOk(T, S, free)
    ensures Unique(free) && (|free| >= 4 ==> Outside(S, free[0], free[1], free[2], free[3]))
  {
  }

  lemma SplitContents(T: seq<Te>, S: Shape, T': seq<Te>, P: seq<Point>, j: int, free: seq<int>, m1: int, m2: int,
      m3: int, home: map<int, int>, nb: int, np: seq<int>)
    requires Woven(T, S) && Stocked(T, S, P, nb, home) && FreeOk(T, S, free) && j in S.geo && |free| >= 4
    requires SplitT(T, T', j, free[0], free[1], free[2], free[3], m1, m2, m3)
    requires np == [-T[j].s0, -T[j].s1, -T[j].s2, -T[j].s3]
    ensures Contents(P, T'[j], home, j, np, nb)
    ensures KidsEmpty(T', SplitS(S, j, free[0], free[1], free[2], free[3], m1, m2, m3), j, 0)
    ensures Inner(T', SplitS(S, j, free[0], free[1], free[2], free[3], m1, m2, m3), j)
  {
    assert free[0] !in S.geo && free[1] !in S.geo && free[2] !in S.geo && free[3] !in S.geo by {
      hide Woven, Stocked, SplitT;
    }
    hide Woven, Holds, Child, Mid, FreeOk;
    assert LeafOk(T, P, home, j);
    HoldsSame(P, T[j], T'[j]);
    forall i | 0 <= i < 4 && np[i] > 0 ensures np[i] in home && home[np[i]] == j && np[i] <= nb
      && Holds(P, T'[j], np[i]) {
      assert np[i] == -Sub(T[j], i);
      assert HomeOk(T, S, home, nb, np[i]);
    }
    forall q | q in home && home[q] == j ensures q > 0 && q in np {
      assert HomeOk(T, S, home, nb, q);
      assert q == np[0] || q == np[1] || q == np[2] || q == np[3];
    }
    KidsOf(T, S, T', j, free[0], free[1], free[2], free[3], m1, m2, m3);
  }

  lemma KidsOf(T: seq<Te>, S: Shape, T': seq<Te>, j: int, c0: int, c1: int, c2: int, c3: int, m1: int, m2: int, m3: int)
    requires Woven(T, S) && j in S.geo && SplitT(T, T', j, c0, c1, c2, c3, m1, m2, m3)
    requires c0 !in S.geo && c1 !in S.geo && c2 !in S.geo && c3 !in S.geo
    ensures KidsEmpty(T', SplitS(S, j, c0, c1, c2, c3, m1, m2, m3), j, 0)
    ensures Inner(T', SplitS(S, j, c0, c1, c2, c3, m1, m2, m3), j)
  {
    hide Child, Mid;
    forall k | 0 <= k <= 3
      ensures Sub(T'[j], k) in [c0, c1, c2, c3]
      ensures T'[Sub(T'[j], k)] == Kid(T[j], j, k, m1, m2, m3)
    {
    }
    assert 1 in S.geo;
  }

  lemma HoldsSame(P: seq<Point>, t: Te, t': Te)
    requires t'.v1 == t.v1 && t'.v2 == t.v2 && t'.v3 == t.v3
    ensures forall q :: Holds(P, t', q) <==> Holds(P, t, q)
  {
  }

  lemma SplitDone(T: seq<Te>, S: Shape, T': seq<Te>, T'': seq<Te>, j: int, free: seq<int>, m1: int, m2: int, m3: int)
    requires Woven(T, S) && FreeOk(T, S, free) && |free| >= 4 && j in S.geo
    requires SplitT(T, T', j, free[0], free[1], free[2], free[3], m1, m2, m3)
    requires OnlyKids(T', T'', j) && KidsEmpty(T'', SplitS(S, j, free[0], free[1], free[2], free[3], m1, m2, m3), j, 4)
    requires Mid(S.geo[j], 1) in S.num ==> m1 == S.num[Mid(S.geo[j], 1)]
    requires Mid(S.geo[j], 2) in S.num ==> m2 == S.num[Mid(S.geo[j], 2)]
    requires Mid(S.geo[j], 3) in S.num ==> m3 == S.num[Mid(S.geo[j], 3)]
    ensures Subdivided(T, S, T'', SplitS(S, j, free[0], free[1], free[2], free[3], m1, m2, m3), j)
  {
    hide Woven, Child, Mid;
    assert free[0] !in S.geo && free[1] !in S.geo && free[2] !in S.geo && free[3] !in S.geo;
    hide FreeOk;
    var S' := SplitS(S, j, free[0], free[1], free[2], free[3], m1, m2, m3);
    assert T''[j] == T'[j];
    forall i | i in S.geo ensures S'.geo[i] == S.geo[i] && (i != j && 0 <= i < |T| ==> T''[i] == T[i]) {
      NodeIndex(T, S, i);
    }
    forall k | 0 <= k <= 3 ensures Sub(T''[j], k) !in S.geo && Sub(T''[j], k) in S'.geo
      && !Inner(T'', S', Sub(T''[j], k)) {
      KidAt(T'', S', j, 4, k);
    }
  }

  lemma RootIn(T: seq<Te>, S: Shape, P: seq<Point>, nb: int, free: seq<int>, home: map<int, int>)
    requires TreeOk(T, S, P, nb, free, home)
    ensures 1 in S.geo
  {
  }

  lemma HoldsLater(T: seq<Te>, S: Shape, P: seq<Point>, nb: int, free: seq<int>, home: map<int, int>, j: int, q: int)
    requires TreeOk(T, S, P, nb, free, home) && j in S.geo && 1 <= j < |T| && 1 <= q <= nb && Holds(P, T[j], q)
    ensures forall P' | Extends(P, P', nb) :: Holds(P', T[j], q)
  {
    hide Woven, Named, Numbered, Area;
    forall P' | Extends(P, P', nb) ensures Holds(P', T[j], q) {
      SameCorners(T, S, P, P', nb, j);
    }
  }

  predicate SameTriangle(t: Te, t': Te) {
    t.v1 == t'.v1 && t.v2 == t'.v2 && t.v3 == t'.v3
  }

  lemma SubdividedRoot(T: seq<Te>, T': seq<Te>, S': Shape, j: int)
    requires |T| > 1 && |T'| > 1
    ensures forall S: Shape | Subdivided(T, S, T', S', j) && 1 in S.geo :: SameTriangle(T'[1], T[1])
  {
  }

  lemma MovedKeys(T: seq<Te>, home: map<int, int>, j: int)
    ensures forall home0: map<int, int> | Moved(T, home0, home, j) :: home.Keys == home0.Keys
  {
  }

  lemma SubdividedAt(T: seq<Te>, T': seq<Te>, S': Shape, P: seq<Point>, P': seq<Point>, j: int, q: int)
    ensures forall S: Shape | Subdivided(T, S, T', S', j) ::
      1 <= j < |T| && j in S'.geo && (Holds(P', T[j], q) ==> Holds(P', T'[j], q))
  {
  }

  lemma InnerSplit(T: seq<Te>, S: Shape, T': seq<Te>, S': Shape, n: int, j: int)
    requires Woven(T, S) && Subdivided(T, S, T', S', n) && Inner(T', S', j) && n in S.geo
    ensures j == n || Inner(T, S, j)
    ensures 1 <= j < |T| && SameTriangle(T'[j], T[j])
  {
    NewLeaves(T, S, T', S', n);
    hide Woven;
    NodeIndex(T, S, j);
  }

  lemma NewLeaves(T: seq<Te>, S: Shape, T': seq<Te>, S': Shape, n: int)
    requires Subdivided(T, S, T', S', n)
    ensures forall i | Inner(T', S', i) :: i in S.geo
  {
    assert !Inner(T', S', Sub(T'[n], 0)) && !Inner(T', S', Sub(T'[n], 1)) && !Inner(T', S', Sub(T'[n], 2))
      && !Inner(T', S', Sub(T'[n], 3));
  }

  // ---------------------------------------------------------------- why points subdivide

  /** t holds five of the points. */
  ghost predicate Crowded(P: seq<Point>, t: Te, points: set<int>) {
    exists l: seq<int> :: Five(P, t, points, l)
  }

  ghost predicate Five(P: seq<Point>, t: Te, points: set<int>, l: seq<int>) {
    |l| == 5 && Unique(l) && forall k | 0 <= k < 5 :: l[k] in points && Holds(P, t, l[k])
  }

  /** What has been subdivided since (T0, S0) holds five of the points. */
  ghost predicate AllCrowded(T0: seq<Te>, S0: Shape, T: seq<Te>, S: Shape, P: seq<Point>, points: set<int>) {
    forall j | Inner(T, S, j) :: Inner(T0, S0, j) || Crowded(P, T[j], points)
  }

  lemma CrowdedNone(T: seq<Te>, S: Shape, P: seq<Point>, points: set<int>)
    ensures AllCrowded(T, S, T, S, P, points)
  {
  }

  /** A leaf with four points that holds a fifth. */
  lemma CrowdedNow(T: seq<Te>, S: Shape, P: seq<Point>, nb: int, free: seq<int>, home: map<int, int>, j: int, q: int)
    requires TreeOk(T, S, P, nb, free, home) && j in S.geo && 1 <= j < |T| && T[j].s0 <= 0
    requires q !in home && Holds(P, T[j], q) && forall k | 0 <= k <= 3 :: Sub(T[j], k) != 0
    ensures Crowded(P, T[j], home.Keys + {q})
  {
    hide Woven, Named, Numbered, Placed, FreeOk, Holds;
    assert LeafOk(T, P, home, j);
    var t := T[j];
    var l := [-t.s0, -t.s1, -t.s2, -t.s3, q];
    assert Sub(t, 0) == t.s0 && Sub(t, 1) == t.s1 && Sub(t, 2) == t.s2 && Sub(t, 3) == t.s3;
    hide Stocked, LeafOk;
    assert Five(P, t, home.Keys + {q}, l);
  }

  lemma CrowdedStill(T: seq<Te>, S: Shape, P: seq<Point>, nb: int, P': seq<Point>, t': Te, j: int, points: set<int>)
    requires Woven(T, S) && Named(T, S) && Numbered(T, S, nb) && Extends(P, P', nb) && j in S.geo && 1 <= j < |T|
    requires SameTriangle(t', T[j]) && Crowded(P, T[j], points) && forall q | q in points :: 1 <= q <= nb
    ensures Crowded(P', t', points)
  {
    SameCorners(T, S, P, P', nb, j);
    hide Woven, Named, Numbered, Unique;
    var l :| Five(P, T[j], points, l);
    forall k | 0 <= k < 5 ensures Holds(P', t', l[k]) {
      assert Holds(P, T[j], l[k]) && PointOf(P', l[k]) == PointOf(P, l[k]);
      hide Area, PointOf;
    }
    hide Holds;
    assert Five(P', t', points, l);
  }

  lemma CrowdedNext(T0: seq<Te>, S0: Shape, T: seq<Te>, S: Shape, P: seq<Point>, nb: int, free: seq<int>,
      home: map<int, int>, T': seq<Te>, S': Shape, P': seq<Point>, n: int, points: set<int>)
    requires TreeOk(T, S, P, nb, free, home) && AllCrowded(T0, S0, T, S, P, points) && Subdivided(T, S, T', S', n)
    requires n in S.geo && 1 <= n < |T| && Extends(P, P', nb) && Crowded(P, T[n], points)
    requires forall q | q in points :: 1 <= q <= nb
    ensures AllCrowded(T0, S0, T', S', P', points)
  {
    hide Woven, Named, Numbered, Placed, FreeOk, Stocked, Crowded, Extends;
    forall j | Inner(T', S', j) && !Inner(T0, S0, j) ensures Crowded(P', T'[j], points) {
      InnerSplit(T, S, T', S', n, j);
      CrowdedStill(T, S, P, nb, P', T'[j], j, points);
    }
  }

  lemma LeafPut(T: seq<Te>, T': seq<Te>, S: Shape, j: int)
    requires 0 <= j < |T| && |T'| == |T|
    requires T' == T[j := T'[j]] && T'[j].s0 <= 0
    ensures !Inner(T', S, j) && forall i | 0 <= i < |T| && i != j :: T'[i] == T[i]
  {
  }

  lemma LeafNow(T: seq<Te>, S: Shape, j: int)
    requires !Inner(T, S, j) && j in S.geo && 1 <= j < |T|
    ensures T[j].s0 <= 0
  {
  }

  lemma CrowdedPut(T0: seq<Te>, S0: Shape, T: seq<Te>, S: Shape, P: seq<Point>, points: set<int>, T': seq<Te>, j: int)
    requires AllCrowded(T0, S0, T, S, P, points) && |T'| == |T| && 0 <= j < |T| && !Inner(T', S, j)
    requires forall i | 0 <= i < |T| && i != j :: T'[i] == T[i]
    ensures AllCrowded(T0, S0, T', S, P, points)
  {
    hide Crowded;
  }

  lemma CrowdedMore(P: seq<Point>, t: Te, points: set<int>, more: set<int>)
    requires Crowded(P, t, points) && points <= more
    ensures Crowded(P, t, more)
  {
    hide Holds, Unique;
    var l :| Five(P, t, points, l);
    assert Five(P, t, more, l);
  }

  /** The root alone, with the corners nb + 1, nb + 2, nb + 3. */
  ghost function FirstShape(nb: int): (r: Shape) {
    Shape(map[1 := Root()], map[Root() := 1],
          map[Corner(Root(), 1) := nb + 1, Corner(Root(), 2) := nb + 2, Corner(Root(), 3) := nb + 3],
          map[nb + 1 := Corner(Root(), 1), nb + 2 := Corner(Root(), 2), nb + 3 := Corner(Root(), 3)], map[])
  }

  lemma FirstOk(T: seq<Te>, P: seq<Point>, mx: nat, nb: nat)
    requires |T| == mx + 1 && mx >= 2 && T[0].s0 == 2 && T[1] == Te(0, 0, 0, 0, 0, 0, nb + 1, nb + 2, nb + 3)
    requires forall j | 2 <= j <= mx :: T[j].s0 == if j < mx then j + 1 else 0
    requires AreaOf(P, (nb + 1, nb + 2, nb + 3)) > 0.0
    ensures TreeOk(T, FirstShape(nb), P, nb + 3, seq(mx - 1, k => k + 2), map[])
  {
    hide Area;
    RootCorners();
    FirstFree(T, FirstShape(nb), mx);
  }

  lemma FirstColumned(mx: nat, nb: nat)
    requires mx >= 2
    ensures Columned(FirstShape(nb), seq(mx - 1, k => k + 2), mx)
  {
    hide Corner, Child;
    assert FirstShape(nb).geo == map[1 := Root()];
  }

  lemma RootCorners()
    ensures InRoot(Root())
    ensures Corner(Root(), 1) == Pt(0, 0, 0) && Corner(Root(), 2) == Pt(0, 1, 0) && Corner(Root(), 3) == Pt(0, 0, 1)
  {
  }

  lemma FirstFree(T: seq<Te>, S: Shape, mx: nat)
    requires |T| == mx + 1 && mx >= 2 && T[0].s0 == 2 && S.geo.Keys == {1}
    requires forall j | 2 <= j <= mx :: T[j].s0 == if j < mx then j + 1 else 0
    ensures FreeOk(T, S, seq(mx - 1, k => k + 2))
  {
  }

  function SetSom(t: Te, k: int, x: int): (r: Te) {
    if k == 1 then t.(v1 := x) else if k == 2 then t.(v2 := x) else t.(v3 := x)
  }

  lemma NextKid(T: seq<Te>, S: Shape, free: seq<int>, T1: seq<Te>, T2: seq<Te>, j: int, i: int)
    requires FreeOk(T, S, free) && KidsUpTo(T, T1, free, j, i) && 0 <= i < 4 && i < |free| && j in S.geo
    requires |T2| == |T1| && T2[0].s0 == At(free, i + 1)
    requires 1 <= free[i] < |T| && KidHead(T[j], T2[free[i]], j, i)
    requires T2[j] == SetSub(T1[j], i, free[i])
    requires forall n | 1 <= n < |T1| && n != j && n != free[i] :: T2[n] == T1[n]
    ensures KidsUpTo(T, T2, free, j, i + 1)
  {
    forall k | 0 <= k < i ensures 1 <= free[k] < |T| && KidHead(T[j], T2[free[k]], j, k) && free[k] != free[i] {
      assert KidHead(T[j], T1[free[k]], j, k);
    }
    forall n | 1 <= n < |T| && n != j && (forall k | 0 <= k < i + 1 :: free[k] != n) ensures T2[n] == T[n] {
      assert free[i] != n;
    }
  }

  lemma KidsApart(T: seq<Te>, S: Shape, free: seq<int>, T': seq<Te>, j: int)
    requires FreeOk(T, S, free) && KidsUpTo(T, T', free, j, 4) && j in S.geo
    ensures |free| >= 4 && 1 <= j < |T'| && |T'| == |T|
    ensures 1 <= free[0] < |T'| && 1 <= free[1] < |T'| && 1 <= free[2] < |T'| && 1 <= free[3] < |T'|
    ensures free[0] != j && free[1] != j && free[2] != j && free[3] != j
    ensures free[0] != free[1] && free[0] != free[2] && free[0] != free[3] && free[1] != free[2] && free[1] != free[3]
      && free[2] != free[3]
    ensures T'[j].s0 == free[0] && T'[j].s1 == free[1] && T'[j].s2 == free[2] && T'[j].s3 == free[3]
  {
  }

  /** The shared middle is where it should be. */
  lemma SharedPlace(T: seq<Te>, S: Shape, P: seq<Point>, nb: int, j: int, l: int)
    requires Woven(T, S) && Named(T, S) && Numbered(T, S, nb) && Placed(T, S, P) && 1 <= l <= 3 && Beside(T, S, j, l)
    ensures var n := S.at[Mirror(S.geo[j], l)];
            && 1 <= n < |T| && 1 <= j < |T| && 1 <= T[n].s0 < |T| && 1 <= Som(T[T[n].s0], Pre(l)) <= nb
            && PointOf(P, Som(T[T[n].s0], Pre(l))) == Middle(PointOf(P, Som(T[j], l)), PointOf(P, Som(T[j], Suiv(l))))
  {
    hide Woven, Corner, Mirror, AreaOf, PointOf;
    var n := S.at[Mirror(S.geo[j], l)];
    NodeAt(T, S, j);
    NodeIndex(T, S, j);
    AtAt(T, S, Mirror(S.geo[j], l));
    NodeIndex(T, S, n);
    MirrorCorners(S.geo[j], l);
    assert CornersNamed(T, S, j) && CornersNamed(T, S, n);
    ChildOf(T, S, n, 0);
    SameCorners(T, S, P, P, nb, T[n].s0);
    PlacedAt(T, S, P, n);
  }
}
