/** Subdividing a leaf of the tree, on values: where the four new triangles go, which vertices they
    share with the rest of the tree, and what the tree keeps. */
module Splitting {
  import opened Geometry
  import opened Delaunay
  import opened Lattice
  import opened Tree

  /** The corners of triangle j carry the numbers of their lattice points. */
  ghost predicate CornersNamed(T: seq<Te>, S: Shape, j: int) {
    && j in S.geo && 0 <= j < |T|
    && Corner(S.geo[j], 1) in S.num && S.num[Corner(S.geo[j], 1)] == T[j].v1
    && Corner(S.geo[j], 2) in S.num && S.num[Corner(S.geo[j], 2)] == T[j].v2
    && Corner(S.geo[j], 3) in S.num && S.num[Corner(S.geo[j], 3)] == T[j].v3
  }

  ghost predicate Named(T: seq<Te>, S: Shape) {
    forall j | j in S.geo :: CornersNamed(T, S, j)
  }

  predicate MidOf(g: Geo, p: Pt) {
    p == Mid(g, 1) || p == Mid(g, 2) || p == Mid(g, 3)
  }

  /** Point p has a number of its own, and is a corner of the root or a middle of a side of a
      subdivided triangle. */
  ghost predicate PtOk(T: seq<Te>, S: Shape, nb: int, p: Pt) {
    && p in S.num && 1 <= S.num[p] <= nb && S.num[p] in S.pt && S.pt[S.num[p]] == p
    && (p.level == 0 || (p in S.src && Inner(T, S, S.src[p]) && MidOf(S.geo[S.src[p]], p)))
  }

  ghost predicate Numbered(T: seq<Te>, S: Shape, nb: int) {
    forall p | p in S.num :: PtOk(T, S, nb, p)
  }

  function Middle(p: Point, q: Point): (r: Point) {
    Point((p.x + q.x) * 0.5, (p.y + q.y) * 0.5)
  }

  /** The middle sub-triangle of j has its corners in the middle of the sides of j. */
  ghost predicate HalvedAt(T: seq<Te>, S: Shape, P: seq<Point>, j: int) {
    Inner(T, S, j) && T[j].s0 < |T| ==>
      && PointOf(P, T[T[j].s0].v1) == Middle(PointOf(P, T[j].v2), PointOf(P, T[j].v3))
      && PointOf(P, T[T[j].s0].v2) == Middle(PointOf(P, T[j].v3), PointOf(P, T[j].v1))
      && PointOf(P, T[T[j].s0].v3) == Middle(PointOf(P, T[j].v1), PointOf(P, T[j].v2))
  }

  ghost predicate Placed(T: seq<Te>, S: Shape, P: seq<Point>) {
    forall j | j in S.geo && 0 <= j < |T| :: HalvedAt(T, S, P, j) && AreaOf(P, (T[j].v1, T[j].v2, T[j].v3)) > 0.0
  }

  /** The middle sub-triangle and the three corner ones, for middles m1, m2, m3 of sides 1, 2, 3. */
  function Kid(t: Te, j: int, k: int, m1: int, m2: int, m3: int): (r: Te) {
    if k == 0 then Te(0, 0, 0, 0, j, 0, m2, m3, m1)
    else if k == 1 then Te(0, 0, 0, 0, j, 1, t.v1, m1, m3)
    else if k == 2 then Te(0, 0, 0, 0, j, 2, m1, t.v2, m2)
    else Te(0, 0, 0, 0, j, 3, m3, m2, t.v3)
  }

  /** T' has leaf j of T subdivided into the columns c0..c3. */
  ghost predicate SplitT(T: seq<Te>, T': seq<Te>, j: int, c0: int, c1: int, c2: int, c3: int, m1: int, m2: int,
      m3: int) {
    && |T'| == |T| && 0 < j < |T| && T[j].s0 <= 0
    && 0 < c0 < |T| && 0 < c1 < |T| && 0 < c2 < |T| && 0 < c3 < |T|
    && c0 != c1 && c0 != c2 && c0 != c3 && c1 != c2 && c1 != c3 && c2 != c3
    && c0 != j && c1 != j && c2 != j && c3 != j
    && T'[j] == T[j].(s0 := c0, s1 := c1, s2 := c2, s3 := c3)
    && T'[c0] == Kid(T[j], j, 0, m1, m2, m3) && T'[c1] == Kid(T[j], j, 1, m1, m2, m3)
    && T'[c2] == Kid(T[j], j, 2, m1, m2, m3) && T'[c3] == Kid(T[j], j, 3, m1, m2, m3)
    && forall i | 1 <= i < |T| && i != j && i != c0 && i != c1 && i != c2 && i != c3 :: T'[i] == T[i]
  }

  ghost function SplitS(S: Shape, j: int, c0: int, c1: int, c2: int, c3: int, m1: int, m2: int, m3: int): (r: Shape)
    requires j in S.geo
  {
    var g := S.geo[j];
    Shape(S.geo[c0 := Child(g, 0)][c1 := Child(g, 1)][c2 := Child(g, 2)][c3 := Child(g, 3)],
          S.at[Child(g, 0) := c0][Child(g, 1) := c1][Child(g, 2) := c2][Child(g, 3) := c3],
          S.num[Mid(g, 1) := m1][Mid(g, 2) := m2][Mid(g, 3) := m3],
          S.pt[m1 := Mid(g, 1)][m2 := Mid(g, 2)][m3 := Mid(g, 3)],
          S.src[Mid(g, 1) := j][Mid(g, 2) := j][Mid(g, 3) := j])
  }

  ghost predicate Outside(S: Shape, c0: int, c1: int, c2: int, c3: int) {
    c0 !in S.geo && c1 !in S.geo && c2 !in S.geo && c3 !in S.geo
  }

  /** The place of a sub-triangle of a leaf is not taken. */
  lemma ChildFree(T: seq<Te>, S: Shape, j: int, k: int)
    requires Woven(T, S) && j in S.geo && !Inner(T, S, j) && 0 <= k <= 3
    ensures Child(S.geo[j], k) !in S.at
  {
    hide Woven;
    NodeAt(T, S, j);
    RootLevel(T, S);
    if Child(S.geo[j], k) in S.at {
      AtAt(T, S, Child(S.geo[j], k));
      var m := S.at[Child(S.geo[j], k)];
      ParentOf(T, S, m);
      NodeAt(T, S, T[m].sur);
      ChildSame(S.geo[T[m].sur], T[m].kind, S.geo[j], k);
    }
  }

  lemma SplitWoven(T: seq<Te>, S: Shape, T': seq<Te>, j: int, c0: int, c1: int, c2: int, c3: int, m1: int, m2: int,
      m3: int)
    requires Woven(T, S) && j in S.geo && SplitT(T, T', j, c0, c1, c2, c3, m1, m2, m3) && Outside(S, c0, c1, c2, c3)
    ensures Woven(T', SplitS(S, j, c0, c1, c2, c3, m1, m2, m3))
  {
    var S' := SplitS(S, j, c0, c1, c2, c3, m1, m2, m3);
    ChildFree(T, S, j, 0);
    ChildFree(T, S, j, 1);
    ChildFree(T, S, j, 2);
    ChildFree(T, S, j, 3);
    forall i | i in S'.geo ensures NodeOk(T', S', i) {
      SplitNode(T, S, T', j, c0, c1, c2, c3, m1, m2, m3, i);
    }
    forall g | g in S'.at ensures S'.at[g] in S'.geo && S'.geo[S'.at[g]] == g {
      SplitAt(T, S, T', j, c0, c1, c2, c3, m1, m2, m3, g);
    }
  }

  lemma SplitAt(T: seq<Te>, S: Shape, T': seq<Te>, j: int, c0: int, c1: int, c2: int, c3: int, m1: int, m2: int,
      m3: int, g: Geo)
    requires Woven(T, S) && j in S.geo && SplitT(T, T', j, c0, c1, c2, c3, m1, m2, m3) && Outside(S, c0, c1, c2, c3)
    requires g in SplitS(S, j, c0, c1, c2, c3, m1, m2, m3).at
    ensures var S' := SplitS(S, j, c0, c1, c2, c3, m1, m2, m3); S'.at[g] in S'.geo && S'.geo[S'.at[g]] == g
  {
    hide Woven, Child;
    if g in S.at {
      AtAt(T, S, g);
    }
  }

  lemma SplitNode(T: seq<Te>, S: Shape, T': seq<Te>, j: int, c0: int, c1: int, c2: int, c3: int, m1: int, m2: int,
      m3: int, i: int)
    requires Woven(T, S) && j in S.geo && SplitT(T, T', j, c0, c1, c2, c3, m1, m2, m3) && Outside(S, c0, c1, c2, c3)
    requires i in SplitS(S, j, c0, c1, c2, c3, m1, m2, m3).geo
    ensures NodeOk(T', SplitS(S, j, c0, c1, c2, c3, m1, m2, m3), i)
  {
    hide Woven, NodeOk;
    if i == j {
      SplitParent(T, S, T', j, c0, c1, c2, c3, m1, m2, m3);
    } else if i in S.geo {
      SplitOld(T, S, T', j, c0, c1, c2, c3, m1, m2, m3, i);
    } else {
      SplitNew(T, S, T', j, c0, c1, c2, c3, m1, m2, m3, i);
    }
  }

  lemma ChildrenFree(T: seq<Te>, S: Shape, j: int)
    requires Woven(T, S) && j in S.geo && !Inner(T, S, j)
    ensures var g := S.geo[j]; Child(g, 0) !in S.at && Child(g, 1) !in S.at && Child(g, 2) !in S.at
                               && Child(g, 3) !in S.at
    ensures var g := S.geo[j]; Child(g, 0) != Child(g, 1) && Child(g, 0) != Child(g, 2) && Child(g, 0) != Child(g, 3)
    ensures var g := S.geo[j]; Child(g, 1) != Child(g, 2) && Child(g, 1) != Child(g, 3) && Child(g, 2) != Child(g, 3)
  {
    NodeAt(T, S, j);
    ChildFree(T, S, j, 0);
    ChildFree(T, S, j, 1);
    ChildFree(T, S, j, 2);
    ChildFree(T, S, j, 3);
  }

  lemma SplitOld(T: seq<Te>, S: Shape, T': seq<Te>, j: int, c0: int, c1: int, c2: int, c3: int, m1: int, m2: int,
      m3: int, i: int)
    requires Woven(T, S) && j in S.geo && SplitT(T, T', j, c0, c1, c2, c3, m1, m2, m3) && Outside(S, c0, c1, c2, c3)
    requires i in S.geo && i != j
    ensures NodeOk(T', SplitS(S, j, c0, c1, c2, c3, m1, m2, m3), i)
  {
    hide Woven, Child, InRoot, Mid;
    ChildrenFree(T, S, j);
    NodeAt(T, S, i);
  }

  lemma SplitParent(T: seq<Te>, S: Shape, T': seq<Te>, j: int, c0: int, c1: int, c2: int, c3: int, m1: int, m2: int,
      m3: int)
    requires Woven(T, S) && j in S.geo && SplitT(T, T', j, c0, c1, c2, c3, m1, m2, m3) && Outside(S, c0, c1, c2, c3)
    ensures NodeOk(T', SplitS(S, j, c0, c1, c2, c3, m1, m2, m3), j)
  {
    hide Woven, Child, InRoot, Mid;
    ChildrenFree(T, S, j);
    NodeAt(T, S, j);
    NodeIndex(T, S, j);
    RootLevel(T, S);
  }

  lemma SplitNew(T: seq<Te>, S: Shape, T': seq<Te>, j: int, c0: int, c1: int, c2: int, c3: int, m1: int, m2: int,
      m3: int, i: int)
    requires Woven(T, S) && j in S.geo && SplitT(T, T', j, c0, c1, c2, c3, m1, m2, m3) && Outside(S, c0, c1, c2, c3)
    requires i !in S.geo && i in SplitS(S, j, c0, c1, c2, c3, m1, m2, m3).geo
    ensures NodeOk(T', SplitS(S, j, c0, c1, c2, c3, m1, m2, m3), i)
  {
    hide Woven, Child, InRoot, Mid;
    ChildrenFree(T, S, j);
    NodeAt(T, S, j);
    ChildInRoot(S.geo[j], 0);
    ChildInRoot(S.geo[j], 1);
    ChildInRoot(S.geo[j], 2);
    ChildInRoot(S.geo[j], 3);
  }

  /** The middles: m is the number of the middle of side l of j, or a new number with the middle's place. */
  ghost predicate Fresh(S: Shape, nb: int, nb': int, p: Pt, m: int) {
    if p in S.num then m == S.num[p] else nb < m <= nb'
  }

  /** The vertices of the tree that are new have numbers from nb + 1 to nb'. */
  ghost predicate NewNumbers(S: Shape, S': Shape, nb: int, nb': int) {
    forall v | v in S'.pt :: v in S.pt || nb < v <= nb'
  }

  lemma SplitNumbers(T: seq<Te>, S: Shape, j: int, c0: int, c1: int, c2: int, c3: int, m1: int, m2: int, m3: int,
      nb: int, nb': int)
    requires Numbered(T, S, nb) && j in S.geo
    requires Fresh(S, nb, nb', Mid(S.geo[j], 1), m1) && Fresh(S, nb, nb', Mid(S.geo[j], 2), m2)
      && Fresh(S, nb, nb', Mid(S.geo[j], 3), m3)
    ensures NewNumbers(S, SplitS(S, j, c0, c1, c2, c3, m1, m2, m3), nb, nb')
  {
    hide Child, Mid;
    assert Mid(S.geo[j], 1) in S.num ==> PtOk(T, S, nb, Mid(S.geo[j], 1));
    assert Mid(S.geo[j], 2) in S.num ==> PtOk(T, S, nb, Mid(S.geo[j], 2));
    assert Mid(S.geo[j], 3) in S.num ==> PtOk(T, S, nb, Mid(S.geo[j], 3));
  }

  lemma NewTwice(S: Shape, S1: Shape, S2: Shape, nb: int, nb1: int, nb2: int)
    requires NewNumbers(S, S1, nb, nb1) && NewNumbers(S1, S2, nb1, nb2) && nb <= nb1 <= nb2
    ensures NewNumbers(S, S2, nb, nb2)
  {
  }

  lemma NewNone(S: Shape, nb: int)
    ensures NewNumbers(S, S, nb, nb)
  {
  }

  lemma SplitNamed(T: seq<Te>, S: Shape, T': seq<Te>, j: int, c0: int, c1: int, c2: int, c3: int, m1: int, m2: int,
      m3: int, nb: int, nb': int)
    requires Woven(T, S) && Named(T, S) && j in S.geo && SplitT(T, T', j, c0, c1, c2, c3, m1, m2, m3)
      && Outside(S, c0, c1, c2, c3)
    requires Fresh(S, nb, nb', Mid(S.geo[j], 1), m1) && Fresh(S, nb, nb', Mid(S.geo[j], 2), m2)
      && Fresh(S, nb, nb', Mid(S.geo[j], 3), m3)
    ensures Named(T', SplitS(S, j, c0, c1, c2, c3, m1, m2, m3))
  {
    var S' := SplitS(S, j, c0, c1, c2, c3, m1, m2, m3);
    forall i | i in S'.geo ensures CornersNamed(T', S', i) {
      SplitNamedAt(T, S, T', j, c0, c1, c2, c3, m1, m2, m3, nb, nb', i);
    }
  }

  lemma SplitNamedAt(T: seq<Te>, S: Shape, T': seq<Te>, j: int, c0: int, c1: int, c2: int, c3: int, m1: int, m2: int,
      m3: int, nb: int, nb': int, i: int)
    requires Woven(T, S) && Named(T, S) && j in S.geo && SplitT(T, T', j, c0, c1, c2, c3, m1, m2, m3)
      && Outside(S, c0, c1, c2, c3)
    requires Fresh(S, nb, nb', Mid(S.geo[j], 1), m1) && Fresh(S, nb, nb', Mid(S.geo[j], 2), m2)
      && Fresh(S, nb, nb', Mid(S.geo[j], 3), m3)
    requires i in SplitS(S, j, c0, c1, c2, c3, m1, m2, m3).geo
    ensures CornersNamed(T', SplitS(S, j, c0, c1, c2, c3, m1, m2, m3), i)
  {
    hide Woven, Corner, Child;
    var g := S.geo[j];
    NodeAt(T, S, j);
    NodeIndex(T, S, j);
    assert CornersNamed(T, S, j);
    ChildCorners(g, 0);
    ChildCorners(g, 1);
    ChildCorners(g, 2);
    ChildCorners(g, 3);
    if i in S.geo {
      NodeIndex(T, S, i);
      assert CornersNamed(T, S, i);
    }
  }

  lemma SplitNumbered(T: seq<Te>, S: Shape, T': seq<Te>, j: int, c0: int, c1: int, c2: int, c3: int, m1: int, m2: int,
      m3: int, nb: int, nb': int)
    requires Woven(T, S) && Numbered(T, S, nb) && 0 <= nb <= nb' && j in S.geo
    requires SplitT(T, T', j, c0, c1, c2, c3, m1, m2, m3) && Outside(S, c0, c1, c2, c3)
    requires Fresh(S, nb, nb', Mid(S.geo[j], 1), m1) && Fresh(S, nb, nb', Mid(S.geo[j], 2), m2)
      && Fresh(S, nb, nb', Mid(S.geo[j], 3), m3)
    requires m1 != m2 && m2 != m3 && m3 != m1
    ensures Numbered(T', SplitS(S, j, c0, c1, c2, c3, m1, m2, m3), nb')
  {
    var S' := SplitS(S, j, c0, c1, c2, c3, m1, m2, m3);
    forall p | p in S'.num ensures PtOk(T', S', nb', p) {
      SplitPt(T, S, T', j, c0, c1, c2, c3, m1, m2, m3, nb, nb', p);
    }
  }

  lemma SplitPt(T: seq<Te>, S: Shape, T': seq<Te>, j: int, c0: int, c1: int, c2: int, c3: int, m1: int, m2: int,
      m3: int, nb: int, nb': int, p: Pt)
    requires Woven(T, S) && Numbered(T, S, nb) && 0 <= nb <= nb' && j in S.geo
    requires SplitT(T, T', j, c0, c1, c2, c3, m1, m2, m3) && Outside(S, c0, c1, c2, c3)
    requires Fresh(S, nb, nb', Mid(S.geo[j], 1), m1) && Fresh(S, nb, nb', Mid(S.geo[j], 2), m2)
      && Fresh(S, nb, nb', Mid(S.geo[j], 3), m3)
    requires m1 != m2 && m2 != m3 && m3 != m1
    requires p in SplitS(S, j, c0, c1, c2, c3, m1, m2, m3).num
    ensures PtOk(T', SplitS(S, j, c0, c1, c2, c3, m1, m2, m3), nb', p)
  {
    hide Woven, Child, Mid;
    var g := S.geo[j];
    NodeIndex(T, S, j);
    var p1, p2, p3 := Mid(g, 1), Mid(g, 2), Mid(g, 3);
    assert p1 in S.num ==> PtOk(T, S, nb, p1);
    assert p2 in S.num ==> PtOk(T, S, nb, p2);
    assert p3 in S.num ==> PtOk(T, S, nb, p3);
    if p in S.num {
      assert PtOk(T, S, nb, p);
      if p in S.src && Inner(T, S, S.src[p]) {
        NodeIndex(T, S, S.src[p]);
      }
    }
  }

  /** New vertices only: P' has P's points up to nb. */
  ghost predicate Extends(P: seq<Point>, P': seq<Point>, nb: int) {
    |P'| == |P| && forall i | 0 <= i <= nb && i < |P| :: P'[i] == P[i]
  }

  lemma ExtendsNone(P: seq<Point>, nb: int)
    ensures Extends(P, P, nb)
  {
  }

  lemma ExtendsTwice(P: seq<Point>, P1: seq<Point>, P2: seq<Point>, nb: int, nb1: int)
    requires Extends(P, P1, nb) && Extends(P1, P2, nb1) && nb <= nb1
    ensures Extends(P, P2, nb)
  {
  }

  lemma SplitPlaced(T: seq<Te>, S: Shape, T': seq<Te>, j: int, c0: int, c1: int, c2: int, c3: int, m1: int, m2: int,
      m3: int, P: seq<Point>)
    requires Woven(T, S) && Placed(T, S, P) && j in S.geo
    requires SplitT(T, T', j, c0, c1, c2, c3, m1, m2, m3) && Outside(S, c0, c1, c2, c3)
    requires PointOf(P, m1) == Middle(PointOf(P, T[j].v1), PointOf(P, T[j].v2))
    requires PointOf(P, m2) == Middle(PointOf(P, T[j].v2), PointOf(P, T[j].v3))
    requires PointOf(P, m3) == Middle(PointOf(P, T[j].v3), PointOf(P, T[j].v1))
    ensures Placed(T', SplitS(S, j, c0, c1, c2, c3, m1, m2, m3), P)
  {
    var S' := SplitS(S, j, c0, c1, c2, c3, m1, m2, m3);
    hide Woven, Child, Mid;
    NodeIndex(T, S, j);
    QuarterAreas(PointOf(P, T[j].v1), PointOf(P, T[j].v2), PointOf(P, T[j].v3), PointOf(P, m1), PointOf(P, m2),
      PointOf(P, m3));
    hide Area, Middle, PointOf;
    forall i | i in S'.geo && 0 <= i < |T'| ensures HalvedAt(T', S', P, i)
      && AreaOf(P, (T'[i].v1, T'[i].v2, T'[i].v3)) > 0.0 {
      SplitPlacedAt(T, S, T', j, c0, c1, c2, c3, m1, m2, m3, P, i);
    }
  }

  lemma SplitPlacedAt(T: seq<Te>, S: Shape, T': seq<Te>, j: int, c0: int, c1: int, c2: int, c3: int, m1: int, m2: int,
      m3: int, P: seq<Point>, i: int)
    requires Woven(T, S) && Placed(T, S, P) && j in S.geo && i in SplitS(S, j, c0, c1, c2, c3, m1, m2, m3).geo
      && 0 <= i < |T|
    requires SplitT(T, T', j, c0, c1, c2, c3, m1, m2, m3) && Outside(S, c0, c1, c2, c3)
    requires PointOf(P, m1) == Middle(PointOf(P, T[j].v1), PointOf(P, T[j].v2))
    requires PointOf(P, m2) == Middle(PointOf(P, T[j].v2), PointOf(P, T[j].v3))
    requires PointOf(P, m3) == Middle(PointOf(P, T[j].v3), PointOf(P, T[j].v1))
    requires AreaOf(P, (m2, m3, m1)) > 0.0 && AreaOf(P, (T[j].v1, m1, m3)) > 0.0
    requires AreaOf(P, (m1, T[j].v2, m2)) > 0.0 && AreaOf(P, (m3, m2, T[j].v3)) > 0.0
    ensures HalvedAt(T', SplitS(S, j, c0, c1, c2, c3, m1, m2, m3), P, i)
      && AreaOf(P, (T'[i].v1, T'[i].v2, T'[i].v3)) > 0.0
  {
    hide Woven, Child, Mid, AreaOf, Middle, PointOf;
    if i in S.geo {
      NodeIndex(T, S, i);
      assert HalvedAt(T, S, P, i);
      if Inner(T, S, i) {
        ChildOf(T, S, i, 0);
      }
    }
  }

  lemma QuarterAreas(a: Point, b: Point, c: Point, m1: Point, m2: Point, m3: Point)
    requires m1 == Middle(a, b) && m2 == Middle(b, c) && m3 == Middle(c, a)
    ensures Area(m2, m3, m1) == Area(a, b, c) * 0.25 && Area(a, m1, m3) == Area(a, b, c) * 0.25
    ensures Area(m1, b, m2) == Area(a, b, c) * 0.25 && Area(m3, m2, c) == Area(a, b, c) * 0.25
  {
  }

  /** New vertices beside the numbered ones change nothing. */
  lemma PlacedExtends(T: seq<Te>, S: Shape, P: seq<Point>, P': seq<Point>, nb: int)
    requires Woven(T, S) && Named(T, S) && Numbered(T, S, nb) && Placed(T, S, P) && Extends(P, P', nb)
    ensures Placed(T, S, P')
  {
    hide Woven, Area, Middle;
    forall j | j in S.geo && 0 <= j < |T| ensures HalvedAt(T, S, P', j)
      && AreaOf(P', (T[j].v1, T[j].v2, T[j].v3)) > 0.0 {
      SameCorners(T, S, P, P', nb, j);
      assert HalvedAt(T, S, P, j);
      if Inner(T, S, j) {
        ChildOf(T, S, j, 0);
        SameCorners(T, S, P, P', nb, T[j].s0);
      }
    }
  }

  lemma SameCorners(T: seq<Te>, S: Shape, P: seq<Point>, P': seq<Point>, nb: int, j: int)
    requires Woven(T, S) && Named(T, S) && Numbered(T, S, nb) && Extends(P, P', nb) && j in S.geo && 0 <= j < |T|
    ensures 1 <= T[j].v1 <= nb && 1 <= T[j].v2 <= nb && 1 <= T[j].v3 <= nb
    ensures PointOf(P', T[j].v1) == PointOf(P, T[j].v1) && PointOf(P', T[j].v2) == PointOf(P, T[j].v2)
      && PointOf(P', T[j].v3) == PointOf(P, T[j].v3)
  {
    hide Woven, Corner;
    assert CornersNamed(T, S, j);
    assert PtOk(T, S, nb, Corner(S.geo[j], 1)) && PtOk(T, S, nb, Corner(S.geo[j], 2))
      && PtOk(T, S, nb, Corner(S.geo[j], 3));
  }
}
