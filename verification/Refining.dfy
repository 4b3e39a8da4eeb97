/** The start of `tehote_`: leaves around the given points are subdivided until they are as small as
    wished for, and so is the triangle in the middle of the root. */
module Refining {
  import opened Lists
  import opened Geometry
  import opened Delaunay
  import opened Lattice
  import opened Tree
  import opened Splitting
  import opened Leaves
  import opened Quadtree

  // ---------------------------------------------------------------- near points

  /** The corners of t are at most the square root of d away from point q. */
  predicate Within(P: seq<Point>, t: Te, q: int, d: real) {
    && Dist2(PointOf(P, q), PointOf(P, t.v1)) <= d && Dist2(PointOf(P, q), PointOf(P, t.v2)) <= d
    && Dist2(PointOf(P, q), PointOf(P, t.v3)) <= d
  }

  /** A leaf that holds point q is that small. */
  ghost predicate Near(T: seq<Te>, S: Shape, P: seq<Point>, q: int, d: real) {
    exists j :: j in S.geo && 1 <= j < |T| && !Inner(T, S, j) && Holds(P, T[j], q) && Within(P, T[j], q, d)
  }

  /** The points 1 to n have leaves as small as wished for. */
  ghost predicate Tamed(T: seq<Te>, S: Shape, P: seq<Point>, wish: seq<real>, n: int) {
    forall q | 1 <= q <= n && q < |wish| :: Near(T, S, P, q, wish[q] * wish[q])
  }

  /** What that means: a leaf holds the point with none of its corners farther from it than wished. */
  lemma TamedMeans(T: seq<Te>, S: Shape, P: seq<Point>, wish: seq<real>, n: int, q: int) returns (j: int)
    requires Tamed(T, S, P, wish, n) && 1 <= q <= n && q < |wish|
    ensures j in S.geo && 1 <= j < |T| && T[j].s0 <= 0 && Holds(P, T[j], q)
    ensures Dist2(PointOf(P, q), PointOf(P, T[j].v1)) <= wish[q] * wish[q]
    ensures Dist2(PointOf(P, q), PointOf(P, T[j].v2)) <= wish[q] * wish[q]
    ensures Dist2(PointOf(P, q), PointOf(P, T[j].v3)) <= wish[q] * wish[q]
  {
    hide Holds, PointOf, Dist2;
    assert Near(T, S, P, q, wish[q] * wish[q]);
    j :| j in S.geo && 1 <= j < |T| && !Inner(T, S, j) && Holds(P, T[j], q) && Within(P, T[j], q, wish[q] * wish[q]);
  }

  lemma MidCloser(p: Point, a: Point, b: Point, d: real)
    requires Dist2(p, a) <= d && Dist2(p, b) <= d
    ensures Dist2(p, Middle(a, b)) <= d
  {
    var ux, uy, vx, vy := a.x - p.x, a.y - p.y, b.x - p.x, b.y - p.y;
    var m := Middle(a, b);
    assert m.x - p.x == 0.5 * (ux + vx) && m.y - p.y == 0.5 * (uy + vy);
    assert Dist2(p, m) == 0.25 * ((ux + vx) * (ux + vx) + (uy + vy) * (uy + vy));
    assert Dist2(p, a) == ux * ux + uy * uy && Dist2(p, b) == vx * vx + vy * vy;
    Halves(ux, vx);
    Halves(uy, vy);
  }

  lemma Halves(u: real, v: real)
    ensures (u + v) * (u + v) <= 2.0 * (u * u) + 2.0 * (v * v)
  {
    assert (u - v) * (u - v) >= 0.0;
    assert (u + v) * (u + v) + (u - v) * (u - v) == 2.0 * (u * u) + 2.0 * (v * v);
  }

  /** The sub-triangles of j are no farther from q than j. */
  lemma KidCloser(T: seq<Te>, S: Shape, P: seq<Point>, j: int, k: int, q: int, d: real)
    requires Woven(T, S) && Named(T, S) && Placed(T, S, P) && Inner(T, S, j) && 0 <= k <= 3
    ensures 1 <= j < |T| && 1 < Sub(T[j], k) < |T| && (Within(P, T[j], q, d) ==> Within(P, T[Sub(T[j], k)], q, d))
  {
    hide Woven, Named, Placed, Middle, Child, PointOf, Dist2;
    PlacedAt(T, S, P, j);
    KidCorners(T, S, j);
    ChildOf(T, S, j, 0);
    ChildOf(T, S, j, 1);
    ChildOf(T, S, j, 2);
    ChildOf(T, S, j, 3);
    if Within(P, T[j], q, d) {
      var p, a, b, c := PointOf(P, q), PointOf(P, T[j].v1), PointOf(P, T[j].v2), PointOf(P, T[j].v3);
      MidCloser(p, a, b, d);
      MidCloser(p, b, c, d);
      MidCloser(p, c, a, d);
    }
  }

  lemma SamePlace(P: seq<Point>, P': seq<Point>, nb: int, t: Te, q: int, d: real)
    requires Extends(P, P', nb) && 1 <= q <= nb && 1 <= t.v1 <= nb && 1 <= t.v2 <= nb && 1 <= t.v3 <= nb
    ensures Holds(P', t, q) <==> Holds(P, t, q)
    ensures Within(P', t, q, d) <==> Within(P, t, q, d)
  {
  }

  /** A subdivision leaves near points near. */
  lemma NearKept(T: seq<Te>, S: Shape, P: seq<Point>, nb: int, free: seq<int>, home: map<int, int>, T': seq<Te>,
      S': Shape, P': seq<Point>, nb': int, free': seq<int>, home': map<int, int>, n: int, q: int, d: real)
    requires TreeOk(T, S, P, nb, free, home) && TreeOk(T', S', P', nb', free', home') && Subdivided(T, S, T', S', n)
    requires Extends(P, P', nb) && 1 <= q <= nb && n in S.geo && Near(T, S, P, q, d)
    ensures Near(T', S', P', q, d)
  {
    hide Woven, Named, Numbered, Placed, FreeOk, Stocked, Holds, Within, Extends;
    var j :| j in S.geo && 1 <= j < |T| && !Inner(T, S, j) && Holds(P, T[j], q) && Within(P, T[j], q, d);
    SameCorners(T, S, P, P', nb, j);
    SamePlace(P, P', nb, T[j], q, d);
    if j == n {
      SameHolds(P', T[n], T'[n], q, d);
      PlacedAt(T', S', P', n);
      var k := Nosstr(P', T'[n], q);
      NosstrHolds(T', S', P', n, q);
      KidCloser(T', S', P', n, k, q, d);
      var c := Sub(T'[n], k);
      assert c in S'.geo && 1 <= c < |T'| && !Inner(T', S', c) && Holds(P', T'[c], q) && Within(P', T'[c], q, d);
    } else {
      assert T'[j] == T[j] && !Inner(T', S', j);
    }
  }

  lemma SameHolds(P: seq<Point>, t: Te, t': Te, q: int, d: real)
    requires SameTriangle(t', t)
    ensures Holds(P, t', q) <==> Holds(P, t, q)
    ensures Within(P, t', q, d) <==> Within(P, t, q, d)
  {
  }

  // ---------------------------------------------------------------- a tree that grows

  /** The tree at the start: its vertices, places, points and root, the sizes wished for, and triangles
      that are to be, and to stay, subdivided. */
  datatype Before = Before(nb: int, P: seq<Point>, S: Shape, home: map<int, int>, root: Te, wish: seq<real>,
    split: set<int>)

  /** Since then the tree has only been subdivided; the points 1 to n are near. */
  ghost predicate Grew(b: Before, n: int, T: seq<Te>, S: Shape, P: seq<Point>, nb: int, home: map<int, int>) {
    && nb >= b.nb && Extends(b.P, P, b.nb) && NewNumbers(b.S, S, b.nb, nb) && home.Keys == b.home.Keys
    && |T| > 1 && SameTriangle(T[1], b.root) && 1 in S.geo
    && n <= b.nb && Tamed(T, S, P, b.wish, n) && AllSplit(T, S, b.split) && b.S.geo.Keys <= S.geo.Keys
  }

  ghost predicate AllSplit(T: seq<Te>, S: Shape, split: set<int>) {
    forall j | j in split :: Inner(T, S, j)
  }

  /** A subdivided triangle stays so. */
  lemma SplitStill(T: seq<Te>, S: Shape, T': seq<Te>, S': Shape, n: int, split: set<int>)
    requires Subdivided(T, S, T', S', n) && AllSplit(T, S, split)
    ensures AllSplit(T', S', split)
  {
  }

  lemma SplitNow(T: seq<Te>, S: Shape, T': seq<Te>, S': Shape, n: int)
    requires Subdivided(T, S, T', S', n)
    ensures Inner(T', S', n)
  {
  }

  lemma SplitAlready(T: seq<Te>, S: Shape, j: int)
    requires j in S.geo && 1 <= j < |T| && T[j].s0 > 0
    ensures Inner(T, S, j)
  {
  }

  ghost function InnerSet(T: seq<Te>, S: Shape): (r: set<int>) {
    set j | j in S.geo && Inner(T, S, j)
  }

  lemma SplitMore(b: Before, n: int, T: seq<Te>, S: Shape, P: seq<Point>, nb: int, home: map<int, int>, j: int)
    requires Grew(b, n, T, S, P, nb, home) && Inner(T, S, j)
    ensures Grew(b.(split := b.split + {j}), n, T, S, P, nb, home)
  {
    hide Extends, NewNumbers, Inner, Near;
  }

  ghost predicate Grown(tree: Quadtree, b: Before, n: int)
    reads tree, tree.letree, tree.pxyd
  {
    tree.Valid() && Grew(b, n, tree.letree[..], tree.S, tree.pxyd[..], tree.nbsomm, tree.home)
  }

  /** The vertices of the start are where they were. */
  ghost predicate Intact(tree: Quadtree, b: Before)
    reads tree, tree.pxyd
  {
    tree.nbsomm >= b.nb && Extends(b.P, tree.pxyd[..], b.nb)
  }

  lemma GrownIntact(tree: Quadtree, b: Before, n: int)
    requires Grown(tree, b, n)
    ensures Intact(tree, b)
  {
    hide TreeOk, Columned, Extends, NewNumbers, Tamed;
  }

  lemma GrewNext(b: Before, m: int, T: seq<Te>, S: Shape, P: seq<Point>, nb: int, free: seq<int>, home: map<int, int>,
      T': seq<Te>, S': Shape, P': seq<Point>, nb': int, free': seq<int>, home': map<int, int>, n: int)
    requires TreeOk(T, S, P, nb, free, home) && TreeOk(T', S', P', nb', free', home') && Grew(b, m, T, S, P, nb, home)
    requires Subdivided(T, S, T', S', n) && n in S.geo && Extends(P, P', nb) && NewNumbers(S, S', nb, nb') && nb <= nb'
    requires Moved(T', home, home', n)
    ensures Grew(b, m, T', S', P', nb', home')
  {
    hide *;
    forall q | 1 <= q <= m && q < |b.wish| ensures Near(T', S', P', q, b.wish[q] * b.wish[q]) {
      NearAt(T, S, P, m, q, b, nb, home);
      NearKept(T, S, P, nb, free, home, T', S', P', nb', free', home', n, q, b.wish[q] * b.wish[q]);
    }
    GrewParts(b, m, T, S, P, nb, home);
    ExtendsTwice(b.P, P, P', b.nb, nb);
    NewTwice(b.S, S, S', b.nb, nb, nb');
    MovedKeys(T', home', n);
    SubdividedSizes(T, S, T', S', n);
    SubdividedRoot(T, T', S', n);
    SplitStill(T, S, T', S', n, b.split);
    GrewFrom(b, m, T, T', S', P', nb', home');
  }

  lemma SubdividedSizes(T: seq<Te>, S: Shape, T': seq<Te>, S': Shape, n: int)
    requires Subdivided(T, S, T', S', n) && 1 in S.geo
    ensures |T'| == |T| && 1 in S'.geo && S.geo.Keys <= S'.geo.Keys
  {
  }

  lemma GrewParts(b: Before, n: int, T: seq<Te>, S: Shape, P: seq<Point>, nb: int, home: map<int, int>)
    requires Grew(b, n, T, S, P, nb, home)
    ensures nb >= b.nb && Extends(b.P, P, b.nb) && NewNumbers(b.S, S, b.nb, nb) && home.Keys == b.home.Keys
    ensures |T| > 1 && SameTriangle(T[1], b.root) && 1 in S.geo && n <= b.nb && AllSplit(T, S, b.split)
    ensures b.S.geo.Keys <= S.geo.Keys
  {
    hide Extends, NewNumbers, SameTriangle, Tamed, AllSplit;
  }

  lemma GrewFrom(b: Before, n: int, T: seq<Te>, T': seq<Te>, S: Shape, P: seq<Point>, nb: int, home: map<int, int>)
    requires nb >= b.nb && Extends(b.P, P, b.nb) && NewNumbers(b.S, S, b.nb, nb) && home.Keys == b.home.Keys
    requires |T'| == |T| > 1 && SameTriangle(T[1], b.root) && SameTriangle(T'[1], T[1]) && 1 in S.geo && n <= b.nb
    requires forall q | 1 <= q <= n && q < |b.wish| :: Near(T', S, P, q, b.wish[q] * b.wish[q])
    requires AllSplit(T', S, b.split) && b.S.geo.Keys <= S.geo.Keys
    ensures Grew(b, n, T', S, P, nb, home)
  {
    hide Extends, NewNumbers, Near, AllSplit;
  }

  lemma NearAt(T: seq<Te>, S: Shape, P: seq<Point>, m: int, q: int, b: Before, nb: int, home: map<int, int>)
    requires Grew(b, m, T, S, P, nb, home) && 1 <= q <= m && q < |b.wish|
    ensures Near(T, S, P, q, b.wish[q] * b.wish[q]) && q <= nb
  {
    hide Near, Extends, NewNumbers;
  }

  lemma IntactNext(tree: Quadtree, b: Before, P: seq<Point>, nb: int)
    requires nb >= b.nb && Extends(b.P, P, b.nb) && tree.nbsomm >= nb && Extends(P, tree.pxyd[..], nb)
    ensures Intact(tree, b)
  {
    hide Extends;
    ExtendsTwice(b.P, P, tree.pxyd[..], b.nb, nb);
  }

  // ---------------------------------------------------------------- no triangle is subdivided for nothing

  /** t holds a given point that is farther than wished from one of its corners. */
  ghost predicate TooFar(P: seq<Point>, t: Te, wish: seq<real>, n: int) {
    exists q :: 1 <= q <= n && q < |wish| && Holds(P, t, q) && !Within(P, t, q, wish[q] * wish[q])
  }

  /** What has been subdivided since (T0, S0) is column 2, or holds a given point too far off. */
  ghost predicate Refined(T0: seq<Te>, S0: Shape, T: seq<Te>, S: Shape, P: seq<Point>, wish: seq<real>, n: int) {
    forall j | Inner(T, S, j) :: Inner(T0, S0, j) || j == 2 || TooFar(P, T[j], wish, n)
  }

  lemma RefinedNone(T: seq<Te>, S: Shape, P: seq<Point>, wish: seq<real>, n: int)
    ensures Refined(T, S, T, S, P, wish, n)
  {
  }

  lemma TooFarStill(T: seq<Te>, S: Shape, P: seq<Point>, nb: int, P': seq<Point>, t': Te, j: int, wish: seq<real>,
      n: int)
    requires Woven(T, S) && Named(T, S) && Numbered(T, S, nb) && Extends(P, P', nb) && n <= nb && j in S.geo
    requires 1 <= j < |T| && SameTriangle(t', T[j]) && TooFar(P, T[j], wish, n)
    ensures TooFar(P', t', wish, n)
  {
    SameCorners(T, S, P, P', nb, j);
    hide Woven, Named, Numbered, Holds, Within, Extends;
    var q :| 1 <= q <= n && q < |wish| && Holds(P, T[j], q) && !Within(P, T[j], q, wish[q] * wish[q]);
    SamePlace(P, P', nb, T[j], q, wish[q] * wish[q]);
    SameHolds(P', T[j], t', q, wish[q] * wish[q]);
  }

  lemma RefinedNext(T0: seq<Te>, S0: Shape, T: seq<Te>, S: Shape, P: seq<Point>, nb: int, free: seq<int>,
      home: map<int, int>, T': seq<Te>, S': Shape, P': seq<Point>, n: int, wish: seq<real>, m: int)
    requires TreeOk(T, S, P, nb, free, home) && Refined(T0, S0, T, S, P, wish, m) && Subdivided(T, S, T', S', n)
    requires n in S.geo && 1 <= n < |T| && Extends(P, P', nb) && m <= nb && (n == 2 || TooFar(P, T[n], wish, m))
    ensures Refined(T0, S0, T', S', P', wish, m)
  {
    hide Woven, Named, Numbered, Placed, FreeOk, Stocked, TooFar, Extends;
    forall j | Inner(T', S', j) && !Inner(T0, S0, j) && j != 2 ensures TooFar(P', T'[j], wish, m) {
      InnerSplit(T, S, T', S', n, j);
      TooFarStill(T, S, P, nb, P', T'[j], j, wish, m);
    }
  }

  /** `te4ste_` on leaf j of a tree that grows. */
  method Subdivide(tree: Quadtree, j: int, ghost b: Before, ghost n: int) returns (ierr: int)
    requires Grown(tree, b, n) && j in tree.S.geo && !Inner(tree.letree[..], tree.S, j)
    modifies tree`nbsomm, tree`S, tree`free, tree`home, tree.letree, tree.pxyd
    ensures ierr == 0 || ierr == 51 || ierr == 52
    ensures Intact(tree, b)
    ensures ierr == 51 ==> |tree.free| < 4 && 3 * tree.mxtree <= 12 + 8 * tree.mxsomm
    ensures ierr == 52 ==> tree.nbsomm == tree.mxsomm
    ensures ierr == 0 ==> Grown(tree, b, n) && |tree.free| == |old(tree.free)| - 4
    ensures ierr == 0 ==> Subdivided(old(tree.letree[..]), old(tree.S), tree.letree[..], tree.S, j)
    ensures ierr == 0 ==> tree.nbsomm >= old(tree.nbsomm)
                          && Extends(old(tree.pxyd[..]), tree.pxyd[..], old(tree.nbsomm))
    ensures ierr == 0 && tree.nbsomm == old(tree.nbsomm) ==>
              forall l | 1 <= l <= 3 :: Beside(old(tree.letree[..]), old(tree.S), j, l)
  {
    hide TreeOk, Grew, Columned, Subdivided, Moved, NewNumbers, Extends, Beside;
    ghost var T, S, P, nb, free, home := tree.letree[..], tree.S, tree.pxyd[..], tree.nbsomm, tree.free, tree.home;
    GrownIntact(tree, b, n);
    ierr := tree.Te4ste(j);
    IntactNext(tree, b, P, nb);
    if ierr == 0 {
      GrewNext(b, n, T, S, P, nb, free, home, tree.letree[..], tree.S, tree.pxyd[..], tree.nbsomm, tree.free, tree.home,
        j);
    }
  }

  // ---------------------------------------------------------------- the first subdivisions

  lemma HoldsNext(T: seq<Te>, S: Shape, P: seq<Point>, nb: int, free: seq<int>, home: map<int, int>, T': seq<Te>,
      S': Shape, P': seq<Point>, n: int, q: int)
    requires TreeOk(T, S, P, nb, free, home) && Subdivided(T, S, T', S', n) && n in S.geo && Extends(P, P', nb)
    requires 1 <= q <= nb && 1 <= n < |T| && Holds(P, T[n], q)
    ensures n in S'.geo && 1 <= n < |T'| && Holds(P', T'[n], q)
  {
    hide Woven, Named, Numbered, Placed, FreeOk, Stocked, Holds, Within, Extends;
    SameCorners(T, S, P, P', nb, n);
    SamePlace(P, P', nb, T[n], q, 0.0);
    SameHolds(P', T[n], T'[n], q, 0.0);
  }

  lemma RootKept(b: Before, n: int, T: seq<Te>, S: Shape, P: seq<Point>, nb: int, home: map<int, int>, q: int)
    requires Grew(b, n, T, S, P, nb, home) && 1 <= q <= b.nb && Holds(b.P, b.root, q)
    requires 1 <= b.root.v1 <= b.nb && 1 <= b.root.v2 <= b.nb && 1 <= b.root.v3 <= b.nb
    ensures |T| > 1 && 1 in S.geo && Holds(P, T[1], q) && q <= nb
  {
    hide Holds, Within, Tamed, Extends, NewNumbers;
    SamePlace(b.P, P, b.nb, b.root, q, 0.0);
    SameHolds(P, b.root, T[1], q, 0.0);
  }

  lemma TamedNext(b: Before, n: int, T: seq<Te>, S: Shape, P: seq<Point>, nb: int, home: map<int, int>, j: int)
    requires 0 <= n && Grew(b, n, T, S, P, nb, home) && n < b.nb && j in S.geo && 1 <= j < |T| && !Inner(T, S, j)
    requires Holds(P, T[j], n + 1) && (n + 1 < |b.wish| ==> Within(P, T[j], n + 1, b.wish[n + 1] * b.wish[n + 1]))
    ensures Grew(b, n + 1, T, S, P, nb, home)
  {
    hide Holds, Within, Extends, NewNumbers;
    assert n + 1 < |b.wish| ==> Near(T, S, P, n + 1, b.wish[n + 1] * b.wish[n + 1]);
    hide Near;
  }

  /** The points a caller of `tehote_` has: the root holds them, and its corners are vertices. */
  ghost predicate Held(b: Before, n: int) {
    && n <= b.nb && 1 <= b.root.v1 <= b.nb && 1 <= b.root.v2 <= b.nb && 1 <= b.root.v3 <= b.nb
    && forall q | 1 <= q <= n :: Holds(b.P, b.root, q)
  }

  /** The leaf around each point 1 to n is subdivided until its corners are at most as far from the
      point as wished. */
  method Refine(tree: Quadtree, n: nat, wish: seq<real>, ghost b: Before) returns (ierr: int)
    requires Grown(tree, b, 0) && Held(b, n) && wish == b.wish && n < |wish| && tree.mxtree > 0
    modifies tree`nbsomm, tree`S, tree`free, tree`home, tree.letree, tree.pxyd
    ensures ierr == 0 || ierr == 51 || ierr == 52
    ensures Intact(tree, b)
    ensures ierr == 51 ==> |tree.free| < 4 && 3 * tree.mxtree <= 12 + 8 * tree.mxsomm
    ensures ierr == 52 ==> tree.nbsomm == tree.mxsomm
    ensures ierr == 0 ==> Grown(tree, b, n)
    ensures ierr == 0 ==> Refined(old(tree.letree[..]), old(tree.S), tree.letree[..], tree.S, tree.pxyd[..], wish, n)
  {
    hide TreeOk, Grew, Intact, Columned, Holds, Within, Inner, Subdivided, Extends, Beside, Refined,
      TooFar;
    ierr := 0;
    GrownIntact(tree, b, 0);
    RefinedNone(tree.letree[..], tree.S, tree.pxyd[..], wish, n);
    for i := 1 to n + 1
      invariant ierr == 0 && Grown(tree, b, i - 1) && Intact(tree, b)
      invariant Refined(old(tree.letree[..]), old(tree.S), tree.letree[..], tree.S, tree.pxyd[..], wish, n)
    {
      RootKept(b, i - 1, tree.letree[..], tree.S, tree.pxyd[..], tree.nbsomm, tree.home, i);
      var nte := tree.Notrpt(i, 1);
      while !Within(tree.pxyd[..], tree.letree[nte], i, wish[i] * wish[i])
        invariant ierr == 0 && Grown(tree, b, i - 1) && i <= tree.nbsomm
        invariant nte in tree.S.geo && 1 <= nte <= tree.mxtree && !Inner(tree.letree[..], tree.S, nte)
        invariant Refined(old(tree.letree[..]), old(tree.S), tree.letree[..], tree.S, tree.pxyd[..], wish, n)
        invariant Holds(tree.pxyd[..], tree.letree[nte], i)
        decreases |tree.free|
      {
        ghost var T, S, P, nb, free, home := tree.letree[..], tree.S, tree.pxyd[..], tree.nbsomm, tree.free, tree.home;
        TooFarBy(P, T[nte], wish, n, i);
        EnoughVertices(b, i - 1, T, S, P, nb, home, n);
        ierr := Subdivide(tree, nte, b, i - 1);
        if ierr != 0 {
          return;
        }
        RefinedNext(old(tree.letree[..]), old(tree.S), T, S, P, nb, free, home, tree.letree[..], tree.S, tree.pxyd[..],
          nte, wish, n);
        HoldsNext(T, S, P, nb, free, home, tree.letree[..], tree.S, tree.pxyd[..], nte, i);
        nte := tree.Notrpt(i, nte);
      }
      GrownIntact(tree, b, i - 1);
      TamedNext(b, i - 1, tree.letree[..], tree.S, tree.pxyd[..], tree.nbsomm, tree.home, nte);
    }
  }

  lemma TooFarBy(P: seq<Point>, t: Te, wish: seq<real>, n: int, q: int)
    requires 1 <= q <= n && q < |wish| && Holds(P, t, q) && !Within(P, t, q, wish[q] * wish[q])
    ensures TooFar(P, t, wish, n)
  {
    hide Holds, Within;
  }

  lemma EnoughVertices(b: Before, i: int, T: seq<Te>, S: Shape, P: seq<Point>, nb: int, home: map<int, int>, n: int)
    requires Grew(b, i, T, S, P, nb, home) && Held(b, n)
    ensures n <= nb
  {
    hide Extends, NewNumbers, Tamed, Holds;
  }

  /** The middle sub-triangle of the root, which is column 2 as soon as there is one, is subdivided. */
  method SplitCentre(tree: Quadtree, ghost b: Before, ghost n: int, ghost T0: seq<Te>,
      ghost S0: Shape, ghost m: int) returns (ierr: int)
    requires Grown(tree, b, n) && tree.mxtree > 2 && m <= tree.nbsomm
    requires Refined(T0, S0, tree.letree[..], tree.S, tree.pxyd[..], b.wish, m)
    modifies tree`nbsomm, tree`S, tree`free, tree`home, tree.letree, tree.pxyd
    ensures ierr == 0 || ierr == 51 || ierr == 52
    ensures Intact(tree, b)
    ensures ierr == 51 ==> |tree.free| < 4 && 3 * tree.mxtree <= 12 + 8 * tree.mxsomm
    ensures ierr == 52 ==> tree.nbsomm == tree.mxsomm
    ensures ierr == 0 ==> Grown(tree, b, n) && Refined(T0, S0, tree.letree[..], tree.S, tree.pxyd[..], b.wish, m)
    ensures ierr == 0 && 2 in old(tree.S).geo ==> Grown(tree, b.(split := b.split + {2}), n)
  {
    hide TreeOk, Grew, Intact, Columned, Inner, Subdivided, Extends, Beside, Refined;
    ierr := 0;
    GrownIntact(tree, b, n);
    TwoPlace(tree.letree[..], tree.S, tree.pxyd[..], tree.nbsomm, tree.free, tree.home, tree.mxtree);
    if tree.letree[2].s0 <= 0 {
      ghost var T, S, P, nb, free, home := tree.letree[..], tree.S, tree.pxyd[..], tree.nbsomm, tree.free, tree.home;
      ierr := Subdivide(tree, 2, b, n);
      if ierr == 0 {
        RefinedNext(T0, S0, T, S, P, nb, free, home, tree.letree[..], tree.S, tree.pxyd[..], 2, b.wish, m);
        SplitNow(T, S, tree.letree[..], tree.S, 2);
        SplitMore(b, n, tree.letree[..], tree.S, tree.pxyd[..], tree.nbsomm, tree.home, 2);
      }
    } else if 2 in tree.S.geo {
      SplitAlready(tree.letree[..], tree.S, 2);
      SplitMore(b, n, tree.letree[..], tree.S, tree.pxyd[..], tree.nbsomm, tree.home, 2);
    }
  }

  lemma TwoPlace(T: seq<Te>, S: Shape, P: seq<Point>, nb: int, free: seq<int>, home: map<int, int>, mx: nat)
    requires TreeOk(T, S, P, nb, free, home) && Columned(S, free, mx) && |T| == mx + 1 && mx > 2
    ensures T[2].s0 <= 0 ==> 2 in S.geo && !Inner(T, S, 2)
  {
    hide Woven, Named, Numbered, Placed, Stocked, Unique;
    assert |S.geo| == |S.geo.Keys|;
    assert 2 !in S.geo ==> |free| > 1 && T[2].s0 == free[1] > 0;
  }
}
