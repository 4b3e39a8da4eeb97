/** The meshed leaves fit together: a side of a leaf is a side, the other way round, of the leaf across
    it, when the sizes of neighbours are as `tehote_` leaves them. */
module Conform {
  import opened Geometry
  import opened Delaunay
  import opened Lattice
  import opened Tree
  import opened Splitting
  import opened Leaves
  import opened Quadtree
  import opened Teajte
  import opened Tehote
  import opened Leafmesh
  import opened Tiling
  import opened Trpite
  import opened Mosaic
  import opened Paving
  import opened Tetrte

  // ---------------------------------------------------------------- across a side

  /** When j is not on the border and the tree has no triangle of its size across side l, a larger
      leaf is there, and it is uneven there if it is more than one level larger. */
  lemma {:induction false} Larger(T: seq<Te>, S: Shape, j: int, l: int) returns (q: int, h: nat)
    requires Woven(T, S) && j in S.geo && 1 <= l <= 3 && !Lattice.Border(S.geo[j], l) && Mirror(S.geo[j], l) !in S.at
    ensures Facing(T, S, j, l, q, h) && 0 < h <= S.geo[j].level && Mirror(S.geo[q], l) == S.geo[Up(T, j, h)]
    ensures h > 1 || Inner(T, S, j) ==> !EvenSide(T, S, q, l)
    decreases S.geo[j].level
  {
    hide Woven, Child, Mirror, Lattice.Border, InRoot;
    NodeIndex(T, S, j);
    if j == 1 {
      RootBorder(T, S, l);
      assert false;
    }
    var p := T[j].sur;
    AcrossSibling(T, S, j, l);
    NodeAt(T, S, p);
    ParentOf(T, S, j);
    NoSibling(T, S, j, l);
    BorderChild(S.geo[p], T[j].kind, l);
    if Mirror(S.geo[p], l) in S.at {
      q, h := S.at[Mirror(S.geo[p], l)], 1;
      AtAt(T, S, Mirror(S.geo[p], l));
      NoBelow(T, S, j, l, q);
      MirrorCorners(S.geo[p], l);
      OneUp(T, S, j, l, q);
    } else {
      q, h := Larger(T, S, p, l);
      h := h + 1;
      UpOne(T, S, j, l, q, h);
    }
  }

  /** Then j is not where its sibling is across side l. */
  lemma NoSibling(T: seq<Te>, S: Shape, j: int, l: int)
    requires Woven(T, S) && j in S.geo && HasParent(T, S, j) && 1 <= l <= 3 && Mirror(S.geo[j], l) !in S.at
    requires var k, p := T[j].kind, T[T[j].sur];
      && (k == 0 ==> Sub(p, Pre(l)) in S.geo && S.geo[Sub(p, Pre(l))] == Mirror(S.geo[j], l))
      && (k != 0 && Suiv(k) == l ==> p.s0 in S.geo && S.geo[p.s0] == Mirror(S.geo[j], l))
      && (k != 0 && Suiv(k) != l ==> k == l || k == Suiv(l))
    ensures T[j].kind == l || T[j].kind == Suiv(l)
  {
    hide Woven, Mirror, Child;
    var k, p := T[j].kind, T[T[j].sur];
    if k == 0 {
      NodeAt(T, S, Sub(p, Pre(l)));
    } else if Suiv(k) == l {
      NodeAt(T, S, p.s0);
    }
  }

  /** The triangle q across side l of the parent of j is a leaf. */
  lemma NoBelow(T: seq<Te>, S: Shape, j: int, l: int, q: int)
    requires Woven(T, S) && j in S.geo && j != 1 && HasParent(T, S, j) && 1 <= l <= 3 && Mirror(S.geo[j], l) !in S.at
    requires (T[j].kind == l || T[j].kind == Suiv(l)) && q in S.geo && S.geo[q] == Mirror(S.geo[T[j].sur], l)
    ensures !Inner(T, S, q)
  {
    hide Woven, Mirror, Child;
    if Inner(T, S, q) {
      AcrossBelow(T, S, j, l, q);
      var k := T[j].kind;
      NodeAt(T, S, Sub(T[q], if k == l then Suiv(k) else Pre(k)));
    }
  }

  lemma OneUp(T: seq<Te>, S: Shape, j: int, l: int, q: int)
    requires j in S.geo && HasParent(T, S, j) && (T[j].kind == l || T[j].kind == Suiv(l)) && q in S.geo
    requires S.geo[q] == Mirror(S.geo[T[j].sur], l) && Mirror(S.geo[q], l) == S.geo[T[j].sur] && !Inner(T, S, q)
    requires S.geo[T[j].sur] in S.at && S.at[S.geo[T[j].sur]] == T[j].sur && 1 <= l <= 3
    ensures Facing(T, S, j, l, q, 1) && Mirror(S.geo[q], l) == S.geo[Up(T, j, 1)]
    ensures Inner(T, S, j) ==> !EvenSide(T, S, q, l)
  {
    hide Mirror, Child;
    var p := T[j].sur;
    assert Up(T, j, 1) == Up(T, p, 0) == p && Along(T, p, l, 0);
    assert Along(T, j, l, 1);
    assert Beside(T, S, q, l);
    assert Sub(T[p], T[j].kind) == j;
  }

  lemma UpOne(T: seq<Te>, S: Shape, j: int, l: int, q: int, h: nat)
    requires h > 1 && j in S.geo && HasParent(T, S, j) && (T[j].kind == l || T[j].kind == Suiv(l))
    requires Facing(T, S, T[j].sur, l, q, h - 1) && Mirror(S.geo[q], l) == S.geo[Up(T, T[j].sur, h - 1)]
    ensures Facing(T, S, j, l, q, h) && Mirror(S.geo[q], l) == S.geo[Up(T, j, h)]
  {
    hide Mirror, Child;
    assert Up(T, j, h) == Up(T, T[j].sur, h - 1);
  }

  // ---------------------------------------------------------------- two sides that meet

  lemma CornerNumber(g: Grove, nb: int, j: int, k: int)
    requires GroveOk(g, nb) && j in g.S.geo && 1 <= k <= 3
    ensures 1 <= j < |g.T| && Corner(g.S.geo[j], k) in g.S.num && Tree.Som(g.T[j], k) == g.S.num[Corner(g.S.geo[j], k)]
    ensures Lattice.Sound(g.S.geo[j])
  {
    hide Woven, Numbered, Splitting.Placed, Stocked, Corner;
    NodeIndex(g.T, g.S, j);
    NodeAt(g.T, g.S, j);
    assert CornersNamed(g.T, g.S, j);
  }

  lemma Besides(g: Grove, nb: int, j: int, l: int)
    requires GroveOk(g, nb) && IsLeaf(g, j) && 1 <= l <= 3
    ensures MidNo(g, j, l) != 0 <==> Beside(g.T, g.S, j, l)
    ensures Beside(g.T, g.S, j, l) ==> Mid(g.S.geo[j], l) in g.S.num && MidNo(g, j, l) == g.S.num[Mid(g.S.geo[j], l)]
  {
    hide Woven, Named, Splitting.Placed, Stocked, Mid, Beside, Mirror, Corner;
    MidShared(g.T, g.S, nb, j, l);
    if Mid(g.S.geo[j], l) in g.S.num {
      NumberedAt(g.T, g.S, nb, Mid(g.S.geo[j], l));
    }
  }

  /** Leaves of one size across a side. */
  lemma SameSize(g: Grove, nb: int, j: int, n: int, l: int, x: int, y: int)
    requires GroveOk(g, nb) && IsLeaf(g, j) && IsLeaf(g, n) && 1 <= l <= 3 && g.S.geo[n] == Mirror(g.S.geo[j], l)
    requires SideRun(g, j, l, x, y)
    ensures SideRun(g, n, l, y, x)
  {
    CornerNumber(g, nb, j, l);
    CornerNumber(g, nb, j, Suiv(l));
    CornerNumber(g, nb, n, l);
    CornerNumber(g, nb, n, Suiv(l));
    MirrorCorners(g.S.geo[j], l);
    AtOf(g, nb, j);
    AtOf(g, nb, n);
    Besides(g, nb, j, l);
    Besides(g, nb, n, l);
    hide GroveOk, MidNo, Mirror, Corner;
  }

  lemma AtOf(g: Grove, nb: int, j: int)
    requires GroveOk(g, nb) && j in g.S.geo
    ensures g.S.geo[j] in g.S.at && g.S.at[g.S.geo[j]] == j
  {
    hide Named, Numbered, Splitting.Placed, Stocked;
    NodeAt(g.T, g.S, j);
  }

  /** A leaf q across side l of a subdivided triangle n of its size: the halves of the side are sides
      of two sub-triangles of n. */
  lemma HalfSides(g: Grove, nb: int, q: int, n: int, l: int)
    requires GroveOk(g, nb) && IsLeaf(g, q) && Inner(g.T, g.S, n) && 1 <= l <= 3
      && g.S.geo[q] == Mirror(g.S.geo[n], l) && Mirror(g.S.geo[q], l) == g.S.geo[n]
    ensures 1 <= n < |g.T| && MidNo(g, q, l) != 0 && Sub(g.T[n], l) in g.S.geo && Sub(g.T[n], Suiv(l)) in g.S.geo
    ensures var c1, c2 := Sub(g.T[n], l), Sub(g.T[n], Suiv(l));
      && (IsLeaf(g, c1) ==> SideRun(g, c1, l, Tree.Som(g.T[q], Suiv(l)), MidNo(g, q, l)))
      && (IsLeaf(g, c2) ==> SideRun(g, c2, l, MidNo(g, q, l), Tree.Som(g.T[q], l)))
  {
    AtOf(g, nb, n);
    Besides(g, nb, q, l);
    CornerNumber(g, nb, q, l);
    CornerNumber(g, nb, q, Suiv(l));
    MirrorCorners(g.S.geo[q], l);
    HalfSide(g, nb, q, n, l, l);
    HalfSide(g, nb, q, n, l, Suiv(l));
    hide GroveOk, MidNo, Mirror, Corner, Mid, Child;
  }

  lemma HalfSide(g: Grove, nb: int, q: int, n: int, l: int, k: int)
    requires GroveOk(g, nb) && IsLeaf(g, q) && Inner(g.T, g.S, n) && 1 <= l <= 3 && (k == l || k == Suiv(l))
      && g.S.geo[q] == Mirror(g.S.geo[n], l)
    ensures 1 <= n < |g.T| && Sub(g.T[n], k) in g.S.geo && 1 <= Sub(g.T[n], k) < |g.T| && Lattice.Sound(g.S.geo[n])
    ensures var c, m := Sub(g.T[n], k), Mid(g.S.geo[n], l);
      && Corner(g.S.geo[n], k) in g.S.num && m in g.S.num
      && (if k == l then Tree.Som(g.T[c], l) == g.S.num[Corner(g.S.geo[n], l)]
                         && Tree.Som(g.T[c], Suiv(l)) == g.S.num[m]
          else Tree.Som(g.T[c], l) == g.S.num[m] && Tree.Som(g.T[c], Suiv(l)) == g.S.num[Corner(g.S.geo[n], k)])
      && (IsLeaf(g, c) ==> MidNo(g, c, l) == 0)
  {
    var c := Sub(g.T[n], k);
    KidOf(g, nb, n, k);
    CornerNumber(g, nb, n, k);
    CornerNumber(g, nb, c, l);
    CornerNumber(g, nb, c, Suiv(l));
    ChildCorners(g.S.geo[n], k);
    MirrorChild(g.S.geo[n], k, l);
    NoKid(g, nb, q, if k == l then Suiv(k) else Pre(k));
    if IsLeaf(g, c) {
      Besides(g, nb, c, l);
    }
    hide GroveOk, MidNo, Mirror, Corner, Mid, Child;
  }

  lemma KidOf(g: Grove, nb: int, n: int, k: int)
    requires GroveOk(g, nb) && Inner(g.T, g.S, n) && 0 <= k <= 3
    ensures HasChild(g.T, g.S, n, k)
  {
    hide Named, Numbered, Splitting.Placed, Stocked;
    ChildOf(g.T, g.S, n, k);
  }

  lemma NoKid(g: Grove, nb: int, q: int, k: int)
    requires GroveOk(g, nb) && IsLeaf(g, q) && 0 <= k <= 3
    ensures Child(g.S.geo[q], k) !in g.S.at
  {
    hide Named, Numbered, Splitting.Placed, Stocked, Child;
    ChildFree(g.T, g.S, q, k);
  }

  // ---------------------------------------------------------------- every side is matched

  /** Every leaf that meets the rectangle is balanced, as `tehote_` leaves it. */
  ghost predicate Even(g: Grove, rect: Box) {
    forall j | Chosen(g, rect, j) :: Balanced(g.T, g.S, j)
  }

  /** Side l of leaf j is on the border of the root, or the leaf across it does not meet the rectangle. */
  ghost predicate OnRim(g: Grove, rect: Box, j: int, l: int) {
    && j in g.S.geo
    && (Lattice.Border(g.S.geo[j], l)
        || exists q: int, h: nat :: h <= g.S.geo[j].level && Facing(g.T, g.S, j, l, q, h) && IsLeaf(g, q)
                                    && !Chosen(g, rect, q))
  }

  /** Some leaf has a side from x to y. */
  ghost predicate LeafRuns(g: Grove, x: int, y: int) {
    exists k, l :: IsLeaf(g, k) && SideRun(g, k, l, x, y)
  }

  lemma RunsFrom(g: Grove, k: int, l: int, x: int, y: int)
    requires IsLeaf(g, k) && SideRun(g, k, l, x, y)
    ensures LeafRuns(g, x, y)
  {
  }

  /** Every side of a leaf that meets the rectangle is a side of another leaf, the other way, or on
      the rim. */
  lemma Matched(g: Grove, nb: int, rect: Box, j: int, l: int, x: int, y: int)
    requires GroveOk(g, nb) && Even(g, rect) && Chosen(g, rect, j) && SideRun(g, j, l, x, y)
    ensures OnRim(g, rect, j, l) || LeafRuns(g, y, x)
  {
    hide *;
    SideNumber(g, j, l, x, y);
    ChosenParts(g, rect, j);
    EvenAt(g, rect, j);
    WovenOf(g, nb);
    if Lattice.Border(g.S.geo[j], l) {
      RimBorder(g, rect, j, l);
    } else if Mirror(g.S.geo[j], l) in g.S.at {
      MatchedSame(g, nb, j, l, x, y);
    } else {
      var q, h := Larger(g.T, g.S, j, l);
      if InRect(g.P, rect, Column(g, q)) {
        LargerLeaf(g, nb, j, l, q, h);
        ChosenFromRect(g, rect, q);
        EvenAt(g, rect, q);
        BalancedAt(g.T, g.S, q, l);
        MatchedLarger(g, nb, j, l, q, x, y);
      } else {
        LargerLeaf(g, nb, j, l, q, h);
        RimLarger(g, rect, j, l, q, h);
      }
    }
  }

  function Column(g: Grove, j: int): (r: Te) {
    if 0 <= j < |g.T| then g.T[j] else Te(0, 0, 0, 0, 0, 0, 0, 0, 0)
  }

  lemma SideNumber(g: Grove, j: int, l: int, x: int, y: int)
    requires SideRun(g, j, l, x, y)
    ensures 1 <= l <= 3 && 0 <= j < |g.T|
  {
  }

  lemma ChosenParts(g: Grove, rect: Box, j: int)
    requires Chosen(g, rect, j)
    ensures IsLeaf(g, j) && j in g.S.geo && 1 <= j < |g.T| && InRect(g.P, rect, g.T[j])
  {
    hide InRect;
  }

  lemma ChosenFromRect(g: Grove, rect: Box, j: int)
    requires IsLeaf(g, j) && InRect(g.P, rect, Column(g, j))
    ensures Chosen(g, rect, j)
  {
    hide InRect;
  }

  lemma EvenAt(g: Grove, rect: Box, j: int)
    requires Even(g, rect) && Chosen(g, rect, j)
    ensures Balanced(g.T, g.S, j)
  {
    hide Balanced, Chosen;
  }

  lemma BalancedAt(T: seq<Te>, S: Shape, j: int, l: int)
    requires Balanced(T, S, j) && 1 <= l <= 3
    ensures EvenSide(T, S, j, l)
  {
    hide EvenSide;
  }

  lemma WovenOf(g: Grove, nb: int)
    requires GroveOk(g, nb)
    ensures Woven(g.T, g.S)
  {
    hide Woven, Named, Numbered, Splitting.Placed, Stocked;
  }

  lemma RimBorder(g: Grove, rect: Box, j: int, l: int)
    requires j in g.S.geo && Lattice.Border(g.S.geo[j], l)
    ensures OnRim(g, rect, j, l)
  {
  }

  lemma RimLarger(g: Grove, rect: Box, j: int, l: int, q: int, h: nat)
    requires j in g.S.geo && Facing(g.T, g.S, j, l, q, h) && IsLeaf(g, q) && !InRect(g.P, rect, Column(g, q))
    requires h <= g.S.geo[j].level
    ensures OnRim(g, rect, j, l)
  {
    hide Facing, InRect, Lattice.Border;
  }

  lemma LargerLeaf(g: Grove, nb: int, j: int, l: int, q: int, h: nat)
    requires GroveOk(g, nb) && Facing(g.T, g.S, j, l, q, h) && h > 0
    ensures IsLeaf(g, q) && q in g.S.geo && 1 <= q < |g.T|
  {
    AtOf(g, nb, q);
    NodeOf(g, nb, q);
    hide GroveOk, Mirror;
  }

  lemma NodeOf(g: Grove, nb: int, j: int)
    requires GroveOk(g, nb) && j in g.S.geo
    ensures 1 <= j < |g.T| && (j != 1 ==> HasParent(g.T, g.S, j)) && Lattice.Sound(g.S.geo[j])
  {
    hide Named, Numbered, Splitting.Placed, Stocked;
    NodeAt(g.T, g.S, j);
  }

  /** Across the side there is a triangle of the size of j. */
  lemma MatchedSame(g: Grove, nb: int, j: int, l: int, x: int, y: int)
    requires GroveOk(g, nb) && IsLeaf(g, j) && SideRun(g, j, l, x, y) && Balanced(g.T, g.S, j)
    requires j in g.S.geo && Mirror(g.S.geo[j], l) in g.S.at
    ensures LeafRuns(g, y, x)
  {
    hide *;
    SideNumber(g, j, l, x, y);
    WovenOf(g, nb);
    AtAt(g.T, g.S, Mirror(g.S.geo[j], l));
    var n := g.S.at[Mirror(g.S.geo[j], l)];
    NodeOf(g, nb, n);
    NodeOf(g, nb, j);
    MirrorCorners(g.S.geo[j], l);
    BalancedAt(g.T, g.S, j, l);
    if g.T[n].s0 > 0 {
      InnerFrom(g, n);
      HalfSides(g, nb, j, n, l);
      EvenKids(g, nb, j, n, l);
      RunHalves(g, j, l, x, y);
      if y == MidNo(g, j, l) && x == Tree.Som(g.T[j], l) {
        RunsFrom(g, Sub(g.T[n], Suiv(l)), l, y, x);
      } else {
        RunsFrom(g, Sub(g.T[n], l), l, y, x);
      }
    } else {
      LeafIs(g, n);
      SameSize(g, nb, j, n, l, x, y);
      RunsFrom(g, n, l, y, x);
    }
  }

  lemma InnerFrom(g: Grove, n: int)
    requires n in g.S.geo && 1 <= n < |g.T| && g.T[n].s0 > 0
    ensures Inner(g.T, g.S, n)
  {
  }

  lemma LeafIs(g: Grove, n: int)
    requires n in g.S.geo && 1 <= n < |g.T| && g.T[n].s0 <= 0
    ensures IsLeaf(g, n)
  {
  }

  lemma EvenKids(g: Grove, nb: int, j: int, n: int, l: int)
    requires GroveOk(g, nb) && IsLeaf(g, j) && EvenSide(g.T, g.S, j, l) && Inner(g.T, g.S, n) && 1 <= l <= 3
    requires g.S.geo[n] == Mirror(g.S.geo[j], l) && Mirror(g.S.geo[j], l) in g.S.at
      && g.S.at[Mirror(g.S.geo[j], l)] == n
    ensures 1 <= n < |g.T| && IsLeaf(g, Sub(g.T[n], l)) && IsLeaf(g, Sub(g.T[n], Suiv(l)))
  {
    KidOf(g, nb, n, l);
    KidOf(g, nb, n, Suiv(l));
    hide GroveOk, Mirror, Child;
    assert Beside(g.T, g.S, j, l);
  }

  lemma RunHalves(g: Grove, j: int, l: int, x: int, y: int)
    requires SideRun(g, j, l, x, y) && MidNo(g, j, l) != 0
    ensures 0 <= j < |g.T|
    ensures (x == Tree.Som(g.T[j], l) && y == MidNo(g, j, l)) || (x == MidNo(g, j, l) && y == Tree.Som(g.T[j], Suiv(l)))
  {
    hide MidNo;
  }

  /** Across the side there is a leaf q twice as large. */
  lemma MatchedLarger(g: Grove, nb: int, j: int, l: int, q: int, x: int, y: int)
    requires GroveOk(g, nb) && IsLeaf(g, j) && IsLeaf(g, q) && SideRun(g, j, l, x, y)
    requires Facing(g.T, g.S, j, l, q, 1) && Mirror(g.S.geo[q], l) == g.S.geo[Up(g.T, j, 1)]
    requires j in g.S.geo && Mirror(g.S.geo[j], l) !in g.S.at && !Lattice.Border(g.S.geo[j], l)
    ensures LeafRuns(g, y, x)
  {
    hide *;
    SideNumber(g, j, l, x, y);
    LeafIndex(g, q);
    LeafIndex(g, j);
    var p := OneAbove(g, nb, j, l, q);
    HalfSides(g, nb, q, p, l);
    Besides(g, nb, j, l);
    NotBeside(g.T, g.S, j, l);
    RunWhole(g, j, l, x, y);
    RunOfHalf(g, j, l, q, x, y);
    RunsFrom(g, q, l, y, x);
  }

  lemma OneAbove(g: Grove, nb: int, j: int, l: int, q: int) returns (p: int)
    requires GroveOk(g, nb) && IsLeaf(g, j) && 1 <= l <= 3 && j in g.S.geo && !Lattice.Border(g.S.geo[j], l)
    requires Facing(g.T, g.S, j, l, q, 1) && Mirror(g.S.geo[q], l) == g.S.geo[Up(g.T, j, 1)]
    ensures q in g.S.geo && Inner(g.T, g.S, p) && g.S.geo[q] == Mirror(g.S.geo[p], l)
      && Mirror(g.S.geo[q], l) == g.S.geo[p]
    ensures 1 <= p < |g.T| && (Sub(g.T[p], l) == j || Sub(g.T[p], Suiv(l)) == j)
  {
    NodeOf(g, nb, j);
    WovenOf(g, nb);
    hide GroveOk, Mirror, Child, Woven;
    p := g.T[j].sur;
    assert Up(g.T, j, 1) == Up(g.T, p, 0) == p;
    if j == 1 {
      RootBorder(g.T, g.S, l);
      assert false;
    }
  }

  lemma NotBeside(T: seq<Te>, S: Shape, j: int, l: int)
    requires j in S.geo && Mirror(S.geo[j], l) !in S.at
    ensures !Beside(T, S, j, l)
  {
  }

  lemma RunWhole(g: Grove, j: int, l: int, x: int, y: int)
    requires SideRun(g, j, l, x, y) && MidNo(g, j, l) == 0
    ensures 0 <= j < |g.T| && x == Tree.Som(g.T[j], l) && y == Tree.Som(g.T[j], Suiv(l))
  {
    hide MidNo;
  }

  /** A side of j that is half of side l of q. */
  lemma RunOfHalf(g: Grove, j: int, l: int, q: int, x: int, y: int)
    requires IsLeaf(g, j) && IsLeaf(g, q) && 1 <= l <= 3 && MidNo(g, q, l) != 0 && MidNo(g, j, l) == 0
    requires 0 <= j < |g.T| && x == Tree.Som(g.T[j], l) && y == Tree.Som(g.T[j], Suiv(l))
    requires 0 <= q < |g.T|
      && (SideRun(g, j, l, Tree.Som(g.T[q], Suiv(l)), MidNo(g, q, l))
          || SideRun(g, j, l, MidNo(g, q, l), Tree.Som(g.T[q], l)))
    ensures SideRun(g, q, l, y, x)
  {
    hide MidNo;
  }
}
