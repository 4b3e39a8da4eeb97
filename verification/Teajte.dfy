/** `teajte_`: the tree over a set of points, and what the tree says about points and vertices. */
module Teajte {
  import opened Lists
  import opened Geometry
  import opened Delaunay
  import opened Lattice
  import opened Tree
  import opened Splitting
  import opened Leaves
  import opened Quadtree

  /** The box from (xmin, ymin) to (xmax, ymax). */
  datatype Box = Box(xmin: real, ymin: real, xmax: real, ymax: real)

  predicate InBox(b: Box, p: Point) {
    b.xmin <= p.x <= b.xmax && b.ymin <= p.y <= b.ymax
  }

  function Min(x: real, y: real): (r: real) {
    if x < y then x else y
  }

  function Max(x: real, y: real): (r: real) {
    if x > y then x else y
  }

  /** The side of the root: wide enough for the box and a margin. rac3 is the square root of 3. */
  function Arete(b: Box, aretmx: real, rac3: real): (r: real)
    requires rac3 > 0.0
  {
    (b.xmax - b.xmin) + aretmx * 2.0 + Ratio((b.ymax - b.ymin + aretmx) * 2.0, rac3)
  }

  function CornerLeft(b: Box, aretmx: real, arete: real): (r: Point) {
    Point((b.xmin + b.xmax) * 0.5 - arete * 0.5, b.ymin - aretmx)
  }

  function CornerRight(a: Point, arete: real): (r: Point) {
    Point(a.x + arete, a.y)
  }

  function CornerTop(a: Point, arete: real, rac3: real): (r: Point) {
    Point(a.x + arete * 0.5, a.y + arete * 0.5 * rac3)
  }

  /** The height of a slope of steepness r above x. */
  function Height(x: real, r: real): (res: real) {
    x * r
  }

  /** r is the square root of 3. */
  predicate Root3(r: real) {
    r > 0.0 && r * r == 3.0
  }

  /** The equilateral triangle over the box holds the box. */
  lemma RootHolds(b: Box, aretmx: real, rac3: real, p: Point)
    requires Root3(rac3) && aretmx > 0.0 && InBox(b, p)
    ensures var arete := Arete(b, aretmx, rac3);
            var a := CornerLeft(b, aretmx, arete);
            var q, r := CornerRight(a, arete), CornerTop(a, arete, rac3);
            arete > 0.0 && Area(a, q, r) > 0.0 && In(p, a, q, r)
  {
    RootPositive(rac3);
    hide *;
    var arete := Arete(b, aretmx, rac3);
    var a := CornerLeft(b, aretmx, arete);
    var w := (b.ymax - b.ymin + aretmx) * 2.0;
    var h := Ratio(w, rac3);
    BoxHigh(b, p);
    RatioPositive(w, rac3);
    AreteIs(b, aretmx, rac3);
    BoxMargins(b, aretmx, h, arete, p);
    EquilateralHolds(a, arete, rac3, p);
    Margin(aretmx, h, rac3, w);
    InMargin(aretmx + h * 0.5, p.x - a.x, arete - (p.x - a.x), p.y - a.y, rac3, w * 0.5);
  }

  lemma BoxHigh(b: Box, p: Point)
    requires InBox(b, p)
    ensures b.ymin <= b.ymax
  {
  }

  lemma AreteIs(b: Box, aretmx: real, rac3: real)
    requires rac3 > 0.0
    ensures Arete(b, aretmx, rac3)
         == (b.xmax - b.xmin) + aretmx * 2.0 + Ratio((b.ymax - b.ymin + aretmx) * 2.0, rac3)
  {
    hide Ratio;
  }

  lemma BoxMargins(b: Box, e: real, h: real, arete: real, p: Point)
    requires arete == (b.xmax - b.xmin) + e * 2.0 + h && InBox(b, p) && e > 0.0 && h > 0.0
    ensures var a := CornerLeft(b, e, arete);
            arete > 0.0 && e + h * 0.5 <= p.x - a.x && e + h * 0.5 <= arete - (p.x - a.x)
              && 0.0 <= p.y - a.y <= b.ymax - b.ymin + e
  {
  }

  lemma InMargin(m: real, u: real, u': real, v: real, r: real, w: real)
    requires r > 0.0 && m <= u && m <= u' && Height(m, r) >= w && v <= w
    ensures v <= Height(u, r) && v <= Height(u', r)
  {
    Grow(m, u, r);
    Grow(m, u', r);
  }

  lemma Margin(e: real, h: real, r: real, w: real)
    requires e > 0.0 && r > 0.0 && h * r == w
    ensures Height(e + h * 0.5, r) >= w * 0.5
  {
    assert e * r > 0.0;
    assert (e + h * 0.5) * r == e * r + h * r * 0.5;
  }

  lemma RatioPositive(n: real, d: real)
    requires d > 0.0 && n > 0.0
    ensures Ratio(n, d) > 0.0
  {
    NotPositive(Ratio(n, d), d);
  }

  lemma NotPositive(x: real, d: real)
    requires d > 0.0
    ensures x <= 0.0 ==> x * d <= 0.0
  {
  }

  lemma Grow(x: real, y: real, r: real)
    requires x <= y && r > 0.0
    ensures x * r <= y * r
  {
  }

  /** In coordinates: above the base, below the two slopes. */
  lemma EquilateralHolds(a: Point, arete: real, rac3: real, p: Point)
    requires rac3 > 0.0 && arete > 0.0
    ensures var q, r := CornerRight(a, arete), CornerTop(a, arete, rac3);
            && Area(a, q, r) > 0.0
            && (p.y >= a.y && p.y - a.y <= Height(p.x - a.x, rac3) && p.y - a.y <= Height(arete - (p.x - a.x), rac3) ==>
              In(p, a, q, r))
  {
    var q, r := Point(a.x + arete, a.y), Point(a.x + arete * 0.5, a.y + arete * 0.5 * rac3);
    var u, v := p.x - a.x, p.y - a.y;
    hide Area;
    BaseArea(a, arete, rac3);
    SideAreas(a, arete, rac3, p);
    if v >= 0.0 && v <= u * rac3 && v <= (arete - u) * rac3 {
      Times(arete, v);
      Times(arete, u * rac3 - v);
      Times(arete, (arete - u) * rac3 - v);
    }
  }

  lemma Times(x: real, y: real)
    requires x > 0.0 && y >= 0.0
    ensures x * y >= 0.0
  {
  }

  lemma BaseArea(a: Point, e: real, r: real)
    requires e > 0.0 && r > 0.0
    ensures Area(a, Point(a.x + e, a.y), Point(a.x + e * 0.5, a.y + e * 0.5 * r)) > 0.0
  {
    var x := e * r;
    assert x > 0.0;
    assert e * x > 0.0;
    assert Area(a, Point(a.x + e, a.y), Point(a.x + e * 0.5, a.y + e * 0.5 * r)) == e * x * 0.25;
  }

  lemma SideAreas(a: Point, e: real, r: real, p: Point)
    ensures var q, t := Point(a.x + e, a.y), Point(a.x + e * 0.5, a.y + e * 0.5 * r);
            && Area(a, q, p) == 0.5 * (e * (p.y - a.y))
            && Area(t, a, p) == 0.25 * (e * ((p.x - a.x) * r - (p.y - a.y)))
            && Area(q, t, p) == 0.25 * (e * ((e - (p.x - a.x)) * r - (p.y - a.y)))
  {
  }

  /** The box grown to hold the first n points of P. */
  function ExtentOf(P: seq<Point>, n: nat, box: Box): (b: Box)
    requires n < |P|
    ensures b.xmin <= box.xmin && box.xmax <= b.xmax && b.ymin <= box.ymin && box.ymax <= b.ymax
    ensures forall i | 1 <= i <= n :: InBox(b, P[i])
  {
    if n == 0 then box
    else
      var c := ExtentOf(P, n - 1, box);
      Box(Min(c.xmin, P[n].x), Min(c.ymin, P[n].y), Max(c.xmax, P[n].x), Max(c.ymax, P[n].y))
  }

  method Extent(pxyd: array<Point>, n: int, box: Box) returns (b: Box)
    requires 0 <= n < pxyd.Length && box.xmin <= box.xmax && box.ymin <= box.ymax
    ensures b == ExtentOf(pxyd[..], n, box)
  {
    b := box;
    for i := 1 to n + 1
      invariant b == ExtentOf(pxyd[..], i - 1, box)
    {
      b := Box(Min(b.xmin, pxyd[i].x), Min(b.ymin, pxyd[i].y), Max(b.xmax, pxyd[i].x), Max(b.ymax, pxyd[i].y));
    }
  }

  /** A side of the box is less than a ten thousandth of its diagonal. */
  predicate Slim(b: Box) {
    var a0, a1 := b.xmax - b.xmin, b.ymax - b.ymin;
    a0 * a0 * 1e8 < a0 * a0 + a1 * a1 || a1 * a1 * 1e8 < a0 * a0 + a1 * a1
  }

  /** A side of a slim box is less than a ten thousandth of its diagonal. */
  lemma SlimExact(b: Box)
    ensures var d := Dist2(Point(b.xmin, b.ymin), Point(b.xmax, b.ymax));
      Slim(b) <==> || 10000.0 * (b.xmax - b.xmin) * (10000.0 * (b.xmax - b.xmin)) < d
                   || 10000.0 * (b.ymax - b.ymin) * (10000.0 * (b.ymax - b.ymin)) < d
  {
  }

  /** The box is the smallest one around the box and the points. */
  lemma {:induction false} ExtentTight(P: seq<Point>, n: nat, box: Box)
    requires n < |P|
    ensures var b := ExtentOf(P, n, box);
      && (b.xmin == box.xmin || exists i :: 1 <= i <= n && P[i].x == b.xmin)
      && (b.ymin == box.ymin || exists i :: 1 <= i <= n && P[i].y == b.ymin)
      && (b.xmax == box.xmax || exists i :: 1 <= i <= n && P[i].x == b.xmax)
      && (b.ymax == box.ymax || exists i :: 1 <= i <= n && P[i].y == b.ymax)
  {
    if n > 0 {
      ExtentTight(P, n - 1, box);
      assert P[n].x == P[n].x && P[n].y == P[n].y;
    }
  }

  /** `teajte_`: the tree over the first nbsomm points of pxyd, every one of them in the leaf that
      holds it.  rac3 is the square root of 3, box the box to start from. */
  method Teajte(mxtree: nat, mxsomm: nat, pxyd: array<Point>, nbsomm: nat, box: Box, aretmx: real, rac3: real)
      returns (tree: Quadtree?, ierr: int)
    requires mxtree >= 2 && pxyd.Length == mxsomm + 1 && nbsomm + 3 <= mxsomm
    requires box.xmin <= box.xmax && box.ymin <= box.ymax && aretmx > 0.0 && Root3(rac3)
    modifies pxyd
    ensures ierr == 0 || ierr == 7 || ierr == 51 || ierr == 52
    ensures ierr == 7 <==> Slim(ExtentOf(old(pxyd[..]), nbsomm, box))
    ensures ierr == 51 ==> tree != null && |tree.free| < 4 && 3 * mxtree <= 12 + 8 * mxsomm
    ensures ierr == 52 ==> tree != null && tree.nbsomm == mxsomm
    ensures ierr == 0 ==> tree != null && fresh(tree) && tree.pxyd == pxyd && tree.Valid()
    ensures ierr == 0 ==> forall q :: q in tree.home <==> 1 <= q <= nbsomm
    ensures ierr == 0 ==> forall v | v in tree.S.pt :: nbsomm < v <= tree.nbsomm
    ensures ierr == 0 ==> Over(pxyd[..], tree.letree[1], ExtentOf(old(pxyd[..]), nbsomm, box), aretmx)
    ensures ierr == 0 ==> forall j | Inner(tree.letree[..], tree.S, j) ::
                          Crowded(pxyd[..], tree.letree[j], PointsTo(nbsomm))
    ensures ierr == 0 ==> tree.mxtree == mxtree && tree.mxsomm == mxsomm && fresh(tree.letree)
    ensures ierr == 0 ==> tree.nbsomm >= nbsomm
                          && forall q | 1 <= q <= nbsomm :: Holds(pxyd[..], tree.letree[1], q)
    ensures Extends(old(pxyd[..]), pxyd[..], nbsomm)
  {
    hide *;
    tree := null;
    ExtendsNone(pxyd[..], nbsomm);
    var b := Extent(pxyd, nbsomm, box);
    if Slim(b) {
      return tree, 7;
    }
    ExtentHolds(pxyd[..], nbsomm, box);
    assert forall i | 1 <= i <= nbsomm :: pxyd[i] == pxyd[..][i];
    ghost var P := pxyd[..];
    tree := RootTree(mxtree, mxsomm, pxyd, nbsomm, b, aretmx, rac3);
    ghost var P1, S1, t1 := pxyd[..], tree.S, tree.letree[1];
    ierr := AddPoints(tree, nbsomm);
    ExtendsTwice(P, P1, pxyd[..], nbsomm, nbsomm + 3);
    if ierr == 0 {
      StillOver(P1, t1, pxyd[..], tree.letree[1], b, aretmx);
      NumbersAbove(S1, tree.S, nbsomm, nbsomm + 3, tree.nbsomm);
    }
  }

  lemma NumbersAbove(S: Shape, S': Shape, n: int, nb: int, nb': int)
    requires NewNumbers(S, S', nb, nb') && n <= nb <= nb' && forall v | v in S.pt :: n < v <= nb
    ensures forall v | v in S'.pt :: n < v <= nb'
  {
  }

  lemma ExtentHolds(P: seq<Point>, n: nat, box: Box)
    requires n < |P| && box.xmin <= box.xmax && box.ymin <= box.ymax
    ensures var b := ExtentOf(P, n, box); b.xmin <= b.xmax && b.ymin <= b.ymax && forall i | 1 <= i <= n ::
                                          InBox(b, P[i])
  {
  }

  /** The tree with the root alone, the equilateral triangle over the box b. */
  method RootTree(mxtree: nat, mxsomm: nat, pxyd: array<Point>, nbsomm: nat, b: Box, aretmx: real, rac3: real)
      returns (tree: Quadtree)
    requires mxtree >= 2 && pxyd.Length == mxsomm + 1 && nbsomm + 3 <= mxsomm
    requires b.xmin <= b.xmax && b.ymin <= b.ymax && aretmx > 0.0 && Root3(rac3)
    requires forall i | 1 <= i <= nbsomm :: InBox(b, pxyd[i])
    modifies pxyd
    ensures fresh(tree) && fresh(tree.letree) && tree.pxyd == pxyd && tree.mxtree == mxtree && tree.mxsomm == mxsomm
    ensures tree.Valid() && tree.nbsomm == nbsomm + 3 && tree.home == map[] && tree.letree.Length == mxtree + 1
    ensures forall v | v in tree.S.pt :: nbsomm < v <= nbsomm + 3
    ensures Over(pxyd[..], tree.letree[1], b, aretmx)
    ensures forall j :: !Inner(tree.letree[..], tree.S, j)
    ensures Extends(old(pxyd[..]), pxyd[..], nbsomm)
    ensures forall i | 1 <= i <= nbsomm :: Holds(pxyd[..], tree.letree[1], i)
  {
    hide TreeOk, Area, Arete, CornerLeft, CornerRight, CornerTop, In, Holds, InBox, Root3, Over;
    RootPositive(rac3);
    var arete := Arete(b, aretmx, rac3);
    var p1 := CornerLeft(b, aretmx, arete);
    var p2, p3 := CornerRight(p1, arete), CornerTop(p1, arete, rac3);
    BoxCorner(b);
    RootHolds(b, aretmx, rac3, Point(b.xmin, b.ymin));
    tree := new Quadtree(mxtree, mxsomm, pxyd, nbsomm, p1, p2, p3);
    RootUpright(pxyd[..], tree.letree[1], b, aretmx, rac3);
    forall i | 1 <= i <= nbsomm ensures Holds(pxyd[..], tree.letree[1], i) {
      RootHolds(b, aretmx, rac3, pxyd[i]);
      HoldsIn(pxyd[..], tree.letree[1], i);
    }
  }

  /** The root stands on its first side, with the third corner above the middle. */
  predicate Upright(P: seq<Point>, t: Te) {
    var p1, p2, p3 := PointOf(P, t.v1), PointOf(P, t.v2), PointOf(P, t.v3);
    p1.x <= p2.x && p3.x * 2.0 == p1.x + p2.x && p1.y == p2.y <= p3.y
  }

  /** The three sides of t are equally long. */
  predicate Equilateral(P: seq<Point>, t: Te) {
    var p1, p2, p3 := PointOf(P, t.v1), PointOf(P, t.v2), PointOf(P, t.v3);
    Dist2(p1, p2) == Dist2(p2, p3) && Dist2(p2, p3) == Dist2(p3, p1)
  }

  /** The slopes of t pass the upper corners of the box a wished length away. */
  predicate Snug(P: seq<Point>, t: Te, b: Box, aretmx: real) {
    var p1, p2, p3 := PointOf(P, t.v1), PointOf(P, t.v2), PointOf(P, t.v3);
    Area(p1, p3, Point(b.xmin - aretmx, b.ymax)) == 0.0 && Area(p2, p3, Point(b.xmax + aretmx, b.ymax)) == 0.0
  }

  /** The root t is the equilateral triangle on a base a wished length below the box b, with slopes that
      pass the box at that distance; it holds the box. */
  ghost predicate Over(P: seq<Point>, t: Te, b: Box, aretmx: real) {
    && Upright(P, t) && Equilateral(P, t) && Snug(P, t, b, aretmx) && PointOf(P, t.v1).y == b.ymin - aretmx
    && forall z | InBox(b, z) :: In(z, PointOf(P, t.v1), PointOf(P, t.v2), PointOf(P, t.v3))
  }

  lemma RootUpright(P: seq<Point>, t: Te, b: Box, aretmx: real, rac3: real)
    requires Root3(rac3) && aretmx > 0.0 && b.xmin <= b.xmax && b.ymin <= b.ymax
    requires var arete := Arete(b, aretmx, rac3); var a := CornerLeft(b, aretmx, arete);
      PointOf(P, t.v1) == a && PointOf(P, t.v2) == CornerRight(a, arete)
        && PointOf(P, t.v3) == CornerTop(a, arete, rac3)
    ensures Over(P, t, b, aretmx)
  {
    hide *;
    RootPositive(rac3);
    var arete := Arete(b, aretmx, rac3);
    BoxCorner(b);
    RootHolds(b, aretmx, rac3, Point(b.xmin, b.ymin));
    forall z | InBox(b, z) ensures In(z, PointOf(P, t.v1), PointOf(P, t.v2), PointOf(P, t.v3)) {
      RootHolds(b, aretmx, rac3, z);
    }
    RootEqual(P, t, PointOf(P, t.v1), arete, rac3);
    RootSnug(P, t, b, aretmx, arete, rac3);
    RootStands(P, t, b, aretmx, arete, rac3);
  }

  lemma RootEqual(P: seq<Point>, t: Te, a: Point, arete: real, rac3: real)
    requires PointOf(P, t.v1) == a && PointOf(P, t.v2) == CornerRight(a, arete) && Root3(rac3)
    requires PointOf(P, t.v3) == CornerTop(a, arete, rac3)
    ensures Equilateral(P, t)
  {
    var h := arete * 0.5;
    hide PointOf;
    assert h * rac3 * (h * rac3) == h * h * (rac3 * rac3);
  }

  lemma RootSnug(P: seq<Point>, t: Te, b: Box, aretmx: real, arete: real, rac3: real)
    requires Root3(rac3) && arete == Arete(b, aretmx, rac3) && PointOf(P, t.v1) == CornerLeft(b, aretmx, arete)
    requires PointOf(P, t.v2) == CornerRight(PointOf(P, t.v1), arete)
    requires PointOf(P, t.v3) == CornerTop(PointOf(P, t.v1), arete, rac3)
    ensures Snug(P, t, b, aretmx)
  {
    var w := b.ymax - b.ymin + aretmx;
    var h := Ratio(w * 2.0, rac3) * 0.5;
    assert h * rac3 == w;
    hide PointOf, Ratio;
    var p1 := PointOf(P, t.v1);
    assert b.xmin - aretmx - p1.x == h && b.ymax - p1.y == w;
    assert PointOf(P, t.v2).x - (b.xmax + aretmx) == h;
    SlopeUp(h, w, arete * 0.5, rac3);
  }

  /** A point h along and w up is on a slope of steepness r. */
  lemma SlopeUp(h: real, w: real, c: real, r: real)
    requires h * r == w
    ensures c * w == c * r * h
  {
  }

  lemma RootStands(P: seq<Point>, t: Te, b: Box, aretmx: real, arete: real, rac3: real)
    requires PointOf(P, t.v1) == CornerLeft(b, aretmx, arete)
      && PointOf(P, t.v2) == CornerRight(PointOf(P, t.v1), arete)
    requires PointOf(P, t.v3) == CornerTop(PointOf(P, t.v1), arete, rac3) && rac3 > 0.0 && arete > 0.0
    requires forall z | InBox(b, z) :: In(z, PointOf(P, t.v1), PointOf(P, t.v2), PointOf(P, t.v3))
    requires Equilateral(P, t) && Snug(P, t, b, aretmx)
    ensures Over(P, t, b, aretmx)
  {
    hide Equilateral, Snug;
    Times(arete * 0.5, rac3);
    hide PointOf, In, InBox;
  }

  /** The corners of t and t' are the same points. */
  predicate SamePlaces(P: seq<Point>, t: Te, P': seq<Point>, t': Te) {
    && PointOf(P', t'.v1) == PointOf(P, t.v1) && PointOf(P', t'.v2) == PointOf(P, t.v2)
    && PointOf(P', t'.v3) == PointOf(P, t.v3)
  }

  lemma StillOver(P: seq<Point>, t: Te, P': seq<Point>, t': Te, b: Box, aretmx: real)
    requires SamePlaces(P, t, P', t') && Over(P, t, b, aretmx)
    ensures Over(P', t', b, aretmx)
  {
    hide In, InBox, PointOf;
  }

  lemma StillPlaces(P: seq<Point>, P': seq<Point>, nb: int, t: Te, t': Te)
    requires Extends(P, P', nb) && SameTriangle(t', t)
    requires 1 <= t.v1 <= nb && 1 <= t.v2 <= nb && 1 <= t.v3 <= nb
    ensures SamePlaces(P, t, P', t')
  {
  }

  lemma RootPositive(r: real)
    requires Root3(r)
    ensures r > 0.0
  {
  }

  lemma BoxCorner(b: Box)
    requires b.xmin <= b.xmax && b.ymin <= b.ymax
    ensures InBox(b, Point(b.xmin, b.ymin))
  {
  }

  /** The points 1 to n are added one after the other. */
  method AddPoints(tree: Quadtree, n: nat) returns (ierr: int)
    requires tree.Valid() && tree.home == map[] && n <= tree.nbsomm && tree.mxtree > 0
    requires forall j :: !Inner(tree.letree[..], tree.S, j)
    requires forall i | 1 <= i <= n :: Holds(tree.pxyd[..], tree.letree[1], i)
    modifies tree`nbsomm, tree`S, tree`free, tree`home, tree.letree, tree.pxyd
    ensures ierr == 0 || ierr == 51 || ierr == 52
    ensures (ierr == 51 ==> |tree.free| < 4 && 3 * tree.mxtree <= 12 + 8 * tree.mxsomm)
      && (ierr == 52 ==> tree.nbsomm == tree.mxsomm)
    ensures ierr == 0 ==> tree.Valid() && forall q :: q in tree.home <==> 1 <= q <= n
    ensures ierr == 0 ==> NewNumbers(old(tree.S), tree.S, old(tree.nbsomm), tree.nbsomm)
                          && tree.nbsomm >= old(tree.nbsomm)
    ensures ierr == 0 ==> forall i | 1 <= i <= n :: Holds(tree.pxyd[..], tree.letree[1], i)
    ensures ierr == 0 ==> forall j | Inner(tree.letree[..], tree.S, j) ::
                          Crowded(tree.pxyd[..], tree.letree[j], PointsTo(n))
    ensures ierr == 0 ==> SamePlaces(old(tree.pxyd[..]), old(tree.letree[1]), tree.pxyd[..], tree.letree[1])
    ensures Extends(old(tree.pxyd[..]), tree.pxyd[..], old(tree.nbsomm))
  {
    hide TreeOk, Holds, NewNumbers, SamePlaces, AllCrowded, Crowded, Inner, Columned;
    CrowdedNone(tree.letree[..], tree.S, tree.pxyd[..], PointsTo(n));
    ghost var T0, S0 := tree.letree[..], tree.S;
    NewNone(tree.S, tree.nbsomm);
    ierr := 0;
    ghost var P, t, nb := tree.pxyd[..], tree.letree[1], tree.nbsomm;
    RootIn(tree.letree[..], tree.S, P, nb, tree.free, tree.home);
    RootCornersOld(tree.letree[..], tree.S, P, nb, tree.free, tree.home);
    for i := 1 to n + 1
      invariant tree.Valid() && forall q :: q in tree.home <==> 1 <= q < i
      invariant AllCrowded(T0, S0, tree.letree[..], tree.S, tree.pxyd[..], PointsTo(n))
      invariant NewNumbers(old(tree.S), tree.S, nb, tree.nbsomm)
      invariant tree.nbsomm >= nb && Extends(P, tree.pxyd[..], nb) && SameTriangle(tree.letree[1], t)
    {
      StillHolds(P, tree.pxyd[..], nb, t, tree.letree[1], i);
      var nt;
      ghost var S1, nb1 := tree.S, tree.nbsomm;
      nt, ierr := tree.Teajpt(i, T0, S0, PointsTo(n));
      if ierr != 0 {
        return;
      }
      NewTwice(old(tree.S), S1, tree.S, nb, nb1, tree.nbsomm);
    }
    CrowdedEnd(T0, S0, tree.letree[..], tree.S, tree.pxyd[..], PointsTo(n));
    StillPlaces(P, tree.pxyd[..], nb, t, tree.letree[1]);
    forall i | 1 <= i <= n ensures Holds(tree.pxyd[..], tree.letree[1], i) {
      StillHolds(P, tree.pxyd[..], nb, t, tree.letree[1], i);
    }
  }

  /** The points 1 to n. */
  ghost function PointsTo(n: nat): (r: set<int>)
    ensures forall q :: q in r <==> 1 <= q <= n
  {
    if n == 0 then {} else PointsTo(n - 1) + {n}
  }

  lemma CrowdedEnd(T0: seq<Te>, S0: Shape, T: seq<Te>, S: Shape, P: seq<Point>, points: set<int>)
    requires AllCrowded(T0, S0, T, S, P, points) && forall j :: !Inner(T0, S0, j)
    ensures forall j | Inner(T, S, j) :: 0 <= j < |T| && Crowded(P, T[j], points)
  {
    hide Crowded;
  }

  lemma RootCornersOld(T: seq<Te>, S: Shape, P: seq<Point>, nb: int, free: seq<int>, home: map<int, int>)
    requires TreeOk(T, S, P, nb, free, home)
    ensures |T| > 1 && 1 <= T[1].v1 <= nb && 1 <= T[1].v2 <= nb && 1 <= T[1].v3 <= nb
  {
    hide Stocked, FreeOk, Placed;
    NodeIndex(T, S, 1);
    SameCorners(T, S, P, P, nb, 1);
  }

  lemma StillHolds(P: seq<Point>, P': seq<Point>, nb: int, t: Te, t': Te, q: int)
    requires Extends(P, P', nb) && SameTriangle(t', t) && 1 <= q <= nb && Holds(P, t, q)
    requires 1 <= t.v1 <= nb && 1 <= t.v2 <= nb && 1 <= t.v3 <= nb
    ensures Holds(P', t', q)
  {
  }

  lemma HoldsIn(P: seq<Point>, t: Te, q: int)
    ensures In(PointOf(P, q), PointOf(P, t.v1), PointOf(P, t.v2), PointOf(P, t.v3)) <==> Holds(P, t, q)
  {
  }

  // ---------------------------------------------------------------- what the tree says

  /** Two triangles of the same size that share a side have the same vertices on it. */
  lemma SharedSide(T: seq<Te>, S: Shape, i: int, j: int, l: int)
    requires Woven(T, S) && Named(T, S) && i in S.geo && j in S.geo && 1 <= l <= 3 && S.geo[j] == Mirror(S.geo[i], l)
    ensures 1 <= i < |T| && 1 <= j < |T|
    ensures Som(T[j], l) == Som(T[i], Suiv(l)) && Som(T[j], Suiv(l)) == Som(T[i], l)
  {
    hide Woven, Corner, Mirror;
    NodeIndex(T, S, i);
    NodeIndex(T, S, j);
    NodeAt(T, S, i);
    MirrorCorners(S.geo[i], l);
    assert CornersNamed(T, S, i) && CornersNamed(T, S, j);
  }

  /** Anywhere in the tree, two corners have the same vertex exactly when they are the same point:
      no vertex is made twice. */
  lemma SameVertex(T: seq<Te>, S: Shape, nb: int, i: int, k: int, j: int, m: int)
    requires Woven(T, S) && Named(T, S) && Numbered(T, S, nb) && i in S.geo && j in S.geo && 1 <= k <= 3 && 1 <= m <= 3
    ensures 1 <= i < |T| && 1 <= j < |T|
    ensures Som(T[i], k) == Som(T[j], m) <==> Corner(S.geo[i], k) == Corner(S.geo[j], m)
  {
    hide Woven, Corner;
    NodeIndex(T, S, i);
    NodeIndex(T, S, j);
    assert CornersNamed(T, S, i) && CornersNamed(T, S, j);
    assert PtOk(T, S, nb, Corner(S.geo[i], k)) && PtOk(T, S, nb, Corner(S.geo[j], m));
  }

  /** Every point is in one slot of one leaf, and that leaf holds it. */
  lemma OneLeaf(T: seq<Te>, S: Shape, P: seq<Point>, nb: int, home: map<int, int>, q: int) returns (slot: int)
    requires Woven(T, S) && Stocked(T, S, P, nb, home) && q in home
    ensures 0 <= slot <= 3 && 1 <= home[q] < |T| && home[q] in S.geo && !Inner(T, S, home[q]) && Holds(P, T[home[q]], q)
    ensures forall j, k | j in S.geo && 1 <= j < |T| && !Inner(T, S, j) && 0 <= k <= 3 ::
      Sub(T[j], k) == -q <==> j == home[q] && k == slot
  {
    hide Woven, Holds;
    assert HomeOk(T, S, home, nb, q);
    var h := home[q];
    assert LeafOk(T, P, home, h);
    slot := if T[h].s0 == -q then 0 else if T[h].s1 == -q then 1 else if T[h].s2 == -q then 2 else 3;
    assert Sub(T[h], slot) == -q;
    forall j, k | j in S.geo && 1 <= j < |T| && !Inner(T, S, j) && 0 <= k <= 3
      ensures Sub(T[j], k) == -q <==> j == h && k == slot
    {
      assert LeafOk(T, P, home, j);
    }
  }

  /** Reading the slots of a leaf up to the first empty one reads them all. */
  lemma NoneAfterEmpty(T: seq<Te>, S: Shape, P: seq<Point>, nb: int, home: map<int, int>, j: int, k: int, m: int)
    requires Stocked(T, S, P, nb, home) && j in S.geo && 1 <= j < |T| && !Inner(T, S, j)
    requires 0 <= k <= m <= 3 && Sub(T[j], k) == 0
    ensures Sub(T[j], m) == 0
  {
    hide Holds;
    assert LeafOk(T, P, home, j);
  }
}
