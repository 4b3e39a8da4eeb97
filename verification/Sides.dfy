/** A side of a small triangle of the tree as part of the side of a larger one. */
module Sides {
  import opened Geometry
  import opened Planar
  import opened Delaunay
  import opened Lattice
  import opened Tree
  import opened Splitting
  import opened Leaves
  import opened Quadtree
  import opened Teajte
  import opened Tehote
  import opened Leafmesh
  import opened Regions
  import opened Tiling
  import opened Trpite
  import opened Mosaic
  import opened Paving
  import opened Tetrte
  import opened Conform

  // ---------------------------------------------------------------- parts of a segment

  /** From c to d is a part of the way from a to b. */
  ghost predicate Part(a: Point, b: Point, c: Point, d: Point) {
    exists t: real, r: real :: 0.0 <= t < r <= 1.0 && c == Towards(a, b, t) && d == Towards(a, b, r)
  }

  lemma PartSelf(a: Point, b: Point)
    ensures Part(a, b, a, b)
  {
    assert Towards(a, b, 0.0) == a && Towards(a, b, 1.0) == b;
  }

  lemma PartHalf(a: Point, b: Point, c: Point, d: Point)
    requires Part(a, b, c, d)
    ensures Part(a, b, c, Middle(c, d)) && Part(a, b, Middle(c, d), d)
  {
    var t, r :| 0.0 <= t < r <= 1.0 && c == Towards(a, b, t) && d == Towards(a, b, r);
    var m := (t + r) * 0.5;
    MidTowards(a, b, t, r);
    assert 0.0 <= t < m < r <= 1.0;
    hide Towards, Middle;
  }

  lemma MidTowards(a: Point, b: Point, t: real, r: real)
    ensures Middle(Towards(a, b, t), Towards(a, b, r)) == Towards(a, b, (t + r) * 0.5)
  {
  }

  /** Seen from p, the part turns the same way as the whole. */
  lemma PartSees(a: Point, b: Point, c: Point, d: Point, p: Point)
    requires Part(a, b, c, d)
    ensures Area(a, b, p) > 0.0 ==> Area(c, d, p) > 0.0
    ensures Area(a, b, p) < 0.0 ==> Area(c, d, p) < 0.0
  {
    var t, r :| 0.0 <= t < r <= 1.0 && c == Towards(a, b, t) && d == Towards(a, b, r);
    PartArea(a, b, t, r, p);
    Positive(r - t, Area(a, b, p));
  }

  lemma PartArea(a: Point, b: Point, t: real, r: real, p: Point)
    ensures Area(Towards(a, b, t), Towards(a, b, r), p) == (r - t) * Area(a, b, p)
  {
    var c, ux, uy := Towards(a, b, t), b.x - a.x, b.y - a.y;
    var vx, vy := p.x - a.x, p.y - a.y;
    var d := Towards(a, b, r);
    assert d.x - c.x == (r - t) * ux && d.y - c.y == (r - t) * uy;
    assert p.x - c.x == vx - t * ux && p.y - c.y == vy - t * uy;
    assert Area(c, d, p) == 0.5 * ((r - t) * ux * (vy - t * uy) - (r - t) * uy * (vx - t * ux));
  }

  lemma Positive(s: real, x: real)
    requires s > 0.0
    ensures x > 0.0 ==> s * x > 0.0
    ensures x < 0.0 ==> s * x < 0.0
  {
  }

  /** The ends of a part of a side are in the triangle. */
  lemma PartIn(a: Point, b: Point, c: Point, d: Point, w: Point)
    requires Part(a, b, c, d) && Area(a, b, w) > 0.0
    ensures In(c, a, b, w) && In(d, a, b, w)
  {
    var t, r :| 0.0 <= t < r <= 1.0 && c == Towards(a, b, t) && d == Towards(a, b, r);
    OnSide(a, b, w, t);
    OnSide(a, b, w, r);
  }

  lemma OnSide(a: Point, b: Point, w: Point, t: real)
    requires 0.0 <= t <= 1.0 && Area(a, b, w) > 0.0
    ensures In(Towards(a, b, t), a, b, w)
  {
    Affine(a, b, a, b, t);
    Affine(b, w, a, b, t);
    Affine(w, a, a, b, t);
    Turned(a, b, w);
    Turned(b, w, a);
    Turned(w, a, b);
    hide Area, Towards;
    Times(1.0 - t, Area(b, w, a));
    Times(t, Area(w, a, b));
  }

  lemma Times(x: real, y: real)
    requires x >= 0.0 && y > 0.0
    ensures x * y >= 0.0
  {
  }

  // ---------------------------------------------------------------- up the tree

  /** Corner k of triangle j. */
  function Knot(T: seq<Te>, P: seq<Point>, j: int, k: int): (r: Point) {
    if 0 <= j < |T| then PointOf(P, Som(T[j], k)) else Point(0.0, 0.0)
  }

  /** Side l of a sub-triangle along side l of j is half of it. */
  lemma KidSide(T: seq<Te>, S: Shape, P: seq<Point>, j: int, k: int, l: int)
    requires Woven(T, S) && Named(T, S) && Placed(T, S, P) && Inner(T, S, j) && 1 <= l <= 3 && (k == l || k == Suiv(l))
    ensures 1 <= j < |T|
    ensures var c, m := Sub(T[j], k), Middle(Knot(T, P, j, l), Knot(T, P, j, Suiv(l)));
      && Knot(T, P, c, l) == (if k == l then Knot(T, P, j, l) else m)
      && Knot(T, P, c, Suiv(l)) == (if k == l then m else Knot(T, P, j, Suiv(l)))
  {
    hide Woven, Named, Placed, Middle, Child;
    PlacedAt(T, S, P, j);
    KidCorners(T, S, j);
    hide PointOf;
  }

  /** Side l of j is part of side l of the triangle h levels up that it lies along. */
  lemma {:induction false} SideUp(T: seq<Te>, S: Shape, P: seq<Point>, j: int, l: int, h: nat)
    requires Woven(T, S) && Named(T, S) && Placed(T, S, P) && j in S.geo && 1 <= l <= 3 && h <= S.geo[j].level
    requires Tree.Along(T, j, l, h)
    ensures var u := Up(T, j, h);
      Part(Knot(T, P, u, l), Knot(T, P, u, Suiv(l)), Knot(T, P, j, l), Knot(T, P, j, Suiv(l)))
    decreases h
  {
    hide Woven, Named, Placed, Middle, Child, Part, Knot;
    if h == 0 {
      PartSelf(Knot(T, P, j, l), Knot(T, P, j, Suiv(l)));
    } else {
      RootLevel(T, S);
      ParentOf(T, S, j);
      var p, u := T[j].sur, Up(T, j, h);
      SideUp(T, S, P, p, l, h - 1);
      KidSide(T, S, P, p, T[j].kind, l);
      PartHalf(Knot(T, P, u, l), Knot(T, P, u, Suiv(l)), Knot(T, P, p, l), Knot(T, P, p, Suiv(l)));
    }
  }

  /** A side on the border lies along the root. */
  lemma {:induction false} BorderAlong(T: seq<Te>, S: Shape, j: int, l: int)
    requires Woven(T, S) && j in S.geo && 1 <= l <= 3 && Lattice.Border(S.geo[j], l)
    ensures Tree.Along(T, j, l, S.geo[j].level) && Up(T, j, S.geo[j].level) == 1
    decreases S.geo[j].level
  {
    hide Woven, Child, Lattice.Border;
    NodeIndex(T, S, j);
    RootLevel(T, S);
    if j != 1 {
      ParentOf(T, S, j);
      NodeAt(T, S, T[j].sur);
      BorderChild(S.geo[T[j].sur], T[j].kind, l);
      BorderAlong(T, S, T[j].sur, l);
    }
  }

  // ---------------------------------------------------------------- nothing beyond the rim

  lemma LeafPlace(g: Grove, nb: int, j: int)
    requires GroveOk(g, nb) && j in g.S.geo
    ensures Woven(g.T, g.S) && Named(g.T, g.S) && Splitting.Placed(g.T, g.S, g.P) && 1 <= j < |g.T|
    ensures AreaOf(g.P, TeTri(g.T[j])) > 0.0
  {
    hide Woven, Named, Numbered, Stocked, Area;
    NodeIndex(g.T, g.S, j);
    PlacedAt(g.T, g.S, g.P, j);
  }

  lemma RunPart(g: Grove, nb: int, j: int, l: int, x: int, y: int)
    requires GroveOk(g, nb) && IsLeaf(g, j) && SideRun(g, j, l, x, y)
    ensures Part(Knot(g.T, g.P, j, l), Knot(g.T, g.P, j, Suiv(l)), PointOf(g.P, x), PointOf(g.P, y))
  {
    hide *;
    SideNumber(g, j, l, x, y);
    MidPlace(g, nb, j, l);
    var a, b := Knot(g.T, g.P, j, l), Knot(g.T, g.P, j, Suiv(l));
    PartSelf(a, b);
    PartHalf(a, b, a, b);
    RunCases(g, j, l, x, y);
  }

  lemma RunCases(g: Grove, j: int, l: int, x: int, y: int)
    requires SideRun(g, j, l, x, y) && 0 <= j < |g.T|
    requires MiddleOf(g, MidNo(g, j, l), Som(g.T[j], l), Som(g.T[j], Suiv(l)))
    requires var a, b := Knot(g.T, g.P, j, l), Knot(g.T, g.P, j, Suiv(l));
      Part(a, b, a, b) && Part(a, b, a, Middle(a, b)) && Part(a, b, Middle(a, b), b)
    ensures Part(Knot(g.T, g.P, j, l), Knot(g.T, g.P, j, Suiv(l)), PointOf(g.P, x), PointOf(g.P, y))
  {
    hide MidNo, Part, Middle, PointOf;
  }

  lemma PartTwice(a: Point, b: Point, c: Point, d: Point, e: Point, f: Point)
    requires Part(a, b, c, d) && Part(c, d, e, f)
    ensures Part(a, b, e, f)
  {
    var t, r :| 0.0 <= t < r <= 1.0 && c == Towards(a, b, t) && d == Towards(a, b, r);
    var t', r' :| 0.0 <= t' < r' <= 1.0 && e == Towards(c, d, t') && f == Towards(c, d, r');
    TowardsTwice(a, b, t, r, t');
    TowardsTwice(a, b, t, r, r');
    Between(t, r, t', r');
    hide Towards;
  }

  lemma TowardsTwice(a: Point, b: Point, t: real, r: real, e: real)
    ensures Towards(Towards(a, b, t), Towards(a, b, r), e) == Towards(a, b, t + e * (r - t))
  {
    Mixed(a.x, b.x - a.x, t, r, e);
    Mixed(a.y, b.y - a.y, t, r, e);
  }

  lemma Mixed(x: real, d: real, t: real, r: real, e: real)
    ensures x + t * d + e * ((x + r * d) - (x + t * d)) == x + (t + e * (r - t)) * d
  {
    assert (x + r * d) - (x + t * d) == (r - t) * d;
    assert e * ((r - t) * d) == (e * (r - t)) * d;
  }

  lemma Between(t: real, r: real, t': real, r': real)
    requires 0.0 <= t < r <= 1.0 && 0.0 <= t' < r' <= 1.0
    ensures 0.0 <= t + t' * (r - t) < t + r' * (r - t) <= 1.0
  {
    Positive(r - t, r' - t');
    Times(t', r - t);
    Times(1.0 - r', r - t);
  }

  /** Side l of leaf j, or half of it, as part of a side of the triangle u above. */
  lemma RunUp(g: Grove, nb: int, j: int, l: int, x: int, y: int, h: nat)
    requires GroveOk(g, nb) && IsLeaf(g, j) && SideRun(g, j, l, x, y) && j in g.S.geo && h <= g.S.geo[j].level
    requires Tree.Along(g.T, j, l, h)
    ensures var u := Up(g.T, j, h);
      Part(Knot(g.T, g.P, u, l), Knot(g.T, g.P, u, Suiv(l)), PointOf(g.P, x), PointOf(g.P, y))
  {
    hide *;
    LeafPlace(g, nb, j);
    SideNumber(g, j, l, x, y);
    RunPart(g, nb, j, l, x, y);
    SideUp(g.T, g.S, g.P, j, l, h);
    var u := Up(g.T, j, h);
    PartTwice(Knot(g.T, g.P, u, l), Knot(g.T, g.P, u, Suiv(l)), Knot(g.T, g.P, j, l), Knot(g.T, g.P, j, Suiv(l)),
      PointOf(g.P, x), PointOf(g.P, y));
  }

  /** No leaf has a side on the border of the root on its left the other way. */
  lemma BorderOneWay(g: Grove, nb: int, j: int, l: int, x: int, y: int, i: int)
    requires GroveOk(g, nb) && IsLeaf(g, j) && SideRun(g, j, l, x, y) && j in g.S.geo
    requires Lattice.Border(g.S.geo[j], l) && IsLeaf(g, i)
    ensures !SideIn(g.P, g.T[i], y, x)
  {
    hide *;
    SideNumber(g, j, l, x, y);
    LeafPlace(g, nb, j);
    LeafIndex(g, i);
    BorderAlong(g.T, g.S, j, l);
    RunUp(g, nb, j, l, x, y, g.S.geo[j].level);
    if SideIn(g.P, g.T[i], y, x) {
      var w := ThirdCorner(g.P, g.T[i], y, x);
      var z := SideShared(PointOf(g.P, y), PointOf(g.P, x), PointOf(g.P, w), PointOf(g.P, w));
      InsideLeaf(g, nb, i, y, x, w, z);
      RootSees(g, nb, i, l, z);
      PartSees(Knot(g.T, g.P, 1, l), Knot(g.T, g.P, 1, Suiv(l)), PointOf(g.P, x), PointOf(g.P, y), z);
      NotBothSides(PointOf(g.P, x), PointOf(g.P, y), PointOf(g.P, w), z);
    }
  }

  lemma ThirdCorner(P: seq<Point>, t: Te, x: int, y: int) returns (w: int)
    requires SideIn(P, t, x, y)
    ensures AreaOf(P, (x, y, w)) > 0.0 && TriWithin(P, (x, y, w), TeTri(t))
    ensures Area(PointOf(P, x), PointOf(P, y), PointOf(P, w)) > 0.0
  {
    hide Area, TriWithin;
    w :| AreaOf(P, (x, y, w)) > 0.0 && TriWithin(P, (x, y, w), TeTri(t));
  }

  lemma InsideLeaf(g: Grove, nb: int, i: int, x: int, y: int, w: int, z: Point)
    requires GroveOk(g, nb) && IsLeaf(g, i) && 0 <= i < |g.T| && TriWithin(g.P, (x, y, w), TeTri(g.T[i]))
    requires Inside(z, PointOf(g.P, x), PointOf(g.P, y), PointOf(g.P, w))
    ensures InTe(g.P, g.T[i], z)
  {
    hide GroveOk, IsLeaf, TriWithin, Inside;
    LeafInside(g, nb, i, (x, y, w), z);
  }

  /** An inner point of a leaf is on the left of each side of the root. */
  lemma RootSees(g: Grove, nb: int, i: int, l: int, z: Point)
    requires GroveOk(g, nb) && IsLeaf(g, i) && 1 <= l <= 3 && 1 <= i < |g.T| && InTe(g.P, g.T[i], z)
    ensures Area(Knot(g.T, g.P, 1, l), Knot(g.T, g.P, 1, Suiv(l)), z) > 0.0
  {
    hide *;
    LeafIndex(g, i);
    LeafPlace(g, nb, i);
    UpHolds(g.T, g.S, g.P, i, g.S.geo[i].level, z);
    OnlyRoot(g.T, g.S, Up(g.T, i, g.S.geo[i].level));
    LeftOfSides(g.T, g.P, 1, l, z);
  }

  lemma OnlyRoot(T: seq<Te>, S: Shape, j: int)
    requires Woven(T, S) && j in S.geo && S.geo[j].level == 0
    ensures j == 1
  {
    hide Woven, Child;
    RootLevel(T, S);
    if j != 1 {
      ParentOf(T, S, j);
    }
  }

  lemma LeftOfSides(T: seq<Te>, P: seq<Point>, j: int, l: int, z: Point)
    requires 0 <= j < |T| && InTe(P, T[j], z) && 1 <= l <= 3
    ensures Area(Knot(T, P, j, l), Knot(T, P, j, Suiv(l)), z) > 0.0
  {
  }

  lemma NotBothSides(x: Point, y: Point, w: Point, z: Point)
    ensures !(Inside(z, y, x, w) && Area(x, y, z) > 0.0)
  {
    Turned(x, y, z);
  }

  /** The larger leaf across a side has it on its left, the other way. */
  lemma LargerSide(g: Grove, nb: int, j: int, l: int, x: int, y: int, q: int, h: nat)
    requires GroveOk(g, nb) && IsLeaf(g, j) && SideRun(g, j, l, x, y) && Facing(g.T, g.S, j, l, q, h) && IsLeaf(g, q)
    requires j in g.S.geo && h <= g.S.geo[j].level
    ensures 1 <= q < |g.T| && SideIn(g.P, g.T[q], y, x)
  {
    hide *;
    SideNumber(g, j, l, x, y);
    LeafIndex(g, q);
    FacingParts(g.T, g.S, j, l, q, h);
    RunUp(g, nb, j, l, x, y, h);
    var u := Up(g.T, j, h);
    CornerNumber(g, nb, u, l);
    CornerNumber(g, nb, u, Suiv(l));
    CornerNumber(g, nb, q, l);
    CornerNumber(g, nb, q, Suiv(l));
    MirrorCorners(g.S.geo[u], l);
    LeafPlace(g, nb, q);
    SameKnots(g.T, g.P, u, q, l);
    SideOfPart(g.P, g.T, q, l, x, y);
  }

  lemma FacingParts(T: seq<Te>, S: Shape, j: int, l: int, q: int, h: nat)
    requires Facing(T, S, j, l, q, h)
    ensures Tree.Along(T, j, l, h) && Up(T, j, h) in S.geo && q in S.geo && S.geo[q] == Mirror(S.geo[Up(T, j, h)], l)
  {
  }

  lemma SameKnots(T: seq<Te>, P: seq<Point>, u: int, q: int, l: int)
    requires 0 <= u < |T| && 0 <= q < |T| && Som(T[q], l) == Som(T[u], Suiv(l)) && Som(T[q], Suiv(l)) == Som(T[u], l)
    ensures Knot(T, P, q, l) == Knot(T, P, u, Suiv(l)) && Knot(T, P, q, Suiv(l)) == Knot(T, P, u, l)
  {
  }

  lemma SideOfPart(P: seq<Point>, T: seq<Te>, q: int, l: int, x: int, y: int)
    requires 0 <= q < |T| && 1 <= l <= 3 && AreaOf(P, TeTri(T[q])) > 0.0
    requires Part(Knot(T, P, q, Suiv(l)), Knot(T, P, q, l), PointOf(P, x), PointOf(P, y))
    ensures SideIn(P, T[q], y, x)
  {
    var a, b, c := Knot(T, P, q, l), Knot(T, P, q, Suiv(l)), Knot(T, P, q, Pre(l));
    TurnAreas(PointOf(P, T[q].v1), PointOf(P, T[q].v2), PointOf(P, T[q].v3));
    assert Area(a, b, c) > 0.0 by { hide Area, Part, PointOf; }
    PartBack(b, a, PointOf(P, x), PointOf(P, y));
    PartSees(a, b, PointOf(P, y), PointOf(P, x), c);
    PartIn(a, b, PointOf(P, y), PointOf(P, x), c);
    OwnCorner(a, b, c);
    InTurned(T[q], T, P, q, l, PointOf(P, x));
    InTurned(T[q], T, P, q, l, PointOf(P, y));
    InTurned(T[q], T, P, q, l, c);
    hide Area, In, Part, PointOf;
    var w := Som(T[q], Pre(l));
    assert AreaOf(P, (y, x, w)) > 0.0 && TriWithin(P, (y, x, w), TeTri(T[q]));
  }

  lemma PartBack(a: Point, b: Point, c: Point, d: Point)
    requires Part(a, b, c, d)
    ensures Part(b, a, d, c)
  {
    var t, r :| 0.0 <= t < r <= 1.0 && c == Towards(a, b, t) && d == Towards(a, b, r);
    assert Towards(b, a, 1.0 - r) == d && Towards(b, a, 1.0 - t) == c;
  }

  lemma OwnCorner(a: Point, b: Point, c: Point)
    requires Area(a, b, c) > 0.0
    ensures In(c, a, b, c)
  {
  }

  lemma InTurned(t: Te, T: seq<Te>, P: seq<Point>, q: int, l: int, z: Point)
    requires 0 <= q < |T| && t == T[q] && 1 <= l <= 3
    requires In(z, Knot(T, P, q, l), Knot(T, P, q, Suiv(l)), Knot(T, P, q, Pre(l)))
    ensures In(z, PointOf(P, t.v1), PointOf(P, t.v2), PointOf(P, t.v3))
  {
    hide Area, PointOf;
  }

  /** Side l of leaf q has the leaf on its left. */
  lemma OwnSide(g: Grove, nb: int, q: int, l: int, x: int, y: int)
    requires GroveOk(g, nb) && IsLeaf(g, q) && SideRun(g, q, l, x, y)
    ensures 0 <= q < |g.T| && SideIn(g.P, g.T[q], x, y)
  {
    hide *;
    LeafIndex(g, q);
    LeafMiddles(g, nb, q);
    var t, m1, m2, m3 := g.T[q], MidNo(g, q, 1), MidNo(g, q, 2), MidNo(g, q, 3);
    LeafReady(g, nb, q, m1, m2, m3);
    LeafParts(g.P, t, m1, m2, m3);
    SideHalf(g, q, l, x, y);
    BorderRuns(t.v1, t.v2, t.v3, m1, m2, m3, x, y);
    TemplateRuns(g, nb, q, m1, m2, m3, x, y);
  }
}
