/** Which isolated vertex joins which contour: the first loop of `tridcf_` seen on the first edges of
    the contours and on the list of isolated vertices. */
module Joining {
  import opened Lists
  import opened Geometry
  import opened Delaunay

  /** Isolated vertex i, not crossed off, is on the inner side of edge e. */
  ghost predicate Sees(P: seq<Point>, st: seq<int>, i: int, e: (int, int)) {
    0 <= i < |st| && st[i] > 0 && AreaOf(P, (e.0, e.1, st[i])) > 0.0
  }

  /** The distance of isolated vertex i to edge e. */
  function Off(P: seq<Point>, dist: (Point, Point, Point) -> real, st: seq<int>, i: int, e: (int, int)): (d: real) {
    if 0 <= i < |st| then dist(PointOf(P, st[i]), PointOf(P, e.0), PointOf(P, e.1)) else 0.0
  }

  /** Of the n isolated vertices i is the one nearest to edge e among those it sees, the first of them
      when there are several; 0 when it sees none (nearer than 1e123). */
  ghost predicate IsNearest(P: seq<Point>, dist: (Point, Point, Point) -> real, st: seq<int>, n: int, e: (int, int),
      i: int)
  {
    && 0 <= i <= n
    && (i > 0 ==> Sees(P, st, i, e) && Off(P, dist, st, i, e) < 1e123)
    && forall j | 1 <= j <= n && Sees(P, st, j, e) ::
      if i == 0 then Off(P, dist, st, j, e) >= 1e123
      else if j < i then Off(P, dist, st, j, e) > Off(P, dist, st, i, e)
      else Off(P, dist, st, j, e) >= Off(P, dist, st, i, e)
  }

  /** What that means in areas and distances. */
  lemma NearestMeans(P: seq<Point>, dist: (Point, Point, Point) -> real, st: seq<int>, n: int, e: (int, int), i: int,
      j: int)
    requires IsNearest(P, dist, st, n, e, i) && 1 <= j <= n && j < |st|
    requires st[j] > 0 && Area(PointOf(P, e.0), PointOf(P, e.1), PointOf(P, st[j])) > 0.0
    ensures i == 0 ==> dist(PointOf(P, st[j]), PointOf(P, e.0), PointOf(P, e.1)) >= 1e123
    ensures i > 0 ==> i < |st| && st[i] > 0 && Area(PointOf(P, e.0), PointOf(P, e.1), PointOf(P, st[i])) > 0.0
    ensures i > 0 ==> dist(PointOf(P, st[i]), PointOf(P, e.0), PointOf(P, e.1))
                      <= dist(PointOf(P, st[j]), PointOf(P, e.0), PointOf(P, e.1))
  {
    hide Area, PointOf;
    assert Sees(P, st, j, e);
  }

  lemma NearestOnce(P: seq<Point>, dist: (Point, Point, Point) -> real, st: seq<int>, n: int, e: (int, int), i: int,
      j: int)
    requires IsNearest(P, dist, st, n, e, i) && IsNearest(P, dist, st, n, e, j)
    ensures i == j
  {
    hide Sees, Off;
  }

  /** The state of the loop: the first edges of the contours, and the isolated vertices 1..n, those
      crossed off with a minus sign. */
  datatype Round = Round(firsts: seq<(int, int)>, st: seq<int>)

  /** Contour c is the first one whose first edge sees an isolated vertex, and i is the nearest to it. */
  ghost predicate Picks(P: seq<Point>, dist: (Point, Point, Point) -> real, n: int, r: Round, c: int, i: int) {
    && 0 <= c < |r.firsts| && 1 <= i <= n < |r.st| && IsNearest(P, dist, r.st, n, r.firsts[c], i)
    && forall d | 0 <= d < c :: IsNearest(P, dist, r.st, n, r.firsts[d], 0)
  }

  /** No first edge sees an isolated vertex. */
  ghost predicate Blind(P: seq<Point>, dist: (Point, Point, Point) -> real, n: int, r: Round) {
    forall d | 0 <= d < |r.firsts| :: IsNearest(P, dist, r.st, n, r.firsts[d], 0)
  }

  /** One round: the last isolated vertex becomes the end of the first edge of the contour picked, and
      the vertex picked is crossed off. */
  ghost predicate Joins(P: seq<Point>, dist: (Point, Point, Point) -> real, n: int, r: Round, r': Round) {
    exists c, i :: Picks(P, dist, n, r, c, i) && r.st[n] > 0 && r' == Joined(r, n, c, i)
  }

  function Joined(r: Round, n: int, c: int, i: int): (r': Round)
    requires 0 <= c < |r.firsts| && 1 <= i <= n < |r.st|
  {
    Round(r.firsts[c := (r.firsts[c].0, r.st[n])], r.st[i := -r.st[i]])
  }

  /** A contour picks a vertex when the last isolated vertex is crossed off already. */
  ghost predicate LastGone(P: seq<Point>, dist: (Point, Point, Point) -> real, n: int, r: Round) {
    exists c, i :: Picks(P, dist, n, r, c, i) && r.st[n] <= 0
  }

  ghost predicate Rounds(P: seq<Point>, dist: (Point, Point, Point) -> real, n: int, rs: seq<Round>) {
    rs != [] && forall k | 0 <= k < |rs| - 1 :: Joins(P, dist, n, rs[k], rs[k + 1])
  }

  lemma PicksOnce(P: seq<Point>, dist: (Point, Point, Point) -> real, n: int, r: Round, c: int, i: int, d: int, j: int)
    requires Picks(P, dist, n, r, c, i) && Picks(P, dist, n, r, d, j)
    ensures c == d && i == j
  {
    hide IsNearest;
    if c < d {
      NearestOnce(P, dist, r.st, n, r.firsts[c], i, 0);
    } else if d < c {
      NearestOnce(P, dist, r.st, n, r.firsts[d], j, 0);
    } else {
      NearestOnce(P, dist, r.st, n, r.firsts[c], i, j);
    }
  }

  /** The rounds from a given state are determined. */
  lemma {:induction false} RoundsOnce(P: seq<Point>, dist: (Point, Point, Point) -> real, n: int, rs: seq<Round>,
      qs: seq<Round>, k: nat)
    requires Rounds(P, dist, n, rs) && Rounds(P, dist, n, qs) && rs[0] == qs[0] && k < |rs| && k < |qs|
    ensures rs[k] == qs[k]
  {
    if k > 0 {
      RoundsOnce(P, dist, n, rs, qs, k - 1);
      assert Joins(P, dist, n, rs[k - 1], rs[k - 1 + 1]) && Joins(P, dist, n, qs[k - 1], qs[k - 1 + 1]);
      var c, i :| Picks(P, dist, n, rs[k - 1], c, i) && rs[k - 1].st[n] > 0 && rs[k] == Joined(rs[k - 1], n, c, i);
      var d, j :| Picks(P, dist, n, qs[k - 1], d, j) && qs[k - 1].st[n] > 0 && qs[k] == Joined(qs[k - 1], n, d, j);
      PicksOnce(P, dist, n, rs[k - 1], c, i, d, j);
    }
  }

  lemma RoundsNext(P: seq<Point>, dist: (Point, Point, Point) -> real, n: int, rs: seq<Round>, r: Round)
    requires Rounds(P, dist, n, rs) && Joins(P, dist, n, rs[|rs| - 1], r)
    ensures Rounds(P, dist, n, rs + [r])
  {
    hide Joins;
    var rs' := rs + [r];
    forall k | 0 <= k < |rs'| - 1 ensures Joins(P, dist, n, rs'[k], rs'[k + 1]) {
      if k < |rs| - 1 {
        assert Joins(P, dist, n, rs[k], rs[k + 1]);
      }
    }
  }

  // ---------------------------------------------------------------- how many can join

  /** The isolated vertices crossed off: count of the first n. */
  ghost predicate CrossedOff(crossed: seq<int>, s: seq<int>, n: int, count: int) {
    && |crossed| == count && n < |s| && Unique(crossed)
    && (forall i | i in crossed :: 1 <= i <= n)
    && (forall i | 1 <= i <= n :: i in crossed <==> s[i] <= 0)
  }

  lemma CrossNext(crossed: seq<int>, s: seq<int>, n: int, count: int, i: int)
    requires CrossedOff(crossed, s, n, count) && 1 <= i <= n && s[i] > 0
    ensures CrossedOff([i] + crossed, s[i := -s[i]], n, count + 1)
  {
    assert i !in crossed;
    UniqueOn(i, crossed);
    hide Unique;
  }

  /** When n of n are, the last is. */
  lemma AllCrossed(crossed: seq<int>, s: seq<int>, n: nat)
    requires CrossedOff(crossed, s, n, n)
    ensures n > 0 ==> s[n] <= 0
  {
    if n > 0 && s[n] > 0 {
      var r := seq(n - 1, k requires 0 <= k => k + 1);
      forall i | i in crossed ensures i in r {
        assert 1 <= i < n;
        assert r[i - 1] == i;
      }
      Pigeons(crossed, r);
      assert false;
    }
  }

  /** Every round crosses off one vertex more. */
  lemma {:induction false} Crossing(P: seq<Point>, dist: (Point, Point, Point) -> real, n: int, rs: seq<Round>, k: nat)
      returns (crossed: seq<int>)
    requires Rounds(P, dist, n, rs) && k < |rs| && 0 <= n < |rs[0].st|
    requires forall i | 1 <= i <= n :: rs[0].st[i] > 0
    ensures CrossedOff(crossed, rs[k].st, n, k) && |rs[k].st| == |rs[0].st|
    ensures rs[k].st[n] == rs[0].st[n] || rs[k].st[n] <= 0
  {
    if k == 0 {
      crossed := [];
    } else {
      crossed := Crossing(P, dist, n, rs, k - 1);
      assert Joins(P, dist, n, rs[k - 1], rs[k - 1 + 1]);
      var c, i :| Picks(P, dist, n, rs[k - 1], c, i) && rs[k - 1].st[n] > 0 && rs[k] == Joined(rs[k - 1], n, c, i);
      CrossNext(crossed, rs[k - 1].st, n, k - 1, i);
      hide CrossedOff;
      crossed := [i] + crossed;
    }
  }

  /** An edge does not see its own end. */
  lemma SeesOff(P: seq<Point>, st: seq<int>, i: int, e: (int, int))
    requires Sees(P, st, i, e)
    ensures st[i] != e.1
  {
  }

  /** With one contour the first round makes the last vertex the end of the first edge, which does not
      see it any more: it is never crossed off afterwards. */
  lemma {:induction false} LastStays(P: seq<Point>, dist: (Point, Point, Point) -> real, n: int, rs: seq<Round>, k: nat)
    requires Rounds(P, dist, n, rs) && 1 <= k < |rs| && 0 <= n < |rs[0].st| && |rs[0].firsts| == 1
    requires forall i | 1 <= i <= n :: rs[0].st[i] > 0
    ensures |rs[k].firsts| == 1 && rs[k].firsts[0].1 == rs[0].st[n] && n < |rs[k].st|
    ensures k > 1 ==> rs[k].st[n] > 0
  {
    if k > 1 {
      LastStays(P, dist, n, rs, k - 1);
    }
    var crossed := Crossing(P, dist, n, rs, k - 1);
    assert Joins(P, dist, n, rs[k - 1], rs[k - 1 + 1]);
    var c, i :| Picks(P, dist, n, rs[k - 1], c, i) && rs[k - 1].st[n] > 0 && rs[k] == Joined(rs[k - 1], n, c, i);
    SeesOff(P, rs[k - 1].st, i, rs[k - 1].firsts[0]);
  }

  /** One contour takes in at most one vertex. */
  lemma OneContour(P: seq<Point>, dist: (Point, Point, Point) -> real, n: nat, rs: seq<Round>)
    requires Rounds(P, dist, n, rs) && |rs| == n + 1 && n < |rs[0].st| && |rs[0].firsts| == 1
    requires forall i | 1 <= i <= n :: rs[0].st[i] > 0
    ensures n <= 1
  {
    if n > 1 {
      LastStays(P, dist, n, rs, n);
      var crossed := Crossing(P, dist, n, rs, n);
      AllCrossed(crossed, rs[n].st, n);
    }
  }
}
