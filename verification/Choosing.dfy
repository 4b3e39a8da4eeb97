/** `trchtd_`: the edge of a contour to put a triangle on, and its third vertex. */
module Choosing {
  import opened Lists
  import opened Geometry
  import opened Delaunay
  import opened EdgeTable
  import opened Mesh
  import opened Contours
  import opened Cutting
  import opened Trcf

  // ---------------------------------------------------------------- walking a contour

  function Next(i: int, n: int): (r: int) {
    if i + 1 == n then 0 else i + 1
  }

  /** Member i of contour c leads to member i + 1, the last one to the first. */
  lemma Leads(E: Edges, s: seq<Slot>, h: seq<int>, free: seq<int>, lists: seq<seq<int>>, c: int, i: int)
    requires Held(E, s, h, free, lists) && 0 <= c < |lists| && 0 <= i < |lists[c]|
    ensures 1 <= lists[c][i] < |s| && s[lists[c][i]].suiv == lists[c][Next(i, |lists[c]|)]
    ensures s[lists[c][i]].som > 0
      && Names(E, s[lists[c][i]].noar, s[lists[c][i]].som, Som(s, lists[c][Next(i, |lists[c]|)]))
  {
    hide Path;
    RingOf(E, s, h, lists, c);
    StepOf(E, s, Closed(lists[c]), i);
  }

  /** A slot is only once in a contour. */
  lemma OnceIn(E: Edges, s: seq<Slot>, h: seq<int>, free: seq<int>, lists: seq<seq<int>>, c: int)
    requires Held(E, s, h, free, lists) && 0 <= c < |lists|
    ensures Unique(lists[c])
  {
    SumAt(lists, c);
    hide Sum, Path, Chain;
    forall x ensures multiset(lists[c])[x] <= 1 {
      var m := multiset(free) + Sum(lists);
      assert m[x] >= multiset(lists[c])[x];
      assert x in m || m[x] == 0;
    }
    UniqueOf(lists[c]);
  }

  /** In contour l, nar0 is the first slot with nar00 before it, and namin is slot number m with namin0 before it. */
  ghost predicate Chosen(l: seq<int>, nar00: int, nar0: int, namin0: int, namin: int, m: int) {
    2 <= m < |l| && nar00 == l[|l| - 1] && nar0 == l[0] && namin0 == l[m - 1] && namin == l[m] > 0
  }

  /** The edge after slot nar00, which is member i of contour c; the contour is then read from it. */
  method PickEdge(cf: Contour, nar00: int, ghost E: Edges, ghost c: int, ghost i: int)
      returns (nar0: int, ghost k: nat)
    requires cf.Valid(E) && 0 <= c < cf.nbcf && 0 <= i < |cf.lists[c]| && nar00 == cf.lists[c][i]
    modifies cf`lists
    ensures cf.Valid(E) && k == Next(i, |old(cf.lists)[c]|)
    ensures cf.lists == TurnedAt(old(cf.lists), c, k) && cf.Polygons() == TurnedAt(old(cf.Polygons()), c, k)
    ensures |cf.lists[c]| == |old(cf.lists)[c]| && nar0 == cf.lists[c][0] && nar00 == cf.lists[c][|cf.lists[c]| - 1]
  {
    hide Held, Polys;
    Leads(E, cf.noarcf[..], cf.n1arcf[..], cf.free, cf.lists, c, i);
    nar0 := cf.noarcf[nar00].suiv;
    k := Next(i, |cf.lists[c]|);
    TurnedEnds(cf.lists[c], i);
    cf.Turn(E, c, k);
  }

  lemma TurnedEnds(l: seq<int>, i: int)
    requires 0 <= i < |l|
    ensures var l' := l[Next(i, |l|)..] + l[..Next(i, |l|)];
            |l'| == |l| && l'[0] == l[Next(i, |l|)] && l'[|l'| - 1] == l[i]
  {
  }

  lemma HeadIn(E: Edges, s: seq<Slot>, h: seq<int>, free: seq<int>, lists: seq<seq<int>>, c: int)
    requires Held(E, s, h, free, lists) && 0 <= c < |lists|
    ensures |h| > c + 1 && h[c + 1] in lists[c]
  {
  }

  /** The slot before na1, which is member `first` of contour c. */
  method Predecessor(cf: Contour, na1: int, ghost E: Edges, ghost c: int, ghost first: int) returns (na0: int)
    requires cf.Valid(E) && 0 <= c < cf.nbcf && 0 <= first < |cf.lists[c]| && na1 == cf.lists[c][first]
    ensures 0 <= na0 < cf.noarcf.Length && cf.noarcf[na0].suiv == na1
  {
    hide Held;
    ghost var l := cf.lists[c];
    ghost var i, n := first, 0;
    na0 := na1;
    Leads(E, cf.noarcf[..], cf.n1arcf[..], cf.free, cf.lists, c, i);
    while cf.noarcf[na0].suiv != na1
      invariant 0 <= n < |l| && 0 <= i < |l| && na0 == l[i] && 0 <= na0 < cf.noarcf.Length
      invariant i == if first + n < |l| then first + n else first + n - |l|
      invariant cf.noarcf[na0].suiv == l[Next(i, |l|)]
      decreases |l| - n
    {
      na0 := cf.noarcf[na0].suiv;
      i, n := Next(i, |l|), n + 1;
      Leads(E, cf.noarcf[..], cf.n1arcf[..], cf.free, cf.lists, c, i);
    }
  }

  // ---------------------------------------------------------------- the choice

  /** The squared length of edge i of polygon v. */
  function Length2(P: seq<Point>, v: seq<int>, i: int): (d: real) {
    if 0 <= i < |v| then Dist2(PointOf(P, v[i]), PointOf(P, v[Next(i, |v|)])) else 0.0
  }

  /** No edge of polygon v crosses the sides from v[1] and from v[0] to v[r], as far as `trchtd_` looks. */
  ghost predicate Free(P: seq<Point>, crosses: (Point, Point, Point, Point) -> bool, v: seq<int>, r: int) {
    && 2 <= r < |v|
    && (forall j {:trigger v[j]} | 2 <= j <= r - 2 ::
      !crosses(PointOf(P, v[1]), PointOf(P, v[r]), PointOf(P, v[j]), PointOf(P, v[j + 1])))
    && (forall j {:trigger v[j]} | r + 1 <= j <= |v| - 2 ::
      !crosses(PointOf(P, v[0]), PointOf(P, v[r]), PointOf(P, v[j]), PointOf(P, v[j + 1])))
  }

  /** The quality of the triangle of edge 0 and vertex r of polygon v: 0 when it is not positive. */
  function Worth(P: seq<Point>, quality: (Point, Point, Point) -> real, v: seq<int>, r: int): (q: real) {
    if !(2 <= r < |v|) || AreaOf(P, (v[0], v[1], v[r])) <= 0.0 then 0.0
    else quality(PointOf(P, v[0]), PointOf(P, v[1]), PointOf(P, v[r]))
  }

  /** Vertex m of polygon v is one `trchtd_` may take for edge 0: the only one of a triangle; else the
      edge is a shortest one, and the vertex one of the free ones with the best quality, up to the
      tolerance of the code, or the last one when none is free. */
  ghost predicate Preferred(P: seq<Point>, quality: (Point, Point, Point) -> real,
      crosses: (Point, Point, Point, Point) -> bool, v: seq<int>, m: int)
  {
    && 2 <= m < |v|
    && (|v| > 3 ==> Shortest(P, v))
    && (|v| > 3 && (exists r :: Free(P, crosses, v, r)) ==> Free(P, crosses, v, m) && Best(P, quality, crosses, v, m))
    && (|v| > 3 && !(exists r :: Free(P, crosses, v, r)) ==> m == |v| - 1)
  }

  ghost predicate Shortest(P: seq<Point>, v: seq<int>) {
    forall i | 0 <= i < |v| :: Length2(P, v, 0) <= Length2(P, v, i)
  }

  ghost predicate Best(P: seq<Point>, quality: (Point, Point, Point) -> real,
      crosses: (Point, Point, Point, Point) -> bool, v: seq<int>, m: int)
  {
    forall r | Free(P, crosses, v, r) ::
      Worth(P, quality, v, r) * 0.999998 <= Worth(P, quality, v, m) * 1.00001
  }

  /** What the choice means in lengths, areas and qualities: no edge of the contour is shorter than its
      edge 0, and of the vertices whose sides cross no edge none makes with it a triangle better than
      that of the one taken, up to the tolerance of the code; a triangle that is not positive has the
      worth 0. */
  lemma PreferredMeans(P: seq<Point>, quality: (Point, Point, Point) -> real,
      crosses: (Point, Point, Point, Point) -> bool, v: seq<int>, m: int)
    requires Preferred(P, quality, crosses, v, m) && |v| > 3
    ensures forall i | 0 <= i < |v| - 1 ::
      Dist2(PointOf(P, v[0]), PointOf(P, v[1])) <= Dist2(PointOf(P, v[i]), PointOf(P, v[i + 1]))
    ensures Dist2(PointOf(P, v[0]), PointOf(P, v[1])) <= Dist2(PointOf(P, v[|v| - 1]), PointOf(P, v[0]))
    ensures forall r | Free(P, crosses, v, r) && AreaOf(P, (v[0], v[1], v[r])) > 0.0 ::
      var q := quality(PointOf(P, v[0]), PointOf(P, v[1]), PointOf(P, v[r]));
      if AreaOf(P, (v[0], v[1], v[m])) > 0.0
      then q * 0.999998 <= quality(PointOf(P, v[0]), PointOf(P, v[1]), PointOf(P, v[m])) * 1.00001
      else q <= 0.0
  {
    hide Free, Length2, Area, Dist2, PointOf, Worth;
    forall i | 0 <= i < |v| - 1
      ensures Dist2(PointOf(P, v[0]), PointOf(P, v[1])) <= Dist2(PointOf(P, v[i]), PointOf(P, v[i + 1]))
    {
      Length2Is(P, v, i);
      Length2Is(P, v, 0);
    }
    Length2Is(P, v, 0);
    Length2Is(P, v, |v| - 1);
    forall r | Free(P, crosses, v, r) ensures WorthAt(P, quality, v, r) {
      WorthIs(P, quality, crosses, v, r);
    }
    WorthIs(P, quality, crosses, v, m);
  }

  lemma Length2Is(P: seq<Point>, v: seq<int>, i: int)
    requires 0 <= i < |v| && |v| > 1
    ensures Length2(P, v, i) == Dist2(PointOf(P, v[i]), PointOf(P, v[if i + 1 == |v| then 0 else i + 1]))
  {
    hide Dist2, PointOf;
  }

  lemma WorthIs(P: seq<Point>, quality: (Point, Point, Point) -> real,
      crosses: (Point, Point, Point, Point) -> bool, v: seq<int>, r: int)
    requires |v| > 3
    ensures (Free(P, crosses, v, r) ==> 2 <= r < |v|) && (2 <= r < |v| ==> WorthAt(P, quality, v, r))
  {
    hide Area, PointOf;
  }

  predicate WorthAt(P: seq<Point>, quality: (Point, Point, Point) -> real, v: seq<int>, r: int) {
    && 2 <= r < |v|
    && Worth(P, quality, v, r) == (if AreaOf(P, (v[0], v[1], v[r])) <= 0.0 then 0.0
                                   else quality(PointOf(P, v[0]), PointOf(P, v[1]), PointOf(P, v[r])))
  }

  /** Over the reals the quality of a triangle is never negative, and positive when its area is. */
  ghost predicate Sensible(quality: (Point, Point, Point) -> real) {
    forall p: Point, q: Point, r: Point {:trigger quality(p, q, r)} ::
      quality(p, q, r) >= 0.0 && (Area(p, q, r) > 0.0 ==> quality(p, q, r) > 0.0)
  }

  /** When a free vertex makes a positive triangle, the triangle taken is positive. */
  lemma PreferredPositive(P: seq<Point>, quality: (Point, Point, Point) -> real,
      crosses: (Point, Point, Point, Point) -> bool, v: seq<int>, m: int, r: int)
    requires Preferred(P, quality, crosses, v, m) && |v| > 3 && Sensible(quality)
    requires Free(P, crosses, v, r) && AreaOf(P, (v[0], v[1], v[r])) > 0.0
    ensures AreaOf(P, (v[0], v[1], v[m])) > 0.0
  {
    hide Area, PointOf;
    assert AreaOf(P, (v[0], v[1], v[r])) == Area(PointOf(P, v[0]), PointOf(P, v[1]), PointOf(P, v[r]));
    assert Worth(P, quality, v, r) > 0.0;
  }

  // ---------------------------------------------------------------- the procedure

  /** How many edges after the one behind member `first` edge j of a ring of n comes. */
  function Offset(j: int, first: int, n: int): (t: int) {
    if j > first then j - first - 1 else j - first - 1 + n
  }

  /** The first loop of `trchtd_`: the number of edges, and the slot before the shortest edge, the
      first one after slot nar when there are several.  (No edge is as long as the largest real of
      the machine.) */
  method ShortestEdge(cf: Contour, P: seq<Point>, nar: int, ghost E: Edges, ghost c: int, ghost first: int)
      returns (nbar: int, best: int, ghost b: int)
    requires cf.Valid(E) && 0 <= c < cf.nbcf && 0 <= first < |cf.lists[c]| && nar == cf.lists[c][first]
    ensures nbar == |cf.lists[c]| && 0 <= b < nbar && best == cf.lists[c][b]
    ensures var v := cf.Polygons()[c]; forall j | 0 <= j < nbar :: Length2(P, v, Next(b, nbar)) <= Length2(P, v, j)
  {
    hide Held, Dist2;
    ghost var l, v := cf.lists[c], cf.Polygons()[c];
    OnceIn(E, cf.noarcf[..], cf.n1arcf[..], cf.free, cf.lists, c);
    var na00, dmima, more := nar, 0.0, true;
    ghost var i := first;
    nbar, best, b := 0, nar, first;
    while more
      invariant 0 <= nbar <= |l| && 0 <= i < |l| && na00 == l[i] && (more <==> nbar < |l|)
      invariant i == if first + nbar < |l| then first + nbar else first + nbar - |l|
      invariant 0 <= b < |l| && best == l[b] && (nbar > 0 ==> dmima == Length2(P, v, Next(b, |l|)))
      invariant forall j | 0 <= j < |l| && Offset(j, first, |l|) < nbar :: dmima <= Length2(P, v, j)
      decreases |l| - nbar
    {
      Leads(E, cf.noarcf[..], cf.n1arcf[..], cf.free, cf.lists, c, i);
      var na0 := cf.noarcf[na00].suiv;
      Leads(E, cf.noarcf[..], cf.n1arcf[..], cf.free, cf.lists, c, Next(i, |l|));
      var na1 := cf.noarcf[na0].suiv;
      Leads(E, cf.noarcf[..], cf.n1arcf[..], cf.free, cf.lists, c, Next(Next(i, |l|), |l|));
      var dd := Dist2(PointOf(P, cf.noarcf[na0].som), PointOf(P, cf.noarcf[na1].som));
      assert dd == Length2(P, v, Next(i, |l|));
      if nbar == 0 || dd < dmima {
        dmima, best, b := dd, na00, i;
      }
      nbar := nbar + 1;
      na00, i := na0, Next(i, |l|);
      more := na00 != nar;
    }
  }

  /** A side pq crosses an edge j of polygon v with a <= j and j + 1 < z. */
  ghost predicate Crosses(P: seq<Point>, crosses: (Point, Point, Point, Point) -> bool, v: seq<int>, p: Point,
      q: Point, a: int, z: int)
  {
    exists j {:trigger v[j]} :: 0 <= a <= j < z - 1 < |v| && crosses(p, q, PointOf(P, v[j]), PointOf(P, v[j + 1]))
  }

  lemma FreeOf(P: seq<Point>, crosses: (Point, Point, Point, Point) -> bool, v: seq<int>, r: int)
    requires 2 <= r < |v|
    ensures Free(P, crosses, v, r) <==>
            (!Crosses(P, crosses, v, PointOf(P, v[1]), PointOf(P, v[r]), 2, r)
             && !Crosses(P, crosses, v, PointOf(P, v[0]), PointOf(P, v[r]), r + 1, |v|))
  {
  }

  lemma CrossMore(P: seq<Point>, crosses: (Point, Point, Point, Point) -> bool, v: seq<int>, p: Point, q: Point, a: int,
      j: int)
    requires 0 <= a <= j < |v| - 1
    ensures Crosses(P, crosses, v, p, q, a, j + 2)
      <==> Crosses(P, crosses, v, p, q, a, j + 1) || crosses(p, q, PointOf(P, v[j]), PointOf(P, v[j + 1]))
  {
  }

  lemma CrossNone(P: seq<Point>, crosses: (Point, Point, Point, Point) -> bool, v: seq<int>, p: Point, q: Point, a: int,
      z: int)
    requires z <= a + 1
    ensures !Crosses(P, crosses, v, p, q, a, z)
  {
  }

  lemma CrossUpTo(P: seq<Point>, crosses: (Point, Point, Point, Point) -> bool, v: seq<int>, p: Point, q: Point, a: int,
      y: int, z: int)
    requires Crosses(P, crosses, v, p, q, a, y) && y <= z <= |v|
    ensures Crosses(P, crosses, v, p, q, a, z)
  {
  }

  /** Each inner loop of `trchtd_`: does a side pq cross an edge between slot x, member a of the
      contour, and slot y, member z? */
  method InTheWay(cf: Contour, P: seq<Point>, crosses: (Point, Point, Point, Point) -> bool, p: Point, q: Point, x: int,
      y: int, ghost E: Edges, ghost c: int, ghost a: int, ghost z: int) returns (oui: bool)
    requires cf.Valid(E) && 0 <= c < cf.nbcf && 0 < a <= z <= |cf.lists[c]|
    requires x == (if a < |cf.lists[c]| then cf.lists[c][a] else cf.lists[c][0])
    requires y == (if z < |cf.lists[c]| then cf.lists[c][z] else cf.lists[c][0])
    ensures oui <==> Crosses(P, crosses, cf.Polygons()[c], p, q, a, z)
  {
    hide Held, Crosses;
    ghost var s, l, v := cf.noarcf[..], cf.lists[c], cf.Polygons()[c];
    OnceIn(E, s, cf.n1arcf[..], cf.free, cf.lists, c);
    var nar1 := x;
    ghost var j := a;
    Leads(E, s, cf.n1arcf[..], cf.free, cf.lists, c, if j < |l| then j else 0);
    CrossNone(P, crosses, v, p, q, a, a + 1);
    CrossNone(P, crosses, v, p, q, a, a);
    while nar1 != y && cf.noarcf[nar1].suiv != y
      invariant a <= j <= z && (j < z || a == z) && 1 <= nar1 < cf.noarcf.Length
      invariant nar1 == (if j < |l| then l[j] else l[0])
      invariant j < |l| ==> cf.noarcf[nar1].suiv == l[Next(j, |l|)]
      invariant !Crosses(P, crosses, v, p, q, a, j + 1)
      decreases z - j
    {
      assert j + 1 < z;
      var nar2 := cf.noarcf[nar1].suiv;
      Leads(E, s, cf.n1arcf[..], cf.free, cf.lists, c, j + 1);
      assert v[j] == cf.noarcf[nar1].som && v[j + 1] == cf.noarcf[nar2].som;
      CrossMore(P, crosses, v, p, q, a, j);
      if crosses(p, q, PointOf(P, cf.noarcf[nar1].som), PointOf(P, cf.noarcf[nar2].som)) {
        CrossUpTo(P, crosses, v, p, q, a, j + 2, z);
        return true;
      }
      nar1, j := nar2, j + 1;
    }
    oui := false;
  }

  /** Is a side to slot nar3, member r of the contour, in the way of an edge? */
  method Hindered(cf: Contour, P: seq<Point>, crosses: (Point, Point, Point, Point) -> bool, nar0: int, nar: int,
      nar3: int, ghost E: Edges, ghost c: int, ghost r: int) returns (oui: bool)
    requires cf.Valid(E) && 0 <= c < cf.nbcf && 2 <= r < |cf.lists[c]|
    requires nar0 == cf.lists[c][0] && nar == cf.lists[c][1] && nar3 == cf.lists[c][r]
    ensures !oui <==> Free(P, crosses, cf.Polygons()[c], r)
  {
    hide Held, Free, Crosses;
    ghost var s, l, v := cf.noarcf[..], cf.lists[c], cf.Polygons()[c];
    Leads(E, s, cf.n1arcf[..], cf.free, cf.lists, c, 0);
    Leads(E, s, cf.n1arcf[..], cf.free, cf.lists, c, 1);
    Leads(E, s, cf.n1arcf[..], cf.free, cf.lists, c, r);
    var p1, p2, p3 := PointOf(P, cf.noarcf[nar0].som), PointOf(P, cf.noarcf[nar].som),
      PointOf(P, cf.noarcf[nar3].som);
    assert p1 == PointOf(P, v[0]) && p2 == PointOf(P, v[1]) && p3 == PointOf(P, v[r]);
    FreeOf(P, crosses, v, r);
    oui := InTheWay(cf, P, crosses, p2, p3, cf.noarcf[nar].suiv, nar3, E, c, 2, r);
    if oui {
      return;
    }
    oui := InTheWay(cf, P, crosses, p1, p3, cf.noarcf[nar3].suiv, nar0, E, c, r + 1, |l|);
  }

  /** What the loop over the vertices knows once those before r have been looked at: the best worth so
      far, and the slots and numbers of the vertices that have it. */
  ghost predicate Looked(P: seq<Point>, quality: (Point, Point, Point) -> real,
      crosses: (Point, Point, Point, Point) -> bool, l: seq<int>, v: seq<int>, r: int, qmima: real, larmin: seq<int>,
      ms: seq<int>)
  {
    && |larmin| == |ms| && |l| == |v|
    && (if ms == [] then qmima == -1.0 else qmima >= 0.0)
    && (forall j | 0 <= j < |ms| ::
      2 <= ms[j] < r && ms[j] < |l| && larmin[j] == l[ms[j]] && Free(P, crosses, v, ms[j])
      && Worth(P, quality, v, ms[j]) >= qmima * 0.999998)
    && (forall i | 2 <= i < r && Free(P, crosses, v, i) :: ms != [] && Worth(P, quality, v, i) <= qmima * 1.00001)
  }

  lemma LookedFree(P: seq<Point>, quality: (Point, Point, Point) -> real,
      crosses: (Point, Point, Point, Point) -> bool, l: seq<int>, v: seq<int>, r: int, qmima: real, larmin: seq<int>,
      ms: seq<int>)
    requires Looked(P, quality, crosses, l, v, r, qmima, larmin, ms) && 2 <= r < |l| && Free(P, crosses, v, r)
    requires Sensible(quality)
    ensures var q := Worth(P, quality, v, r);
      if q >= qmima * 1.00001 then Looked(P, quality, crosses, l, v, r + 1, q, [l[r]], [r])
      else if q >= qmima * 0.999998 then
        Looked(P, quality, crosses, l, v, r + 1, qmima, larmin + [l[r]], ms + [r])
      else Looked(P, quality, crosses, l, v, r + 1, qmima, larmin, ms)
  {
    hide Free;
    var q := Worth(P, quality, v, r);
    WorthSign(P, quality, v, r);
    hide Worth;
  }

  lemma WorthSign(P: seq<Point>, quality: (Point, Point, Point) -> real, v: seq<int>, r: int)
    requires Sensible(quality)
    ensures Worth(P, quality, v, r) >= 0.0
  {
  }

  lemma LookedOther(P: seq<Point>, quality: (Point, Point, Point) -> real,
      crosses: (Point, Point, Point, Point) -> bool, l: seq<int>, v: seq<int>, r: int, qmima: real, larmin: seq<int>,
      ms: seq<int>)
    requires Looked(P, quality, crosses, l, v, r, qmima, larmin, ms) && !Free(P, crosses, v, r)
    ensures Looked(P, quality, crosses, l, v, r + 1, qmima, larmin, ms)
  {
    hide Free, Worth;
  }

  /** The loop of `trchtd_` over the vertices that could join the edge nar0: those of best quality. */
  method BestVertices(cf: Contour, P: seq<Point>, quality: (Point, Point, Point) -> real,
      crosses: (Point, Point, Point, Point) -> bool, nar0: int, nar: int, ghost E: Edges, ghost c: int)
      returns (larmin: seq<int>, ghost ms: seq<int>, ghost qmima: real)
    requires cf.Valid(E) && 0 <= c < cf.nbcf && |cf.lists[c]| > 3 && Sensible(quality)
    requires nar0 == cf.lists[c][0] && nar == cf.lists[c][1]
    ensures Looked(P, quality, crosses, cf.lists[c], cf.Polygons()[c], |cf.lists[c]|, qmima, larmin, ms)
  {
    hide Held, Looked, Free, Sensible;
    ghost var s, l, v := cf.noarcf[..], cf.lists[c], cf.Polygons()[c];
    OnceIn(E, s, cf.n1arcf[..], cf.free, cf.lists, c);
    Leads(E, s, cf.n1arcf[..], cf.free, cf.lists, c, 0);
    Leads(E, s, cf.n1arcf[..], cf.free, cf.lists, c, 1);
    var best := -1.0;
    larmin, ms := [], [];
    var nar3 := cf.noarcf[nar].suiv;
    ghost var r := 2;
    LookedNone(P, quality, crosses, l, v);
    while nar3 != nar0
      invariant 2 <= r <= |l| && nar3 == (if r < |l| then l[r] else l[0])
      invariant Looked(P, quality, crosses, l, v, r, best, larmin, ms)
      decreases |l| - r
    {
      Leads(E, s, cf.n1arcf[..], cf.free, cf.lists, c, r);
      var oui := Hindered(cf, P, crosses, nar0, nar, nar3, E, c, r);
      if oui {
        LookedOther(P, quality, crosses, l, v, r, best, larmin, ms);
      } else {
        var ns1, ns2, ns3 := cf.noarcf[nar0].som, cf.noarcf[nar].som, cf.noarcf[nar3].som;
        var q := if AreaOf(P, (ns1, ns2, ns3)) <= 0.0 then 0.0
                 else quality(PointOf(P, ns1), PointOf(P, ns2), PointOf(P, ns3));
        assert q == Worth(P, quality, v, r);
        LookedFree(P, quality, crosses, l, v, r, best, larmin, ms);
        if q >= best * 1.00001 {
          best, larmin, ms := q, [nar3], [r];
        } else if q >= best * 0.999998 {
          larmin, ms := larmin + [nar3], ms + [r];
        }
      }
      nar3 := cf.noarcf[nar3].suiv;
      r := r + 1;
    }
    qmima := best;
  }

  lemma LookedNone(P: seq<Point>, quality: (Point, Point, Point) -> real,
      crosses: (Point, Point, Point, Point) -> bool, l: seq<int>, v: seq<int>)
    requires |l| == |v|
    ensures Looked(P, quality, crosses, l, v, 2, -1.0, [], [])
  {
  }

  lemma LookedAll(P: seq<Point>, quality: (Point, Point, Point) -> real,
      crosses: (Point, Point, Point, Point) -> bool, l: seq<int>, v: seq<int>, qmima: real, larmin: seq<int>,
      ms: seq<int>, j: int)
    requires Looked(P, quality, crosses, l, v, |l|, qmima, larmin, ms) && Shortest(P, v) && |v| > 3
    ensures ms == [] ==> Preferred(P, quality, crosses, v, |v| - 1)
    ensures 0 <= j < |ms| ==> 2 <= ms[j] < |l| && larmin[j] == l[ms[j]] && Preferred(P, quality, crosses, v, ms[j])
  {
    hide Worth, Shortest;
    assert forall r | Free(P, crosses, v, r) :: 2 <= r < |v|;
    hide Free;
  }

  /** The last loop of `trchtd_`: the slot before namin, member m of the contour. */
  method Before(cf: Contour, nar0: int, namin: int, ghost E: Edges, ghost c: int, ghost m: int) returns (namin0: int)
    requires cf.Valid(E) && 0 <= c < cf.nbcf && 1 <= m < |cf.lists[c]|
    requires nar0 == cf.lists[c][0] && namin == cf.lists[c][m]
    ensures namin0 == cf.lists[c][m - 1] && namin > 0
  {
    hide Held;
    ghost var l := cf.lists[c];
    OnceIn(E, cf.noarcf[..], cf.n1arcf[..], cf.free, cf.lists, c);
    Leads(E, cf.noarcf[..], cf.n1arcf[..], cf.free, cf.lists, c, m);
    var nar1 := nar0;
    ghost var j := 0;
    namin0 := 0;
    while nar1 != namin
      invariant 0 <= j <= m && nar1 == l[j] && (j > 0 ==> namin0 == l[j - 1])
      decreases m - j
    {
      Leads(E, cf.noarcf[..], cf.n1arcf[..], cf.free, cf.lists, c, j);
      namin0 := nar1;
      nar1 := cf.noarcf[nar1].suiv;
      j := j + 1;
    }
  }

  lemma TopPoly(s: seq<Slot>, lists: seq<seq<int>>)
    ensures |Polys(s, lists)| == |lists| && Top(Polys(s, lists)) == Poly(s, Top(lists))
      && |Top(Polys(s, lists))| == |Top(lists)|
  {
  }

  lemma TurnedParts(q: seq<seq<int>>, c: int, k: nat)
    requires c == |q| - 1 >= 0 && k <= |Top(q)|
    ensures |TurnedAt(q, c, k)| == |q| && Below(TurnedAt(q, c, k)) == Below(q)
      && Top(TurnedAt(q, c, k)) == Top(q)[k..] + Top(q)[..k]
  {
  }

  /** Read from its shortest edge, a polygon has it as its first. */
  lemma TurnedShortest(P: seq<Point>, v0: seq<int>, v: seq<int>, b: int)
    requires 0 <= b < |v0| && v == v0[Next(b, |v0|)..] + v0[..Next(b, |v0|)]
    requires forall j | 0 <= j < |v0| :: Length2(P, v0, Next(b, |v0|)) <= Length2(P, v0, j)
    ensures Shortest(P, v)
  {
    var n, k := |v0|, Next(b, |v0|);
    hide Dist2, PointOf;
    forall i | 0 <= i < n ensures Length2(P, v, i) == Length2(P, v0, if i + k < n then i + k else i + k - n) {
    }
    hide Length2;
    assert Length2(P, v, 0) == Length2(P, v0, k);
  }

  lemma PreferredThree(P: seq<Point>, quality: (Point, Point, Point) -> real,
      crosses: (Point, Point, Point, Point) -> bool, v: seq<int>)
    requires |v| == 3
    ensures Preferred(P, quality, crosses, v, 2)
  {
  }

  /** `trchtd_`: for the last contour an edge nar0, nar00 before it, and a third slot namin, namin0
      before it.  quality is that of `qutr2d_` and crosses the test of `int2ar_`.  Of several vertices
      of the best quality any is taken: the code compares their circles.  namin == 0 when the contour
      has fewer than three edges.  The contour is afterwards read from nar0. */
  method Trchtd(cf: Contour, P: seq<Point>, quality: (Point, Point, Point) -> real,
      crosses: (Point, Point, Point, Point) -> bool, nar: int, ghost E: Edges)
      returns (nar00: int, nar0: int, namin0: int, namin: int, ghost k: nat, ghost m: nat)
    requires cf.Valid(E) && cf.nbcf > 0 && nar == cf.n1arcf[cf.nbcf] && Sensible(quality)
    modifies cf`lists
    ensures cf.Valid(E)
    ensures namin == 0 <==> |Top(old(cf.lists))| < 3
    ensures namin == 0 ==> cf.lists == old(cf.lists)
    ensures namin != 0 ==> Chosen(Top(cf.lists), nar00, nar0, namin0, namin, m)
    ensures namin != 0 ==> k <= |Top(old(cf.lists))| && cf.lists == TurnedAt(old(cf.lists), cf.nbcf - 1, k)
    ensures namin != 0 ==> cf.Polygons() == TurnedAt(old(cf.Polygons()), cf.nbcf - 1, k)
    ensures namin != 0 ==> Preferred(P, quality, crosses, Top(cf.Polygons()), m)
  {
    hide *;
    ghost var c, q, l0 := cf.nbcf - 1, cf.Polygons(), cf.lists;
    ValidParts(cf, E);
    HeadIn(E, cf.noarcf[..], cf.n1arcf[..], cf.free, cf.lists, c);
    ghost var i: int :| 0 <= i < |cf.lists[c]| && cf.lists[c][i] == nar;
    k, m := 0, 0;
    TopPoly(cf.noarcf[..], cf.lists);
    LastIs(cf.lists);
    LastIs(q);
    ghost var b;
    var nbar, best;
    nbar, best, b := ShortestEdge(cf, P, nar, E, c, i);
    if nbar <= 2 {
      return nar, 0, 0, 0, k, m;
    }
    if nbar == 3 {
      nar00, nar0, namin0, namin, k, m := OnlyTriangle(cf, P, quality, crosses, nar, E, i);
    } else {
      nar00 := best;
      nar0, namin0, namin, k, m := BestTriangle(cf, P, quality, crosses, nar00, E, b);
    }
  }

  /** `trchtd_` on a contour of three edges, nar being member i. */
  method OnlyTriangle(cf: Contour, P: seq<Point>, quality: (Point, Point, Point) -> real,
      crosses: (Point, Point, Point, Point) -> bool, nar: int, ghost E: Edges, ghost i: int)
      returns (nar00: int, nar0: int, namin0: int, namin: int, ghost k: nat, ghost m: nat)
    requires cf.Valid(E) && cf.nbcf > 0 && |Top(cf.lists)| == 3 && 0 <= i < 3 && nar == Top(cf.lists)[i]
    modifies cf`lists
    ensures cf.Valid(E) && namin > 0 && Chosen(Top(cf.lists), nar00, nar0, namin0, namin, m)
    ensures k <= |Top(old(cf.lists))| && cf.lists == TurnedAt(old(cf.lists), cf.nbcf - 1, k)
    ensures cf.Polygons() == TurnedAt(old(cf.Polygons()), cf.nbcf - 1, k)
    ensures Preferred(P, quality, crosses, Top(cf.Polygons()), m)
  {
    hide *;
    ghost var c, l0, q := cf.nbcf - 1, cf.lists, cf.Polygons();
    ValidParts(cf, E);
    LastIs(cf.lists);
    nar00 := nar;
    nar0, k := PickEdge(cf, nar00, E, c, i);
    ValidParts(cf, E);
    NextIn(i, 3);
    TopPoly(cf.noarcf[..], cf.lists);
    LastIs(cf.lists);
    PreferredThree(P, quality, crosses, Top(cf.Polygons()));
    Leads(E, cf.noarcf[..], cf.n1arcf[..], cf.free, cf.lists, c, 0);
    Leads(E, cf.noarcf[..], cf.n1arcf[..], cf.free, cf.lists, c, 2);
    NextIn(0, 3);
    m := 2;
    namin0, namin := cf.noarcf[nar0].suiv, nar00;
    ChosenOf(cf.lists[c], nar00, nar0, namin0, namin, m);
  }

  /** `trchtd_` on a longer contour: the triangle on its shortest edge, which follows slot nar00,
      member b. */
  method BestTriangle(cf: Contour, P: seq<Point>, quality: (Point, Point, Point) -> real,
      crosses: (Point, Point, Point, Point) -> bool, nar00: int, ghost E: Edges, ghost b: int)
      returns (nar0: int, namin0: int, namin: int, ghost k: nat, ghost m: nat)
    requires cf.Valid(E) && cf.nbcf > 0 && |Top(cf.lists)| > 3 && 0 <= b < |Top(cf.lists)|
      && nar00 == Top(cf.lists)[b] && Sensible(quality)
    requires var v := Top(cf.Polygons());
      |v| == |Top(cf.lists)| && forall j | 0 <= j < |v| :: Length2(P, v, Next(b, |v|)) <= Length2(P, v, j)
    modifies cf`lists
    ensures cf.Valid(E) && namin > 0 && Chosen(Top(cf.lists), nar00, nar0, namin0, namin, m)
    ensures k <= |Top(old(cf.lists))| && cf.lists == TurnedAt(old(cf.lists), cf.nbcf - 1, k)
    ensures cf.Polygons() == TurnedAt(old(cf.Polygons()), cf.nbcf - 1, k)
    ensures Preferred(P, quality, crosses, Top(cf.Polygons()), m)
  {
    hide *;
    ghost var c, l0, q := cf.nbcf - 1, cf.lists, cf.Polygons();
    ValidParts(cf, E);
    LastIs(cf.lists);
    nar0, k := PickEdge(cf, nar00, E, c, b);
    ValidParts(cf, E);
    NextIn(b, |l0[c]|);
    TurnedParts(q, c, k);
    LastIs(cf.lists);
    LastIs(cf.Polygons());
    TurnedShortest(P, Top(q), Top(cf.Polygons()), b);
    namin0, namin, m := ThirdSlot(cf, P, quality, crosses, nar00, nar0, E, c);
    ChosenOf(cf.lists[c], nar00, nar0, namin0, namin, m);
  }

  lemma ValidParts(cf: Contour, E: Edges)
    requires cf.Valid(E)
    ensures Held(E, cf.noarcf[..], cf.n1arcf[..], cf.free, cf.lists)
    ensures cf.noarcf.Length == cf.n1arcf.Length == cf.mxarcf + 1 && cf.nbcf == |cf.lists| <= cf.mxarcf
    ensures cf.Polygons() == Polys(cf.noarcf[..], cf.lists)
  {
    hide Held;
  }

  lemma LastIs<T>(l: seq<seq<T>>)
    requires l != []
    ensures Top(l) == l[|l| - 1]
  {
  }

  lemma NextIn(i: int, n: int)
    requires 0 <= i < n
    ensures 0 <= Next(i, n) < n && (i == 0 && n >= 2 ==> Next(i, n) == 1)
  {
  }

  lemma ChosenOf(l: seq<int>, nar00: int, nar0: int, namin0: int, namin: int, m: int)
    requires 2 <= m < |l| && nar00 == l[|l| - 1] && nar0 == l[0] && namin0 == l[m - 1] && namin == l[m] > 0
    ensures Chosen(l, nar00, nar0, namin0, namin, m)
  {
  }

  /** The choice of the third slot for the edge nar0. */
  method ThirdSlot(cf: Contour, P: seq<Point>, quality: (Point, Point, Point) -> real,
      crosses: (Point, Point, Point, Point) -> bool, nar00: int, nar0: int, ghost E: Edges, ghost c: int)
      returns (namin0: int, namin: int, ghost m: nat)
    requires cf.Valid(E) && 0 <= c < cf.nbcf && |cf.lists[c]| > 3 && Sensible(quality)
    requires nar0 == cf.lists[c][0] && nar00 == cf.lists[c][|cf.lists[c]| - 1]
    requires Shortest(P, cf.Polygons()[c])
    ensures 2 <= m < |cf.lists[c]| && namin0 == cf.lists[c][m - 1] && namin == cf.lists[c][m] > 0
    ensures Preferred(P, quality, crosses, cf.Polygons()[c], m)
  {
    hide Held, Preferred, Looked, Sensible, Shortest;
    Leads(E, cf.noarcf[..], cf.n1arcf[..], cf.free, cf.lists, c, 0);
    var larmin;
    ghost var ms, qmima;
    larmin, ms, qmima := BestVertices(cf, P, quality, crosses, nar0, cf.noarcf[nar0].suiv, E, c);
    LookedSizes(P, quality, crosses, cf.lists[c], cf.Polygons()[c], |cf.lists[c]|, qmima, larmin, ms);
    if larmin == [] {
      LookedAll(P, quality, crosses, cf.lists[c], cf.Polygons()[c], qmima, larmin, ms, 0);
      namin, m := nar00, |cf.lists[c]| - 1;
    } else {
      var x :| 0 <= x < |larmin|;
      LookedAll(P, quality, crosses, cf.lists[c], cf.Polygons()[c], qmima, larmin, ms, x);
      namin, m := larmin[x], ms[x];
    }
    namin0 := Before(cf, nar0, namin, E, c, m);
  }

  lemma LookedSizes(P: seq<Point>, quality: (Point, Point, Point) -> real,
      crosses: (Point, Point, Point, Point) -> bool, l: seq<int>, v: seq<int>, r: int, qmima: real, larmin: seq<int>,
      ms: seq<int>)
    requires Looked(P, quality, crosses, l, v, r, qmima, larmin, ms)
    ensures |larmin| == |ms| && |l| == |v|
  {
  }
}
