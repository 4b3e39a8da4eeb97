/** The end of `aptrte`: the vertices in use are renumbered, and the triangles written with the new
    numbers. */
module Output {
  import opened Lists
  import opened Ranks
  import opened EdgeTable
  import opened Mesh
  import opened Exchange
  import opened Geometry
  import opened Etoile
  import opened Tr3str

  // ---------------------------------------------------------------- the code of a boundary vertex

  const BASE: int := 1000000

  /** Vertex number k of line n. */
  function Code(n: int, k: int): (r: int) {
    BASE * n + k
  }

  /** nudslf[n] is the last vertex of line n; every line has a vertex. */
  ghost predicate Lines(nudslf: seq<int>) {
    nudslf != [] && nudslf[0] == 0 && forall n | 0 < n < |nudslf| :: nudslf[n - 1] < nudslf[n]
  }

  /** The code leads back to the place i of the array of the boundary vertices. */
  predicate DecodesTo(nudslf: seq<int>, code: int, i: int) {
    var l := code / BASE;
    1 <= l <= |nudslf| && code - BASE * l + nudslf[l - 1] - 1 == i
  }

  lemma {:induction false} LinesGrow(nudslf: seq<int>, m: int, n: int)
    requires Lines(nudslf) && 0 <= m <= n < |nudslf|
    ensures nudslf[n] >= nudslf[m] + (n - m)
  {
    if m < n {
      LinesGrow(nudslf, m, n - 1);
    }
  }

  /** The code of vertex k of line n leads back to it exactly when k is under a million, or the last
      of a million. */
  lemma CodeExact(nudslf: seq<int>, n: int, k: int)
    requires Lines(nudslf) && 1 <= n < |nudslf| && 1 <= k <= nudslf[n] - nudslf[n - 1]
    ensures Code(n, k) == 1000000 * n + k
    ensures DecodesTo(nudslf, Code(n, k), nudslf[n - 1] + k - 1) <==>
              k < 1000000 || k == 1000000 == nudslf[n] - nudslf[n - 1]
  {
    var q := k / BASE;
    assert Code(n, k) / BASE == n + q && k - BASE * q == k % BASE;
    if q >= 1 && n + q <= |nudslf| {
      LinesGrow(nudslf, n, n + q - 1);
    }
  }

  /** Every vertex of line n. */
  ghost predicate Decodes(nudslf: seq<int>, n: int)
    requires 1 <= n < |nudslf|
  {
    forall k | 1 <= k <= nudslf[n] - nudslf[n - 1] :: DecodesTo(nudslf, Code(n, k), nudslf[n - 1] + k - 1)
  }

  /** The code works for all vertices of a line exactly when there are at most a million. */
  lemma CodeLine(nudslf: seq<int>, n: int)
    requires Lines(nudslf) && 1 <= n < |nudslf|
    ensures Decodes(nudslf, n) <==> nudslf[n] - nudslf[n - 1] <= 1000000
  {
    var size := nudslf[n] - nudslf[n - 1];
    forall k | 1 <= k <= size ensures DecodesTo(nudslf, Code(n, k), nudslf[n - 1] + k - 1) <==>
      k < BASE || k == BASE == size {
      CodeExact(nudslf, n, k);
    }
    if size > BASE {
      assert !DecodesTo(nudslf, Code(n, BASE), nudslf[n - 1] + BASE - 1);
    }
  }

  // ---------------------------------------------------------------- the new numbers

  /** Vertex s is a corner of a triangle. */
  ghost predicate Corner(E: Edges, T: seq<Tri>, n: int, s: int) {
    exists t :: t < n && Active(T, t) && IsCorner(E, T[t], s)
  }

  /** m marks the corners of the triangles below n. */
  ghost predicate Marks(E: Edges, T: seq<Tri>, n: int, m: seq<int>) {
    && (forall s | 0 <= s < |m| :: m[s] == 0 || m[s] == 1)
    && (forall s | 0 <= s < |m| :: m[s] == 1 <==> Corner(E, T, n, s))
  }

  /** Corners are vertices up to nbsomm. */
  ghost predicate CornersUpto(E: Edges, T: seq<Tri>, nbsomm: int) {
    forall t, s | Active(T, t) && IsCorner(E, T[t], s) :: 1 <= s <= nbsomm
  }

  lemma CornerNext(E: Edges, T: seq<Tri>, t: int, s: int)
    requires 1 <= t < |T|
    ensures Corner(E, T, t + 1, s) <==> Corner(E, T, t, s) || (Active(T, t) && IsCorner(E, T[t], s))
  {
    hide IsCorner;
    if Corner(E, T, t, s) {
      var u :| u < t && Active(T, u) && IsCorner(E, T[u], s);
      assert u < t + 1;
    }
    if Active(T, t) && IsCorner(E, T[t], s) {
      assert t < t + 1;
    }
  }

  /** The two loops of `aptrte` that number the vertices in use. */
  method Number(table: Table, noartr: array<Tri>, mnarst: array<int>, nbsomm: nat)
      returns (nbst: nat, ghost m: seq<int>)
    requires Sound(table, noartr) && CornersUpto(table.Live(), noartr[..], nbsomm)
    requires mnarst.Length == nbsomm + 1 && mnarst != table.noarst && noartr.Length > 0
    modifies mnarst
    ensures Marks(table.Live(), noartr[..], noartr.Length, m) && |m| == nbsomm + 1
    ensures mnarst[..] == Renumbered(m, nbsomm) && nbst == Rank(m, nbsomm)
  {
    hide Exchange.Sound, CornersUpto, IsCorner, Renumbered, Rank;
    ghost var E, T := table.Live(), noartr[..];
    for i := 0 to nbsomm + 1
      invariant forall j | 0 <= j < i :: mnarst[j] == 0
    {
      mnarst[i] := 0;
    }
    var nt := 1;
    MarksNone(E, T, mnarst[..]);
    while nt < noartr.Length
      invariant 1 <= nt <= noartr.Length
      invariant Marks(E, T, nt, mnarst[..])
      invariant table.Live() == E && Exchange.Sound(table, noartr)
    {
      if noartr[nt].a1 != 0 {
        var s1, s2, s3 := Nusotr(table, noartr, nt);
        ghost var before := mnarst[..];
        CornersAt(E, T, nbsomm, nt, s1, s2, s3);
        mnarst[s1] := 1;
        mnarst[s2] := 1;
        mnarst[s3] := 1;
        MarksNext(E, T, nt, before, mnarst[..], s1, s2, s3);
      } else {
        MarksSame(E, T, nt, mnarst[..]);
      }
      nt := nt + 1;
    }
    m := mnarst[..];
    nbst := NumberMarked(mnarst, nbsomm);
  }

  lemma MarksNone(E: Edges, T: seq<Tri>, m: seq<int>)
    requires forall s | 0 <= s < |m| :: m[s] == 0
    ensures Marks(E, T, 1, m)
  {
  }

  lemma CornersAt(E: Edges, T: seq<Tri>, nbsomm: int, t: int, s1: int, s2: int, s3: int)
    requires CornersUpto(E, T, nbsomm) && Active(T, t) && Verts(E, T[t]) == (s1, s2, s3)
    ensures 1 <= s1 <= nbsomm && 1 <= s2 <= nbsomm && 1 <= s3 <= nbsomm
  {
    assert IsCorner(E, T[t], s1) && IsCorner(E, T[t], s2) && IsCorner(E, T[t], s3);
  }

  lemma MarksNext(E: Edges, T: seq<Tri>, t: int, m: seq<int>, m': seq<int>, s1: int, s2: int, s3: int)
    requires Marks(E, T, t, m) && Active(T, t) && Verts(E, T[t]) == (s1, s2, s3)
    requires 0 <= s1 < |m| && 0 <= s2 < |m| && 0 <= s3 < |m| && m' == m[s1 := 1][s2 := 1][s3 := 1]
    ensures Marks(E, T, t + 1, m')
  {
    hide Corner;
    forall s | 0 <= s < |m'| ensures m'[s] == 1 <==> Corner(E, T, t + 1, s) {
      CornerNext(E, T, t, s);
    }
  }

  lemma MarksSame(E: Edges, T: seq<Tri>, t: int, m: seq<int>)
    requires Marks(E, T, t, m) && 1 <= t < |T| && !Active(T, t)
    ensures Marks(E, T, t + 1, m)
  {
    hide Corner;
    forall s | 0 <= s < |m| ensures m[s] == 1 <==> Corner(E, T, t + 1, s) {
      CornerNext(E, T, t, s);
    }
  }

  /** The marks become numbers. */
  method NumberMarked(mnarst: array<int>, nbsomm: nat) returns (nbst: nat)
    requires mnarst.Length == nbsomm + 1
    modifies mnarst
    ensures mnarst[..] == Renumbered(old(mnarst[..]), nbsomm) && nbst == Rank(old(mnarst[..]), nbsomm)
  {
    ghost var m := mnarst[..];
    nbst := 0;
    var i := 1;
    while i <= nbsomm
      invariant 1 <= i <= nbsomm + 1 && nbst == Rank(m, i - 1) && mnarst[..] == Renumbered(m, i - 1)
    {
      assert mnarst[..][i] == m[i];
      if mnarst[i] > 0 {
        nbst := nbst + 1;
        mnarst[i] := nbst;
      }
      assert mnarst[..] == Renumbered(m, i - 1)[i := mnarst[i]];
      i := i + 1;
    }
  }

  // ---------------------------------------------------------------- the coordinates

  /** The given coordinates: the boundary vertices by line, and the imposed points. */
  datatype Given = Given(nudslf: seq<int>, uvslf: seq<Point>, uvpti: seq<Point>)

  /** The code of a vertex can be looked up. */
  predicate Readable(g: Given, code: int) {
    if code >= BASE then
      var l := code / BASE;
      l <= |g.nudslf| && 0 <= code - BASE * l + g.nudslf[l - 1] - 1 < |g.uvslf|
    else code <= |g.uvpti|
  }

  /** The coordinates of a vertex with the code: the given ones when it has any, otherwise p. */
  function Restored(g: Given, code: int, p: Point): (r: Point)
    requires Readable(g, code)
  {
    if code <= 0 then p
    else if code >= BASE then
      var l := code / BASE;
      g.uvslf[code - BASE * l + g.nudslf[l - 1] - 1]
    else g.uvpti[code - 1]
  }

  /** A boundary vertex gets its own coordinates back, when its line is not longer than a million. */
  lemma BoundaryRestored(g: Given, n: int, k: int, p: Point)
    requires Lines(g.nudslf) && 1 <= n < |g.nudslf| && 1 <= k <= g.nudslf[n] - g.nudslf[n - 1] <= BASE
    requires |g.uvslf| == g.nudslf[|g.nudslf| - 1]
    ensures 0 <= g.nudslf[n - 1] + k - 1 < |g.uvslf|
    ensures Readable(g, Code(n, k)) && Restored(g, Code(n, k), p) == g.uvslf[g.nudslf[n - 1] + k - 1]
  {
    LinesGrow(g.nudslf, 0, n - 1);
    LinesGrow(g.nudslf, n, |g.nudslf| - 1);
    CodeExact(g.nudslf, n, k);
  }

  /** An imposed point with a number under a million gets its own coordinates back. */
  lemma PointRestored(g: Given, k: int, p: Point)
    requires 1 <= k <= |g.uvpti| && k < BASE
    ensures Readable(g, k) && Restored(g, k, p) == g.uvpti[k - 1]
  {
  }

  /** All vertices below n that got a number have their coordinates. */
  ghost predicate Placed(g: Given, slig: seq<int>, pxyd: seq<Point>, m: seq<int>, n: int, uvst: seq<Point>) {
    forall i | Marked(m, i) && i <= n && i <= |slig| && i <= |pxyd| ::
      Readable(g, slig[i - 1]) && 1 <= Rank(m, i) <= |uvst|
        && uvst[Rank(m, i) - 1] == Restored(g, slig[i - 1], pxyd[i - 1])
  }

  /** The array `uvst` of the coordinates of the numbered vertices. */
  method Coordinates(g: Given, slig: seq<int>, pxyd: seq<Point>, mnarst: array<int>, nbsomm: nat, nbst: nat,
      ghost m: seq<int>) returns (uvst: array<Point>)
    requires |slig| >= nbsomm && |pxyd| >= nbsomm && |m| == nbsomm + 1 && mnarst[..] == Renumbered(m, nbsomm)
      && nbst == Rank(m, nbsomm)
    requires forall i | Marked(m, i) :: Readable(g, slig[i - 1])
    ensures fresh(uvst) && uvst.Length == nbst && Placed(g, slig, pxyd, m, nbsomm, uvst[..])
  {
    uvst := new Point[nbst](_ => Point(0.0, 0.0));
    var k, i := -1, 0;
    while i < nbsomm
      invariant 0 <= i <= nbsomm && k == Rank(m, i) - 1 && uvst.Length == nbst && fresh(uvst)
      invariant Placed(g, slig, pxyd, m, i, uvst[..])
    {
      assert mnarst[i + 1] == Renumbered(m, nbsomm)[i + 1];
      NumberedMarks(m, i + 1);
      ghost var before := uvst[..];
      if mnarst[i + 1] > 0 {
        k := k + 1;
        var n := slig[i];
        uvst[k] := pxyd[i];
        if n > 0 {
          if n >= BASE {
            var l := n / BASE;
            n := n - BASE * l + g.nudslf[l - 1] - 1;
            uvst[k] := g.uvslf[n];
          } else {
            uvst[k] := g.uvpti[n - 1];
          }
        }
        assert uvst[..] == before[k := Restored(g, slig[i], pxyd[i])];
      }
      PlacedNext(g, slig, pxyd, m, i, before, uvst[..]);
      i := i + 1;
    }
  }

  lemma NumberedMarks(m: seq<int>, i: int)
    requires 1 <= i < |m|
    ensures Renumbered(m, |m| - 1)[i] > 0 <==> m[i] > 0
    ensures m[i] > 0 ==> 1 <= Rank(m, i) <= Rank(m, |m| - 1)
  {
    if m[i] > 0 {
      RankOrder(m, i, i);
    }
  }

  lemma PlacedNext(g: Given, slig: seq<int>, pxyd: seq<Point>, m: seq<int>, n: nat, u: seq<Point>, u': seq<Point>)
    requires Placed(g, slig, pxyd, m, n, u) && n < |slig| && n < |pxyd| && n + 1 < |m|
    requires m[n + 1] > 0 ==> Readable(g, slig[n]) && 1 <= Rank(m, n + 1) <= |u|
                              && u' == u[Rank(m, n + 1) - 1 := Restored(g, slig[n], pxyd[n])]
    requires m[n + 1] <= 0 ==> u' == u
    ensures Placed(g, slig, pxyd, m, n + 1, u')
  {
    hide Readable, Restored;
    forall i | Marked(m, i) && i <= n + 1 && i <= |slig| && i <= |pxyd|
      ensures Readable(g, slig[i - 1]) && 1 <= Rank(m, i) <= |u'|
        && u'[Rank(m, i) - 1] == Restored(g, slig[i - 1], pxyd[i - 1]) {
      if i <= n && Marked(m, n + 1) {
        RankOrder(m, i, n + 1);
      }
    }
  }

  // ---------------------------------------------------------------- the codes of all vertices

  /** The line of place i of the boundary array, and the number there. */
  lemma {:induction false} LineOf(nudslf: seq<int>, n: int, i: int) returns (l: int, k: int)
    requires Lines(nudslf) && 0 <= n < |nudslf| && 0 <= i < nudslf[n]
    ensures 1 <= l <= n && 1 <= k <= nudslf[l] - nudslf[l - 1] && i == nudslf[l - 1] + k - 1
    decreases n
  {
    if i >= nudslf[n - 1] {
      return n, i - nudslf[n - 1] + 1;
    }
    l, k := LineOf(nudslf, n - 1, i);
  }

  /** The codes of the lines up to n. */
  ghost predicate LinesCoded(nudslf: seq<int>, n: int, slig: seq<int>) {
    && 0 <= n < |nudslf| && nudslf[n] <= |slig|
    && forall l, k | 1 <= l <= n && 1 <= k <= nudslf[l] - nudslf[l - 1] && 1 <= nudslf[l - 1] + k <= |slig| ::
      slig[nudslf[l - 1] + k - 1] == Code(l, k)
  }

  /** Every boundary vertex and imposed point has its code, the others none. */
  ghost predicate Coded(nudslf: seq<int>, nbpti: int, slig: seq<int>) {
    && Lines(nudslf) && LinesCoded(nudslf, |nudslf| - 1, slig)
    && (forall k {:trigger slig[k]} | 0 <= k < |slig| && k >= nudslf[|nudslf| - 1] ::
      slig[k] == if k < nudslf[|nudslf| - 1] + nbpti then k - nudslf[|nudslf| - 1] + 1 else 0)
  }

  /** The codes, written by the loop of `aptrte` over the lines and the one over the imposed points. */
  method Codes(nudslf: seq<int>, nbpti: nat, slig: array<int>)
    requires Lines(nudslf) && nudslf[|nudslf| - 1] + nbpti <= slig.Length && forall i | 0 <= i < slig.Length ::
      slig[i] == 0
    modifies slig
    ensures Coded(nudslf, nbpti, slig[..])
  {
    hide Code;
    var n := 1;
    LinesGrow(nudslf, 0, |nudslf| - 1);
    while n < |nudslf|
      invariant 1 <= n <= |nudslf| && LinesCoded(nudslf, n - 1, slig[..])
      invariant forall i | 0 <= i < slig.Length && nudslf[n - 1] <= i :: slig[i] == 0
    {
      LinesGrow(nudslf, 0, n - 1);
      LinesGrow(nudslf, n, |nudslf| - 1);
      ghost var before := slig[..];
      var ns0 := nudslf[n - 1] + 1;
      var ns1, i := ns0, 1;
      slig[ns1 - 1] := Code(n, ns1 - nudslf[n - 1]);
      while i < nudslf[n] - nudslf[n - 1]
        invariant 1 <= i <= nudslf[n] - nudslf[n - 1] && ns1 == nudslf[n - 1] + i
        invariant forall j | 0 <= j < slig.Length ::
          slig[j] == if nudslf[n - 1] <= j < ns1 then Code(n, j - nudslf[n - 1] + 1) else before[j]
      {
        ns1 := ns1 + 1;
        slig[ns1 - 1] := Code(n, ns1 - nudslf[n - 1]);
        i := i + 1;
      }
      LineCoded(nudslf, n, before, slig[..]);
      n := n + 1;
    }
    var ns1, i := nudslf[|nudslf| - 1], 0;
    ghost var before := slig[..];
    while i < nbpti
      invariant 0 <= i <= nbpti && ns1 == nudslf[|nudslf| - 1] + i
      invariant forall j | 0 <= j < slig.Length ::
        slig[j] == if nudslf[|nudslf| - 1] <= j < ns1 then j - nudslf[|nudslf| - 1] + 1 else before[j]
    {
      slig[ns1] := i + 1;
      ns1 := ns1 + 1;
      i := i + 1;
    }
    LinesStill(nudslf, |nudslf| - 1, before, slig[..]);
  }

  lemma LineCoded(nudslf: seq<int>, n: int, before: seq<int>, slig: seq<int>)
    requires Lines(nudslf) && 1 <= n < |nudslf| && LinesCoded(nudslf, n - 1, before) && |slig| == |before| >= nudslf[n]
    requires forall j | 0 <= j < |slig| ::
      slig[j] == if nudslf[n - 1] <= j < nudslf[n] then Code(n, j - nudslf[n - 1] + 1) else before[j]
    ensures LinesCoded(nudslf, n, slig)
  {
    forall l, k | 1 <= l <= n && 1 <= k <= nudslf[l] - nudslf[l - 1]
      && 1 <= nudslf[l - 1] + k <= |slig| ensures slig[nudslf[l - 1] + k - 1] == Code(l, k) {
      if l < n {
        LinesGrow(nudslf, l, n - 1);
      }
    }
  }

  lemma LinesStill(nudslf: seq<int>, n: int, before: seq<int>, slig: seq<int>)
    requires Lines(nudslf) && LinesCoded(nudslf, n, before) && |slig| == |before|
    requires forall j | 0 <= j < nudslf[n] :: slig[j] == before[j]
    ensures LinesCoded(nudslf, n, slig)
  {
    forall l, k | 1 <= l <= n && 1 <= k <= nudslf[l] - nudslf[l - 1]
      && 1 <= nudslf[l - 1] + k <= |slig| ensures slig[nudslf[l - 1] + k - 1] == Code(l, k) {
      LinesGrow(nudslf, l, n);
    }
  }

  /** With at most a million vertices on every line and fewer imposed points, all codes can be looked up,
      and a boundary vertex gets its own coordinates. */
  lemma CodedReadable(g: Given, slig: seq<int>, i: int, p: Point)
    requires Coded(g.nudslf, |g.uvpti|, slig) && 0 <= i < |slig| && |g.uvslf| == g.nudslf[|g.nudslf| - 1]
      && |g.uvpti| < BASE
    requires forall n | 1 <= n < |g.nudslf| :: g.nudslf[n] - g.nudslf[n - 1] <= BASE
    ensures Readable(g, slig[i]) && (i < |g.uvslf| ==> Restored(g, slig[i], p) == g.uvslf[i])
  {
    if i < |g.uvslf| {
      var l, k := LineOf(g.nudslf, |g.nudslf| - 1, i);
      BoundaryRestored(g, l, k, p);
      assert slig[g.nudslf[l - 1] + k - 1] == Code(l, k);
    }
  }

  // ---------------------------------------------------------------- the triangles

  /** 1 for every triangle in use. */
  function InUse(T: seq<Tri>): (r: seq<int>) {
    seq(|T|, t requires 0 <= t < |T| => if Active(T, t) then 1 else 0)
  }

  /** Places 4 * k to 4 * k + 3. */
  function Block(nust: seq<int>, k: int): (r: seq<int>) {
    if 0 <= k && 4 * k + 4 <= |nust| then nust[4 * k..4 * k + 4] else []
  }

  /** The four places of triangle t: the new numbers of its corners and 0. */
  ghost predicate Written(E: Edges, T: seq<Tri>, m: seq<int>, t: int, nust: seq<int>) {
    Active(T, t) &&
    var (s1, s2, s3) := Verts(E, T[t]);
    && Marked(m, s1) && Marked(m, s2) && Marked(m, s3)
    && Block(nust, Rank(InUse(T), t) - 1) == [Rank(m, s1), Rank(m, s2), Rank(m, s3), 0]
  }

  ghost predicate AllWritten(E: Edges, T: seq<Tri>, m: seq<int>, n: int, nust: seq<int>) {
    forall t | Active(T, t) && t <= n :: Written(E, T, m, t, nust)
  }

  /** The array `nust`: four places for each of the nbt triangles; nbt0 is the number of triangles
      that `qualitetrte` has counted. */
  method Triangles(table: Table, noartr: array<Tri>, mnarst: array<int>, nbsomm: nat, nbt0: nat, ghost m: seq<int>)
      returns (nbt: nat, nust: array<int>)
    requires Sound(table, noartr) && noartr.Length > 0 && CornersUpto(table.Live(), noartr[..], nbsomm)
    requires Marks(table.Live(), noartr[..], noartr.Length, m) && |m| == nbsomm + 1
      && mnarst[..] == Renumbered(m, nbsomm)
    requires nbt0 == Rank(InUse(noartr[..]), noartr.Length - 1)
    ensures fresh(nust) && nbt == nbt0 && nust.Length == 4 * nbt
    ensures AllWritten(table.Live(), noartr[..], m, noartr.Length - 1, nust[..])
  {
    hide Exchange.Sound, CornersUpto, IsCorner, Renumbered, Rank, InUse, Marks, Written;
    ghost var E, T := table.Live(), noartr[..];
    ghost var u := InUse(T);
    nust := new int[4 * nbt0](_ => 0);
    nbt := 0;
    var i := 1;
    InUseAt(T, 0);
    while i < noartr.Length
      invariant 1 <= i <= noartr.Length && nbt == 4 * Rank(u, i - 1) && nust.Length == 4 * nbt0 && fresh(nust)
      invariant AllWritten(E, T, m, i - 1, nust[..])
      invariant table.Live() == E && Exchange.Sound(table, noartr) && mnarst[..] == Renumbered(m, nbsomm)
    {
      InUseAt(T, i);
      ghost var before := nust[..];
      if noartr[i].a1 != 0 {
        var s1, s2, s3 := Nusotr(table, noartr, i);
        CornersAt(E, T, nbsomm, i, s1, s2, s3);
        CornersMarked(E, T, m, nbsomm, i, s1, s2, s3);
        nust[nbt] := mnarst[s1];
        nust[nbt + 1] := mnarst[s2];
        nust[nbt + 2] := mnarst[s3];
        nust[nbt + 3] := 0;
        WrittenNow(E, T, m, i, nust[..], before, nbt, s1, s2, s3);
        nbt := nbt + 4;
      } else {
        WrittenStill(E, T, m, i, nust[..]);
      }
      i := i + 1;
    }
    nbt := nbt / 4;
  }

  lemma InUseAt(T: seq<Tri>, i: nat)
    requires i < |T|
    ensures |InUse(T)| == |T| && (InUse(T)[i] == if Active(T, i) then 1 else 0)
    ensures Rank(InUse(T), i) == if i == 0 then 0 else Rank(InUse(T), i - 1) + if Active(T, i) then 1 else 0
    ensures Rank(InUse(T), i) <= Rank(InUse(T), |T| - 1)
  {
    RankGrows(InUse(T), i, |T| - 1);
  }

  lemma CornersMarked(E: Edges, T: seq<Tri>, m: seq<int>, nbsomm: nat, t: int, s1: int, s2: int, s3: int)
    requires Marks(E, T, |T|, m) && |m| == nbsomm + 1 && Active(T, t) && Verts(E, T[t]) == (s1, s2, s3)
    requires 1 <= s1 <= nbsomm && 1 <= s2 <= nbsomm && 1 <= s3 <= nbsomm
    ensures Marked(m, s1) && Marked(m, s2) && Marked(m, s3)
    ensures var r := Renumbered(m, nbsomm); |r| == |m| && r[s1] == Rank(m, s1) && r[s2] == Rank(m, s2)
                                            && r[s3] == Rank(m, s3)
  {
    assert t < |T| && IsCorner(E, T[t], s1) && IsCorner(E, T[t], s2) && IsCorner(E, T[t], s3);
    assert Corner(E, T, |T|, s1) && Corner(E, T, |T|, s2) && Corner(E, T, |T|, s3);
  }

  lemma WrittenStill(E: Edges, T: seq<Tri>, m: seq<int>, t: int, nust: seq<int>)
    requires 1 <= t < |T| && !Active(T, t) && AllWritten(E, T, m, t - 1, nust)
    ensures AllWritten(E, T, m, t, nust)
  {
    hide Written;
  }

  lemma WrittenNow(E: Edges, T: seq<Tri>, m: seq<int>, t: nat, nust: seq<int>, before: seq<int>, b: int, s1: int,
      s2: int, s3: int)
    requires Active(T, t) && AllWritten(E, T, m, t - 1, before) && b == 4 * Rank(InUse(T), t - 1) && 0 <= b
      && b + 4 <= |before|
    requires Verts(E, T[t]) == (s1, s2, s3) && Marked(m, s1) && Marked(m, s2) && Marked(m, s3)
    requires nust == before[b := Rank(m, s1)][b + 1 := Rank(m, s2)][b + 2 := Rank(m, s3)][b + 3 := 0]
    ensures AllWritten(E, T, m, t, nust)
  {
    hide Written, Marked, Verts;
    WrittenHere(E, T, m, t, nust, before, b, s1, s2, s3);
    forall u: nat | Active(T, u) && u < t ensures Written(E, T, m, u, nust) {
      assert Written(E, T, m, u, before);
      assert forall i | 0 <= i < b :: nust[i] == before[i];
      hide AllWritten;
      BlockBefore(T, t, nust, before, b, u);
      WrittenSame(E, T, m, u, before, nust);
    }
  }

  lemma WrittenSame(E: Edges, T: seq<Tri>, m: seq<int>, t: nat, before: seq<int>, nust: seq<int>)
    requires Written(E, T, m, t, before) && Block(nust, Rank(InUse(T), t) - 1) == Block(before, Rank(InUse(T), t) - 1)
    ensures Written(E, T, m, t, nust)
  {
  }

  lemma WrittenHere(E: Edges, T: seq<Tri>, m: seq<int>, t: nat, nust: seq<int>, before: seq<int>, b: int, s1: int,
      s2: int, s3: int)
    requires Active(T, t) && b == 4 * Rank(InUse(T), t - 1) && 0 <= b && b + 4 <= |before|
    requires Verts(E, T[t]) == (s1, s2, s3) && Marked(m, s1) && Marked(m, s2) && Marked(m, s3)
    requires nust == before[b := Rank(m, s1)][b + 1 := Rank(m, s2)][b + 2 := Rank(m, s3)][b + 3 := 0]
    ensures Written(E, T, m, t, nust)
  {
    InUseAt(T, t);
    hide InUse, Rank, Marked, Verts;
    assert Block(nust, Rank(InUse(T), t) - 1) == [Rank(m, s1), Rank(m, s2), Rank(m, s3), 0];
  }

  lemma BlockBefore(T: seq<Tri>, t: nat, nust: seq<int>, before: seq<int>, b: int, u: nat)
    requires Active(T, t) && b == 4 * Rank(InUse(T), t - 1) && 0 <= b && b + 4 <= |before| == |nust| && Active(T, u)
      && u < t
    requires forall i | 0 <= i < b :: nust[i] == before[i]
    ensures Block(nust, Rank(InUse(T), u) - 1) == Block(before, Rank(InUse(T), u) - 1)
  {
    RankGrows(InUse(T), u, t - 1);
    hide InUse, Rank;
  }

  // ---------------------------------------------------------------- the whole output

  /** The tables hold the triangulation (E, T): vertex s has the number Rank(m, s), its coordinates
      are in uvst, and every triangle has its place in nust. */
  ghost predicate Described(E: Edges, T: seq<Tri>, g: Given, slig: seq<int>, pxyd: seq<Point>, nbsomm: nat, m: seq<int>,
      uvst: seq<Point>, nust: seq<int>) {
    && |m| == nbsomm + 1 && Marks(E, T, |T|, m) && |uvst| == Rank(m, nbsomm)
    && Placed(g, slig, pxyd, m, nbsomm, uvst)
    && T != [] && |nust| == 4 * Rank(InUse(T), |T| - 1) && AllWritten(E, T, m, |T| - 1, nust)
  }

  /** The end of `aptrte`. */
  method Export(table: Table, noartr: array<Tri>, g: Given, slig: seq<int>, pxyd: seq<Point>, nbsomm: nat, nbt0: nat)
    returns (nbst: nat, uvst: array<Point>, nbt: nat, nust: array<int>, ghost m: seq<int>)
    requires Sound(table, noartr) && noartr.Length > 0 && CornersUpto(table.Live(), noartr[..], nbsomm)
    requires |slig| >= nbsomm && |pxyd| >= nbsomm && nbt0 == Rank(InUse(noartr[..]), noartr.Length - 1)
    requires forall i | 0 <= i < nbsomm :: Readable(g, slig[i])
    ensures Described(table.Live(), noartr[..], g, slig, pxyd, nbsomm, m, uvst[..], nust[..])
    ensures nbst == uvst.Length && nust.Length == 4 * nbt && nbt == nbt0
  {
    hide Exchange.Sound, CornersUpto, InUse, Marks, AllWritten, Placed, Readable, Rank, Renumbered;
    var mnarst := new int[nbsomm + 1](_ => 0);
    nbst, m := Number(table, noartr, mnarst, nbsomm);
    uvst := Coordinates(g, slig, pxyd, mnarst, nbsomm, nbst, m);
    nbt, nust := Triangles(table, noartr, mnarst, nbsomm, nbt0, m);
  }

  /** Corner j of a triangle. */
  function CornerOf(E: Edges, x: Tri, j: int): (r: int) {
    var (s1, s2, s3) := Verts(E, x);
    if j == 0 then s1 else if j == 1 then s2 else s3
  }

  /** Place j of the block l leads to vertex s, with its coordinates. */
  ghost predicate Leads(g: Given, slig: seq<int>, pxyd: seq<Point>, m: seq<int>, uvst: seq<Point>, l: seq<int>, j: int,
      s: int) {
    && |l| == 4 && 0 <= j < 3 && 1 <= l[j] <= |uvst| && l[j] == Rank(m, if s < 0 then 0 else s) && Marked(m, s)
    && 1 <= s <= |slig| && s <= |pxyd| && Readable(g, slig[s - 1])
      && uvst[l[j] - 1] == Restored(g, slig[s - 1], pxyd[s - 1])
  }

  /** What the block of triangle t leads to: its corners, with their coordinates. */
  lemma OutputCorner(E: Edges, T: seq<Tri>, g: Given, slig: seq<int>, pxyd: seq<Point>, nbsomm: nat, m: seq<int>,
      uvst: seq<Point>, nust: seq<int>, t: nat, j: int)
    requires Described(E, T, g, slig, pxyd, nbsomm, m, uvst, nust) && |slig| >= nbsomm && |pxyd| >= nbsomm
    requires Active(T, t) && 0 <= j < 3
    ensures Leads(g, slig, pxyd, m, uvst, Block(nust, Rank(InUse(T), t) - 1), j, CornerOf(E, T[t], j))
  {
    hide Written, Marks, Verts, InUse, Rank, Block, Placed;
    WrittenAt(E, T, m, |T| - 1, nust, t, j);
    hide AllWritten;
    PlacedAt(g, slig, pxyd, m, nbsomm, uvst, CornerOf(E, T[t], j));
    hide CornerOf;
  }

  lemma WrittenAt(E: Edges, T: seq<Tri>, m: seq<int>, n: int, nust: seq<int>, t: nat, j: int)
    requires AllWritten(E, T, m, n, nust) && Active(T, t) && t <= n && 0 <= j < 3
    ensures var l, s := Block(nust, Rank(InUse(T), t) - 1), CornerOf(E, T[t], j);
            |l| == 4 && Marked(m, s) && l[j] == Rank(m, s)
  {
    assert Written(E, T, m, t, nust);
    hide Verts, InUse, Rank, Block, Marked;
  }

  lemma PlacedAt(g: Given, slig: seq<int>, pxyd: seq<Point>, m: seq<int>, n: nat, uvst: seq<Point>, i: int)
    requires Placed(g, slig, pxyd, m, n, uvst) && Marked(m, i) && |m| == n + 1 && |slig| >= n && |pxyd| >= n
    ensures 1 <= i <= n && Readable(g, slig[i - 1]) && 1 <= Rank(m, i) <= |uvst|
      && uvst[Rank(m, i) - 1] == Restored(g, slig[i - 1], pxyd[i - 1])
  {
  }

  /** All numbers in nust are those of output vertices. */
  lemma OutputInRange(E: Edges, T: seq<Tri>, g: Given, slig: seq<int>, pxyd: seq<Point>, nbsomm: nat, m: seq<int>,
      uvst: seq<Point>, nust: seq<int>, k: int)
    requires Described(E, T, g, slig, pxyd, nbsomm, m, uvst, nust) && |slig| >= nbsomm && |pxyd| >= nbsomm
    requires 0 <= k < Rank(InUse(T), |T| - 1)
    ensures BlockOk(Block(nust, k), |uvst|)
  {
    hide *;
    DescribedSize(E, T, g, slig, pxyd, nbsomm, m, uvst, nust);
    var t := OutputTriangles(T, k + 1);
    OutputCornerIn(E, T, g, slig, pxyd, nbsomm, m, uvst, nust, t, 0);
    OutputCornerIn(E, T, g, slig, pxyd, nbsomm, m, uvst, nust, t, 1);
    OutputCornerIn(E, T, g, slig, pxyd, nbsomm, m, uvst, nust, t, 2);
    BlockOkOf(Block(nust, k), |uvst|);
  }

  lemma BlockOkOf(l: seq<int>, n: int)
    requires |l| == 4 && 1 <= l[0] <= n && 1 <= l[1] <= n && 1 <= l[2] <= n
    ensures BlockOk(l, n)
  {
  }

  lemma DescribedSize(E: Edges, T: seq<Tri>, g: Given, slig: seq<int>, pxyd: seq<Point>, nbsomm: nat, m: seq<int>,
      uvst: seq<Point>, nust: seq<int>)
    requires Described(E, T, g, slig, pxyd, nbsomm, m, uvst, nust)
    ensures T != []
  {
  }

  lemma OutputCornerIn(E: Edges, T: seq<Tri>, g: Given, slig: seq<int>, pxyd: seq<Point>, nbsomm: nat, m: seq<int>,
      uvst: seq<Point>, nust: seq<int>, t: nat, j: int)
    requires Described(E, T, g, slig, pxyd, nbsomm, m, uvst, nust) && |slig| >= nbsomm && |pxyd| >= nbsomm
    requires Active(T, t) && 0 <= j < 3
    ensures var l := Block(nust, Rank(InUse(T), t) - 1);
            |l| == 4 && 1 <= l[j] <= |uvst|
  {
    hide Described, Leads, InUse, Rank, Block, CornerOf;
    OutputCorner(E, T, g, slig, pxyd, nbsomm, m, uvst, nust, t, j);
    LeadsInRange(g, slig, pxyd, m, uvst, Block(nust, Rank(InUse(T), t) - 1), j, CornerOf(E, T[t], j));
  }

  lemma LeadsInRange(g: Given, slig: seq<int>, pxyd: seq<Point>, m: seq<int>, uvst: seq<Point>, l: seq<int>, j: int,
      s: int)
    requires Leads(g, slig, pxyd, m, uvst, l, j, s)
    ensures |l| == 4 && 0 <= j < 3 && 1 <= l[j] <= |uvst|
  {
  }

  predicate BlockOk(l: seq<int>, n: int) {
    |l| == 4 && 1 <= l[0] <= n && 1 <= l[1] <= n && 1 <= l[2] <= n
  }

  /** Every triangle number is given out: the blocks of nust are those of the triangles in their order. */
  lemma OutputTriangles(T: seq<Tri>, r: nat) returns (t: nat)
    requires T != [] && 1 <= r <= Rank(InUse(T), |T| - 1)
    ensures Active(T, t) && Rank(InUse(T), t) == r
  {
    t := RankOnto(InUse(T), |T| - 1, r);
  }

  // ---------------------------------------------------------------- the nodes of the result

  /** The first b vertices are given nodes, the new numbers up to b are taken for them: a vertex gets
      its own node, and no other vertex gets a given one. */
  ghost predicate RightNodes(m: seq<int>, b: nat) {
    forall s | Marked(m, s) :: if s <= b then Rank(m, s) == s else Rank(m, s) > b
  }

  /** No given vertex is left out before a vertex in use. */
  ghost predicate NoGap(m: seq<int>, b: nat) {
    forall i, j | 1 <= i <= b && i < j && Marked(m, j) :: Marked(m, i)
  }

  /** The nodes are right if and only if no given vertex is left out before a vertex in use. */
  lemma NodesExact(m: seq<int>, b: nat)
    requires m != []
    ensures RightNodes(m, b) <==> NoGap(m, b)
  {
    if NoGap(m, b) {
      forall s | Marked(m, s) ensures if s <= b then Rank(m, s) == s else Rank(m, s) > b {
        NoGapRight(m, b, s);
      }
    } else {
      var i, j :| 1 <= i <= b && i < j && Marked(m, j) && !Marked(m, i);
      GapWrong(m, b, i, j);
    }
  }

  lemma NoGapRight(m: seq<int>, b: nat, s: nat)
    requires NoGap(m, b) && Marked(m, s)
    ensures if s <= b then Rank(m, s) == s else Rank(m, s) > b
  {
    var k := if s <= b then s else b;
    forall i | 1 <= i <= k ensures m[i] > 0 {
      assert i == s || Marked(m, i);
    }
    RankFull(m, k);
    if s > b {
      RankGrows(m, b, s - 1);
    }
  }

  lemma GapWrong(m: seq<int>, b: nat, i: nat, j: nat)
    requires 1 <= i <= b && i < j && Marked(m, j) && !Marked(m, i)
    ensures !RightNodes(m, b)
  {
    if j <= b {
      RankFull(m, j);
      assert m[i] <= 0;
    } else {
      GapAbove(m, b, i, j);
    }
  }

  /** A vertex after the given ones, with one of those left out: the first such gets a number up to b. */
  lemma {:induction false} GapAbove(m: seq<int>, b: nat, i: nat, j: nat)
    requires 1 <= i <= b < j && Marked(m, j) && !Marked(m, i)
    ensures !RightNodes(m, b)
    decreases j
  {
    if k: nat :| b < k < j && Marked(m, k) {
      GapAbove(m, b, i, k);
    } else {
      NoneBetween(m, b, j - 1);
      RankFull(m, b);
      RankGrows(m, 0, b);
      assert m[i] <= 0;
      assert Rank(m, j) <= b;
    }
  }

  lemma {:induction false} NoneBetween(m: seq<int>, b: nat, k: nat)
    requires b <= k < |m| && forall i | b < i <= k :: !Marked(m, i)
    ensures Rank(m, k) == Rank(m, b)
  {
    if b < k {
      assert !Marked(m, k);
      NoneBetween(m, b, k - 1);
    }
  }

  /** Without a gap, boundary vertex s is output vertex s, with the coordinates it was given. */
  lemma BoundaryKept(E: Edges, T: seq<Tri>, g: Given, slig: seq<int>, pxyd: seq<Point>, nbsomm: nat, m: seq<int>,
      uvst: seq<Point>, nust: seq<int>, s: int)
    requires Described(E, T, g, slig, pxyd, nbsomm, m, uvst, nust) && |slig| >= nbsomm && |pxyd| >= nbsomm
    requires Coded(g.nudslf, |g.uvpti|, slig) && |g.uvslf| == g.nudslf[|g.nudslf| - 1] && |g.uvpti| < BASE
    requires forall n | 1 <= n < |g.nudslf| :: g.nudslf[n] - g.nudslf[n - 1] <= BASE
    requires NoGap(m, |g.uvslf|) && Marked(m, s) && s <= |g.uvslf|
    ensures 1 <= s <= |uvst| && uvst[s - 1] == g.uvslf[s - 1]
  {
    hide Marks, AllWritten, InUse, Rank, Coded, Placed, NoGap, RightNodes, Readable, Restored;
    PlacedAt(g, slig, pxyd, m, nbsomm, uvst, s);
    NodesExact(m, |g.uvslf|);
    RightAt(m, |g.uvslf|, s);
    CodedReadable(g, slig, s - 1, pxyd[s - 1]);
  }

  /** A node of the result: given with the boundary, or added at surface coordinates. */
  datatype Node = Input(i: int) | Added(u: real, v: real)

  /** The node that vertex s stands for. */
  function NodeOf(input: seq<Node>, s: int, p: Point, scalex: real, scaley: real): (r: Node)
    requires scalex != 0.0 && scaley != 0.0
  {
    if 1 <= s <= |input| then input[s - 1] else Added(p.x / scalex, p.y / scaley)
  }

  /** A given node serves its own vertex; the surface coordinates of an added one, scaled, are those of
      the vertex. */
  lemma NodeExact(input: seq<Node>, s: int, p: Point, scalex: real, scaley: real)
    requires s >= 1 && scalex != 0.0 && scaley != 0.0
    ensures var n := NodeOf(input, s, p, scalex, scaley);
      && (s <= |input| ==> n == input[s - 1])
      && (s > |input| ==> n.Added? && n.u * scalex == p.x && n.v * scaley == p.y)
  {
  }

  /** The nodes of triangle k of nust, by its places. */
  predicate Corners3(nodes: seq<Node>, nust: seq<int>, k: int, a: Node, b: Node, c: Node) {
    && 0 <= 4 * k && 4 * k + 2 < |nust|
    && 1 <= nust[4 * k] <= |nodes| && 1 <= nust[4 * k + 1] <= |nodes| && 1 <= nust[4 * k + 2] <= |nodes|
    && a == nodes[nust[4 * k] - 1] && b == nodes[nust[4 * k + 1] - 1] && c == nodes[nust[4 * k + 2] - 1]
  }

  /** Triangle k is left out: two of its nodes are the same on a surface with degenerate edges. */
  ghost predicate Omitted(nodes: seq<Node>, nust: seq<int>, k: int, degenerate: bool) {
    degenerate && exists a, b, c :: Corners3(nodes, nust, k, a, b, c) && (a == b || b == c || c == a)
  }

  /** Face f has the nodes of triangle k in its order, or clockwise. */
  predicate FaceIs(nodes: seq<Node>, nust: seq<int>, k: int, forward: bool, f: (Node, Node, Node)) {
    if forward then Corners3(nodes, nust, k, f.0, f.1, f.2) else Corners3(nodes, nust, k, f.0, f.2, f.1)
  }

  /** The faces are those of the triangles kept, in their order: all of the first n but the degenerate. */
  ghost predicate FacesOf(nodes: seq<Node>, nust: seq<int>, n: int, forward: bool, degenerate: bool, kept: seq<int>,
      faces: seq<(Node, Node, Node)>) {
    && |faces| == |kept|
    && (forall i, j | 0 <= i < j < |kept| :: kept[i] < kept[j])
    && (forall k :: k in kept <==> 0 <= k < n && !Omitted(nodes, nust, k, degenerate))
    && (forall i {:trigger kept[i]} {:trigger faces[i]} | 0 <= i < |kept| ::
          FaceIs(nodes, nust, kept[i], forward, faces[i]))
  }

  lemma FacesNext(nodes: seq<Node>, nust: seq<int>, n: nat, forward: bool, degenerate: bool, kept: seq<int>,
      faces: seq<(Node, Node, Node)>, f: (Node, Node, Node))
    requires FacesOf(nodes, nust, n, forward, degenerate, kept, faces)
    ensures Omitted(nodes, nust, n, degenerate) ==> FacesOf(nodes, nust, n + 1, forward, degenerate, kept, faces)
    ensures !Omitted(nodes, nust, n, degenerate) && FaceIs(nodes, nust, n, forward, f) ==>
              FacesOf(nodes, nust, n + 1, forward, degenerate, kept + [n], faces + [f])
  {
    hide Omitted, FaceIs;
    var kept', faces' := kept + [n], faces + [f];
    assert forall i | 0 <= i < |kept| :: kept[i] in kept;
    if !Omitted(nodes, nust, n, degenerate) && FaceIs(nodes, nust, n, forward, f) {
      forall k ensures k in kept' <==> 0 <= k < n + 1 && !Omitted(nodes, nust, k, degenerate) {
      }
      forall i | 0 <= i < |kept'| ensures FaceIs(nodes, nust, kept'[i], forward, faces'[i]) {
        assert i < |kept| ==> kept'[i] == kept[i] && faces'[i] == faces[i];
      }
    }
  }

  /** Without degenerate edges there is a face for every triangle, in their order. */
  lemma FacesAll(nodes: seq<Node>, nust: seq<int>, n: nat, forward: bool, kept: seq<int>,
      faces: seq<(Node, Node, Node)>)
    requires FacesOf(nodes, nust, n, forward, false, kept, faces)
    ensures |faces| == n && forall k | 0 <= k < n :: FaceIs(nodes, nust, k, forward, faces[k])
  {
    hide FaceIs;
    forall k ensures k in kept <==> 0 <= k < n {
      assert !Omitted(nodes, nust, k, false);
    }
    assert forall i | 0 <= i < |kept| :: kept[i] in kept;
    Enumerates(kept, n);
    forall k | 0 <= k < n ensures FaceIs(nodes, nust, k, forward, faces[k]) {
      assert kept[k] == k;
    }
  }

  lemma FirstIn(l: seq<int>)
    ensures |l| > 0 ==> l[0] in l
  {
  }

  /** An increasing list of all numbers below n. */
  lemma {:induction false} Enumerates(l: seq<int>, n: nat)
    requires (forall i, j | 0 <= i < j < |l| :: l[i] < l[j]) && forall k :: k in l <==> 0 <= k < n
    ensures |l| == n && forall i | 0 <= i < n :: l[i] == i
  {
    FirstIn(l);
    if n > 0 {
      assert n - 1 in l;
      var r := l[..|l| - 1];
      var i :| 0 <= i < |l| && l[i] == n - 1;
      assert l[|l| - 1] in l;
      assert i == |l| - 1;
      forall k ensures k in r <==> 0 <= k < n - 1 {
        if k in r {
          var j :| 0 <= j < |r| && r[j] == k;
          assert l[j] in l;
        }
        if 0 <= k < n - 1 {
          assert k in l;
          var j :| 0 <= j < |l| && l[j] == k;
          assert r[j] == k;
        }
      }
      Enumerates(r, n - 1);
      assert forall k | 0 <= k < n - 1 :: l[k] == r[k];
    }
  }

  lemma BlockAt(nust: seq<int>, k: nat, n: int)
    requires 4 * k + 4 <= |nust| && BlockOk(Block(nust, k), n)
    ensures var b := 4 * k;
            && Block(nust, k) == [nust[b], nust[b + 1], nust[b + 2], nust[b + 3]]
            && 1 <= nust[b] <= n && 1 <= nust[b + 1] <= n && 1 <= nust[b + 2] <= n
  {
  }

  /** `StoreResult`: the nodes of the output vertices and the faces of the output triangles. */
  method StoreResult(nbst: nat, uvst: array<Point>, nbt: nat, nust: array<int>, input: seq<Node>, forward: bool,
      degenerate: bool, scalex: real, scaley: real)
    returns (nodes: seq<Node>, faces: seq<(Node, Node, Node)>, ghost kept: seq<int>)
    requires uvst.Length == nbst && nust.Length == 4 * nbt && scalex != 0.0 && scaley != 0.0
    requires forall k | 0 <= k < nbt :: BlockOk(Block(nust[..], k), nbst)
    ensures |nodes| == nbst && forall r | 0 <= r < nbst :: nodes[r] == NodeOf(input, r + 1, uvst[r], scalex, scaley)
    ensures FacesOf(nodes, nust[..], nbt, forward, degenerate, kept, faces)
    ensures !degenerate ==> |faces| == nbt && forall k | 0 <= k < nbt :: FaceIs(nodes, nust[..], k, forward, faces[k])
  {
    hide Block, BlockOk, FacesOf, FaceIs, Omitted;
    nodes := AllNodes(nbst, uvst, input, scalex, scaley);
    var n, m := 1, 0;
    faces, kept := [], [];
    FacesNone(nodes, nust[..], forward, degenerate);
    while n <= nbt
      invariant 1 <= n <= nbt + 1 && m == 4 * (n - 1)
      invariant FacesOf(nodes, nust[..], n - 1, forward, degenerate, kept, faces)
    {
      assert BlockOk(Block(nust[..], n - 1), nbst);
      BlockAt(nust[..], n - 1, nbst);
      var a, b, c := nodes[nust[m] - 1], nodes[nust[m + 1] - 1], nodes[nust[m + 2] - 1];
      m := m + 4;
      BlockCorners(nodes, nust[..], n - 1, forward, degenerate, a, b, c);
      var face := if forward then (a, b, c) else (a, c, b);
      FacesNext(nodes, nust[..], n - 1, forward, degenerate, kept, faces, face);
      if !(degenerate && (a == b || b == c || c == a)) {
        faces, kept := faces + [face], kept + [n - 1];
      }
      n := n + 1;
    }
    if !degenerate {
      FacesAll(nodes, nust[..], nbt, forward, kept, faces);
    }
  }

  lemma FacesNone(nodes: seq<Node>, nust: seq<int>, forward: bool, degenerate: bool)
    ensures FacesOf(nodes, nust, 0, forward, degenerate, [], [])
  {
  }

  lemma BlockCorners(nodes: seq<Node>, nust: seq<int>, k: nat, forward: bool, degenerate: bool, a: Node, b: Node,
      c: Node)
    requires 4 * k + 3 < |nust| && 1 <= nust[4 * k] <= |nodes| && 1 <= nust[4 * k + 1] <= |nodes|
    requires 1 <= nust[4 * k + 2] <= |nodes|
    requires a == nodes[nust[4 * k] - 1] && b == nodes[nust[4 * k + 1] - 1] && c == nodes[nust[4 * k + 2] - 1]
    ensures Omitted(nodes, nust, k, degenerate) <==> degenerate && (a == b || b == c || c == a)
    ensures FaceIs(nodes, nust, k, forward, if forward then (a, b, c) else (a, c, b))
  {
    assert Corners3(nodes, nust, k, a, b, c);
  }

  /** The given nodes, resized, and the nodes added. */
  method AllNodes(nbst: nat, uvst: array<Point>, input: seq<Node>, scalex: real, scaley: real)
      returns (nodes: seq<Node>)
    requires uvst.Length == nbst && scalex != 0.0 && scaley != 0.0
    ensures |nodes| == nbst && forall r | 0 <= r < nbst :: nodes[r] == NodeOf(input, r + 1, uvst[r], scalex, scaley)
  {
    var n := |input|;
    nodes := if n <= nbst then input else input[..nbst];
    while n < nbst
      invariant |nodes| == (if n <= nbst then n else nbst) && n >= |input|
      invariant forall r | 0 <= r < |nodes| :: nodes[r] == NodeOf(input, r + 1, uvst[r], scalex, scaley)
    {
      nodes := nodes + [Added(uvst[n].x / scalex, uvst[n].y / scaley)];
      n := n + 1;
    }
  }

  /** When no given vertex is left out before a vertex in use, the node of every corner of every
      output triangle is the one of its vertex: the given node on the boundary, a node at the
      coordinates of the vertex inside. */
  lemma CornerNode(E: Edges, T: seq<Tri>, g: Given, slig: seq<int>, pxyd: seq<Point>, nbsomm: nat, m: seq<int>,
      uvst: seq<Point>, nust: seq<int>,
                   input: seq<Node>, nodes: seq<Node>, scalex: real, scaley: real, t: nat, j: int)
    requires Described(E, T, g, slig, pxyd, nbsomm, m, uvst, nust) && |slig| >= nbsomm && |pxyd| >= nbsomm
      && scalex != 0.0 && scaley != 0.0
    requires Active(T, t) && 0 <= j < 3
    requires |nodes| == |uvst| && forall r | 0 <= r < |uvst| ::
      nodes[r] == NodeOf(input, r + 1, uvst[r], scalex, scaley)
    requires NoGap(m, |input|)
    ensures LeadsToNode(g, slig, pxyd, input, nodes, scalex, scaley, Block(nust, Rank(InUse(T), t) - 1), j,
      CornerOf(E, T[t], j))
  {
    hide Described, Readable, Restored, NoGap, Rank, InUse, Block, CornerOf, RightNodes;
    OutputCorner(E, T, g, slig, pxyd, nbsomm, m, uvst, nust, t, j);
    NodesExact(m, |input|);
    RightAt(m, |input|, CornerOf(E, T[t], j));
  }

  /** The node at place j of the block l is the one of vertex s. */
  ghost predicate LeadsToNode(g: Given, slig: seq<int>, pxyd: seq<Point>, input: seq<Node>, nodes: seq<Node>,
      scalex: real, scaley: real, l: seq<int>, j: int, s: int) {
    && scalex != 0.0 && scaley != 0.0
    && |l| == 4 && 0 <= j < 3 && 1 <= l[j] <= |nodes| && 1 <= s <= |slig| && s <= |pxyd| && Readable(g, slig[s - 1])
    && nodes[l[j] - 1] == NodeOf(input, s, Restored(g, slig[s - 1], pxyd[s - 1]), scalex, scaley)
  }

  lemma RightAt(m: seq<int>, b: nat, s: int)
    requires RightNodes(m, b) && Marked(m, s)
    ensures if s <= b then Rank(m, s) == s else Rank(m, s) > b
  {
  }

  /** Without a gap and without degenerate edges, the face of triangle t is that of the nodes of its own
      vertices: in the order of its corners on a forward face, and with the last two exchanged on
      another. */
  lemma FaceNodes(E: Edges, T: seq<Tri>, g: Given, slig: seq<int>, pxyd: seq<Point>, nbsomm: nat, m: seq<int>,
      uvst: seq<Point>, nust: seq<int>, input: seq<Node>, nodes: seq<Node>, scalex: real, scaley: real, forward: bool,
      faces: seq<(Node, Node, Node)>, t: nat)
    requires Described(E, T, g, slig, pxyd, nbsomm, m, uvst, nust) && |slig| >= nbsomm && |pxyd| >= nbsomm
      && scalex != 0.0 && scaley != 0.0
    requires Active(T, t) && NoGap(m, |input|)
    requires |nodes| == |uvst| && forall r | 0 <= r < |uvst| ::
      nodes[r] == NodeOf(input, r + 1, uvst[r], scalex, scaley)
    requires forall k | 0 <= k < |faces| :: FaceIs(nodes, nust, k, forward, faces[k])
    requires |faces| == Rank(InUse(T), |T| - 1)
    ensures var r, x := Rank(InUse(T), t), T[t];
      && 1 <= r <= |faces|
      && OwnNode(g, slig, pxyd, input, scalex, scaley, faces[r - 1].0, CornerOf(E, x, 0))
      && OwnNode(g, slig, pxyd, input, scalex, scaley, if forward then faces[r - 1].1
        else faces[r - 1].2, CornerOf(E, x, 1))
      && OwnNode(g, slig, pxyd, input, scalex, scaley, if forward then faces[r - 1].2
        else faces[r - 1].1, CornerOf(E, x, 2))
  {
    hide *;
    CornerNode(E, T, g, slig, pxyd, nbsomm, m, uvst, nust, input, nodes, scalex, scaley, t, 0);
    CornerNode(E, T, g, slig, pxyd, nbsomm, m, uvst, nust, input, nodes, scalex, scaley, t, 1);
    CornerNode(E, T, g, slig, pxyd, nbsomm, m, uvst, nust, input, nodes, scalex, scaley, t, 2);
    ActiveIndex(T, t);
    var r := Rank(InUse(T), t);
    BlockRank(E, T, g, slig, pxyd, nbsomm, m, uvst, nust, t);
    FaceLeads(g, slig, pxyd, input, nodes, scalex, scaley, nust, r, forward, faces[r - 1], CornerOf(E, T[t], 0),
      CornerOf(E, T[t], 1), CornerOf(E, T[t], 2));
  }

  lemma ActiveIndex(T: seq<Tri>, t: int)
    requires Active(T, t)
    ensures 1 <= t < |T|
  {
  }

  /** Node n is the one of vertex s: its given node, or a node at its restored coordinates. */
  ghost predicate OwnNode(g: Given, slig: seq<int>, pxyd: seq<Point>, input: seq<Node>, scalex: real, scaley: real,
      n: Node, s: int) {
    && 1 <= s <= |slig| && s <= |pxyd| && Readable(g, slig[s - 1])
    && (s <= |input| ==> n == input[s - 1])
    && (s > |input| ==> var p := Restored(g, slig[s - 1], pxyd[s - 1]);
                        n.Added? && n.u * scalex == p.x && n.v * scaley == p.y)
  }

  lemma BlockRank(E: Edges, T: seq<Tri>, g: Given, slig: seq<int>, pxyd: seq<Point>, nbsomm: nat, m: seq<int>,
      uvst: seq<Point>, nust: seq<int>, t: nat)
    requires Described(E, T, g, slig, pxyd, nbsomm, m, uvst, nust) && Active(T, t)
    ensures 1 <= Rank(InUse(T), t) <= Rank(InUse(T), |T| - 1) && |nust| == 4 * Rank(InUse(T), |T| - 1)
  {
    hide Marks, AllWritten, Placed;
    assert Marked(InUse(T), t);
    RankGrows(InUse(T), t, |T| - 1);
  }

  lemma FaceLeads(g: Given, slig: seq<int>, pxyd: seq<Point>, input: seq<Node>, nodes: seq<Node>, scalex: real,
      scaley: real, nust: seq<int>, r: nat, forward: bool, f: (Node, Node, Node), s0: int, s1: int, s2: int)
    requires r >= 1 && 4 * r <= |nust| && FaceIs(nodes, nust, r - 1, forward, f)
    requires LeadsToNode(g, slig, pxyd, input, nodes, scalex, scaley, Block(nust, r - 1), 0, s0)
    requires LeadsToNode(g, slig, pxyd, input, nodes, scalex, scaley, Block(nust, r - 1), 1, s1)
    requires LeadsToNode(g, slig, pxyd, input, nodes, scalex, scaley, Block(nust, r - 1), 2, s2)
    ensures OwnNode(g, slig, pxyd, input, scalex, scaley, f.0, s0)
    ensures OwnNode(g, slig, pxyd, input, scalex, scaley, if forward then f.1 else f.2, s1)
    ensures OwnNode(g, slig, pxyd, input, scalex, scaley, if forward then f.2 else f.1, s2)
  {
    var l := Block(nust, r - 1);
    assert l[0] == nust[4 * (r - 1)] && l[1] == nust[4 * (r - 1) + 1] && l[2] == nust[4 * (r - 1) + 2];
    hide Readable, Restored, NodeOf, Block;
    NodeExact(input, s0, Restored(g, slig[s0 - 1], pxyd[s0 - 1]), scalex, scaley);
    NodeExact(input, s1, Restored(g, slig[s1 - 1], pxyd[s1 - 1]), scalex, scaley);
    NodeExact(input, s2, Restored(g, slig[s2 - 1], pxyd[s2 - 1]), scalex, scaley);
  }
}
