/** `tedela_`: exchanging diagonals until no chained edge wants it. */
module Tedela {
  import opened Geometry
  import opened Planar
  import opened EdgeTable
  import opened Mesh
  import opened Exchange
  import opened Delaunay
  import opened Guard

  // ---------------------------------------------------------------- finitely many triangulations

  ghost function AllCorners(m: nat): (r: set<Corners>) {
    set a, b, c | 0 <= a <= m && 0 <= b <= m && 0 <= c <= m :: (a, b, c)
  }

  /** Every table of n triples of vertices 0..m. */
  ghost function Tables(n: nat, m: nat): (r: set<seq<Corners>>) {
    if n == 0 then {[]} else set g, c | g in Tables(n - 1, m) && c in AllCorners(m) :: g + [c]
  }

  ghost predicate Within(G: seq<Corners>, m: nat) {
    forall t | 0 <= t < |G| :: G[t] in AllCorners(m)
  }

  lemma InTables(G: seq<Corners>, m: nat)
    requires Within(G, m)
    ensures G in Tables(|G|, m)
  {
    if |G| > 0 {
      var n := |G| - 1;
      InTables(G[..n], m);
      assert G == G[..n] + [G[n]];
    }
  }

  /** The tables of the same size that have less energy: the measure of progress of a run. */
  ghost function Lower(P: seq<Point>, G: seq<Corners>, m: nat): (r: set<seq<Corners>>) {
    set H | H in Tables(|G|, m) && TotalEnergy(P, H) < TotalEnergy(P, G)
  }

  lemma LowerShrinks(P: seq<Point>, G: seq<Corners>, G': seq<Corners>, m: nat)
    requires Within(G', m) && |G'| == |G| && TotalEnergy(P, G') < TotalEnergy(P, G)
    ensures Lower(P, G', m) < Lower(P, G, m)
  {
    InTables(G', m);
    assert G' in Lower(P, G, m) && G' !in Lower(P, G', m);
  }

  /** A run in which every step loses energy. */
  ghost predicate Descending(P: seq<Point>, trace: seq<seq<Corners>>) {
    forall k | 0 <= k < |trace| - 1 :: TotalEnergy(P, trace[k + 1]) < TotalEnergy(P, trace[k])
  }

  lemma {:induction false} Descends(P: seq<Point>, trace: seq<seq<Corners>>, j: int, k: int)
    requires Descending(P, trace) && 0 <= j < k < |trace|
    ensures TotalEnergy(P, trace[k]) < TotalEnergy(P, trace[j])
  {
    if j + 1 < k {
      Descends(P, trace, j, k - 1);
    }
    assert TotalEnergy(P, trace[k - 1 + 1]) < TotalEnergy(P, trace[k - 1]);
  }

  /** No triangulation comes twice. */
  ghost predicate Distinct(trace: seq<seq<Corners>>) {
    forall j, k | 0 <= j < k < |trace| :: trace[j] != trace[k]
  }

  lemma NoRecurrence(P: seq<Point>, trace: seq<seq<Corners>>)
    requires Descending(P, trace)
    ensures Distinct(trace)
  {
    forall j, k | 0 <= j < k < |trace| ensures trace[j] != trace[k] {
      Descends(P, trace, j, k);
    }
  }

  /** The triangulations of a run, each made from the one before by one exchange, in circles with
      the squared radii radii. */
  ghost predicate Steps(P: seq<Point>, trace: seq<seq<Corners>>, radii: seq<real>) {
    |trace| == |radii| + 1 && forall k {:trigger radii[k]} | 0 <= k < |radii| ::
      Flipped(P, trace[k], trace[k + 1], radii[k])
  }

  /** No two exchanges in a row are in circles of the same size. */
  ghost predicate NoTwins(radii: seq<real>) {
    forall k | 0 <= k < |radii| - 1 :: radii[k] != radii[k + 1]
  }

  lemma StepsNext(P: seq<Point>, trace: seq<seq<Corners>>, radii: seq<real>, G: seq<Corners>, r: real)
    requires Steps(P, trace, radii) && Flipped(P, trace[|radii|], G, r)
    ensures Steps(P, trace + [G], radii + [r])
  {
    hide Flipped;
    var trace', radii' := trace + [G], radii + [r];
    forall k | 0 <= k < |radii'| ensures Flipped(P, trace'[k], trace'[k + 1], radii'[k]) {
      if k < |radii| {
        assert radii[k] == radii'[k];
      }
    }
  }

  // ---------------------------------------------------------------- the chain of edges to treat

  ghost function At0(l: seq<int>, k: int): (r: int) {
    if 0 <= k < |l| then l[k] else 0
  }

  /** ch is the list of edges chained from n through column 6, ended by 0. */
  ghost predicate IsChain(E: Edges, n: int, ch: seq<int>) {
    && n == At0(ch, 0)
    && (forall k | 0 <= k < |ch| :: ch[k] in E && E[ch[k]].line == 0 && E[ch[k]].chain == At0(ch, k + 1))
    && (forall j, k | 0 <= j < k < |ch| :: ch[j] != ch[k])
  }

  /** Edge i gives tedela_ nothing to do. */
  ghost predicate Settled(P: seq<Point>, E: Edges, T: seq<Tri>, i: int) {
    !Inner(E, T, i) || !WantsAt(P, Quad(E, T, i))
  }

  /** Edges off the chain are marked treated, and settled unless excused. */
  ghost predicate Tidy(P: seq<Point>, E: Edges, T: seq<Tri>, ch: seq<int>, excused: set<int>) {
    forall i | i in E && E[i].line == 0 && i !in ch :: E[i].chain == -1 && (i in excused || Settled(P, E, T, i))
  }

  /** The excused edges are off the chain and want an exchange, but the table was full at some time or
      the circle is as large as that of an exchange made. */
  ghost predicate Excuses(P: seq<Point>, E: Edges, T: seq<Tri>, ch: seq<int>, excused: set<int>, radii: seq<real>,
      full: bool) {
    forall i | i in excused :: i !in ch && Excuse(P, E, T, i, radii, full)
  }

  ghost predicate Excuse(P: seq<Point>, E: Edges, T: seq<Tri>, i: int, radii: seq<real>, full: bool) {
    i in E && E[i].line == 0 && E[i].chain == -1 && Inner(E, T, i) && (full || CircleAt(P, Quad(E, T, i)) in radii)
  }

  /** At the end: every edge off the lines is marked treated, and gives nothing to do unless the table
      was full or its circle is as large as that of an exchange made. */
  ghost predicate Rest(P: seq<Point>, E: Edges, T: seq<Tri>, radii: seq<real>, full: bool) {
    forall i | i in E && E[i].line == 0 :: E[i].chain == -1 && (Settled(P, E, T, i) || Excuse(P, E, T, i, radii, full))
  }

  /** Every edge off the lines is marked treated and gives nothing to do. */
  ghost predicate Calm(P: seq<Point>, E: Edges, T: seq<Tri>) {
    forall i | i in E && E[i].line == 0 :: E[i].chain == -1 && Settled(P, E, T, i)
  }

  /** The diagonal i of two triangles may be exchanged: its quadrangle is strictly convex and not thin. */
  ghost predicate Open(P: seq<Point>, E: Edges, T: seq<Tri>, i: int) {
    Inner(E, T, i) && var s := Quad(E, T, i);
    Exchangeable(PointOf(P, s.0), PointOf(P, s.1), PointOf(P, s.2), PointOf(P, s.3))
  }

  /** The vertex on the far side of edge i is not inside a circle through the triangle on the near side. */
  ghost predicate Empty(P: seq<Point>, E: Edges, T: seq<Tri>, i: int) {
    Inner(E, T, i) ==> var s := Quad(E, T, i);
    EmptyCircle(PointOf(P, s.0), PointOf(P, s.1), PointOf(P, s.2), PointOf(P, s.3))
  }

  /** The circle of the near triangle has the squared radius r. */
  ghost predicate HasCircle(P: seq<Point>, E: Edges, T: seq<Tri>, i: int, r: real) {
    Inner(E, T, i) && var s := Quad(E, T, i);
    exists c: Point :: Dist2(c, PointOf(P, s.0)) == r && Dist2(c, PointOf(P, s.1)) == r
                       && Dist2(c, PointOf(P, s.2)) == r
  }

  /** No exchange of an open edge off the lines is left that a Delaunay triangulation asks for. */
  ghost predicate LocallyDelaunay(P: seq<Point>, E: Edges, T: seq<Tri>) {
    forall i | i in E && E[i].line == 0 && Open(P, E, T, i) :: Empty(P, E, T, i)
  }

  /** The same, but for circles of the squared radii of exchanges made. */
  ghost predicate NearlyDelaunay(P: seq<Point>, E: Edges, T: seq<Tri>, radii: seq<real>) {
    forall i | i in E && E[i].line == 0 && Open(P, E, T, i) ::
      Empty(P, E, T, i) || exists k :: 0 <= k < |radii| && HasCircle(P, E, T, i, radii[k])
  }

  /** The corners of the quadrangle of an edge make two positive triangles. */
  lemma QuadPositive(P: seq<Point>, E: Edges, T: seq<Tri>, i: int)
    requires MeshInv(E, T) && Embedded(P, Shape(E, T)) && Inner(E, T, i)
    ensures var s := Quad(E, T, i); AreaOf(P, (s.0, s.1, s.2)) > 0.0 && AreaOf(P, (s.0, s.3, s.1)) > 0.0
  {
    PocketOf(E, T, i);
    TurnSame(E, T[E[i].tr1], i);
    TurnSame(E, T[E[i].tr2], i);
    var G, s := Shape(E, T), Quad(E, T, i);
    PositiveAt(E, T, E[i].tr1);
    PositiveAt(E, T, E[i].tr2);
    hide Verts, Turn, Start, MeshInv, Area, Apart;
    TurnedCorners(P, (s.0, s.1, s.2), G[E[i].tr1]);
    TurnedCorners(P, (s.0, s.3, s.1), G[E[i].tr2]);
  }

  lemma PositiveAt(E: Edges, T: seq<Tri>, t: int)
    requires MeshInv(E, T) && Active(T, t)
    ensures Verts(E, T[t]).0 > 0
  {
    assert TriOk(E, T, t) && EdgeOk(E, T, Abs(T[t].a1));
    hide MeshInv;
  }

  /** A settled open edge has an empty circle. */
  lemma SettledEmpty(P: seq<Point>, E: Edges, T: seq<Tri>, i: int)
    requires MeshInv(E, T) && Embedded(P, Shape(E, T)) && Settled(P, E, T, i) && Open(P, E, T, i)
    ensures Empty(P, E, T, i)
  {
    QuadPositive(P, E, T, i);
    hide MeshInv, Embedded, Quad, Area, Exchangeable, EmptyCircle, Wants;
    var s := Quad(E, T, i);
    WantsExact(PointOf(P, s.0), PointOf(P, s.1), PointOf(P, s.2), PointOf(P, s.3));
  }

  lemma CalmDelaunay(P: seq<Point>, E: Edges, T: seq<Tri>)
    requires MeshInv(E, T) && Embedded(P, Shape(E, T)) && Calm(P, E, T)
    ensures LocallyDelaunay(P, E, T)
  {
    hide MeshInv, Embedded, Open, Empty, Settled;
    forall i | i in E && E[i].line == 0 && Open(P, E, T, i) ensures Empty(P, E, T, i) {
      SettledEmpty(P, E, T, i);
    }
  }

  lemma RestDelaunay(P: seq<Point>, E: Edges, T: seq<Tri>, radii: seq<real>)
    requires MeshInv(E, T) && Embedded(P, Shape(E, T)) && Rest(P, E, T, radii, false)
    ensures NearlyDelaunay(P, E, T, radii)
  {
    hide MeshInv, Embedded, Open, Empty, Settled, HasCircle, CircleAt, Quad;
    forall i | i in E && E[i].line == 0 && Open(P, E, T, i)
      ensures Empty(P, E, T, i) || exists k :: 0 <= k < |radii| && HasCircle(P, E, T, i, radii[k])
    {
      if Settled(P, E, T, i) {
        SettledEmpty(P, E, T, i);
      } else {
        var k :| 0 <= k < |radii| && radii[k] == CircleAt(P, Quad(E, T, i));
        CircleOf(P, E, T, i);
        assert HasCircle(P, E, T, i, radii[k]);
      }
    }
  }

  lemma CircleOf(P: seq<Point>, E: Edges, T: seq<Tri>, i: int)
    requires MeshInv(E, T) && Embedded(P, Shape(E, T)) && Inner(E, T, i)
    ensures HasCircle(P, E, T, i, CircleAt(P, Quad(E, T, i)))
  {
    QuadPositive(P, E, T, i);
    hide MeshInv, Embedded, Quad, Area, Centre;
    var s := Quad(E, T, i);
    var p, q, r := PointOf(P, s.0), PointOf(P, s.1), PointOf(P, s.2);
    CentreEquidistant(p, q, r);
    var c := Centre(p, q, r);
    DistBack(c, p);
    DistBack(c, q);
    DistBack(c, r);
    hide Dist2;
    assert Dist2(c, p) == CircleAt(P, s);
  }

  /** The exchange of an open edge with an empty circle does not lower the energy. */
  lemma EmptyEnergy(P: seq<Point>, E: Edges, T: seq<Tri>, i: int, G': seq<Corners>)
    requires MeshInv(E, T) && Embedded(P, Shape(E, T)) && Open(P, E, T, i) && Empty(P, E, T, i)
    requires Swap(Shape(E, T), G', E[i].tr1, E[i].tr2, Quad(E, T, i))
    ensures TotalEnergy(P, G') >= TotalEnergy(P, Shape(E, T))
  {
    QuadPositive(P, E, T, i);
    var G, s := Shape(E, T), Quad(E, T, i);
    var t1, t2 := E[i].tr1, E[i].tr2;
    hide MeshInv, Embedded, Quad, Area, Energy, TotalEnergy, Exchangeable, Wants;
    var p1, p2, p3, p4 := PointOf(P, s.0), PointOf(P, s.1), PointOf(P, s.2), PointOf(P, s.3);
    WantsExact(p1, p2, p3, p4);
    RefusedEmpty(p1, p2, p3, p4);
    EnergyUpdate(P, G, t1, G'[t1]);
    EnergyUpdate(P, G[t1 := G'[t1]], t2, G'[t2]);
    TurnedCorners(P, (s.0, s.1, s.2), G[t1]);
    TurnedCorners(P, (s.0, s.3, s.1), G[t2]);
  }

  /** Every exchange of a run is one that the circle asks for: of an exchangeable diagonal, with the
      fourth vertex inside a circle of the squared radius given. */
  lemma FlippedMeans(P: seq<Point>, G: seq<Corners>, G': seq<Corners>, r: real)
      returns (t1: int, t2: int, s: (int, int, int, int), c: Point)
    requires Embedded(P, G) && Flipped(P, G, G', r)
    ensures Swap(G, G', t1, t2, s)
    ensures Exchangeable(PointOf(P, s.0), PointOf(P, s.1), PointOf(P, s.2), PointOf(P, s.3))
    ensures Dist2(c, PointOf(P, s.0)) == r && Dist2(c, PointOf(P, s.1)) == r && Dist2(c, PointOf(P, s.2)) == r
    ensures Dist2(c, PointOf(P, s.3)) < r
  {
    hide *;
    t1, t2, s := FlippedOf(P, G, G', r);
    SwapPositive(P, G, G', t1, t2, s);
    var p1, p2, p3, p4 := PointOf(P, s.0), PointOf(P, s.1), PointOf(P, s.2), PointOf(P, s.3);
    WantsExact(p1, p2, p3, p4);
    WantsInside(p1, p2, p3, p4);
    CircleIs(P, s);
    c := Centre(p1, p2, p3);
    RadiusIs(p1, p2, p3);
    CentreEquidistant(p1, p2, p3);
    DistBack(c, p1);
    DistBack(c, p2);
    DistBack(c, p3);
  }

  lemma FlippedOf(P: seq<Point>, G: seq<Corners>, G': seq<Corners>, r: real)
      returns (t1: int, t2: int, s: (int, int, int, int))
    requires Flipped(P, G, G', r)
    ensures Swap(G, G', t1, t2, s) && r == CircleAt(P, s)
    ensures Wants(PointOf(P, s.0), PointOf(P, s.1), PointOf(P, s.2), PointOf(P, s.3))
  {
    hide Swap, CircleAt, Wants;
    t1, t2, s :| Swap(G, G', t1, t2, s) && WantsAt(P, s) && r == CircleAt(P, s);
  }

  lemma SwapPositive(P: seq<Point>, G: seq<Corners>, G': seq<Corners>, t1: int, t2: int, s: (int, int, int, int))
    requires Embedded(P, G) && Swap(G, G', t1, t2, s)
    ensures Area(PointOf(P, s.0), PointOf(P, s.1), PointOf(P, s.2)) > 0.0
    ensures Area(PointOf(P, s.0), PointOf(P, s.3), PointOf(P, s.1)) > 0.0
  {
    hide Area, Apart;
    TurnedCorners(P, (s.0, s.1, s.2), G[t1]);
    TurnedCorners(P, (s.0, s.3, s.1), G[t2]);
  }

  lemma CircleIs(P: seq<Point>, s: (int, int, int, int))
    requires Area(PointOf(P, s.0), PointOf(P, s.1), PointOf(P, s.2)) != 0.0
    ensures CircleAt(P, s) == Radius2(PointOf(P, s.0), PointOf(P, s.1), PointOf(P, s.2))
  {
    hide Area, Radius2;
  }

  lemma RadiusIs(p: Point, q: Point, r: Point)
    requires Area(p, q, r) != 0.0
    ensures Radius2(p, q, r) == Dist2(p, Centre(p, q, r))
  {
    hide Area, Centre, Dist2;
  }

  lemma WantsInside(p1: Point, p2: Point, p3: Point, p4: Point)
    requires Area(p1, p2, p3) > 0.0 && Wants(p1, p2, p3, p4)
    ensures Dist2(Centre(p1, p2, p3), p4) < Radius2(p1, p2, p3)
  {
    hide Area, Centre, Dist2, Flat;
  }

  lemma CalmOf(P: seq<Point>, E: Edges, T: seq<Tri>)
    requires Tidy(P, E, T, [], {})
    ensures Calm(P, E, T)
  {
    hide Settled;
  }

  lemma RestOf(P: seq<Point>, E: Edges, T: seq<Tri>, excused: set<int>, radii: seq<real>, full: bool)
    requires Tidy(P, E, T, [], excused) && Excuses(P, E, T, [], excused, radii, full)
    ensures Rest(P, E, T, radii, full)
  {
  }

  lemma ExcuseMore(P: seq<Point>, E: Edges, T: seq<Tri>, ch: seq<int>, excused: set<int>, radii: seq<real>, full: bool,
      i: int)
    requires Excuses(P, E, T, ch, excused, radii, full) && i !in ch && Excuse(P, E, T, i, radii, full)
    ensures Excuses(P, E, T, ch, excused + {i}, radii, full)
  {
  }

  lemma ExcuseLonger(P: seq<Point>, E: Edges, T: seq<Tri>, ch: seq<int>, excused: set<int>, radii: seq<real>,
      full: bool, more: seq<real>, full': bool)
    requires Excuses(P, E, T, ch, excused, radii, full) && (full ==> full')
    ensures Excuses(P, E, T, ch, excused, radii + more, full')
  {
  }

  /** The excused edges when the head n of the chain is popped. */
  lemma ExcusePop(P: seq<Point>, E: Edges, T: seq<Tri>, n: int, ch: seq<int>, excused: set<int>, radii: seq<real>,
      full: bool)
    requires n in E && |ch| > 0 && ch[0] == n && Excuses(P, E, T, ch, excused, radii, full)
    ensures Excuses(P, E[n := Chained(E[n], -1)], T, ch[1..], excused, radii, full)
  {
    var E' := E[n := Chained(E[n], -1)];
    SameMesh(E, E', T);
    hide MeshInv, Quad, Inner, Start;
    forall i | i in excused ensures i !in ch[1..] && Excuse(P, E', T, i, radii, full) {
      assert Excuse(P, E, T, i, radii, full);
      assert ch == [n] + ch[1..];
    }
  }

  /** Lines are numbered from 0, and an edge without a triangle lies on a line. */
  ghost predicate Lined(E: Edges) {
    forall i | i in E :: E[i].line >= 0 && (E[i].tr1 <= 0 && E[i].tr2 <= 0 ==> E[i].line > 0)
  }

  // ---------------------------------------------------------------- writing column 6

  /** The same edges, except for the chaining. */
  ghost predicate SameEdges(E: Edges, E': Edges) {
    E'.Keys == E.Keys && forall i | i in E :: E'[i] == E[i].(chain := E'[i].chain)
  }

  lemma SameSide(E: Edges, E': Edges, a: int)
    requires SameEdges(E, E')
    ensures Start(E', a) == Start(E, a) && End(E', a) == End(E, a)
  {
  }

  lemma SameMesh(E: Edges, E': Edges, T: seq<Tri>)
    requires SameEdges(E, E')
    ensures MeshInv(E, T) ==> MeshInv(E', T)
    ensures Shape(E', T) == Shape(E, T)
    ensures forall i :: Inner(E', T, i) <==> Inner(E, T, i)
    ensures forall i | Inner(E, T, i) :: Quad(E', T, i) == Quad(E, T, i)
  {
    forall a ensures Start(E', a) == Start(E, a) && End(E', a) == End(E, a) {
      SameSide(E, E', a);
    }
    hide Start;
    if MeshInv(E, T) {
      forall i | i in E' ensures i > 0 && EdgeOk(E', T, i) {
        assert EdgeOk(E, T, i);
      }
      forall t | Active(T, t) ensures TriOk(E', T, t) {
        assert TriOk(E, T, t);
      }
    }
    assert Shape(E', T) == Shape(E, T) by { hide MeshInv, Turn; }
  }

  function Chained(e: Edge, v: int): (r: Edge) {
    e.(chain := v)
  }

  /** A write to column 6 of edge na. */
  method SetChain(table: Table, noartr: array<Tri>, na: int, v: int)
    requires Sound(table, noartr) && na in table.Live()
    modifies table.nosoar
    ensures Sound(table, noartr)
    ensures table.Live() == old(table.Live())[na := Chained(old(table.Live())[na], v)]
  {
    hide TableInv, LiveEdges, MeshInv;
    ghost var E := table.Live();
    LiveCells(table, na);
    table.Write(na, Chained(EdgeOf(table.nosoar[na]), v));
    SameMesh(E, table.Live(), noartr[..]);
  }

  /** The first edge leaves the chain; until it is judged it is excused. */
  lemma Pop(P: seq<Point>, E: Edges, T: seq<Tri>, n: int, ch: seq<int>, excused: set<int>)
    requires IsChain(E, n, ch) && |ch| > 0 && Tidy(P, E, T, ch, excused) && Lined(E)
    ensures var E' := E[n := Chained(E[n], -1)];
            && n in E && SameEdges(E, E') && IsChain(E', E[n].chain, ch[1..]) && Lined(E')
            && Tidy(P, E', T, ch[1..], excused + {n}) && n !in ch[1..]
  {
    var E' := E[n := Chained(E[n], -1)];
    PopTidy(P, E, T, n, ch, excused);
    hide Tidy;
  }

  lemma PopTidy(P: seq<Point>, E: Edges, T: seq<Tri>, n: int, ch: seq<int>, excused: set<int>)
    requires n in E && |ch| > 0 && ch[0] == n && Tidy(P, E, T, ch, excused)
    ensures Tidy(P, E[n := Chained(E[n], -1)], T, ch[1..], excused + {n})
  {
    hide WantsAt, MeshInv, Quad, Start;
    var E' := E[n := Chained(E[n], -1)];
    SameMesh(E, E', T);
    assert ch == [n] + ch[1..];
  }

  /** A judged edge need not be excused. */
  lemma Judge(P: seq<Point>, E: Edges, T: seq<Tri>, ch: seq<int>, excused: set<int>, n: int)
    requires Tidy(P, E, T, ch, excused + {n}) && Settled(P, E, T, n)
    ensures Tidy(P, E, T, ch, excused)
  {
  }

  /** A treated edge goes to the front of the chain. */
  lemma Push(E: Edges, n: int, ch: seq<int>, k: int)
    requires IsChain(E, n, ch) && k in E && E[k].line == 0 && E[k].chain == -1
    requires forall i | i in E :: i > 0
    ensures IsChain(E[k := Chained(E[k], n)], k, [k] + ch) && k !in ch
  {
    var E', ch' := E[k := Chained(E[k], n)], [k] + ch;
    forall j | 0 <= j < |ch| ensures ch[j] != k {
      assert E[ch[j]].chain == At0(ch, j + 1);
    }
    forall j | 0 <= j < |ch'| ensures ch'[j] in E' && E'[ch'[j]].line == 0 && E'[ch'[j]].chain == At0(ch', j + 1) {
      if j > 0 {
        assert ch'[j] == ch[j - 1];
      }
    }
  }

  // ---------------------------------------------------------------- what an exchange leaves to do

  /** The four sides of the quadrangle of edge i. */
  function Sides(E: Edges, T: seq<Tri>, i: int): (r: set<int>)
    requires Inner(E, T, i)
  {
    {Abs(First(E, T, i).a2), Abs(First(E, T, i).a3), Abs(Second(E, T, i).a2), Abs(Second(E, T, i).a3)}
  }

  /** A triangle other than the two keeps its sides and their ends. */
  lemma FarTriangle(E: Edges, T: seq<Tri>, i: int, d: int, E': Edges, T': seq<Tri>, t: int, a: int)
    requires MeshInv(E, T) && Inner(E, T, i) && Exchanged(E, T, i, d, E', T')
    requires Active(T, t) && t != E[i].tr1 && t != E[i].tr2 && Uses(T[t], a)
    ensures T'[t] == T[t] && Start(E', a) == Start(E, a)
  {
    var x, y, t1, t2 := First(E, T, i), Second(E, T, i), E[i].tr1, E[i].tr2;
    assert TriOk(E, T, t);
    PocketOf(E, T, i);
    hide MeshInv, Start, Turn, FlipEdges;
    FlipEnds(E, T, i, d, E'[d], t1, t2, x, y, a);
  }

  /** A turned triangle away from the exchange keeps its corners. */
  lemma FarCorners(E: Edges, T: seq<Tri>, i: int, d: int, E': Edges, T': seq<Tri>, t: int, j: int)
    requires MeshInv(E, T) && Inner(E, T, i) && Exchanged(E, T, i, d, E', T')
    requires Active(T, t) && t != E[i].tr1 && t != E[i].tr2
    ensures T'[t] == T[t] && Verts(E', Turn(T[t], j)) == Verts(E, Turn(T[t], j))
  {
    hide MeshInv, Exchanged, Start;
    FarTriangle(E, T, i, d, E', T', t, T[t].a1);
    FarTriangle(E, T, i, d, E', T', t, T[t].a2);
    FarTriangle(E, T, i, d, E', T', t, T[t].a3);
  }

  /** The two triangles have no other sides. */
  lemma NoOtherSide(E: Edges, T: seq<Tri>, i: int, j: int)
    requires MeshInv(E, T) && Inner(E, T, i) && j > 0 && j != i && j !in Sides(E, T, i)
    ensures !Uses(T[E[i].tr1], j) && !Uses(T[E[i].tr1], -j) && !Uses(T[E[i].tr2], j) && !Uses(T[E[i].tr2], -j)
  {
    hide MeshInv, Start;
    PocketOf(E, T, i);
    hide Turn;
    forall t, a | t in {E[i].tr1, E[i].tr2} && a in {j, -j} ensures !Uses(T[t], a) {
      TurnUses(T[t], i, a);
    }
  }

  lemma FarTriangles(E: Edges, T: seq<Tri>, i: int, j: int)
    requires MeshInv(E, T) && Inner(E, T, i) && Inner(E, T, j) && j != i && j !in Sides(E, T, i)
    ensures Active(T, E[j].tr1) && Active(T, E[j].tr2)
    ensures E[j].tr1 != E[i].tr1 && E[j].tr1 != E[i].tr2 && E[j].tr2 != E[i].tr1 && E[j].tr2 != E[i].tr2
  {
    assert j > 0 && EdgeOk(E, T, j);
    hide MeshInv, Sides, Uses;
    NoOtherSide(E, T, i, j);
  }

  /** An edge away from the exchange keeps its quadrangle. */
  lemma FarEdge(E: Edges, T: seq<Tri>, i: int, d: int, E': Edges, T': seq<Tri>, j: int)
    requires MeshInv(E, T) && Inner(E, T, i) && Exchanged(E, T, i, d, E', T')
    requires j in E && j != i && j != d && j !in Sides(E, T, i)
    ensures j in E' && E'[j] == E[j] && |T'| == |T|
    ensures Inner(E, T, j) ==> Quad(E', T', j) == Quad(E, T, j)
  {
    hide MeshInv, FlipEdges, Start, Turn, Cycle;
    PocketOf(E, T, i);
    FlipLookup(E, T, i, d, E'[d], E[i].tr1, E[i].tr2, First(E, T, i), Second(E, T, i), j);
    hide Pocket, Exchanged, Sides;
    if Inner(E, T, j) {
      FarTriangles(E, T, i, j);
      FarCorners(E, T, i, d, E', T', E[j].tr1, j);
      FarCorners(E, T, i, d, E', T', E[j].tr2, j);
    }
  }

  /** The quadrangle of the new diagonal is the old one, turned. */
  lemma DiagonalQuad(E: Edges, T: seq<Tri>, i: int, d: int, E': Edges, T': seq<Tri>)
    requires MeshInv(E, T) && Inner(E, T, i) && Exchanged(E, T, i, d, E', T')
    ensures Inner(E', T', d)
    ensures var s := Quad(E, T, i); Quad(E', T', d) == (s.3, s.2, s.0, s.1)
  {
    var x, y, t1, t2 := First(E, T, i), Second(E, T, i), E[i].tr1, E[i].tr2;
    FlipKeeps(E, T, i, d, E'[d]);
    PocketOf(E, T, i);
    SidesDiffer(E, T, i, d, E'[d], t1, t2, x, y);
    hide MeshInv, FlipEdges, Start, Cycle;
  }

  /** Exchanging back would gain what was lost: the new diagonal is settled. */
  lemma NoWayBack(p1: Point, p2: Point, p3: Point, p4: Point)
    requires Quadrangle(p1, p2, p3, p4) && Wants(p1, p2, p3, p4)
    ensures !Wants(p4, p3, p1, p2)
  {
    WantsLoses(p1, p2, p3, p4);
    EnergyTurned(p1, p2, p3);
    EnergyTurned(p1, p4, p2);
    EnergyTurned(p1, p4, p3);
    EnergyTurned(p2, p3, p4);
    Turned(p1, p4, p3);
    hide Area, Wants, Energy;
    if Wants(p4, p3, p1, p2) {
      WantsLoses(p4, p3, p1, p2);
    }
  }

  lemma EnergyTurned(p: Point, q: Point, r: Point)
    ensures Energy(p, q, r) == Energy(q, r, p) == Energy(r, p, q)
  {
    Turned(p, q, r);
    hide Area;
  }

  /** After an exchange, with the new diagonal marked treated, only the four sides may be unsettled. */
  lemma AfterExchange(P: seq<Point>, E: Edges, T: seq<Tri>, i: int, d: int, E': Edges, T': seq<Tri>, n: int,
      ch: seq<int>, excused: set<int>)
    requires MeshInv(E, T) && Inner(E, T, i) && Exchanged(E, T, i, d, E', T')
    requires Embedded(P, Shape(E, T)) && WantsAt(P, Quad(E, T, i))
    requires IsChain(E, n, ch) && i !in ch && Lined(E) && Tidy(P, E, T, ch, excused + {i})
    ensures d in E' && SameEdges(E', E'[d := Chained(E'[d], -1)])
    ensures IsChain(E'[d := Chained(E'[d], -1)], n, ch) && Lined(E'[d := Chained(E'[d], -1)])
    ensures Tidy(P, E'[d := Chained(E'[d], -1)], T', ch, excused + Sides(E, T, i))
  {
    hide MeshInv, Embedded, WantsAt, Quad, Exchanged, Start, Turn, FlipEdges;
    AfterDiagonal(E, T, i, d, E', T');
    var E3 := E'[d := Chained(E'[d], -1)];
    assert After(E, E3, i, d) by {
      forall j
        ensures (j in E3 <==> (j in E && j != i) || j == d) && d in E3
        ensures j in E && j != i && j != d ==> Kept(E[j], E3[j])
        ensures d in E ==> E3[d] == E[d].(tr1 := E3[d].tr1, tr2 := E3[d].tr2, chain := -1) && E[d].tr1 <= 0
                           && E[d].tr2 <= 0
        ensures E3[d].chain == -1 && E3[d].tr1 > 0 && E3[d].line >= 0
      {
        AfterRecord(E, T, i, d, E', T', j);
      }
    }
    AfterChain(E, E3, i, d, n, ch);
    AfterLined(E, E3, i, d);
    AfterRecord(E, T, i, d, E', T', d);
    forall j | j in E3 && E3[j].line == 0 && j !in ch
      ensures E3[j].chain == -1 && (j in excused + Sides(E, T, i) || Settled(P, E3, T', j))
    {
      AfterRecord(E, T, i, d, E', T', j);
      SettledAfter(P, E, T, i, d, E', T', j);
      hide Settled, Sides;
    }
  }

  /** E3 is E without i and with d, the rest keeping line and chaining. */
  ghost predicate After(E: Edges, E3: Edges, i: int, d: int) {
    && d in E3 && E3[d].chain == -1 && E3[d].tr1 > 0 && E3[d].line >= 0
    && (d in E ==> E3[d] == E[d].(tr1 := E3[d].tr1, tr2 := E3[d].tr2, chain := -1) && E[d].tr1 <= 0 && E[d].tr2 <= 0)
    && forall j :: (j in E3 <==> (j in E && j != i) || j == d) && (j in E && j != i && j != d ==> Kept(E[j], E3[j]))
  }

  lemma AfterChain(E: Edges, E3: Edges, i: int, d: int, n: int, ch: seq<int>)
    requires After(E, E3, i, d) && IsChain(E, n, ch) && i !in ch && Lined(E)
    ensures IsChain(E3, n, ch)
  {
    forall k | 0 <= k < |ch| ensures ch[k] in E3 && E3[ch[k]].line == 0 && E3[ch[k]].chain == At0(ch, k + 1) {
      assert ch[k] in E && ch[k] != i && ch[k] != d;
    }
  }

  lemma AfterLined(E: Edges, E3: Edges, i: int, d: int)
    requires After(E, E3, i, d) && Lined(E)
    ensures Lined(E3)
  {
  }

  /** The exchange keeps line and chaining of an edge, and takes no edge's last triangle away. */
  ghost predicate Kept(e: Edge, e': Edge) {
    e'.line == e.line && e'.chain == e.chain && (e'.tr1 > 0 || e'.tr2 > 0 || e' == e)
  }

  lemma AfterRecord(E: Edges, T: seq<Tri>, i: int, d: int, E': Edges, T': seq<Tri>, j: int)
    requires MeshInv(E, T) && Inner(E, T, i) && Exchanged(E, T, i, d, E', T') && Lined(E)
    ensures (j in E' <==> (j in E && j != i) || j == d) && d in E'
    ensures j in E && j != i && j != d ==> Kept(E[j], E'[j])
    ensures d in E ==> E'[d] == E[d].(tr1 := E'[d].tr1, tr2 := E'[d].tr2) && E[d].tr1 <= 0 && E[d].tr2 <= 0
    ensures E'[d].tr1 > 0 && E'[d].line >= 0
  {
    hide MeshInv, FlipEdges, FlipTris, Start, Turn, Cycle;
    PocketOf(E, T, i);
    FlipLookup(E, T, i, d, E'[d], E[i].tr1, E[i].tr2, First(E, T, i), Second(E, T, i), j);
  }

  lemma AfterDiagonal(E: Edges, T: seq<Tri>, i: int, d: int, E': Edges, T': seq<Tri>)
    requires Inner(E, T, i) && Exchanged(E, T, i, d, E', T')
    ensures d in E'
  {
  }

  lemma SettledAfter(P: seq<Point>, E: Edges, T: seq<Tri>, i: int, d: int, E': Edges, T': seq<Tri>, j: int)
    requires MeshInv(E, T) && Inner(E, T, i) && Exchanged(E, T, i, d, E', T')
    requires Embedded(P, Shape(E, T)) && WantsAt(P, Quad(E, T, i))
    ensures d in E'
    ensures Settled(P, E'[d := Chained(E'[d], -1)], T', d)
    ensures j in E && j != i && j != d && j !in Sides(E, T, i) && Settled(P, E, T, j) ==>
      Settled(P, E'[d := Chained(E'[d], -1)], T', j)
  {
    hide Wants, MeshInv, Exchanged, Turn, Start, FlipEdges, Embedded;
    var s := Quad(E, T, i);
    AfterDiagonal(E, T, i, d, E', T');
    SameMesh(E', E'[d := Chained(E'[d], -1)], T');
    QuadConvex(P, E, T, i);
    DiagonalQuad(E, T, i, d, E', T');
    hide Quad;
    NoWayBack(PointOf(P, s.0), PointOf(P, s.1), PointOf(P, s.2), PointOf(P, s.3));
    if j in E && j != i && j != d && j !in Sides(E, T, i) {
      FarEdge(E, T, i, d, E', T', j);
    }
  }

  // ---------------------------------------------------------------- the procedure

  /** Edge n needs no (further) place on the chain after the exchange for d. */
  ghost predicate Done(E: Edges, d: int, ch: seq<int>, n: int) {
    n in E && (n == d || n in ch || E[n].line != 0 || E[n].chain != -1)
  }

  /** From (E, ch) to (E', ch') only treated edges were put on the chain. */
  ghost predicate Pushed(E: Edges, ch: seq<int>, E': Edges, ch': seq<int>) {
    && SameEdges(E, E')
    && (forall i | i in ch :: i in ch')
    && (forall i | i in E && i !in ch' :: E'[i] == E[i])
  }

  lemma PushedMore(E: Edges, ch: seq<int>, E1: Edges, ch1: seq<int>, E2: Edges, ch2: seq<int>, d: int, seen: set<int>)
    requires Pushed(E, ch, E1, ch1) && Pushed(E1, ch1, E2, ch2)
    requires forall m | m in seen :: Done(E1, d, ch1, m)
    ensures Pushed(E, ch, E2, ch2)
    ensures forall m | m in seen :: Done(E2, d, ch2, m)
  {
  }

  lemma PositiveEdges(E: Edges, T: seq<Tri>)
    requires MeshInv(E, T)
    ensures forall i | i in E :: i > 0
  {
  }

  method PushSide(table: Table, noartr: array<Tri>, d: int, n: int, first: int, ghost ch: seq<int>)
      returns (na0: int, ghost ch': seq<int>)
    requires Sound(table, noartr) && n in table.Live()
    requires IsChain(table.Live(), first, ch)
    modifies table.nosoar
    ensures Sound(table, noartr) && IsChain(table.Live(), na0, ch')
    ensures Pushed(old(table.Live()), ch, table.Live(), ch') && Done(table.Live(), d, ch', n)
  {
    hide TableInv, LiveEdges, MeshInv;
    na0, ch' := first, ch;
    LiveCells(table, n);
    if n != d && table.nosoar[n].line == 0 && table.nosoar[n].chain == -1 {
      PositiveEdges(table.Live(), noartr[..]);
      Push(table.Live(), first, ch, n);
      SetChain(table, noartr, n, na0);
      na0, ch' := n, [n] + ch;
      assert ch'[0] == n;
    }
  }

  /** The sides of triangle t are known edges. */
  lemma SidesLive(E: Edges, T: seq<Tri>, d: int, t: int, i: int)
    requires MeshInv(E, T) && Inner(E, T, d) && t in {E[d].tr1, E[d].tr2} && 1 <= i <= 3
    ensures 0 <= t < |T| && Abs(Side(T[t], i)) in E
  {
    assert EdgeOk(E, T, d);
    assert TriOk(E, T, t);
  }

  /** The end of the loop of tedela_: the treated sides of the two triangles of edge d that lie on
      no line go to the front of the chain. */
  method PushSides(table: Table, noartr: array<Tri>, d: int, first: int, ghost ch: seq<int>)
      returns (na0: int, ghost ch': seq<int>)
    requires Sound(table, noartr) && Inner(table.Live(), noartr[..], d)
    requires IsChain(table.Live(), first, ch)
    modifies table.nosoar
    ensures Sound(table, noartr) && IsChain(table.Live(), na0, ch') && Pushed(old(table.Live()), ch, table.Live(), ch')
    ensures forall t, k | t in {old(table.Live())[d].tr1, old(table.Live())[d].tr2} && 1 <= k <= 3 ::
              0 <= t < noartr.Length && Done(table.Live(), d, ch', Abs(Side(noartr[t], k)))
  {
    hide TableInv, LiveEdges, MeshInv, IsChain, Done;
    na0, ch' := first, ch;
    ghost var E, T := table.Live(), noartr[..];
    LiveCells(table, d);
    assert Pushed(E, ch, E, ch);
    hide Pushed;
    var ts := [table.nosoar[d].tr1, table.nosoar[d].tr2];
    ghost var seen: set<int> := {};
    for j := 0 to 2
      invariant Sound(table, noartr) && IsChain(table.Live(), na0, ch') && Pushed(E, ch, table.Live(), ch')
      invariant forall m | m in seen :: Done(table.Live(), d, ch', m)
      invariant forall t, k | 0 <= t < j && 1 <= k <= 3 :: Abs(Side(T[ts[t]], k)) in seen
    {
      for i := 1 to 4
        invariant Sound(table, noartr) && IsChain(table.Live(), na0, ch') && Pushed(E, ch, table.Live(), ch')
        invariant forall m | m in seen :: Done(table.Live(), d, ch', m)
        invariant forall t, k | 0 <= t < j && 1 <= k <= 3 :: Abs(Side(T[ts[t]], k)) in seen
        invariant forall k | 1 <= k < i :: Abs(Side(T[ts[j]], k)) in seen
      {
        SidesLive(E, T, d, ts[j], i);
        var n := Abs(Side(noartr[ts[j]], i));
        ghost var E1, ch1 := table.Live(), ch';
        na0, ch' := PushSide(table, noartr, d, n, na0, ch');
        PushedMore(E, ch, E1, ch1, table.Live(), ch', d, seen);
        seen := seen + {n};
      }
    }
    forall t, k | t in {E[d].tr1, E[d].tr2} && 1 <= k <= 3
      ensures 0 <= t < noartr.Length && Done(table.Live(), d, ch', Abs(Side(noartr[t], k)))
    {
      SidesLive(E, T, d, t, k);
      assert t == ts[0] || t == ts[1];
      assert Abs(Side(T[t], k)) in seen;
    }
  }

  /** `cenced_`: centre and squared radius of the circumscribed circle, unless the triangle is flat. */
  method Cenced(p: Point, q: Point, r: Point) returns (centre: Point, rayon2: real, ierr: int)
    ensures ierr == (if Flat(p, q, r) then 1 else 0)
    ensures ierr == 0 ==> Area(p, q, r) != 0.0 && centre == Centre(p, q, r) && rayon2 == Radius2(p, q, r)
  {
    if Flat(p, q, r) {
      return Point(0.0, 0.0), 10000000000000000000000000000.0, 1;
    }
    FlatArea(p, q, r);
    hide Area;
    centre := Centre(p, q, r);
    rayon2 := Dist2(p, centre);
    ierr := 0;
  }

  /** The tests of tedela_ on edge na, up to the circle.  (The code also skips an edge that lists a
      free triangle; in a sound mesh there is none.) */
  method TestEdge(table: Table, noartr: array<Tri>, pxyd: seq<Point>, na: int) returns (want: bool, rayon2: real)
    requires Sound(table, noartr) && 1 <= na <= table.mxsoar
    ensures want ==> Inner(table.Live(), noartr[..], na) && table.Live()[na].line <= 0
                     && WantsAt(pxyd, Quad(table.Live(), noartr[..], na))
    ensures want ==> rayon2 == CircleAt(pxyd, Quad(table.Live(), noartr[..], na)) && rayon2 != 0.0
    ensures !want && na in table.Live() && table.Live()[na].line <= 0 ==> Settled(pxyd, table.Live(), noartr[..], na)
  {
    hide TableInv, MeshInv, Area, Dist2, Radius2, Centre, Flat, Quad;
    want, rayon2 := false, 0.0;
    if table.nosoar[na].st1 == 0 || table.nosoar[na].line > 0 || table.nosoar[na].tr1 <= 0
      || table.nosoar[na].tr2 <= 0 {
      assert na in table.Live() ==> table.Live()[na] == EdgeOf(table.nosoar[na]);
      return;
    }
    var ns1, ns2, ns3, ns4 := Mt4sqa(table, noartr, na);
    if ns4 == 0 {
      return;
    }
    var p1, p2, p3, p4 := PointOf(pxyd, ns1), PointOf(pxyd, ns2), PointOf(pxyd, ns3), PointOf(pxyd, ns4);
    var a12 := Dist2(p1, p2);
    var s123, s142 := Area(p1, p2, p3), Area(p1, p4, p2);
    var s12 := AbsR(s123) + AbsR(s142);
    if s12 <= a12 * 0.001 {
      return;
    }
    var s143, s234 := Area(p1, p4, p3), Area(p2, p3, p4);
    var s34 := AbsR(s234) + AbsR(s143);
    if s34 != s12 {
      return;
    }
    var centre, r2, ierr := Cenced(p1, p2, p3);
    if ierr > 0 {
      return;
    }
    DistPositive(centre, p4);
    want, rayon2 := Dist2(centre, p4) < r2, r2;
  }

  lemma DistPositive(p: Point, q: Point)
    ensures Dist2(p, q) >= 0.0
  {
  }

  /** All sides of the two new triangles are dealt with: only true excuses remain. */
  lemma TidyAgain(P: seq<Point>, E: Edges, T: seq<Tri>, i: int, d: int, E': Edges, T': seq<Tri>, ch: seq<int>,
      E4: Edges, ch4: seq<int>, excused: set<int>)
    requires MeshInv(E, T) && Inner(E, T, i) && Exchanged(E, T, i, d, E', T')
    requires var E3 := E'[d := Chained(E'[d], -1)];
             SameEdges(E', E3) && Tidy(P, E3, T', ch, excused + Sides(E, T, i)) && Pushed(E3, ch, E4, ch4)
    requires forall t, k | t in {E[i].tr1, E[i].tr2} && 1 <= k <= 3 ::
      0 <= t < |T'| && Done(E4, d, ch4, Abs(Side(T'[t], k)))
    ensures Tidy(P, E4, T', ch4, excused)
  {
    hide MeshInv, WantsAt, Quad, Start, Turn, FlipEdges, Cycle;
    var E3 := E'[d := Chained(E'[d], -1)];
    SameMesh(E3, E4, T');
    forall n | n in Sides(E, T, i) ensures Done(E4, d, ch4, n) && n != d {
      NewSides(E, T, i, d, E', T', n);
      var t, k :| t in {E[i].tr1, E[i].tr2} && 1 <= k <= 3 && 0 <= t < |T'| && Abs(Side(T'[t], k)) == n;
    }
    hide Exchanged, Sides;
  }

  /** A treated side of the quadrangle is chained again. */
  lemma SideChained(E: Edges, T: seq<Tri>, i: int, d: int, E': Edges, T': seq<Tri>, ch: seq<int>, E4: Edges,
      ch4: seq<int>, j: int)
    requires MeshInv(E, T) && Inner(E, T, i) && Exchanged(E, T, i, d, E', T') && Lined(E) && j in Sides(E, T, i)
      && j in E && j != i
    requires d in E' && Pushed(E'[d := Chained(E'[d], -1)], ch, E4, ch4) && E[j].line == 0 && E[j].chain == -1
    requires forall t, k | t in {E[i].tr1, E[i].tr2} && 1 <= k <= 3 ::
      0 <= t < |T'| && Done(E4, d, ch4, Abs(Side(T'[t], k)))
    ensures j in ch4
  {
    NewSides(E, T, i, d, E', T', j);
    AfterRecord(E, T, i, d, E', T', j);
    var t, k :| t in {E[i].tr1, E[i].tr2} && 1 <= k <= 3 && 0 <= t < |T'| && Abs(Side(T'[t], k)) == j;
    assert Done(E4, d, ch4, j);
    hide MeshInv, Exchanged, Sides;
  }

  /** An excused edge that is not chained again keeps its quadrangle. */
  lemma ExcuseKept(P: seq<Point>, E: Edges, T: seq<Tri>, i: int, d: int, E': Edges, T': seq<Tri>, ch: seq<int>,
      E4: Edges, ch4: seq<int>, radii: seq<real>, full: bool, j: int)
    requires MeshInv(E, T) && Inner(E, T, i) && Exchanged(E, T, i, d, E', T') && Lined(E) && j != i
      && Excuse(P, E, T, j, radii, full)
    requires d in E' && Pushed(E'[d := Chained(E'[d], -1)], ch, E4, ch4) && j !in ch4
    requires forall t, k | t in {E[i].tr1, E[i].tr2} && 1 <= k <= 3 ::
      0 <= t < |T'| && Done(E4, d, ch4, Abs(Side(T'[t], k)))
    ensures Excuse(P, E4, T', j, radii, full)
  {
    hide MeshInv, Exchanged, Sides, Done, Quad, Start, Turn, CircleAt;
    var E3 := E'[d := Chained(E'[d], -1)];
    if j in Sides(E, T, i) {
      SideChained(E, T, i, d, E', T', ch, E4, ch4, j);
      assert false;
    }
    AfterRecord(E, T, i, d, E', T', d);
    AfterRecord(E, T, i, d, E', T', j);
    FarEdge(E, T, i, d, E', T', j);
    SameMesh(E', E3, T');
    SameMesh(E3, E4, T');
    assert E4[j] == E3[j] == E'[j];
  }

  /** Every side of the quadrangle is a side of a new triangle, and not the new diagonal. */
  lemma NewSides(E: Edges, T: seq<Tri>, i: int, d: int, E': Edges, T': seq<Tri>, n: int)
    requires MeshInv(E, T) && Inner(E, T, i) && Exchanged(E, T, i, d, E', T') && n in Sides(E, T, i)
    ensures n != d && exists t, k :: t in {E[i].tr1, E[i].tr2} && 1 <= k <= 3 && 0 <= t < |T'|
                                     && Abs(Side(T'[t], k)) == n
  {
    hide MeshInv, Start, Turn, FlipEdges, Cycle;
    var t1, t2 := E[i].tr1, E[i].tr2;
    PocketOf(E, T, i);
    SidesDiffer(E, T, i, d, E'[d], t1, t2, First(E, T, i), Second(E, T, i));
    assert Abs(Side(T'[t1], 1)) == Abs(Second(E, T, i).a2) && Abs(Side(T'[t1], 3)) == Abs(First(E, T, i).a3);
    assert Abs(Side(T'[t2], 1)) == Abs(First(E, T, i).a2) && Abs(Side(T'[t2], 3)) == Abs(Second(E, T, i).a3);
  }

  lemma ShapeWithin(E: Edges, T: seq<Tri>, m: nat)
    requires MeshInv(E, T) && Bounded(E, m)
    ensures Within(Shape(E, T), m)
  {
    forall t | 0 <= t < |T| ensures Shape(E, T)[t] in AllCorners(m) {
      if Active(T, t) {
        assert TriOk(E, T, t);
        assert EdgeOk(E, T, Abs(T[t].a1)) && EdgeOk(E, T, Abs(T[t].a2)) && EdgeOk(E, T, Abs(T[t].a3));
      }
    }
  }

  /** What holds of the mesh every time tedela_ looks at the chain. */
  ghost predicate Run(table: Table, noartr: array<Tri>, P: seq<Point>, na0: int, ch: seq<int>, excused: set<int>)
    reads table, table.nosoar, table.noarst, noartr
  {
    && Sound(table, noartr)
    && Embedded(P, Shape(table.Live(), noartr[..]))
    && IsChain(table.Live(), na0, ch) && Lined(table.Live()) && Tidy(P, table.Live(), noartr[..], ch, excused)
  }

  /** The exchange of a wanted diagonal and what follows it in the loop of tedela_; na34 == 0 when
      the table is full. */
  method Treat(table: Table, noartr: array<Tri>, ghost P: seq<Point>, na: int, first: int, ghost ch: seq<int>,
               ghost excused: set<int>, ghost radii: seq<real>, ghost full: bool)
    returns (na34: int, na0: int, ghost ch': seq<int>)
    requires Run(table, noartr, P, first, ch, excused + {na}) && na !in ch && na !in excused
    requires Excuses(P, table.Live(), noartr[..], ch, excused, radii, full)
    requires Inner(table.Live(), noartr[..], na) && table.Live()[na].line <= 0
      && WantsAt(P, Quad(table.Live(), noartr[..], na))
    modifies table`n1soar, table`plan, table.nosoar, table.noarst, noartr
    ensures na34 == 0 ==> table.Live() == old(table.Live()) && noartr[..] == old(noartr[..]) && na0 == first
                          && ch' == ch && Full(table)
    ensures na34 == 0 ==> Run(table, noartr, P, na0, ch', excused + {na})
    ensures na34 != 0 ==> Run(table, noartr, P, na0, ch', Left(excused, ch'))
    ensures na34 != 0 ==> Excuses(P, table.Live(), noartr[..], ch', Left(excused, ch'), radii, full)
    ensures |table.Live()| <= |old(table.Live())|
    ensures var G, G' := old(Shape(table.Live(), noartr[..])), Shape(table.Live(), noartr[..]);
            na34 != 0 ==> |G'| == |G| && TotalEnergy(P, G') < TotalEnergy(P, G) && TotalArea(P, G') == TotalArea(P, G)
                          && Flipped(P, G, G', CircleAt(P, old(Quad(table.Live(), noartr[..], na))))
  {
    hide TableInv, LiveEdges, MeshInv, WantsAt, Embedded, IsChain, Lined, Tidy, Start, Turn, FlipEdges, Quad, Occupied,
      TotalArea, TotalEnergy,
      Excuses, Left, CircleAt, Swap, Full;
    ghost var E, T := table.Live(), noartr[..];
    na0, ch' := first, ch;
    NeverOccupied(P, E, T, na);
    na34 := Te2t2t(table, noartr, na);
    if na34 == 0 {
      return;
    }
    ghost var E', T' := table.Live(), noartr[..];
    ExchangedSwaps(E, T, na, na34, E', T');
    ExchangedSize(E, T, na, na34, E', T');
    SwapEmbedded(P, Shape(E, T), Shape(E', T'), E[na].tr1, E[na].tr2, Quad(E, T, na));
    SwapEnergy(P, Shape(E, T), Shape(E', T'), E[na].tr1, E[na].tr2, Quad(E, T, na));
    SwapArea(P, Shape(E, T), Shape(E', T'), E[na].tr1, E[na].tr2, Quad(E, T, na));
    AfterExchange(P, E, T, na, na34, E', T', first, ch, excused);
    DiagonalQuad(E, T, na, na34, E', T');
    SetChain(table, noartr, na34, -1);
    ghost var E3 := table.Live();
    SameMesh(E', E3, T');
    na0, ch' := PushSides(table, noartr, na34, first, ch);
    SameMesh(E3, table.Live(), T');
    TidyAgain(P, E, T, na, na34, E', T', ch, table.Live(), ch', excused);
    TidyLeft(P, table.Live(), T', ch', excused);
    ExcusesKept(P, E, T, na, na34, E', T', ch, table.Live(), ch', excused, radii, full);
    LinedSame(E3, table.Live());
  }

  /** The excused edges that are not chained. */
  ghost function Left(excused: set<int>, ch: seq<int>): (r: set<int>) {
    set i | i in excused && i !in ch
  }

  lemma LeftEmpty(excused: set<int>, ch: seq<int>)
    ensures excused == {} ==> Left(excused, ch) == {}
  {
  }

  lemma TidyLeft(P: seq<Point>, E: Edges, T: seq<Tri>, ch: seq<int>, excused: set<int>)
    requires Tidy(P, E, T, ch, excused)
    ensures Tidy(P, E, T, ch, Left(excused, ch))
  {
    hide Settled;
  }

  lemma ExchangedSize(E: Edges, T: seq<Tri>, i: int, d: int, E': Edges, T': seq<Tri>)
    requires MeshInv(E, T) && Inner(E, T, i) && Exchanged(E, T, i, d, E', T') && Lined(E)
    ensures |E'| <= |E|
  {
    assert i in E;
    hide *;
    forall j ensures j in E' <==> (j in E && j != i) || j == d {
      AfterRecord(E, T, i, d, E', T', j);
    }
    KeysSize(E, E', i, d);
  }

  lemma KeysSize(E: Edges, E': Edges, i: int, d: int)
    requires i in E && forall j {:trigger j in E'} :: j in E' <==> (j in E && j != i) || j == d
    ensures |E'| <= |E|
  {
    var k := (E.Keys - {i}) + {d};
    forall j ensures j in E'.Keys <==> j in k {
      assert j in E' <==> (j in E && j != i) || j == d;
    }
    assert E'.Keys == k;
    assert |k| <= |E.Keys - {i}| + 1;
    assert |E.Keys - {i}| == |E.Keys| - 1;
    assert |E| == |E.Keys| && |E'| == |E'.Keys|;
  }

  lemma ExcusesKept(P: seq<Point>, E: Edges, T: seq<Tri>, i: int, d: int, E': Edges, T': seq<Tri>, ch: seq<int>,
      E4: Edges, ch4: seq<int>,
                    excused: set<int>, radii: seq<real>, full: bool)
    requires MeshInv(E, T) && Inner(E, T, i) && Exchanged(E, T, i, d, E', T') && Lined(E) && i !in excused
    requires Excuses(P, E, T, ch, excused, radii, full)
    requires d in E' && Pushed(E'[d := Chained(E'[d], -1)], ch, E4, ch4)
    requires forall t, k | t in {E[i].tr1, E[i].tr2} && 1 <= k <= 3 ::
      0 <= t < |T'| && Done(E4, d, ch4, Abs(Side(T'[t], k)))
    ensures Excuses(P, E4, T', ch4, Left(excused, ch4), radii, full)
  {
    hide MeshInv, Exchanged, Pushed, Excuse, Lined, Done;
    forall j | j in Left(excused, ch4) ensures j !in ch4 && Excuse(P, E4, T', j, radii, full) {
      ExcuseKept(P, E, T, i, d, E', T', ch, E4, ch4, radii, full, j);
    }
  }

  lemma LinedSame(E: Edges, E': Edges)
    requires Lined(E) && SameEdges(E, E')
    ensures Lined(E')
  {
  }

  /** `tedela_`: treat the edges chained from n1ardv, exchanging every diagonal that wants it and
      chaining the sides of its quadrangle in turn.

      On a mesh of positive triangles without common inner points the loop ends, over the reals:
      an exchange keeps such a mesh and lowers its energy, and there are finitely many
      triangulations.  At the end no edge off the lines wants an exchange, except where the code
      has turned one down: edges whose circle is as large as that of an exchange made (the
      guard against endless loops compares radii only), and, once the table was full, others.
      The table cannot get full while it has fewer edges than columns above the bucket heads.  If
      it has fewer at the start, and circles around a vertex through different triples of vertices
      have different radii, nothing is turned down. */
  method Tedela(table: Table, noartr: array<Tri>, pxyd: seq<Point>, n1ardv: int, ghost ch: seq<int>)
    returns (modifs: nat, ghost trace: seq<seq<Corners>>, ghost radii: seq<real>, ghost full: bool)
    requires Run(table, noartr, pxyd, n1ardv, ch, {})
    modifies table`n1soar, table`plan, table.nosoar, table.noarst, noartr
    ensures Sound(table, noartr) && Lined(table.Live()) && Embedded(pxyd, Shape(table.Live(), noartr[..]))
    ensures Rest(pxyd, table.Live(), noartr[..], radii, full)
    ensures |old(table.Live())| < table.mxsoar - table.mxsomm ==> !full
    ensures |radii| == modifs && Steps(pxyd, trace, radii) && Distinct(trace) && NoTwins(radii)
    ensures trace[0] == old(Shape(table.Live(), noartr[..])) && trace[modifs] == Shape(table.Live(), noartr[..])
    ensures Lone(pxyd, trace[0]) && |old(table.Live())| < table.mxsoar - table.mxsomm ==>
              Calm(pxyd, table.Live(), noartr[..]) && LocallyDelaunay(pxyd, table.Live(), noartr[..])
    ensures !full ==> NearlyDelaunay(pxyd, table.Live(), noartr[..], radii)
    ensures TotalArea(pxyd, trace[modifs]) == TotalArea(pxyd, trace[0])
      && (modifs > 0 ==> TotalEnergy(pxyd, trace[modifs]) < TotalEnergy(pxyd, trace[0]))
  {
    hide TableInv, LiveEdges, MeshInv, WantsAt, Embedded, IsChain, Lined, Tidy, Start, Turn, Quad, TotalArea,
      TotalEnergy, Within, Lower,
      Excuses, Left, CircleAt, Flipped, Full, Inner, Distinct, Shape, Bounded, Anchored, Lone, Gone, NoNewCorners, Calm,
      Rest, LocallyDelaunay, NearlyDelaunay;
    ghost var size, G0 := |table.Live()|, Shape(table.Live(), noartr[..]);
    modifs, trace, radii, full := 0, [G0], [], false;
    ghost var excused: set<int> := {};
    var r0 := 0.0;
    var na0 := n1ardv;
    ghost var c := ch;
    NoExcuses(pxyd, table.Live(), noartr[..], c);
    SameCorners(G0);
    while na0 > 0
      invariant Run(table, noartr, pxyd, na0, c, excused)
        && Excuses(pxyd, table.Live(), noartr[..], c, excused, radii, full)
      invariant |table.Live()| <= size && (full ==> size >= table.mxsoar - table.mxsomm)
      invariant |radii| == modifs && (if modifs == 0 then r0 == 0.0 else r0 == radii[modifs - 1])
      invariant Steps(pxyd, trace, radii) && NoTwins(radii)
      invariant Descending(pxyd, trace) && TotalArea(pxyd, trace[modifs]) == TotalArea(pxyd, trace[0])
      invariant trace[0] == G0 && trace[modifs] == Shape(table.Live(), noartr[..])
      invariant NoNewCorners(G0, trace[modifs]) && (modifs > 0 ==> Gone(pxyd, G0, trace[modifs], r0))
      invariant Lone(pxyd, G0) && !full ==> excused == {}
      decreases Lower(pxyd, Shape(table.Live(), noartr[..]), table.mxsomm), |c|
    {
      var na := na0;
      na0 := PopHead(table, noartr, pxyd, na, c, excused, radii, full);
      ghost var E, T := table.Live(), noartr[..];
      c := c[1..];
      var want, rayon2 := TestEdge(table, noartr, pxyd, na);
      if !want {
        Judge(pxyd, E, T, c, excused, na);
      } else if r0 == rayon2 {
        if Lone(pxyd, G0) {
          GuardIdle(pxyd, G0, E, T, na, r0);
        }
        ExcuseOne(pxyd, E, T, c, excused, radii, full, na);
        excused := excused + {na};
      } else {
        var na34;
        na34, na0, c := Treat(table, noartr, pxyd, na, na0, c, excused, radii, full);
        if na34 == 0 {
          FullSize(table);
          ExcuseLonger(pxyd, E, T, c, excused, radii, full, [], true);
          assert radii + [] == radii;
          full := true;
          ExcuseOne(pxyd, E, T, c, excused, radii, full, na);
          excused := excused + {na};
        } else {
          LeftEmpty(excused, c);
          excused := Left(excused, c);
          ShapeWithin(table.Live(), noartr[..], table.mxsomm);
          LowerShrinks(pxyd, Shape(E, T), Shape(table.Live(), noartr[..]), table.mxsomm);
          ExcuseLonger(pxyd, table.Live(), noartr[..], c, excused, radii, full, [rayon2], full);
          FlippedGone(pxyd, G0, Shape(E, T), Shape(table.Live(), noartr[..]), rayon2);
          StepsNext(pxyd, trace, radii, Shape(table.Live(), noartr[..]), rayon2);
          trace, radii := trace + [Shape(table.Live(), noartr[..])], radii + [rayon2];
          assert radii[modifs] == rayon2;
          r0 := rayon2;
          modifs := modifs + 1;
        }
      }
    }
    PositiveEdges(table.Live(), noartr[..]);
    ChainEnd(table.Live(), na0, c);
    RestOf(pxyd, table.Live(), noartr[..], excused, radii, full);
    if !full {
      RestDelaunay(pxyd, table.Live(), noartr[..], radii);
    }
    if excused == {} {
      CalmOf(pxyd, table.Live(), noartr[..]);
      CalmDelaunay(pxyd, table.Live(), noartr[..]);
    }
    NoRecurrence(pxyd, trace);
    if modifs > 0 {
      Descends(pxyd, trace, 0, modifs);
    }
  }

  /** The head of the chain is taken off it and marked treated. */
  method PopHead(table: Table, noartr: array<Tri>, ghost P: seq<Point>, na: int, ghost ch: seq<int>,
      ghost excused: set<int>, ghost radii: seq<real>, ghost full: bool)
    returns (na0: int)
    requires Run(table, noartr, P, na, ch, excused) && Excuses(P, table.Live(), noartr[..], ch, excused, radii, full)
      && na > 0
    modifies table.nosoar
    ensures ch != [] && Run(table, noartr, P, na0, ch[1..], excused + {na}) && na !in ch[1..] && na !in excused
    ensures na in table.Live() && table.Live()[na].line == 0 && table.Live()[na].chain == -1 && 1 <= na <= table.mxsoar
    ensures |table.Live()| == |old(table.Live())|
      && Shape(table.Live(), noartr[..]) == old(Shape(table.Live(), noartr[..]))
    ensures Excuses(P, table.Live(), noartr[..], ch[1..], excused, radii, full)
  {
    hide TableInv, LiveEdges, MeshInv, Embedded, IsChain, Lined, Tidy, Shape, Inner;
    ghost var E, T := table.Live(), noartr[..];
    ChainHead(E, na, ch);
    Pop(P, E, T, na, ch, excused);
    ExcusePop(P, E, T, na, ch, excused, radii, full);
    LiveCells(table, na);
    na0 := table.nosoar[na].chain;
    SetChain(table, noartr, na, -1);
    SameMesh(E, table.Live(), T);
    SameSize(E, table.Live());
  }

  lemma SameSize(E: Edges, E': Edges)
    requires E'.Keys == E.Keys
    ensures |E'| == |E|
  {
    assert |E| == |E.Keys| && |E'| == |E'.Keys|;
  }

  lemma NoExcuses(P: seq<Point>, E: Edges, T: seq<Tri>, ch: seq<int>)
    ensures Excuses(P, E, T, ch, {}, [], false)
  {
  }

  lemma ExcuseOne(P: seq<Point>, E: Edges, T: seq<Tri>, ch: seq<int>, excused: set<int>, radii: seq<real>, full: bool,
      i: int)
    requires Excuses(P, E, T, ch, excused, radii, full) && i !in ch && i in E && E[i].line == 0 && E[i].chain == -1
      && Inner(E, T, i)
    requires full || CircleAt(P, Quad(E, T, i)) in radii
    ensures Excuses(P, E, T, ch, excused + {i}, radii, full)
  {
    ExcuseMore(P, E, T, ch, excused, radii, full, i);
  }

  lemma FullSize(table: Table)
    requires Full(table)
    ensures |table.Live()| >= table.mxsoar - table.mxsomm
  {
  }

  lemma ChainHead(E: Edges, n: int, ch: seq<int>)
    requires IsChain(E, n, ch) && n > 0
    ensures |ch| > 0 && ch[0] == n && n in E && E[n].line == 0
  {
  }

  lemma ChainEnd(E: Edges, n: int, ch: seq<int>)
    requires IsChain(E, n, ch) && n <= 0 && forall i | i in E :: i > 0
    ensures n == 0 && ch == []
  {
  }

  // ---------------------------------------------------------------- the first chain

  /** ch lists in order the edges off the lines among columns 1..n - 1, chained one to the next. */
  ghost predicate ChainedUpTo(E: Edges, n: int, ch: seq<int>) {
    && (forall k | 0 <= k < |ch| :: ch[k] in E && E[ch[k]].line <= 0 && ch[k] < n)
    && (forall k | 0 <= k < |ch| - 1 :: ch[k] < ch[k + 1] && E[ch[k]].chain == ch[k + 1])
    && (forall i | i in E && E[i].line <= 0 && i < n :: i in ch)
  }

  lemma {:induction false} Ascending(ch: seq<int>, j: int, k: int)
    requires forall i | 0 <= i < |ch| - 1 :: ch[i] < ch[i + 1]
    requires 0 <= j < k < |ch|
    ensures ch[j] < ch[k]
  {
    if j + 1 < k {
      Ascending(ch, j, k - 1);
    }
    assert ch[k - 1] < ch[k - 1 + 1];
  }

  lemma ChainedNext(E: Edges, n: int, ch: seq<int>)
    requires ChainedUpTo(E, n, ch) && |ch| > 0 && n in E && E[n].line <= 0
    ensures var E' := E[ch[|ch| - 1] := Chained(E[ch[|ch| - 1]], n)];
      SameEdges(E, E') && ChainedUpTo(E', n + 1, ch + [n])
  {
    var l, ch' := ch[|ch| - 1], ch + [n];
    var E' := E[l := Chained(E[l], n)];
    forall k | 0 <= k < |ch'| - 1 ensures ch'[k] < ch'[k + 1] && E'[ch'[k]].chain == ch'[k + 1] {
      if k < |ch| - 1 {
        Ascending(ch, k, |ch| - 1);
      }
    }
    forall i | i in E' && E'[i].line <= 0 && i < n + 1 ensures i in ch' {
      assert i != n ==> i in ch;
      assert ch'[|ch|] == n;
    }
  }

  lemma ChainedAll(P: seq<Point>, E: Edges, T: seq<Tri>, n: int, ch: seq<int>)
    requires ChainedUpTo(E, n, ch) && |ch| > 0 && Lined(E) && forall i | i in E :: 0 < i < n
    ensures var E' := E[ch[|ch| - 1] := Chained(E[ch[|ch| - 1]], 0)];
      SameEdges(E, E') && IsChain(E', ch[0], ch) && Tidy(P, E', T, ch, {})
  {
    var l := ch[|ch| - 1];
    var E' := E[l := Chained(E[l], 0)];
    forall j, k | 0 <= j < k < |ch| ensures ch[j] != ch[k] {
      Ascending(ch, j, k);
    }
    assert forall k | 0 <= k < |ch| - 1 :: ch[k] != l;
    hide Settled;
  }

  ghost predicate OffLines(E: Edges) {
    exists i :: i in E && E[i].line <= 0
  }

  /** The first loop of aisoar_: the first live edge off the lines, mxsoar + 1 when there is none. */
  method FirstOffLines(table: Table) returns (na1: int)
    requires table.Valid()
    ensures OffLines(table.Live()) ==> na1 in table.Live() && table.Live()[na1].line <= 0
    ensures forall i | i in table.Live() && table.Live()[i].line <= 0 :: na1 <= i
    ensures !OffLines(table.Live()) ==> na1 == table.mxsoar + 1
  {
    hide TableInv;
    na1 := 1;
    while na1 <= table.mxsoar && !(table.nosoar[na1].st1 > 0 && table.nosoar[na1].line <= 0)
      invariant 1 <= na1 <= table.mxsoar + 1
      invariant forall i | i in table.Live() && table.Live()[i].line <= 0 :: na1 <= i
      decreases table.mxsoar - na1
    {
      na1 := na1 + 1;
    }
    LiveRange(table);
    if na1 <= table.mxsoar {
      DeadCell(table, na1);
    }
  }

  /** The second loop of aisoar_ at column na: an edge off the lines is chained from na0. */
  method ChainOne(table: Table, noartr: array<Tri>, first: int, na: int, ghost ch: seq<int>)
      returns (na0: int, ghost ch': seq<int>)
    requires Sound(table, noartr) && 1 <= na <= table.mxsoar
    requires ChainedUpTo(table.Live(), na, ch) && |ch| > 0 && ch[|ch| - 1] == first
    modifies table.nosoar
    ensures Sound(table, noartr) && SameEdges(old(table.Live()), table.Live())
    ensures ChainedUpTo(table.Live(), na + 1, ch') && |ch'| > 0 && ch'[0] == ch[0] && ch'[|ch'| - 1] == na0
  {
    hide TableInv, MeshInv, LiveEdges;
    na0, ch' := first, ch;
    DeadCell(table, na);
    if table.nosoar[na].st1 > 0 && table.nosoar[na].line <= 0 {
      assert first in table.Live();
      ChainedNext(table.Live(), na, ch);
      SetChain(table, noartr, na0, na);
      na0, ch' := na, ch + [na];
    } else {
      ChainedSkip(table.Live(), na, ch);
    }
  }

  /** `aisoar_`: chain through column 6 the edges off the lines.  When there is none na1 is
      mxsoar + 1, and the code writes its 0 past the table. */
  method Aisoar(table: Table, noartr: array<Tri>, ghost P: seq<Point>)
      returns (na1: int, past: bool, ghost ch: seq<int>)
    requires Sound(table, noartr) && Lined(table.Live())
    modifies table.nosoar
    ensures past <==> !OffLines(old(table.Live()))
    ensures past ==> na1 == table.mxsoar + 1 && table.Live() == old(table.Live())
    ensures Sound(table, noartr) && SameEdges(old(table.Live()), table.Live())
    ensures !past ==> IsChain(table.Live(), na1, ch) && Tidy(P, table.Live(), noartr[..], ch, {})
  {
    hide TableInv, MeshInv, LiveEdges;
    ghost var E := table.Live();
    na1 := FirstOffLines(table);
    past, ch := na1 > table.mxsoar, [];
    LiveRange(table);
    if past {
      return;
    }
    var na0 := na1;
    ch := [na1];
    assert ChainedUpTo(E, na1 + 1, ch) && SameEdges(E, E);
    LiveCells(table, na1);
    hide ChainedUpTo, Lined, Tidy, IsChain, Bounded, Anchored, SameEdges;
    for na := na1 + 1 to table.mxsoar + 1
      invariant Sound(table, noartr) && SameEdges(E, table.Live())
      invariant |ch| > 0 && ch[0] == na1 && ch[|ch| - 1] == na0
      invariant ChainedUpTo(table.Live(), na, ch)
    {
      ghost var E1 := table.Live();
      na0, ch := ChainOne(table, noartr, na0, na, ch);
      SameTrans(E, E1, table.Live());
    }
    LinedSame(E, table.Live());
    ghost var E2 := table.Live();
    EndChain(table, noartr, P, na0, ch);
    SameTrans(E, E2, table.Live());
  }

  /** The end of aisoar_: the last edge has no next. */
  method EndChain(table: Table, noartr: array<Tri>, ghost P: seq<Point>, na0: int, ghost ch: seq<int>)
    requires Sound(table, noartr) && Lined(table.Live())
    requires ChainedUpTo(table.Live(), table.mxsoar + 1, ch) && |ch| > 0 && ch[|ch| - 1] == na0
    modifies table.nosoar
    ensures Sound(table, noartr) && SameEdges(old(table.Live()), table.Live())
    ensures IsChain(table.Live(), ch[0], ch) && Tidy(P, table.Live(), noartr[..], ch, {})
  {
    hide TableInv, MeshInv, LiveEdges, Bounded, Anchored, Lined, Tidy, IsChain, SameEdges, ChainedUpTo;
    AllColumns(table);
    ChainedAll(P, table.Live(), noartr[..], table.mxsoar + 1, ch);
    LastLive(table.Live(), table.mxsoar + 1, ch);
    SetChain(table, noartr, na0, 0);
  }

  lemma LiveRange(table: Table)
    requires table.Valid()
    ensures OffLines(table.Live()) ==> exists i :: i in table.Live() && table.Live()[i].line <= 0 && i <= table.mxsoar
  {
    AllColumns(table);
  }

  lemma SameTrans(E: Edges, E1: Edges, E2: Edges)
    requires SameEdges(E, E1) && SameEdges(E1, E2)
    ensures SameEdges(E, E2)
  {
  }

  lemma LastLive(E: Edges, n: int, ch: seq<int>)
    requires ChainedUpTo(E, n, ch) && |ch| > 0
    ensures ch[|ch| - 1] in E
  {
  }

  lemma ChainedSkip(E: Edges, n: int, ch: seq<int>)
    requires ChainedUpTo(E, n, ch) && !(n in E && E[n].line <= 0)
    ensures ChainedUpTo(E, n + 1, ch)
  {
  }

  lemma DeadCell(table: Table, i: int)
    requires table.Valid() && 1 <= i <= table.mxsoar
    ensures i in table.Live() <==> table.nosoar[i].st1 > 0
    ensures i in table.Live() ==> table.Live()[i] == EdgeOf(table.nosoar[i])
  {
  }

  lemma AllColumns(table: Table)
    requires table.Valid()
    ensures forall i | i in table.Live() :: 1 <= i <= table.mxsoar
  {
  }
}
