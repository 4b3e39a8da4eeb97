/** The stages of `aptrte` that make the background mesh: tree, balancing and triangulated leaves. */
module Aptrte {
  import opened Geometry
  import opened Delaunay
  import opened EdgeTable
  import opened Mesh
  import opened Exchange
  import opened Contours
  import opened Triangles
  import opened Patch
  import opened Splitting
  import opened Leaves
  import opened Quadtree
  import opened Teajte
  import opened Refining
  import opened Tehote
  import opened Framing
  import opened Leafmesh
  import opened Tiling
  import opened Trpite
  import opened Mosaic
  import opened Paving
  import opened Tetrte
  import opened Conform
  import opened Rim
  import opened Covered
  import Tree
  import Tedela
  import Guard

  /** A balanced tree over the points 1 to n, ready for `tetrte_`. */
  ghost predicate Ready(tree: Quadtree, rect: Box, n: nat)
    reads tree, tree.letree, tree.pxyd
  {
    && Planted(tree) && Even(GroveOf(tree), rect)
    && (forall q :: q in tree.home <==> 1 <= q <= n) && (forall v | v in tree.S.pt :: v > n)
  }

  lemma ReadyFrom(tree: Quadtree, rect: Box, ideal: Point -> real, n: nat)
    requires tree.Valid() && (forall q :: q in tree.home <==> 1 <= q <= n)
    requires forall v | v in tree.S.pt :: n < v <= tree.nbsomm
    requires forall j | j in tree.S.geo && !Tree.Inner(tree.letree[..], tree.S, j) ::
      Good(tree.letree[..], tree.S, tree.pxyd[..], rect, ideal, j)
    ensures Ready(tree, rect, n)
  {
    hide TreeOk, Columned, Balanced, InRect, TooBig;
    var g := GroveOf(tree);
    forall j | Chosen(g, rect, j) ensures Balanced(g.T, g.S, j) {
      assert Good(tree.letree[..], tree.S, tree.pxyd[..], rect, ideal, j);
    }
  }

  lemma PlacedRoot(tree: Quadtree)
    requires tree.Valid()
    ensures tree.letree.Length == tree.mxtree + 1 > 1 && 0 <= tree.nbsomm
    ensures var t := tree.letree[1];
      1 <= t.v1 <= tree.nbsomm && 1 <= t.v2 <= tree.nbsomm && 1 <= t.v3 <= tree.nbsomm
  {
    hide TreeOk, Columned;
    RootCornersOld(tree.letree[..], tree.S, tree.pxyd[..], tree.nbsomm, tree.free, tree.home);
  }

  lemma GivenFrom(tree: Quadtree, rect: Box, b: Box, aretmx: real, n: nat)
    requires Ready(tree, rect, n) && tree.letree.Length > 1 && tree.pxyd.Length > n && aretmx > 0.0
    requires Over(tree.pxyd[..], tree.letree[1], b, aretmx)
    requires forall i | 1 <= i <= n :: InBox(b, tree.pxyd[..][i])
    ensures Given(tree, b, aretmx, n)
  {
    hide Planted, Even, Over, InBox;
    assert forall q | 1 <= q <= n :: tree.pxyd[q] == tree.pxyd[..][q];
  }

  lemma SameKeys(a: map<int, int>, b: map<int, int>, n: nat)
    requires a.Keys == b.Keys && forall q :: q in a <==> 1 <= q <= n
    ensures forall q :: q in b <==> 1 <= q <= n
  {
    assert forall q :: q in b <==> q in b.Keys;
  }

  lemma SameFrame(P: seq<Point>, P': seq<Point>, nb: int, t: Tree.Te, t': Tree.Te, b: Box, aretmx: real, nbarpi: int)
    requires Extends(P, P', nb) && SameTriangle(t', t) && 1 <= t.v1 <= nb && 1 <= t.v2 <= nb && 1 <= t.v3 <= nb
    ensures FrameOf(P', t', b, aretmx, nbarpi) == FrameOf(P, t, b, aretmx, nbarpi)
    ensures SamePlaces(P, t, P', t')
  {
  }

  lemma {:induction false} ExtentSame(P: seq<Point>, P': seq<Point>, n: nat, box: Box)
    requires Extends(P, P', n) && n < |P|
    ensures ExtentOf(P', n, box) == ExtentOf(P, n, box)
  {
    if n > 0 {
      ExtentSame(P, P', n - 1, box);
    }
  }

  /** The loop of `aptrte` around `teajte_` and `tehote_`: as long as the tree has too few columns it is
      made again with twice as many.  It is made again at most once, and the points stay in place. */
  method Plant(mxsomm: nat, pxyd: array<Point>, nbarpi: nat, comxmi: Box, aretmx: real, rac3: real, nutysu: int,
      wish: seq<real>, ideal: Point -> real)
        returns (tree: Quadtree?, mxtree: nat, laqueu: array<int>, b: Box, ierr: int)
    requires mxsomm >= 4 && pxyd.Length == mxsomm + 1 && nbarpi + 3 <= mxsomm && nbarpi < |wish|
    requires comxmi.xmin <= comxmi.xmax && comxmi.ymin <= comxmi.ymax && aretmx > 0.0 && Root3(rac3)
    modifies pxyd
    ensures mxtree == 2 * mxsomm || mxtree == 4 * mxsomm
    ensures b == ExtentOf(old(pxyd[..]), nbarpi, comxmi) && Extends(old(pxyd[..]), pxyd[..], nbarpi)
    ensures ierr == 0 || ierr == 7 || ierr == 52
    ensures ierr == 7 <==> Slim(b)
    ensures ierr == 52 ==> tree != null && tree.nbsomm == mxsomm
    ensures fresh(laqueu) && laqueu.Length == mxtree + 1
    ensures ierr == 0 ==> tree != null && tree.pxyd == pxyd && tree.mxtree == mxtree && tree.mxsomm == mxsomm
                          && tree.letree.Length == mxtree + 1
    ensures ierr == 0 ==> Ready(tree, FrameOf(pxyd[..], tree.letree[1], b, aretmx, nbarpi), nbarpi)
    ensures ierr == 0 ==> Given(tree, b, aretmx, nbarpi)
    ensures ierr == 0 && nutysu <= 0 ==> Tamed(tree.letree[..], tree.S, pxyd[..], wish, nbarpi)
  {
    hide *;
    mxtree := 2 * mxsomm;
    ghost var P := pxyd[..];
    ExtendsNone(P, nbarpi);
    tree := null;
    while true
      invariant mxtree == 2 * mxsomm || mxtree == 4 * mxsomm
      invariant Extends(P, pxyd[..], nbarpi)
      decreases 5 * mxsomm - mxtree
    {
      ghost var P1 := pxyd[..];
      ExtentSame(P, P1, nbarpi, comxmi);
      b := Extent(pxyd, nbarpi, comxmi);
      laqueu := new int[mxtree + 1];
      tree, ierr := Teajte.Teajte(mxtree, mxsomm, pxyd, nbarpi, comxmi, aretmx, rac3);
      ExtendsTwice(P, P1, pxyd[..], nbarpi, nbarpi);
      if ierr == 0 {
        ghost var P2, S2, nb2, home2 := pxyd[..], tree.S, tree.nbsomm, tree.home;
        PlacedRoot(tree);
        ghost var t1 := tree.letree[1];
        var rect := FrameOf(pxyd[..], tree.letree[1], b, aretmx, nbarpi);
        ierr := Tehote.Tehote(tree, nutysu, nbarpi, wish, rect, ideal, laqueu);
        ExtendsTwice(P, P2, pxyd[..], nbarpi, nb2);
        if ierr == 0 {
          NumbersAbove(S2, tree.S, nbarpi, nb2, tree.nbsomm);
          SameFrame(P2, pxyd[..], nb2, t1, tree.letree[1], b, aretmx, nbarpi);
          SameKeys(home2, tree.home, nbarpi);
          PlacedRoot(tree);
          StillOver(P2, t1, pxyd[..], tree.letree[1], b, aretmx);
          ExtentHolds(pxyd[..], nbarpi, comxmi);
          ExtentSame(P, pxyd[..], nbarpi, comxmi);
          ReadyFrom(tree, rect, ideal, nbarpi);
          GivenFrom(tree, rect, b, aretmx, nbarpi);
        }
      }
      if ierr != 51 {
        return;
      }
      mxtree := mxtree * 2;
    }
  }

  /** The given edges join points 1 to n, lie on lines and have no triangle yet. */
  ghost predicate Bordered(table: Table, n: nat)
    reads table, table.nosoar, table.noarst
  {
    && table.Valid() && Bounded(table.Live(), table.mxsomm) && Anchored(table.Live(), table.noarst[..])
    && NoTriangles(table.Live())
    && forall i | i in table.Live() :: table.Live()[i].line > 0 && table.Live()[i].st2 <= n
  }

  /** Exactly the edges on the rim have one triangle only. */
  ghost predicate Conforming(g: Grove, rect: Box, D: seq<int>, E: Edges) {
    forall i | i in E ::
      Single(E, i) <==> RimSide(g, rect, D, E[i].st1, E[i].st2) || RimSide(g, rect, D, E[i].st2, E[i].st1)
  }

  lemma MeshConforming(table: Table, store: Store, tree: Quadtree, rect: Box, D: seq<int>, nutr: seq<int>,
      ts: seq<Tri3>,
      own: seq<int>)
    requires Planted(tree) && Even(GroveOf(tree), rect) && Paved(table, store, GroveOf(tree), D, nutr, ts, own)
    requires forall j :: j in D <==> Chosen(GroveOf(tree), rect, j)
    ensures Conforming(GroveOf(tree), rect, D, table.Live())
  {
    hide *;
    PlantedParts(tree);
    PavedParts(table, store, GroveOf(tree), D, nutr, ts, own);
    var index := TableKeys(table, store);
    var g, E := GroveOf(tree), table.Live();
    forall i | i in E
      ensures Single(E, i) <==> RimSide(g, rect, D, E[i].st1, E[i].st2) || RimSide(g, rect, D, E[i].st2, E[i].st1)
    {
      SingleExactly(g, tree.nbsomm, rect, E, store.noartr[..], index, D, nutr, ts, own, i);
    }
    ConformingFrom(g, rect, D, E);
  }

  lemma ConformingFrom(g: Grove, rect: Box, D: seq<int>, E: Edges)
    requires forall i | i in E ::
      Single(E, i) <==> RimSide(g, rect, D, E[i].st1, E[i].st2) || RimSide(g, rect, D, E[i].st2, E[i].st1)
    ensures Conforming(g, rect, D, E)
  {
    hide Single, RimSide;
  }

  lemma TableKeys(table: Table, store: Store) returns (index: map<(int, int), int>)
    requires Sound(table, store.noartr)
    ensures Keyed(table.Live(), index)
  {
    hide TableInv, LiveEdges, MeshInv, Bounded, Anchored;
    KeyedOf(table.mxsoar, table.mxsomm, table.nosoar[..], table.n1soar, table.plan);
    index := table.plan.index;
  }

  /** From the given points and edges to the triangulated leaves: the two stages above and `tetrte_`. */
  method Background(table: Table, mxartr: nat, pxyd: array<Point>, nbarpi: nat, comxmi: Box, aretmx: real, rac3: real,
      nutysu: int, wish: seq<real>, ideal: Point -> real)
      returns (tree: Quadtree?, store: Store?, b: Box, ierr: int, lost: bool, ghost D: seq<int>, ghost nutr: seq<int>,
      ghost ts: seq<Tri3>, ghost own: seq<int>)
    requires Bordered(table, nbarpi) && mxartr > 0
    requires table.mxsomm >= 4 && pxyd.Length == table.mxsomm + 1 && nbarpi + 3 <= table.mxsomm && nbarpi < |wish|
    requires comxmi.xmin <= comxmi.xmax && comxmi.ymin <= comxmi.ymax && aretmx > 0.0 && Root3(rac3)
    modifies pxyd, table`n1soar, table`plan, table.nosoar, table.noarst
    ensures Extends(old(pxyd[..]), pxyd[..], nbarpi) && b == ExtentOf(old(pxyd[..]), nbarpi, comxmi)
    ensures ierr == 0 || ierr == 1 || ierr == 2 || ierr == 7 || ierr == 52
    ensures (ierr == 7 <==> Slim(b)) && (ierr == 52 ==> tree != null && tree.nbsomm == table.mxsomm)
    ensures Spare(old(table.plan)) >= 84 * table.mxsomm && mxartr > 48 * table.mxsomm ==>
              ierr != 1 && ierr != 2 && !lost
    ensures lost ==> ierr == 0 && store != null && !MeshInv(table.Live(), store.noartr[..])
    ensures ierr == 0 ==> store != null && tree != null && tree.pxyd == pxyd && tree.letree.Length > 1
                          && Given(tree, b, aretmx, nbarpi)
                          && Ready(tree, FrameOf(pxyd[..], tree.letree[1], b, aretmx, nbarpi), nbarpi)
    ensures ierr == 0 && nutysu <= 0 ==> Tamed(tree.letree[..], tree.S, pxyd[..], wish, nbarpi)
    ensures ierr == 0 && !lost ==> Paved(table, store, GroveOf(tree), D, nutr, ts, own) && Tedela.Lined(table.Live())
    ensures ierr == 0 && !lost ==> LinesKept(old(table.Live()), table.Live())
    ensures ierr == 0 ==> var rect := FrameOf(pxyd[..], tree.letree[1], b, aretmx, nbarpi);
                          !lost ==> (forall j :: j in D <==> Chosen(GroveOf(tree), rect, j))
                                    && Conforming(GroveOf(tree), rect, D, table.Live())
    ensures ierr == 0 && !lost && nbarpi <= 8 ==> forall j | IsLeaf(GroveOf(tree), j) :: j in D
    ensures ierr == 0 && !lost ==> AllTaken(table.Live(), store.noartr[..], nbarpi)
                                   && BoxCovered(pxyd[..], table.Live(), store.noartr[..], b)
    ensures ierr == 0 && !lost ==> D != [] && Tedela.OffLines(table.Live())
    ensures ierr == 0 && !lost && (forall j | j in D :: ScatteredAt(GroveOf(tree), j)) ==>
              Embedded(pxyd[..], Delaunay.Shape(table.Live(), store.noartr[..]))
  {
    hide *;
    store, lost, D, nutr, ts, own := null, false, [], [], [], [];
    var mxtree, laqueu;
    tree, mxtree, laqueu, b, ierr := Plant(table.mxsomm, pxyd, nbarpi, comxmi, aretmx, rac3, nutysu, wish, ideal);
    if ierr != 0 {
      return;
    }
    var rect := FrameOf(pxyd[..], tree.letree[1], b, aretmx, nbarpi);
    ReadyParts(tree, rect, nbarpi);
    BorderedParts(table, nbarpi);
    ghost var E := table.Live();
    var made;
    made, ierr, lost, D, nutr, ts, own := Tetrte.Tetrte(table, mxartr, tree, rect, laqueu);
    store := made;
    if ierr == 0 && !lost {
      LinedKept(E, table.Live());
      GroveParts(tree);
      PavedParts(table, made, GroveOf(tree), D, nutr, ts, own);
      ChosenLeaves(GroveOf(tree), rect, D);
      MeshConforming(table, made, tree, rect, D, nutr, ts, own);
      PavesParts(GroveOf(tree), D, ts);
      LaidParts(GroveOf(tree), table.Live(), made.noartr[..], D, nutr, ts, own);
      PointsTaken(tree, b, aretmx, nbarpi, table.Live(), made.noartr[..], D, nutr, ts);
      PlacesCovered(tree, b, aretmx, nbarpi, table.Live(), made.noartr[..], D, nutr, ts);
      ghost var j := BoxLeaf(tree, b, aretmx, nbarpi, comxmi);
      EdgeOff(tree, nbarpi, E, table.Live(), made.noartr[..], D, nutr, ts, own, rect);
      if nbarpi <= 8 {
        AllChosen(tree, b, aretmx, nbarpi);
      }
      PavedEmbedded(GroveOf(tree), table.Live(), made.noartr[..], D, nutr, ts, own);
    }
  }

  /** Some leaf meets the rectangle. */
  lemma BoxLeaf(tree: Quadtree, b: Box, aretmx: real, n: nat, c: Box) returns (j: int)
    requires Given(tree, b, aretmx, n) && c.xmin <= c.xmax && c.ymin <= c.ymax
    requires b.xmin <= c.xmin && c.xmax <= b.xmax && b.ymin <= c.ymin && c.ymax <= b.ymax
    ensures Chosen(GroveOf(tree), FrameOf(tree.pxyd[..], tree.letree[1], b, aretmx, n), j)
  {
    hide Given, Chosen, FrameOf;
    j := BoxChosen(tree, b, aretmx, n, Point(c.xmin, c.ymin));
  }

  lemma ReadyParts(tree: Quadtree, rect: Box, n: nat)
    requires Ready(tree, rect, n)
    ensures Planted(tree) && Even(GroveOf(tree), rect) && 0 <= tree.nbsomm <= tree.mxsomm
  {
    hide TreeOk, Columned, Even, Numbers;
  }

  lemma BorderedParts(table: Table, n: nat)
    requires Bordered(table, n)
    ensures table.Valid() && Bounded(table.Live(), table.mxsomm) && Anchored(table.Live(), table.noarst[..])
    ensures NoTriangles(table.Live())
    ensures forall i | i in table.Live() :: table.Live()[i].line > 0 && table.Live()[i].st2 <= n
  {
    hide TableInv, LiveEdges, Bounded, Anchored, NoTriangles;
  }

  /** With at most eight points every leaf is meshed. */
  lemma AllChosen(tree: Quadtree, b: Box, aretmx: real, n: nat)
    requires Given(tree, b, aretmx, n) && n <= 8
    ensures forall j | IsLeaf(GroveOf(tree), j) ::
      Chosen(GroveOf(tree), FrameOf(tree.pxyd[..], tree.letree[1], b, aretmx, n), j)
  {
    hide *;
    GivenParts(tree, b, aretmx, n);
    PlantedTree(tree);
    OverParts(tree.pxyd[..], tree.letree[1], b, aretmx);
    TreeParts(tree.letree[..], tree.S, tree.pxyd[..], tree.nbsomm, tree.free, tree.home);
    GroveParts(tree);
    forall j | IsLeaf(GroveOf(tree), j)
      ensures Chosen(GroveOf(tree), FrameOf(tree.pxyd[..], tree.letree[1], b, aretmx, n), j)
    {
      LeafIndex(GroveOf(tree), j);
      AllFramed(tree.letree[..], tree.S, tree.pxyd[..], j, b, aretmx, n);
      LeafOf(tree, j);
      ChosenFrom(tree, FrameOf(tree.pxyd[..], tree.letree[1], b, aretmx, n), j);
    }
  }

  lemma LeafOf(tree: Quadtree, j: int)
    requires IsLeaf(GroveOf(tree), j)
    ensures j in tree.S.geo && 1 <= j < tree.letree.Length && tree.letree[j].s0 <= 0
  {
  }

  lemma ChosenLeaves(g: Grove, rect: Box, D: seq<int>)
    requires forall j :: j in D <==> Chosen(g, rect, j)
    ensures forall j | j in D :: IsLeaf(g, j)
  {
    hide IsLeaf, InRect;
  }

  lemma LinedKept(E: Edges, E': Edges)
    requires LinesKept(E, E') && forall i | i in E :: E[i].line > 0
    ensures Tedela.Lined(E')
  {
  }

  /** A mesh of at least one leaf has an edge off the lines. */
  lemma EdgeOff(tree: Quadtree, n: nat, E0: Edges, E: Edges, M: seq<Tri>, D: seq<int>, nutr: seq<int>, ts: seq<Tri3>,
      own: seq<int>, rect: Box)
    requires Ready(tree, rect, n) && MeshInv(E, M) && Grows(E0, E) && LinesKept(E0, E) && D != []
    requires Laid(GroveOf(tree), E, M, D, nutr, ts, own) && RunsAll(GroveOf(tree), D, ts)
    requires (forall i | i in E0 :: E0[i].st2 <= n) && forall j | j in D :: IsLeaf(GroveOf(tree), j)
    ensures Tedela.OffLines(E)
  {
    hide *;
    var g, j := GroveOf(tree), D[0];
    ReadyParts(tree, rect, n);
    PlantedParts(tree);
    ReadyAbove(tree, rect, n);
    LeafIndex(g, j);
    var x, y := FirstSide(g, tree.nbsomm, j);
    RunsAt(g, D, ts, j, 1, x, y);
    LaidParts(g, E, M, D, nutr, ts, own);
    var i := SideFound(E, M, nutr, ts, x, y);
    OffLine(E0, E, i, n);
  }

  lemma ReadyAbove(tree: Quadtree, rect: Box, n: nat)
    requires Ready(tree, rect, n)
    ensures forall v | v in GroveOf(tree).S.pt :: v > n
  {
    hide Planted, Even;
  }

  /** The first half of the first side of a leaf. */
  lemma FirstSide(g: Grove, nb: int, j: int) returns (x: int, y: int)
    requires GroveOk(g, nb) && IsLeaf(g, j)
    ensures SideRun(g, j, 1, x, y) && x in g.S.pt && y in g.S.pt
  {
    LeafCorners(g, nb, j);
    MidPlace(g, nb, j, 1);
    hide GroveOk, MidNo, Middle;
    x := g.T[j].v1;
    y := if MidNo(g, j, 1) == 0 then g.T[j].v2 else MidNo(g, j, 1);
  }

  /** The edge of a side that a triangle runs along. */
  lemma SideFound(E: Edges, M: seq<Tri>, nutr: seq<int>, ts: seq<Tri3>, x: int, y: int) returns (i: int)
    requires MeshInv(E, M) && Tiled(E, M, nutr, ts) && RunsSide(ts, x, y)
    ensures i in E && ((E[i].st1 == x && E[i].st2 == y) || (E[i].st1 == y && E[i].st2 == x))
  {
    var k :| 0 <= k < |ts| && SideAt(ts[k], x, y);
    assert Active(M, nutr[k]) && Verts(E, M[nutr[k]]) == ts[k];
    var t := M[nutr[k]];
    assert TriOk(E, M, nutr[k]);
    i := if x == Start(E, t.a1) && y == End(E, t.a1) then Abs(t.a1)
         else if x == Start(E, t.a2) && y == End(E, t.a2) then Abs(t.a2) else Abs(t.a3);
    hide MeshInv, Tiled;
  }

  lemma OffLine(E0: Edges, E: Edges, i: int, n: int)
    requires Grows(E0, E) && LinesKept(E0, E) && i in E && E[i].st2 > n && forall k | k in E0 :: E0[k].st2 <= n
    ensures Tedela.OffLines(E)
  {
    assert i !in E0;
    assert E[i].line == 0;
  }

  /** `aisoar_` and `tedela_` on a mesh of positive triangles without common inner points.  past: there
      is no edge off the lines, and `tedela_` starts from a column past the table. */
  method Relax(table: Table, noartr: array<Tri>, pxyd: seq<Point>) returns (past: bool, modifs: nat)
    requires Sound(table, noartr) && Tedela.Lined(table.Live())
    requires Embedded(pxyd, Delaunay.Shape(table.Live(), noartr[..]))
    modifies table`n1soar, table`plan, table.nosoar, table.noarst, noartr
    ensures past <==> !Tedela.OffLines(old(table.Live()))
    ensures !past ==> Sound(table, noartr) && Tedela.Lined(table.Live())
                      && Embedded(pxyd, Delaunay.Shape(table.Live(), noartr[..]))
    ensures !past ==> TotalArea(pxyd, Delaunay.Shape(table.Live(), noartr[..]))
                      == TotalArea(pxyd, old(Delaunay.Shape(table.Live(), noartr[..])))
    ensures !past && |old(table.Live())| < table.mxsoar - table.mxsomm ==>
              (Guard.Lone(pxyd, old(Delaunay.Shape(table.Live(), noartr[..]))) ==>
                Tedela.Calm(pxyd, table.Live(), noartr[..])
                && Tedela.LocallyDelaunay(pxyd, table.Live(), noartr[..]))
  {
    hide *;
    ghost var E := table.Live();
    modifs := 0;
    var na;
    ghost var ch;
    na, past, ch := Tedela.Aisoar(table, noartr, pxyd);
    if past {
      return;
    }
    SoundMesh(table, noartr);
    Tedela.SameMesh(E, table.Live(), noartr[..]);
    Tedela.LinedSame(E, table.Live());
    SameSize(E, table.Live());
    RunFrom(table, noartr, pxyd, na, ch);
    ghost var trace, radii, full;
    modifs, trace, radii, full := Tedela.Tedela(table, noartr, pxyd, na, ch);
  }

  lemma SoundMesh(table: Table, noartr: array<Tri>)
    requires Sound(table, noartr)
    ensures MeshInv(table.Live(), noartr[..])
  {
    hide TableInv, LiveEdges, MeshInv, Bounded, Anchored;
  }

  lemma SameSize(E: Edges, E': Edges)
    requires Tedela.SameEdges(E, E')
    ensures |E'| == |E|
  {
    assert |E'| == |E'.Keys| && |E| == |E.Keys|;
  }

  lemma RunFrom(table: Table, noartr: array<Tri>, P: seq<Point>, na: int, ch: seq<int>)
    requires Sound(table, noartr) && Embedded(P, Delaunay.Shape(table.Live(), noartr[..]))
    requires Tedela.IsChain(table.Live(), na, ch) && Tedela.Lined(table.Live())
    requires Tedela.Tidy(P, table.Live(), noartr[..], ch, {})
    ensures Tedela.Run(table, noartr, P, na, ch, {})
  {
    hide Sound, Embedded, Tedela.IsChain, Tedela.Lined, Tedela.Tidy, Delaunay.Shape;
  }
}
