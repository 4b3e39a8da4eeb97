/** `tetrte_`: the leaves of the tree that meet the rectangle, triangulated one after the other. */
module Tetrte {
  import opened Lists
  import opened Geometry
  import opened Delaunay
  import opened EdgeTable
  import opened Mesh
  import opened Exchange
  import opened Contours
  import opened Triangles
  import opened Patch
  import opened Templates
  import opened Tree
  import Lattice
  import opened Splitting
  import opened Leaves
  import opened Quadtree
  import opened Teajte
  import opened Tehote
  import opened Star
  import opened Areas
  import opened Leafmesh
  import opened Regions
  import opened Tiling
  import opened Trpite
  import opened Mosaic
  import opened Paving

  // ---------------------------------------------------------------- the middles

  ghost function GroveOf(tree: Quadtree): (r: Grove)
    reads tree, tree.letree, tree.pxyd
  {
    Grove(tree.letree[..], tree.S, tree.pxyd[..], tree.home)
  }

  /** The tree is sound, its vertices are no points and numbered up to nb. */
  ghost predicate Planted(tree: Quadtree)
    reads tree, tree.letree, tree.pxyd
  {
    tree.Valid() && Numbers(GroveOf(tree), tree.nbsomm) && forall v | v in tree.S.pt :: v !in tree.home
  }

  lemma PlantedOk(T: seq<Te>, S: Shape, P: seq<Point>, nb: int, free: seq<int>, home: map<int, int>)
    requires TreeOk(T, S, P, nb, free, home) && forall v | v in S.pt :: v !in home
    ensures GroveOk(Grove(T, S, P, home), nb)
  {
    hide Woven, Named, Numbered, Splitting.Placed, FreeOk, Stocked;
  }

  /** What `tetrte_` finds with `n1trva_` is the middle of the side. */
  method Milieu(tree: Quadtree, nte: int, l: int) returns (m: int)
    requires tree.Valid() && nte in tree.S.geo && 1 <= nte <= tree.mxtree && tree.letree[nte].s0 <= 0 && 1 <= l <= 3
    ensures m == MidNo(GroveOf(tree), nte, l)
  {
    hide Woven, Named, Numbered, Splitting.Placed, FreeOk, Stocked, Lattice.Mid;
    ghost var T := tree.letree[..];
    m := 0;
    var noteva, niveau := N1trva(tree.letree, nte, l, tree.S);
    MidShared(T, tree.S, tree.nbsomm, nte, l);
    if noteva > 0 {
      NodeAt(T, tree.S, noteva);
      if tree.letree[noteva].s0 > 0 {
        var nsot := tree.letree[noteva].s0;
        m := Tree.Som(tree.letree[nsot], Lattice.Pre(l));
      }
    } else {
      NoMirror(T, tree.S, nte, l);
    }
  }

  lemma MidPlace(g: Grove, nb: int, j: int, l: int)
    requires GroveOk(g, nb) && IsLeaf(g, j) && 1 <= l <= 3
    ensures 0 <= j < |g.T| && MiddleOf(g, MidNo(g, j, l), Tree.Som(g.T[j], l), Tree.Som(g.T[j], Lattice.Suiv(l)))
  {
    hide Woven, Named, Numbered, Splitting.Placed, Stocked, Lattice.Mid, Middle, PointOf;
    MidShared(g.T, g.S, nb, j, l);
    if Lattice.Mid(g.S.geo[j], l) in g.S.num {
      SharedPlace(g.T, g.S, g.P, nb, j, l);
      NumberedAt(g.T, g.S, nb, Lattice.Mid(g.S.geo[j], l));
    }
  }

  lemma NumberedAt(T: seq<Te>, S: Shape, nb: int, p: Lattice.Pt)
    requires Numbered(T, S, nb) && p in S.num
    ensures PtOk(T, S, nb, p)
  {
  }

  lemma LeafMiddles(g: Grove, nb: int, j: int)
    requires GroveOk(g, nb) && IsLeaf(g, j)
    ensures Middles(g, j, MidNo(g, j, 1), MidNo(g, j, 2), MidNo(g, j, 3))
  {
    hide *;
    MidPlace(g, nb, j, 1);
    MidPlace(g, nb, j, 2);
    MidPlace(g, nb, j, 3);
    MiddlesFrom(g, j, MidNo(g, j, 1), MidNo(g, j, 2), MidNo(g, j, 3));
  }

  lemma MiddlesFrom(g: Grove, j: int, m1: int, m2: int, m3: int)
    requires 0 <= j < |g.T| && MiddleOf(g, m1, Tree.Som(g.T[j], 1), Tree.Som(g.T[j], Lattice.Suiv(1)))
    requires MiddleOf(g, m2, Tree.Som(g.T[j], 2), Tree.Som(g.T[j], Lattice.Suiv(2)))
    requires MiddleOf(g, m3, Tree.Som(g.T[j], 3), Tree.Som(g.T[j], Lattice.Suiv(3)))
    ensures Middles(g, j, m1, m2, m3)
  {
    hide MiddleOf;
  }

  // ---------------------------------------------------------------- one leaf

  /** The leaves D are meshed: by the triangles nutr with the corners ts, triangle k in leaf own[k]. */
  ghost predicate Paved(table: Table, store: Store, g: Grove, D: seq<int>, nutr: seq<int>, ts: seq<Tri3>,
      own: seq<int>)
    reads table, table.nosoar, table.noarst, store, store.noartr
  {
    && Sound(table, store.noartr) && store.Valid()
    && Laid(g, table.Live(), store.noartr[..], D, nutr, ts, own) && Paves(g, D, ts)
    && RunsAll(g, D, ts) && PointsIn(g, D, ts)
  }

  /** No point of leaf j lies on a line through two others of its points, corners and middles. */
  ghost predicate ScatteredAt(g: Grove, j: int) {
    0 <= j < |g.T| && ScatteredLeaf(g.P, g.T[j], MidNo(g, j, 1), MidNo(g, j, 2), MidNo(g, j, 3))
  }

  lemma ScatteredOf(g: Grove, j: int)
    requires ScatteredAt(g, j)
    ensures 0 <= j < |g.T| && ScatteredLeaf(g.P, g.T[j], MidNo(g, j, 1), MidNo(g, j, 2), MidNo(g, j, 3))
  {
    hide ScatteredLeaf, MidNo;
  }

  /** Leaf nte with its middles and points. */
  method MeshLeaf(table: Table, store: Store, tree: Quadtree, nte: int, ghost D: seq<int>, ghost nutr: seq<int>,
      ghost ts: seq<Tri3>, ghost own: seq<int>)
      returns (ierr: int, lost: bool, ghost nutr': seq<int>, ghost ts': seq<Tri3>)
    requires Planted(tree) && tree.nbsomm <= table.mxsomm && Paved(table, store, GroveOf(tree), D, nutr, ts, own)
    requires nte in tree.S.geo && 1 <= nte <= tree.mxtree && tree.letree[nte].s0 <= 0 && nte !in D
    modifies table`n1soar, table`plan, table.nosoar, table.noarst, store`n1artr, store`vacant, store.noartr
    ensures ierr == 0 || ierr == 1 || ierr == 2
    ensures lost ==> ierr == 0 && !MeshInv(table.Live(), store.noartr[..])
    ensures ierr == 0 && !lost ==>
              Paved(table, store, GroveOf(tree), D + [nte], nutr + nutr', ts + ts', own + Again(nte, |ts'|))
              && LinesKept(old(table.Live()), table.Live()) && Grows(old(table.Live()), table.Live())
    ensures ierr == 0 && !lost && ScatteredAt(GroveOf(tree), nte) ==> Sharp(tree.pxyd[..], ts')
    ensures ierr == 0 && !lost ==> Spare(table.plan) + 21 >= Spare(old(table.plan))
                                   && |store.vacant| + 12 >= |old(store.vacant)|
    ensures Spare(old(table.plan)) >= 21 && |old(store.vacant)| > 12 ==> ierr == 0 && !lost
  {
    hide *;
    ghost var g, nb := GroveOf(tree), tree.nbsomm;
    ghost var E, M := table.Live(), store.noartr[..];
    PlantedParts(tree);
    PavedParts(table, store, g, D, nutr, ts, own);
    LeafFrom(tree, nte);
    var t := tree.letree[nte];
    var m1 := Milieu(tree, nte, 1);
    var m2 := Milieu(tree, nte, 2);
    var m3 := Milieu(tree, nte, 3);
    LeafMiddles(g, nb, nte);
    if ScatteredAt(g, nte) {
      ScatteredOf(g, nte);
    }
    LeafReady(g, nb, nte, m1, m2, m3);
    LeafFits(table, store, tree, nte, D, nutr, ts, own, m1, m2, m3);
    PointsReady(g, nb, E, M, D, nutr, ts, own, nte, table.mxsomm);
    Enough(table.StockOf(), t, m1, m2, m3, |store.vacant|);
    SpareOf(table);
    nutr', ierr, lost, ts' := Ftrte(table, store, tree.pxyd[..], t, m1, m2, m3);
    if ierr == 0 && !lost {
      DrawnFrom(g, M, E, table.Live(), store.noartr[..], nte, m1, m2, m3, nutr', ts');
      LaidNext(g, nb, E, M, table.Live(), store.noartr[..], D, nutr, ts, own, nte, m1, m2, m3, nutr', ts');
      PavesNext(g, D, ts, nte, ts');
      PointsInNext(g, nb, D, ts, nte, ts');
      RunsNext(g, nb, M, E, table.Live(), store.noartr[..], D, ts, nte, nutr', ts');
      PavedFrom(table, store, g, D + [nte], nutr + nutr', ts + ts', own + Again(nte, |ts'|));
    }
  }

  lemma PlantedParts(tree: Quadtree)
    requires Planted(tree)
    ensures tree.Valid() && GroveOk(GroveOf(tree), tree.nbsomm) && Numbers(GroveOf(tree), tree.nbsomm)
    ensures tree.letree.Length == tree.mxtree + 1
  {
    hide TreeOk, GroveOk, Numbers;
    PlantedOk(tree.letree[..], tree.S, tree.pxyd[..], tree.nbsomm, tree.free, tree.home);
  }

  lemma PavedParts(table: Table, store: Store, g: Grove, D: seq<int>, nutr: seq<int>, ts: seq<Tri3>, own: seq<int>)
    requires Paved(table, store, g, D, nutr, ts, own)
    ensures Sound(table, store.noartr) && store.Valid() && MeshInv(table.Live(), store.noartr[..])
    ensures Laid(g, table.Live(), store.noartr[..], D, nutr, ts, own) && Paves(g, D, ts) && RunsAll(g, D, ts)
    ensures PointsIn(g, D, ts)
  {
    hide Laid, Paves, MeshInv, RunsAll, PointsIn;
  }

  lemma PavedFrom(table: Table, store: Store, g: Grove, D: seq<int>, nutr: seq<int>, ts: seq<Tri3>, own: seq<int>)
    requires Sound(table, store.noartr) && store.Valid()
    requires Laid(g, table.Live(), store.noartr[..], D, nutr, ts, own) && Paves(g, D, ts) && RunsAll(g, D, ts)
    requires PointsIn(g, D, ts)
    ensures Paved(table, store, g, D, nutr, ts, own)
  {
    hide Sound, Laid, Paves, RunsAll, PointsIn;
  }

  lemma LeafFrom(tree: Quadtree, j: int)
    requires tree.letree.Length == tree.mxtree + 1 && j in tree.S.geo && 1 <= j <= tree.mxtree
    requires tree.letree[j].s0 <= 0
    ensures IsLeaf(GroveOf(tree), j) && GroveOf(tree).T[j] == tree.letree[j] && GroveOf(tree).P == tree.pxyd[..]
    ensures |GroveOf(tree).T| == tree.mxtree + 1
  {
  }

  /** Each entry of the template of the leaf finds room. */
  lemma LeafFits(table: Table, store: Store, tree: Quadtree, j: int, D: seq<int>, nutr: seq<int>, ts: seq<Tri3>,
      own: seq<int>, m1: int, m2: int, m3: int)
    requires Planted(tree) && tree.nbsomm <= table.mxsomm && Paved(table, store, GroveOf(tree), D, nutr, ts, own)
    requires IsLeaf(GroveOf(tree), j) && j !in D && Middles(GroveOf(tree), j, m1, m2, m3)
    ensures 0 <= j < |GroveOf(tree).T|
    ensures var t := GroveOf(tree).T[j]; Fitting(table, store, TemplateOf(t.v1, t.v2, t.v3, m1, m2, m3))
  {
    hide *;
    var g, nb := GroveOf(tree), tree.nbsomm;
    PlantedParts(tree);
    PavedParts(table, store, g, D, nutr, ts, own);
    LeafTemplate(g, nb, j, m1, m2, m3);
    var t := g.T[j];
    var tp := TemplateOf(t.v1, t.v2, t.v3, m1, m2, m3);
    forall e {:trigger tp.entries[e]} | 0 <= e < |tp.entries|
      ensures tp.entries[e].u <= table.mxsomm && tp.entries[e].v <= table.mxsomm
        && RoomFor(table.Live(), store.noartr[..], tp.entries[e])
    {
      TemplateRoom(g, nb, table.Live(), store.noartr[..], D, nutr, ts, own, j, m1, m2, m3, e);
    }
    FittingFrom(table, store, tp);
  }

  lemma FittingFrom(table: Table, store: Store, tp: Template)
    requires Sound(table, store.noartr) && store.Valid() && Fits(tp) && 1 <= |tp.tris| <= 4
    requires forall e {:trigger tp.entries[e]} | 0 <= e < |tp.entries| ::
      tp.entries[e].u <= table.mxsomm && tp.entries[e].v <= table.mxsomm
      && RoomFor(table.Live(), store.noartr[..], tp.entries[e])
    ensures Fitting(table, store, tp)
  {
    hide Sound, Fits, RoomFor;
  }

  /** No leaf takes more than 21 columns and 12 triangles. */
  lemma Enough(s: Stock, t: Te, m1: int, m2: int, m3: int, vacant: nat)
    ensures s.spare >= 21 && vacant > 12 ==> LeafAmple(s, t, m1, m2, m3, vacant)
    ensures Parts(m1, m2, m3) <= 4 && PointCount(t) <= 4
  {
  }

  lemma SpareOf(table: Table)
    ensures table.StockOf().spare == Spare(table.plan)
  {
  }

  lemma DrawnFrom(g: Grove, M: seq<Tri>, E: Edges, E': Edges, M': seq<Tri>, j: int, m1: int, m2: int, m3: int,
      nutr: seq<int>, ts: seq<Tri3>)
    requires 0 <= j < |g.T| && Tiled(E', M', nutr, ts) && OnlyLeaf(M, M', [], nutr) && Grows(E, E')
    requires LeafMeshed(g.P, g.T[j], m1, m2, m3, ts)
    requires var t := g.T[j]; Lies(g.P, CornersOfTemplate(TemplateOf(t.v1, t.v2, t.v3, m1, m2, m3)), ts, t)
    ensures LeafDrawn(g, M, E, E', M', j, m1, m2, m3, nutr, ts)
  {
    hide Tiled, OnlyLeaf, Grows, Lies, NoneNegative, Covers, TemplateOf, CornersOfTemplate;
  }

  // ---------------------------------------------------------------- all leaves

  /** Leaf j meets the rectangle. */
  ghost predicate Chosen(g: Grove, rect: Box, j: int) {
    IsLeaf(g, j) && InRect(g.P, rect, g.T[j])
  }

  /** The edges entered so far have no triangle. */
  ghost predicate NoTriangles(E: Edges) {
    forall i | i in E :: i > 0 && 0 < E[i].st1 < E[i].st2 && E[i].tr1 <= 0 && E[i].tr2 <= 0
  }

  lemma EmptyMesh(E: Edges, M: seq<Tri>)
    requires NoTriangles(E) && forall t :: !Active(M, t)
    ensures MeshInv(E, M)
  {
  }

  /** D are the leaves of V that meet the rectangle, each once. */
  ghost predicate Picked(g: Grove, rect: Box, V: set<int>, D: seq<int>) {
    Unique(D) && forall j :: j in D <==> j in V && Chosen(g, rect, j)
  }

  lemma PickedNone(g: Grove, rect: Box)
    ensures Picked(g, rect, {}, [])
  {
  }

  lemma PickedNext(g: Grove, rect: Box, V: set<int>, D: seq<int>, j: int)
    requires Picked(g, rect, V, D) && j !in V
    ensures j !in D
    ensures Chosen(g, rect, j) ==> Picked(g, rect, V + {j}, D + [j])
    ensures !Chosen(g, rect, j) ==> Picked(g, rect, V + {j}, D)
  {
    hide Chosen;
    if Chosen(g, rect, j) {
      JoinUnique(D, [j]);
      forall i ensures i in D + [j] <==> i in V + {j} && Chosen(g, rect, i) {
      }
    }
  }

  /** There are no more leaves than columns of the tree. */
  lemma PickedSize(g: Grove, rect: Box, V: set<int>, D: seq<int>)
    requires Picked(g, rect, V, D) && |g.T| > 0
    ensures |D| <= |g.T| - 1
  {
    var r := seq(|g.T| - 1, k => k + 1);
    forall i | i in D ensures i in r {
      assert Chosen(g, rect, i);
      assert r[i - 1] == i;
    }
    hide Unique;
    Pigeons(D, r);
  }

  lemma PickedAll(g: Grove, rect: Box, V: set<int>, D: seq<int>)
    requires Picked(g, rect, V, D) && forall j | j in g.S.geo :: j in V
    ensures Unique(D) && forall j :: j in D <==> Chosen(g, rect, j)
  {
    hide InRect;
  }

  lemma AllSwept(T: seq<Te>, S: Shape, P: seq<Point>, nb: int, free: seq<int>, home: map<int, int>, V: set<int>)
    requires TreeOk(T, S, P, nb, free, home) && Swept(T, S, V, [])
    ensures forall j | j in S.geo :: j in V
  {
    hide Swept, Named, Numbered, Splitting.Placed, FreeOk, Stocked;
    forall j | j in S.geo ensures j in V {
      SweptAll(T, S, V, j);
    }
  }

  lemma SweptBegin(T: seq<Te>, S: Shape, P: seq<Point>, nb: int, free: seq<int>, home: map<int, int>)
    requires TreeOk(T, S, P, nb, free, home)
    ensures Swept(T, S, {}, [1])
  {
    SweptStart(T, S);
  }

  lemma ChosenFrom(tree: Quadtree, rect: Box, j: int)
    requires tree.letree.Length == tree.mxtree + 1 && j in tree.S.geo && 1 <= j <= tree.mxtree
    ensures Chosen(GroveOf(tree), rect, j) <==> tree.letree[j].s0 <= 0 && InRect(tree.pxyd[..], rect, tree.letree[j])
  {
    hide InRect;
  }

  /** `tetrte_`: the leaves that meet the rectangle, in the order of a walk through the tree by levels. */
  method Tetrte(table: Table, mxartr: nat, tree: Quadtree, rect: Box, laqueu: array<int>)
      returns (store: Store, ierr: int, lost: bool, ghost D: seq<int>, ghost nutr: seq<int>, ghost ts: seq<Tri3>,
      ghost own: seq<int>)
    requires Planted(tree) && tree.nbsomm <= table.mxsomm && mxartr > 0 && laqueu.Length > 1 && laqueu != table.noarst
    requires table.Valid() && Bounded(table.Live(), table.mxsomm) && Anchored(table.Live(), table.noarst[..])
      && NoTriangles(table.Live())
    modifies table`n1soar, table`plan, table.nosoar, table.noarst, laqueu
    ensures fresh(store) && fresh(store.noartr) && store.noartr.Length == mxartr + 1
    ensures ierr == 0 || ierr == 1 || ierr == 2 || ierr == 5
    ensures ierr == 5 ==> laqueu.Length - 1 < tree.mxtree
    ensures Spare(old(table.plan)) >= 21 * tree.mxtree && mxartr > 12 * tree.mxtree ==>
              ierr != 1 && ierr != 2 && !lost
    ensures lost ==> ierr == 0 && !MeshInv(table.Live(), store.noartr[..])
    ensures ierr == 0 && !lost ==> Paved(table, store, GroveOf(tree), D, nutr, ts, own)
                                   && LinesKept(old(table.Live()), table.Live())
                                     && Grows(old(table.Live()), table.Live())
    ensures ierr == 0 && !lost && (forall j | j in D :: ScatteredAt(GroveOf(tree), j)) ==> Sharp(tree.pxyd[..], ts)
    ensures ierr == 0 && !lost ==> Unique(D) && forall j :: j in D <==> Chosen(GroveOf(tree), rect, j)
  {
    hide *;
    ghost var g := GroveOf(tree);
    store := new Store(mxartr);
    ierr, lost, D, nutr, ts, own := 0, false, [], [], [], [];
    PavedStart(table, store, g);
    LinesNone(table.Live());
    GrowsNone(table.Live());
    SharpNone(g.P);
    PlantedTree(tree);
    GroveParts(tree);
    ghost var V: set<int>, Q: seq<int> := {}, [1];
    var lequeu, lhqueu := 1, 0;
    laqueu[1] := 1;
    RingOne(laqueu[..]);
    SweptBegin(tree.letree[..], tree.S, tree.pxyd[..], tree.nbsomm, tree.free, tree.home);
    PickedNone(g, rect);
    while lhqueu >= 0
      invariant ierr == 0 && !lost && Planted(tree) && GroveOf(tree) == g && Paved(table, store, g, D, nutr, ts, own)
      invariant Swept(tree.letree[..], tree.S, V, Q) && Ring(laqueu[..], lequeu, lhqueu, Q) && |Q| == lhqueu + 1
      invariant LinesKept(old(table.Live()), table.Live()) && Grows(old(table.Live()), table.Live())
      invariant (forall j | j in D :: ScatteredAt(g, j)) ==> Sharp(g.P, ts)
      invariant Picked(g, rect, V, D) && V <= Columns(tree.mxtree)
      invariant Spare(table.plan) + 21 * |D| >= Spare(old(table.plan)) && |store.vacant| + 12 * |D| >= mxartr
      decreases Columns(tree.mxtree) - V
    {
      PlantedTree(tree);
      GroveParts(tree);
      RingPop(laqueu[..], lequeu, lhqueu, Q);
      var i := Wrap(lequeu - lhqueu, laqueu.Length - 1);
      var nte := laqueu[i];
      lhqueu := lhqueu - 1;
      ghost var q := Q[1..];
      assert Q == [nte] + q;
      SweptCurrent(tree.letree[..], tree.S, V, q, nte);
      TreeIndex(tree.letree[..], tree.S, tree.pxyd[..], tree.nbsomm, tree.free, tree.home, nte);
      ghost var V0 := V;
      V := V + {nte};
      RingSize(laqueu[..], lequeu, lhqueu, q);
      ChosenFrom(tree, rect, nte);
      PickedNext(g, rect, V0, D, nte);
      if tree.letree[nte].s0 > 0 {
        SweptKids(tree.letree[..], tree.S, tree.pxyd[..], tree.nbsomm, tree.free, tree.home, V0, q, nte);
        QueueFits(tree.letree[..], tree.S, tree.pxyd[..], tree.nbsomm, tree.free, tree.home, V, q, nte, tree.mxtree);
        if lhqueu + 4 >= laqueu.Length - 1 {
          ierr := 5;
          return;
        }
        lequeu, lhqueu := PushKids(laqueu, lequeu, lhqueu, tree.letree[nte], q);
        Q := q + Kids(tree.letree[nte]);
        RingSize(laqueu[..], lequeu, lhqueu, Q);
      } else {
        SweptNoKids(tree.letree[..], tree.S, V0, q, nte);
        Q := q;
        if InRect(tree.pxyd[..], rect, tree.letree[nte]) {
          PickedSize(g, rect, V, D + [nte]);
          ghost var nutr', ts', E := [], [], table.Live();
          ierr, lost, nutr', ts' := MeshLeaf(table, store, tree, nte, D, nutr, ts, own);
          if ierr != 0 || lost {
            return;
          }
          SharpJoin(g, D, ts, nte, ts');
          LinesTwice(old(table.Live()), E, table.Live());
          GrowsTwice(old(table.Live()), E, table.Live());
          D, nutr, ts, own := D + [nte], nutr + nutr', ts + ts', own + Again(nte, |ts'|);
        }
      }
      ColumnsKept(tree.letree[..], tree.S, tree.pxyd[..], tree.nbsomm, tree.free, tree.home, V, Q, tree.mxtree);
    }
    assert Q == [];
    PlantedTree(tree);
    GroveParts(tree);
    AllSwept(tree.letree[..], tree.S, tree.pxyd[..], tree.nbsomm, tree.free, tree.home, V);
    PickedAll(g, rect, V, D);
  }

  lemma SharpNone(P: seq<Point>)
    ensures Sharp(P, [])
  {
  }

  lemma SharpJoin(g: Grove, D: seq<int>, ts: seq<Tri3>, j: int, ts': seq<Tri3>)
    requires (forall i | i in D :: ScatteredAt(g, i)) ==> Sharp(g.P, ts)
    requires ScatteredAt(g, j) ==> Sharp(g.P, ts')
    ensures (forall i | i in D + [j] :: ScatteredAt(g, i)) ==> Sharp(g.P, ts + ts')
  {
    hide ScatteredAt, Area;
    if forall i | i in D + [j] :: ScatteredAt(g, i) {
      assert (D + [j])[|D|] == j;
      assert forall i | i in D :: i in D + [j];
    }
  }

  lemma PavedStart(table: Table, store: Store, g: Grove)
    requires table.Valid() && Bounded(table.Live(), table.mxsomm) && Anchored(table.Live(), table.noarst[..])
      && NoTriangles(table.Live())
    requires store.Valid() && store.noartr.Length > 0 && forall t | 1 <= t < store.noartr.Length ::
      !Active(store.noartr[..], t)
    ensures Paved(table, store, g, [], [], [], [])
  {
    hide TableInv, LiveEdges, MeshInv, Bounded, Anchored, NoTriangles, Paves, Laid, Vacancy, RunsAll, PointsIn;
    var E, M := table.Live(), store.noartr[..];
    forall t ensures !Active(M, t) {
    }
    EmptyMesh(E, M);
    LaidNone(g, E, M);
    PavesNone(g);
    RunsNone(g);
    PointsInNone(g);
  }

  lemma GroveParts(tree: Quadtree)
    ensures GroveOf(tree).T == tree.letree[..] && GroveOf(tree).S == tree.S && GroveOf(tree).P == tree.pxyd[..]
  {
  }

  lemma PlantedTree(tree: Quadtree)
    requires Planted(tree)
    ensures tree.Valid() && tree.letree.Length == tree.mxtree + 1
    ensures TreeOk(tree.letree[..], tree.S, tree.pxyd[..], tree.nbsomm, tree.free, tree.home)
  {
    hide TreeOk;
  }

  lemma TreeIndex(T: seq<Te>, S: Shape, P: seq<Point>, nb: int, free: seq<int>, home: map<int, int>, j: int)
    requires TreeOk(T, S, P, nb, free, home) && j in S.geo
    ensures 1 <= j < |T|
  {
    hide Named, Numbered, Splitting.Placed, FreeOk, Stocked;
    NodeIndex(T, S, j);
  }

  /** The mesh is the triangulation that `tedela_` asks for exactly when no triangle is flat. */
  lemma PavedEmbedded(g: Grove, E: Edges, M: seq<Tri>, D: seq<int>, nutr: seq<int>, ts: seq<Tri3>, own: seq<int>)
    requires MeshInv(E, M) && Laid(g, E, M, D, nutr, ts, own)
    ensures Embedded(g.P, Delaunay.Shape(E, M)) <==> Sharp(g.P, ts)
  {
    hide *;
    LaidParts(g, E, M, D, nutr, ts, own);
    ShapeTiled(E, M, nutr, ts);
    if Embedded(g.P, Delaunay.Shape(E, M)) {
      EmbeddedSharp(g.P, Delaunay.Shape(E, M), nutr, ts);
    }
    if Sharp(g.P, ts) {
      SharpEmbedded(g.P, Delaunay.Shape(E, M), nutr, ts);
    }
  }

  /** G has the triangle ts[k] in column nutr[k], and no others. */
  ghost predicate Arrayed(G: seq<Corners>, nutr: seq<int>, ts: seq<Tri3>) {
    && |nutr| == |ts|
    && (forall k {:trigger nutr[k]} | 0 <= k < |nutr| :: 0 <= nutr[k] < |G| && G[nutr[k]] == ts[k] != (0, 0, 0))
    && (forall t | 0 <= t < |G| && G[t] != (0, 0, 0) :: t in nutr)
  }

  lemma ShapeTiled(E: Edges, M: seq<Tri>, nutr: seq<int>, ts: seq<Tri3>)
    requires MeshInv(E, M) && Tiled(E, M, nutr, ts) && forall t | Active(M, t) :: t in nutr
    ensures Arrayed(Delaunay.Shape(E, M), nutr, ts)
  {
    var G := Delaunay.Shape(E, M);
    forall k | 0 <= k < |nutr| ensures 0 <= nutr[k] < |G| && G[nutr[k]] == ts[k] != (0, 0, 0) {
      assert Active(M, nutr[k]) && Verts(E, M[nutr[k]]) == ts[k];
      PositiveStart(E, M, nutr[k]);
    }
    hide MeshInv;
  }

  lemma PositiveStart(E: Edges, M: seq<Tri>, t: int)
    requires MeshInv(E, M) && Active(M, t)
    ensures Verts(E, M[t]).0 > 0
  {
    assert TriOk(E, M, t) && EdgeOk(E, M, Abs(M[t].a1));
    hide MeshInv;
  }

  lemma EmbeddedSharp(P: seq<Point>, G: seq<Corners>, nutr: seq<int>, ts: seq<Tri3>)
    requires Arrayed(G, nutr, ts) && Embedded(P, G)
    ensures Sharp(P, ts)
  {
    hide Area, Apart;
    forall k | 0 <= k < |ts| ensures AreaOf(P, ts[k]) > 0.0 {
      assert G[nutr[k]] == ts[k];
    }
  }

  lemma SharpEmbedded(P: seq<Point>, G: seq<Corners>, nutr: seq<int>, ts: seq<Tri3>)
    requires Arrayed(G, nutr, ts) && ApartAll(P, ts) && Sharp(P, ts)
    ensures Embedded(P, G)
  {
    hide Area, Apart;
    forall t | 0 <= t < |G| && G[t] != (0, 0, 0) ensures AreaOf(P, G[t]) > 0.0 {
      var k :| 0 <= k < |nutr| && nutr[k] == t;
      assert G[nutr[k]] == ts[k];
    }
    forall t, u | 0 <= t < |G| && 0 <= u < |G| && t != u && G[t] != (0, 0, 0) && G[u] != (0, 0, 0)
      ensures Apart(P, G[t], G[u])
    {
      var k :| 0 <= k < |nutr| && nutr[k] == t;
      var l :| 0 <= l < |nutr| && nutr[l] == u;
      assert G[nutr[k]] == ts[k] && G[nutr[l]] == ts[l];
    }
  }
}
