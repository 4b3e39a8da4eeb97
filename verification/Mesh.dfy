/** The triangle mesh: `noartr` (three signed edge numbers per triangle) over the edge table.
    Pure part: the combinatorial invariant and the diagonal exchange. */
module Mesh {
  import opened EdgeTable

  /** A column of `noartr`; a1 == 0 marks a free column whose a2 is the next free one. */
  datatype Tri = Tri(a1: int, a2: int, a3: int)

  type Edges = map<int, Edge>

  function Abs(x: int): (r: nat) {
    if x >= 0 then x else -x
  }

  /** Origin and end of a signed edge number. */
  function Start(E: Edges, a: int): (r: int) {
    if Abs(a) !in E then 0 else if a > 0 then E[a].st1 else E[-a].st2
  }

  function End(E: Edges, a: int): (r: int) {
    Start(E, -a)
  }

  predicate Active(T: seq<Tri>, t: int) {
    1 <= t < |T| && T[t].a1 != 0
  }

  /** Signed edge a is a side of x. */
  predicate Uses(x: Tri, a: int) {
    x.a1 == a || x.a2 == a || x.a3 == a
  }

  /** The sides of x are known edges and run head to tail. */
  predicate Cycle(E: Edges, x: Tri) {
    && Abs(x.a1) in E && Abs(x.a2) in E && Abs(x.a3) in E
    && End(E, x.a1) == Start(E, x.a2) && End(E, x.a2) == Start(E, x.a3) && End(E, x.a3) == Start(E, x.a1)
  }

  predicate Listed(e: Edge, t: int) {
    e.tr1 == t || e.tr2 == t
  }

  /** Edge i lists only active triangles that use it, at most one on each side. */
  predicate EdgeOk(E: Edges, T: seq<Tri>, i: int)
    requires i in E
  {
    && 0 < E[i].st1 < E[i].st2
    && (E[i].tr1 > 0 ==> Active(T, E[i].tr1) && (Uses(T[E[i].tr1], i) || Uses(T[E[i].tr1], -i)))
    && (E[i].tr2 > 0 ==> Active(T, E[i].tr2) && (Uses(T[E[i].tr2], i) || Uses(T[E[i].tr2], -i)))
    && (E[i].tr1 > 0 && E[i].tr2 > 0 ==> !(Uses(T[E[i].tr1], i) && Uses(T[E[i].tr2], i))
                                         && !(Uses(T[E[i].tr1], -i) && Uses(T[E[i].tr2], -i)))
  }

  /** Triangle t is a closed cycle and each of its sides lists it. */
  predicate TriOk(E: Edges, T: seq<Tri>, t: int)
    requires 0 <= t < |T|
  {
    && Cycle(E, T[t])
    && Listed(E[Abs(T[t].a1)], t) && Listed(E[Abs(T[t].a2)], t) && Listed(E[Abs(T[t].a3)], t)
  }

  ghost predicate MeshInv(E: Edges, T: seq<Tri>) {
    && (forall i | i in E :: i > 0 && EdgeOk(E, T, i))
    && (forall t | Active(T, t) :: TriOk(E, T, t))
  }

  /** `index` names the edge of every pair. */
  ghost predicate Keyed(E: Edges, index: map<(int, int), int>) {
    && (forall i | i in E :: (E[i].st1, E[i].st2) in index && index[(E[i].st1, E[i].st2)] == i)
    && (forall q | q in index :: index[q] in E && q == (E[index[q]].st1, E[index[q]].st2))
  }

  /** The vertices of a triangle in its own order. */
  function Verts(E: Edges, x: Tri): (r: (int, int, int)) {
    (Start(E, x.a1), Start(E, x.a2), Start(E, x.a3))
  }

  /** x turned so that its first side is edge i. */
  function Turn(x: Tri, i: int): (r: Tri) {
    if Abs(x.a1) == i then x else if Abs(x.a2) == i then Tri(x.a2, x.a3, x.a1) else Tri(x.a3, x.a1, x.a2)
  }

  // ---------------------------------------------------------------- the exchange of a diagonal

  /** Edge i lies between two triangles. */
  predicate Inner(E: Edges, T: seq<Tri>, i: int) {
    i in E && 0 < E[i].tr1 < |T| && 0 < E[i].tr2 < |T|
  }

  /** The first and the second triangle of edge i, turned to start with it. */
  function First(E: Edges, T: seq<Tri>, i: int): (r: Tri)
    requires Inner(E, T, i)
  {
    Turn(T[E[i].tr1], i)
  }

  function Second(E: Edges, T: seq<Tri>, i: int): (r: Tri)
    requires Inner(E, T, i)
  {
    Turn(T[E[i].tr2], i)
  }

  /** The corners of the two triangles of edge i: (1, 2, 3) is the first, (1, 4, 2) the second. */
  function Quad(E: Edges, T: seq<Tri>, i: int): (r: (int, int, int, int))
    requires Inner(E, T, i)
  {
    var x, y := First(E, T, i), Second(E, T, i);
    (Start(E, x.a1), Start(E, x.a2), Start(E, x.a3), Start(E, y.a3))
  }

  /** t replaced by t' among the triangles of an edge. */
  function Relist(e: Edge, t: int, t': int): (r: Edge) {
    if e.tr1 == t then e.(tr1 := t') else e.(tr2 := t')
  }

  /** The table after exchanging diagonal i of triangles x (number t1) and y (number t2) for edge
      d, whose record is e34. */
  function FlipEdges(E: Edges, i: int, d: int, e34: Edge, t1: int, t2: int, x: Tri, y: Tri): (r: Edges)
    requires Abs(x.a2) in E && Abs(y.a2) in E
  {
    (E[d := e34] - {i})[Abs(x.a2) := Relist(E[Abs(x.a2)], t1, t2)][Abs(y.a2) := Relist(E[Abs(y.a2)], t2, t1)]
  }

  function FlipTris(T: seq<Tri>, a: int, t1: int, t2: int, x: Tri, y: Tri): (r: seq<Tri>)
    requires 0 <= t1 < |T| && 0 <= t2 < |T|
  {
    T[t1 := Tri(y.a2, a, x.a3)][t2 := Tri(x.a2, -a, y.a3)]
  }

  /** The new diagonal d as a side 4-3 of triangle 143. */
  function Side43(e34: Edge, d: int, s3: int): (r: int) {
    if e34.st1 == s3 then -d else d
  }

  /** Turning keeps a cycle a cycle. */
  lemma TurnCycle(E: Edges, x: Tri, i: int)
    requires Cycle(E, x) && (Uses(x, i) || Uses(x, -i)) && i > 0
    ensures var y := Turn(x, i); Cycle(E, y) && Abs(y.a1) == i && Uses(x, y.a1)
    ensures var y := Turn(x, i); y == x || y == Tri(x.a2, x.a3, x.a1) || y == Tri(x.a3, x.a1, x.a2)
  {
  }

  /** A cycle has three corners and three different sides. */
  lemma CornersDiffer(E: Edges, x: Tri)
    requires Cycle(E, x)
    requires 0 < E[Abs(x.a1)].st1 < E[Abs(x.a1)].st2 && 0 < E[Abs(x.a2)].st1 < E[Abs(x.a2)].st2
      && 0 < E[Abs(x.a3)].st1 < E[Abs(x.a3)].st2
    requires 0 !in E
    ensures var (p, q, r) := Verts(E, x); p != q && q != r && r != p && p > 0 && q > 0 && r > 0
    ensures Abs(x.a1) != Abs(x.a2) && Abs(x.a2) != Abs(x.a3) && Abs(x.a3) != Abs(x.a1)
  {
  }

  /** What the invariant says about triangle t seen from its side i. */
  lemma SideFacts(E: Edges, T: seq<Tri>, t: int, i: int)
    requires MeshInv(E, T) && Active(T, t) && (Uses(T[t], i) || Uses(T[t], -i)) && i > 0
    ensures var x := Turn(T[t], i);
            && Cycle(E, x) && Abs(x.a1) == i && Uses(T[t], x.a1)
            && Listed(E[Abs(x.a2)], t) && Listed(E[Abs(x.a3)], t) && Listed(E[i], t)
            && Abs(x.a1) != Abs(x.a2) && Abs(x.a2) != Abs(x.a3) && Abs(x.a3) != Abs(x.a1)
            && var (p, q, r) := Verts(E, x); p != q && q != r && r != p && p > 0 && q > 0 && r > 0
  {
    var x := T[t];
    assert TriOk(E, T, t) && EdgeOk(E, T, Abs(x.a1)) && EdgeOk(E, T, Abs(x.a2)) && EdgeOk(E, T, Abs(x.a3)) && 0 !in E;
    hide MeshInv, TriOk;
    TurnCycle(E, x, i);
    CornersDiffer(E, Turn(x, i));
  }

  /** All the invariant says about the two triangles x, y of diagonal i. */
  ghost predicate Pocket(E: Edges, T: seq<Tri>, i: int, t1: int, t2: int, x: Tri, y: Tri) {
    && i > 0 && 0 !in E && i in E && Active(T, t1) && Active(T, t2) && t1 != t2 && E[i].tr1 == t1 && E[i].tr2 == t2
    && x == Turn(T[t1], i) && y == Turn(T[t2], i)
    && Cycle(E, x) && Cycle(E, y) && Abs(x.a1) == i && y.a1 == -x.a1
    && Listed(E[Abs(x.a2)], t1) && Listed(E[Abs(x.a3)], t1) && Listed(E[Abs(y.a2)], t2) && Listed(E[Abs(y.a3)], t2)
    && Abs(x.a1) != Abs(x.a2) && Abs(x.a2) != Abs(x.a3) && Abs(x.a3) != Abs(x.a1)
    && Abs(y.a1) != Abs(y.a2) && Abs(y.a2) != Abs(y.a3) && Abs(y.a3) != Abs(y.a1)
    && var (s1, s2, s3) := Verts(E, x);
    && Start(E, y.a1) == s2 && Start(E, y.a2) == s1
    && s1 > 0 && s2 > 0 && s3 > 0 && s1 != s2 && s2 != s3 && s3 != s1
    && Start(E, y.a3) > 0 && s1 != Start(E, y.a3) && s2 != Start(E, y.a3)
  }

  lemma PocketOf(E: Edges, T: seq<Tri>, i: int)
    requires MeshInv(E, T) && Inner(E, T, i)
    ensures Pocket(E, T, i, E[i].tr1, E[i].tr2, First(E, T, i), Second(E, T, i))
  {
    assert i > 0 && 0 !in E && EdgeOk(E, T, i);
    hide MeshInv, Turn, Cycle;
    SideFacts(E, T, E[i].tr1, i);
    SideFacts(E, T, E[i].tr2, i);
    PocketEnds(E, First(E, T, i), Second(E, T, i));
  }

  lemma PocketEnds(E: Edges, x: Tri, y: Tri)
    requires Cycle(E, x) && Cycle(E, y) && y.a1 == -x.a1
    ensures Start(E, y.a1) == Start(E, x.a2) && Start(E, y.a2) == Start(E, x.a1)
  {
  }

  /** Edge d, with record e34, can replace diagonal i: it joins the two opposite corners, and no
      triangle uses it. */
  ghost predicate NewDiagonal(E: Edges, i: int, d: int, e34: Edge, t1: int, t2: int, x: Tri, y: Tri) {
    && d > 0 && d != i && (d in E ==> E[d].tr1 <= 0 && E[d].tr2 <= 0 && E[d].st1 == e34.st1 && E[d].st2 == e34.st2)
    && Start(E, x.a3) != Start(E, y.a3) && (e34.st1, e34.st2) == Pair(Start(E, x.a3), Start(E, y.a3))
    && e34.tr1 == t1 && e34.tr2 == t2
  }

  /** The four sides of the quadrangle and the new diagonal are different edges. */
  lemma SidesDiffer(E: Edges, T: seq<Tri>, i: int, d: int, e34: Edge, t1: int, t2: int, x: Tri, y: Tri)
    requires Pocket(E, T, i, t1, t2, x, y) && NewDiagonal(E, i, d, e34, t1, t2, x, y)
    ensures Abs(x.a2) != Abs(y.a2) && Abs(x.a2) != Abs(y.a3) && Abs(x.a3) != Abs(y.a2) && Abs(x.a3) != Abs(y.a3)
    ensures d != Abs(x.a2) && d != Abs(x.a3) && d != Abs(y.a2) && d != Abs(y.a3)
  {
    hide Turn;
  }

  /** Where the record of edge k ends up. */
  lemma FlipLookup(E: Edges, T: seq<Tri>, i: int, d: int, e34: Edge, t1: int, t2: int, x: Tri, y: Tri, k: int)
    requires Pocket(E, T, i, t1, t2, x, y) && NewDiagonal(E, i, d, e34, t1, t2, x, y)
    ensures var E' := FlipEdges(E, i, d, e34, t1, t2, x, y);
            && (k in E' <==> (k in E && k != i) || k == d)
            && d in E' && E'[d] == e34
            && (k in E && k != i && k != d ==>
                  E'[k] == if k == Abs(x.a2) then Relist(E[k], t1, t2)
                    else if k == Abs(y.a2) then Relist(E[k], t2, t1) else E[k])
  {
    SidesDiffer(E, T, i, d, e34, t1, t2, x, y);
    hide Turn, Start, Cycle;
  }

  lemma SameStart(E: Edges, E': Edges, a: int)
    requires Abs(a) in E && Abs(a) in E' && E'[Abs(a)].st1 == E[Abs(a)].st1 && E'[Abs(a)].st2 == E[Abs(a)].st2
    ensures Start(E', a) == Start(E, a) && End(E', a) == End(E, a)
  {
  }

  /** A side other than the diagonals keeps its ends. */
  lemma FlipEnds(E: Edges, T: seq<Tri>, i: int, d: int, e34: Edge, t1: int, t2: int, x: Tri, y: Tri, a: int)
    requires Pocket(E, T, i, t1, t2, x, y) && NewDiagonal(E, i, d, e34, t1, t2, x, y)
    requires Abs(a) in E && Abs(a) != i && Abs(a) != d
    ensures var E' := FlipEdges(E, i, d, e34, t1, t2, x, y);
            Abs(a) in E' && Start(E', a) == Start(E, a) && End(E', a) == End(E, a)
  {
    hide FlipEdges, Turn, Start;
    FlipLookup(E, T, i, d, e34, t1, t2, x, y, Abs(a));
    SameStart(E, FlipEdges(E, i, d, e34, t1, t2, x, y), a);
  }

  lemma FlipCycles(E: Edges, T: seq<Tri>, i: int, d: int, e34: Edge, t1: int, t2: int, x: Tri, y: Tri)
    requires Pocket(E, T, i, t1, t2, x, y) && NewDiagonal(E, i, d, e34, t1, t2, x, y)
    ensures var E', T' := FlipEdges(E, i, d, e34, t1, t2, x, y), FlipTris(T, Side43(e34, d, Start(E, x.a3)), t1, t2, x,
      y);
            && TriOk(E', T', t1) && TriOk(E', T', t2)
            && Verts(E', T'[t1]) == (Start(E, x.a1), Start(E, y.a3), Start(E, x.a3))
            && Verts(E', T'[t2]) == (Start(E, x.a2), Start(E, x.a3), Start(E, y.a3))
  {
    var E' := FlipEdges(E, i, d, e34, t1, t2, x, y);
    SidesDiffer(E, T, i, d, e34, t1, t2, x, y);
    forall a | a in {x.a2, x.a3, y.a2, y.a3}
      ensures Abs(a) in E' && Start(E', a) == Start(E, a) && End(E', a) == End(E, a)
    {
      FlipEnds(E, T, i, d, e34, t1, t2, x, y, a);
      FlipLookup(E, T, i, d, e34, t1, t2, x, y, Abs(a));
    }
    FlipLookup(E, T, i, d, e34, t1, t2, x, y, Abs(x.a2));
    FlipLookup(E, T, i, d, e34, t1, t2, x, y, Abs(x.a3));
    FlipLookup(E, T, i, d, e34, t1, t2, x, y, Abs(y.a2));
    FlipLookup(E, T, i, d, e34, t1, t2, x, y, Abs(y.a3));
    hide Turn, FlipEdges;
  }

  /** A triangle other than the two is untouched. */
  lemma FlipOther(E: Edges, T: seq<Tri>, i: int, d: int, e34: Edge, t1: int, t2: int, x: Tri, y: Tri, t: int)
    requires Pocket(E, T, i, t1, t2, x, y) && NewDiagonal(E, i, d, e34, t1, t2, x, y)
    requires Active(T, t) && t != t1 && t != t2 && TriOk(E, T, t)
    ensures var E', T' := FlipEdges(E, i, d, e34, t1, t2, x, y), FlipTris(T, Side43(e34, d, Start(E, x.a3)), t1, t2, x,
      y);
            T'[t] == T[t] && TriOk(E', T', t) && Verts(E', T'[t]) == Verts(E, T[t])
  {
    hide Turn, FlipEdges, Start;
    var E' := FlipEdges(E, i, d, e34, t1, t2, x, y);
    forall a | a in {T[t].a1, T[t].a2, T[t].a3}
      ensures Abs(a) in E' && Start(E', a) == Start(E, a) && End(E', a) == End(E, a) && Listed(E'[Abs(a)], t)
    {
      FlipEnds(E, T, i, d, e34, t1, t2, x, y, a);
      FlipLookup(E, T, i, d, e34, t1, t2, x, y, Abs(a));
    }
  }

  lemma TurnUses(x: Tri, i: int, a: int)
    ensures Uses(Turn(x, i), a) <==> Uses(x, a)
  {
  }

  /** The sides of the two new triangles. */
  lemma FlipUses(E: Edges, T: seq<Tri>, i: int, d: int, e34: Edge, t1: int, t2: int, x: Tri, y: Tri, t: int, j: int)
    requires Pocket(E, T, i, t1, t2, x, y) && NewDiagonal(E, i, d, e34, t1, t2, x, y)
    requires Active(T, t) && (j == i || j == -i ==> t != t1 && t != t2)
    ensures var s, T' := Side43(e34, d, Start(E, x.a3)), FlipTris(T, Side43(e34, d, Start(E, x.a3)), t1, t2, x, y);
            && Active(T', t)
            && (t != t1 && t != t2 ==> T'[t] == T[t])
            && (t == t1 ==> (Uses(T'[t], j) <==> j == s || j == y.a2 || (Uses(T[t], j) && j != x.a2)))
            && (t == t2 ==> (Uses(T'[t], j) <==> j == -s || j == x.a2 || (Uses(T[t], j) && j != y.a2)))
  {
    TurnUses(T[t], i, j);
    SidesDiffer(E, T, i, d, e34, t1, t2, x, y);
    hide Turn, Start, Cycle;
  }
  /** The new diagonal lists the two new triangles, which run along it in opposite senses. */
  lemma FlipDiagonalOk(E: Edges, T: seq<Tri>, i: int, d: int, e34: Edge, t1: int, t2: int, x: Tri, y: Tri)
    requires Pocket(E, T, i, t1, t2, x, y) && NewDiagonal(E, i, d, e34, t1, t2, x, y)
    ensures d in FlipEdges(E, i, d, e34, t1, t2, x, y)
    ensures EdgeOk(FlipEdges(E, i, d, e34, t1, t2, x, y), FlipTris(T, Side43(e34, d, Start(E, x.a3)), t1, t2, x, y), d)
  {
    hide Turn, Start, FlipEdges;
    SidesDiffer(E, T, i, d, e34, t1, t2, x, y);
    FlipLookup(E, T, i, d, e34, t1, t2, x, y, d);
    forall t, a | t in {t1, t2} && a in {d, -d}
      ensures Uses(FlipTris(T, Side43(e34, d, Start(E, x.a3)), t1, t2, x, y)[t], a) <==>
        a == if t == t1 then Side43(e34, d, Start(E, x.a3)) else -Side43(e34, d, Start(E, x.a3))
    {
      FlipUses(E, T, i, d, e34, t1, t2, x, y, t, a);
      TurnUses(T[t], i, a);
    }
  }

  /** Edges other than the diagonals list the right triangles. */
  lemma FlipEdgeOk(E: Edges, T: seq<Tri>, i: int, d: int, e34: Edge, t1: int, t2: int, x: Tri, y: Tri, j: int)
    requires Pocket(E, T, i, t1, t2, x, y) && NewDiagonal(E, i, d, e34, t1, t2, x, y)
    requires j in E && j > 0 && EdgeOk(E, T, j) && j != i && j != d
    ensures j in FlipEdges(E, i, d, e34, t1, t2, x, y)
    ensures EdgeOk(FlipEdges(E, i, d, e34, t1, t2, x, y), FlipTris(T, Side43(e34, d, Start(E, x.a3)), t1, t2, x, y), j)
  {
    hide Turn, Start, FlipEdges;
    var E', T' := FlipEdges(E, i, d, e34, t1, t2, x, y), FlipTris(T, Side43(e34, d, Start(E, x.a3)), t1, t2, x, y);
    SidesDiffer(E, T, i, d, e34, t1, t2, x, y);
    FlipLookup(E, T, i, d, e34, t1, t2, x, y, j);
    forall t, a | Active(T, t) && a in {j, -j} && t in {t1, t2, E[j].tr1, E[j].tr2}
      ensures Active(T', t) && (t == t1 ==> (Uses(T'[t], a) <==> a == y.a2 || (Uses(T[t], a) && a != x.a2)))
           && (t == t2 ==> (Uses(T'[t], a) <==> a == x.a2 || (Uses(T[t], a) && a != y.a2)))
           && (t != t1 && t != t2 ==> T'[t] == T[t])
           && (t == t1 ==> (Uses(T[t], a) <==> a == x.a2 || a == x.a3))
           && (t == t2 ==> (Uses(T[t], a) <==> a == y.a2 || a == y.a3))
    {
      FlipUses(E, T, i, d, e34, t1, t2, x, y, t, a);
      TurnUses(T[t], i, a);
    }
  }

  /** Exchanging the diagonal keeps the mesh a mesh: triangles 123 and 142 become 143 and 234,
      every other triangle keeps its corners. */
  lemma FlipKeeps(E: Edges, T: seq<Tri>, i: int, d: int, e34: Edge)
    requires MeshInv(E, T) && Inner(E, T, i)
    requires NewDiagonal(E, i, d, e34, E[i].tr1, E[i].tr2, First(E, T, i), Second(E, T, i))
    ensures var x, y, t1, t2 := First(E, T, i), Second(E, T, i), E[i].tr1, E[i].tr2;
            && Abs(x.a2) in E && Abs(y.a2) in E
            && var E', T' := FlipEdges(E, i, d, e34, t1, t2, x, y), FlipTris(T, Side43(e34, d, Start(E, x.a3)), t1, t2,
              x, y);
            && MeshInv(E', T')
            && Active(T', t1) && Active(T', t2) && Active(T, t1) && Active(T, t2) && t1 != t2
            && var (s1, s2, s3, s4) := Quad(E, T, i);
            && Verts(E, x) == (s1, s2, s3) && Verts(E, y) == (s2, s1, s4)
            && Verts(E', T'[t1]) == (s1, s4, s3) && Verts(E', T'[t2]) == (s2, s3, s4)
            && forall t | Active(T, t) && t != t1 && t != t2 :: Verts(E', T'[t]) == Verts(E, T[t])
  {
    var x, y, t1, t2 := First(E, T, i), Second(E, T, i), E[i].tr1, E[i].tr2;
    PocketOf(E, T, i);
    FlipCycles(E, T, i, d, e34, t1, t2, x, y);
    var E', T' := FlipEdges(E, i, d, e34, t1, t2, x, y), FlipTris(T, Side43(e34, d, Start(E, x.a3)), t1, t2, x, y);
    forall t | Active(T, t) && t != t1 && t != t2
      ensures TriOk(E', T', t) && Verts(E', T'[t]) == Verts(E, T[t])
    {
      FlipOther(E, T, i, d, e34, t1, t2, x, y, t);
    }
    forall j | j in E' ensures j > 0 && EdgeOk(E', T', j) {
      FlipLookup(E, T, i, d, e34, t1, t2, x, y, j);
      if j == d {
        FlipDiagonalOk(E, T, i, d, e34, t1, t2, x, y);
      } else {
        FlipEdgeOk(E, T, i, d, e34, t1, t2, x, y, j);
      }
    }
  }

  /** An edge between the opposite corners is no side of the two triangles. */
  lemma NotASide(E: Edges, T: seq<Tri>, i: int, t1: int, t2: int, x: Tri, y: Tri, k: int)
    requires Pocket(E, T, i, t1, t2, x, y) && k in E && k > 0
    requires Start(E, x.a3) != Start(E, y.a3) && (E[k].st1, E[k].st2) == Pair(Start(E, x.a3), Start(E, y.a3))
    ensures !Uses(x, k) && !Uses(x, -k) && !Uses(y, k) && !Uses(y, -k)
  {
    hide Turn;
  }

  lemma NotASideOf(E: Edges, T: seq<Tri>, i: int, k: int)
    requires MeshInv(E, T) && Inner(E, T, i) && k in E && k > 0
    requires var (s1, s2, s3, s4) := Quad(E, T, i); s3 != s4 && (E[k].st1, E[k].st2) == Pair(s3, s4)
    ensures E[i].tr1 != E[i].tr2
    ensures !Uses(T[E[i].tr1], k) && !Uses(T[E[i].tr1], -k) && !Uses(T[E[i].tr2], k) && !Uses(T[E[i].tr2], -k)
  {
    hide MeshInv;
    PocketOf(E, T, i);
    NotASide(E, T, i, E[i].tr1, E[i].tr2, First(E, T, i), Second(E, T, i), k);
    hide Pocket, Turn, Start;
    TurnUses(T[E[i].tr1], i, k);
    TurnUses(T[E[i].tr1], i, -k);
    TurnUses(T[E[i].tr2], i, k);
    TurnUses(T[E[i].tr2], i, -k);
  }

  /** When the pair of opposite corners already has an edge k that lists a triangle, entering the
      two triangles there fails and leaves k listing a triangle that does not use it. */
  lemma OccupiedBreaks(E: Edges, T: seq<Tri>, i: int, k: int)
    requires MeshInv(E, T) && Inner(E, T, i) && k in E
    requires var (s1, s2, s3, s4) := Quad(E, T, i); s3 != s4 && (E[k].st1, E[k].st2) == Pair(s3, s4)
    requires E[k].tr1 > 0 || E[k].tr2 > 0
    ensures Attach(E[k], E[i].tr1, E[i].tr2).1 in {3, 4}
    ensures !MeshInv(E[k := Attach(E[k], E[i].tr1, E[i].tr2).0], T)
  {
    assert k > 0 && EdgeOk(E, T, k);
    NotASideOf(E, T, i, k);
    var E' := E[k := Attach(E[k], E[i].tr1, E[i].tr2).0];
    assert !EdgeOk(E', T, k) by { hide MeshInv, Quad; }
  }
}
