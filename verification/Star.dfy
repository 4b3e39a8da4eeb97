/** `tr3str_`: a triangle gives way to the three triangles of its sides and an inner point. */
module Star {
  import opened Lists
  import opened EdgeTable
  import opened Mesh
  import opened Exchange
  import opened Contours
  import opened Triangles
  import opened Patch
  import opened Templates

  /** No triangle has the vertex s. */
  ghost predicate Lone(E: Edges, s: int) {
    forall i | i in E && (E[i].st1 == s || E[i].st2 == s) :: E[i].tr1 <= 0 && E[i].tr2 <= 0
  }

  /** The edge from a corner s of the triangle to the point np, between the triangles before and after it. */
  ghost predicate Spoke(E: Edges, B: Edges, E': Edges, i: int, s: int, np: int, before: int, after: int) {
    && i > 0 && i in B && i in E'
    && (if i in E then B[i] == E[i] else B[i] == Bare(Pair(s, np)))
    && (B[i].st1, B[i].st2) == Pair(s, np) == (E'[i].st1, E'[i].st2)
    && E'[i].tr1 == before && E'[i].tr2 == after
  }

  /** B is E with the missing ones of the edges i1, i2, i3, none of them with a triangle. */
  ghost predicate Based(E: Edges, B: Edges, i1: int, i2: int, i3: int) {
    && (forall i | i in E :: i in B && B[i] == E[i])
    && (forall i | i in B :: i in E || i == i1 || i == i2 || i == i3)
  }

  lemma BasedMesh(E: Edges, T: seq<Tri>, B: Edges, i1: int, i2: int, i3: int)
    requires MeshInv(E, T) && Based(E, B, i1, i2, i3) && i1 in B && i2 in B && i3 in B
    requires forall i | i in B && i !in E :: i > 0 && 0 < B[i].st1 < B[i].st2 && B[i].tr1 <= 0 && B[i].tr2 <= 0
    ensures MeshInv(B, T)
  {
    forall i | i in B ensures i > 0 && EdgeOk(B, T, i) {
      assert i in E ==> EdgeOk(E, T, i);
    }
    forall t | Active(T, t) ensures TriOk(B, T, t) {
      assert TriOk(E, T, t);
    }
  }

  /** All about the triangle t = (s1, s2, s3) and its spokes i1, i2, i3 to np. */
  ghost predicate Surrounds(E: Edges, T: seq<Tri>, B: Edges, t: int, np: int, i1: int, i2: int, i3: int) {
    && Active(T, t) && Cycle(E, T[t]) && np > 0
    && var x := T[t]; var (s1, s2, s3) := Verts(E, x);
    && s1 > 0 && s2 > 0 && s3 > 0 && s1 != s2 && s2 != s3 && s3 != s1 && np != s1 && np != s2 && np != s3
    && Abs(x.a1) != Abs(x.a2) && Abs(x.a2) != Abs(x.a3) && Abs(x.a3) != Abs(x.a1)
    && x.a1 != 0 && x.a2 != 0 && x.a3 != 0
    && i1 != i2 && i2 != i3 && i3 != i1
    && Abs(x.a1) != i1 && Abs(x.a1) != i2 && Abs(x.a1) != i3 && Abs(x.a2) != i1 && Abs(x.a2) != i2 && Abs(x.a2) != i3
    && Abs(x.a3) != i1 && Abs(x.a3) != i2 && Abs(x.a3) != i3
  }

  /** The triangles of the star: side k of t, then to np and back. */
  function Blade(E: Edges, a: int, i: int, s: int, j: int, r: int): (res: Tri)
    requires i in E && j in E
  {
    Tri(a, Signed(E, j, r), -Signed(E, i, s))
  }

  /** From (E, T) to (E', T'): triangle t has given way to its star around np. */
  ghost predicate Starred(E: Edges, T: seq<Tri>, B: Edges, E': Edges, T': seq<Tri>, t: int, np: int, i1: int, i2: int,
      i3: int, n1: int, n2: int, n3: int) {
    && Based(E, B, i1, i2, i3) && Surrounds(E, T, B, t, np, i1, i2, i3)
    && var x := T[t]; var (s1, s2, s3) := Verts(E, x);
    && Spoke(E, B, E', i1, s1, np, n3, n1) && Spoke(E, B, E', i2, s2, np, n1, n2) && Spoke(E, B, E', i3, s3, np, n2, n3)
    && B[i1].tr1 <= 0 && B[i1].tr2 <= 0 && B[i2].tr1 <= 0 && B[i2].tr2 <= 0 && B[i3].tr1 <= 0 && B[i3].tr2 <= 0
    && E'.Keys == B.Keys
    && Abs(x.a1) in E && Abs(x.a2) in E && Abs(x.a3) in E
    && E'[Abs(x.a1)] == Relist(E[Abs(x.a1)], t, n1) && E'[Abs(x.a2)] == Relist(E[Abs(x.a2)], t, n2)
      && E'[Abs(x.a3)] == Relist(E[Abs(x.a3)], t, n3)
    && (forall i | i in B && i != i1 && i != i2 && i != i3 && i != Abs(x.a1) && i != Abs(x.a2) && i != Abs(x.a3) ::
      E'[i] == B[i])
    && |T'| == |T| && n1 != n2 && n2 != n3 && n3 != n1
    && 1 <= n1 < |T| && 1 <= n2 < |T| && 1 <= n3 < |T| && T[n1].a1 == 0 && T[n2].a1 == 0 && T[n3].a1 == 0
    && T'[n1] == Blade(E', x.a1, i1, s1, i2, s2) && T'[n2] == Blade(E', x.a2, i2, s2, i3, s3)
      && T'[n3] == Blade(E', x.a3, i3, s3, i1, s1)
    && T'[t].a1 == 0 && forall u | 0 <= u < |T| && u != t && u != n1 && u != n2 && u != n3 :: T'[u] == T[u]
  }

  /** The uses a star makes of the edges. */
  ghost function StarUses(E: Edges, x: Tri, np: int, i1: int, i2: int, i3: int, n1: int, n2: int,
      n3: int): (r: seq<Use>)
    requires i1 in E && i2 in E && i3 in E
  {
    [SideUse(x.a1, n1), SideUse(x.a2, n2), SideUse(x.a3, n3), SpokeUse(E, i1, np, n1, n3), SpokeUse(E, i2, np, n2, n1),
      SpokeUse(E, i3, np, n3, n2)]
  }

  function SideUse(a: int, n: int): (r: Use) {
    Use(Abs(a), if a > 0 then 1 else -1, n, -1)
  }

  function SpokeUse(E: Edges, i: int, np: int, after: int, before: int): (r: Use)
    requires i in E
  {
    Use(i, if E[i].st1 == np then 1 else -1, after, before)
  }

  /** The side a of t, once t is taken out, has room for triangle n. */
  lemma SideRoom(E: Edges, T: seq<Tri>, t: int, gone: Tri, a: int, n: int)
    requires MeshInv(E, T) && Active(T, t) && gone.a1 == 0 && Uses(T[t], a) && a != 0
    ensures Abs(a) in E && Listed(E[Abs(a)], t)
    ensures Room(T[t := gone], Drop(E[Abs(a)], t), SideUse(a, n))
    ensures n > 0 ==> Gains(Drop(E[Abs(a)], t), Relist(E[Abs(a)], t, n), SideUse(a, n))
  {
    assert TriOk(E, T, t);
    assert EdgeOk(E, T, Abs(a));
    hide MeshInv, Cycle;
  }

  /** The spoke i has room for the two triangles beside it. */
  lemma SpokeRoom(E: Edges, T: seq<Tri>, B: Edges, E': Edges, i: int, s: int, np: int, before: int, after: int)
    requires Spoke(E, B, E', i, s, np, before, after) && B[i].tr1 <= 0 && B[i].tr2 <= 0 && before > 0 && after > 0
    ensures Room(T, B[i], SpokeUse(E', i, np, after, before)) && Gains(B[i], E'[i], SpokeUse(E', i, np, after, before))
  {
  }

  /** The three blades are closed triangles. */
  lemma BladeCycle(E: Edges, B: Edges, E': Edges, a: int, i: int, s: int, j: int, r: int, np: int)
    requires i in E' && j in E' && Abs(a) in E' && a != 0
    requires (E'[i].st1, E'[i].st2) == Pair(s, np) && (E'[j].st1, E'[j].st2) == Pair(r, np) && s != np && r != np
      && i > 0 && j > 0
    requires Start(E', a) == s && End(E', a) == r
    ensures var y := Blade(E', a, i, s, j, r);
            && Cycle(E', y) && Verts(E', y) == (s, r, np)
            && y.a2 == -(if E'[j].st1 == np then j else -j) && y.a3 == (if E'[i].st1 == np then i else -i)
  {
  }

  /** A star in the mesh leaves a mesh, with the corners of the star. */
  lemma StarKeeps(E: Edges, T: seq<Tri>, B: Edges, E': Edges, T': seq<Tri>, t: int, np: int, i1: int, i2: int, i3: int,
      n1: int, n2: int, n3: int)
    requires MeshInv(B, T) && Starred(E, T, B, E', T', t, np, i1, i2, i3, n1, n2, n3)
    ensures MeshInv(E', T')
    ensures var (s1, s2, s3) := Verts(E, T[t]);
            Verts(E', T'[n1]) == (s1, s2, np) && Verts(E', T'[n2]) == (s2, s3, np) && Verts(E', T'[n3]) == (s3, s1, np)
  {
    hide Starred, DropAll, UseOk, NewOk, MeshInv, Cycle, Verts, StarUses;
    StarBlades(E, T, B, E', T', t, np, i1, i2, i3, n1, n2, n3);
    var us, nts := StarUses(E', T[t], np, i1, i2, i3, n1, n2, n3), [n1, n2, n3];
    DropKeeps(B, T, t, T'[t]);
    StarSides(E, T, B, E', T', t, np, i1, i2, i3, n1, n2, n3);
    StarSpokes(E, T, B, E', T', t, np, i1, i2, i3, n1, n2, n3);
    StarNews(E, T, B, E', T', t, np, i1, i2, i3, n1, n2, n3);
    StarRest(E, T, B, E', T', t, np, i1, i2, i3, n1, n2, n3);
    PatchKeeps(DropAll(B, T[t], t), T[t := T'[t]], E', T', us, nts);
  }

  lemma StarBlades(E: Edges, T: seq<Tri>, B: Edges, E': Edges, T': seq<Tri>, t: int, np: int, i1: int, i2: int, i3: int,
      n1: int, n2: int, n3: int)
    requires Starred(E, T, B, E', T', t, np, i1, i2, i3, n1, n2, n3)
    ensures Active(T, t) && T'[t].a1 == 0 && i1 in E' && i2 in E' && i3 in E' && |T'| == |T| && 1 <= n1 < |T|
      && 1 <= n2 < |T| && 1 <= n3 < |T|
    ensures |StarUses(E', T[t], np, i1, i2, i3, n1, n2, n3)| == 6
    ensures Cycle(E', T'[n1]) && Cycle(E', T'[n2]) && Cycle(E', T'[n3])
    ensures var (s1, s2, s3) := Verts(E, T[t]);
            Verts(E', T'[n1]) == (s1, s2, np) && Verts(E', T'[n2]) == (s2, s3, np) && Verts(E', T'[n3]) == (s3, s1, np)
  {
    var x := T[t];
    var (s1, s2, s3) := Verts(E, x);
    StarEnds(E, T, B, E', T', t, np, i1, i2, i3, n1, n2, n3);
    hide Cycle, Start, Relist;
    BladeCycle(E, B, E', x.a1, i1, s1, i2, s2, np);
    BladeCycle(E, B, E', x.a2, i2, s2, i3, s3, np);
    BladeCycle(E, B, E', x.a3, i3, s3, i1, s1, np);
  }

  /** The ends of the sides and spokes, before and after. */
  lemma StarEnds(E: Edges, T: seq<Tri>, B: Edges, E': Edges, T': seq<Tri>, t: int, np: int, i1: int, i2: int, i3: int,
      n1: int, n2: int, n3: int)
    requires Starred(E, T, B, E', T', t, np, i1, i2, i3, n1, n2, n3)
    ensures var x := T[t]; var (s1, s2, s3) := Verts(E, x);
            && Abs(x.a1) in E' && Abs(x.a2) in E' && Abs(x.a3) in E'
            && Start(E', x.a1) == s1 && End(E', x.a1) == s2 && Start(E', x.a2) == s2 && End(E', x.a2) == s3
            && Start(E', x.a3) == s3 && End(E', x.a3) == s1
            && Abs(x.a1) in B && Abs(x.a2) in B && Abs(x.a3) in B
            && B[Abs(x.a1)] == E[Abs(x.a1)] && B[Abs(x.a2)] == E[Abs(x.a2)] && B[Abs(x.a3)] == E[Abs(x.a3)]
  {
  }

  lemma SideOk(B1: Edges, T1: seq<Tri>, E': Edges, T': seq<Tri>, nts: seq<int>, a: int, n: int)
    requires Abs(a) in B1 && Abs(a) in E' && a != 0 && n in nts && 0 < n < |T'|
    requires Room(T1, B1[Abs(a)], SideUse(a, n)) && Gains(B1[Abs(a)], E'[Abs(a)], SideUse(a, n))
    requires T'[n].a1 == a && Abs(T'[n].a2) != Abs(a) && Abs(T'[n].a3) != Abs(a)
    ensures UseOk(B1, T1, E', T', nts, SideUse(a, n))
  {
    hide Room, Gains;
  }

  lemma StarSides(E: Edges, T: seq<Tri>, B: Edges, E': Edges, T': seq<Tri>, t: int, np: int, i1: int, i2: int, i3: int,
      n1: int, n2: int, n3: int)
    requires MeshInv(B, T) && Starred(E, T, B, E', T', t, np, i1, i2, i3, n1, n2, n3)
    requires Abs(T[t].a1) in B && Abs(T[t].a2) in B && Abs(T[t].a3) in B
    ensures var us, B1, T1, nts := StarUses(E', T[t], np, i1, i2, i3, n1, n2, n3), DropAll(B, T[t], t), T[t := T'[t]],
      [n1, n2, n3];
            UseOk(B1, T1, E', T', nts, us[0]) && UseOk(B1, T1, E', T', nts, us[1]) && UseOk(B1, T1, E', T', nts, us[2])
  {
    var x, gone := T[t], T'[t];
    var B1, T1, nts := DropAll(B, x, t), T[t := gone], [n1, n2, n3];
    var (s1, s2, s3) := Verts(E, x);
    SpokeSigns(E', T', x, i1, s1, i2, s2, i3, s3, np, n1, n2, n3);
    hide DropAll, Room, Gains, Drop, Relist, Cycle, Start, UseOk, Spoke, Blade, MeshInv, Based;
    SideRoom(B, T, t, gone, x.a1, n1);
    SideRoom(B, T, t, gone, x.a2, n2);
    SideRoom(B, T, t, gone, x.a3, n3);
    DropAt(B, x, t, Abs(x.a1));
    DropAt(B, x, t, Abs(x.a2));
    DropAt(B, x, t, Abs(x.a3));
    assert nts[0] == n1 && nts[1] == n2 && nts[2] == n3;
    SideOk(B1, T1, E', T', nts, x.a1, n1);
    SideOk(B1, T1, E', T', nts, x.a2, n2);
    SideOk(B1, T1, E', T', nts, x.a3, n3);
  }

  lemma SpokeOk(B1: Edges, T1: seq<Tri>, E': Edges, T': seq<Tri>, nts: seq<int>, i: int, np: int, after: int,
      before: int)
    requires i in B1 && i in E' && i > 0 && after in nts && before in nts && 0 < after < |T'| && 0 < before < |T'|
      && after != before
    requires Room(T1, B1[i], SpokeUse(E', i, np, after, before))
      && Gains(B1[i], E'[i], SpokeUse(E', i, np, after, before))
    requires T'[after].a3 == (if E'[i].st1 == np then i else -i) && Abs(T'[after].a1) != i && Abs(T'[after].a2) != i
    requires T'[before].a2 == (if E'[i].st1 == np then -i else i) && Abs(T'[before].a1) != i && Abs(T'[before].a3) != i
    ensures UseOk(B1, T1, E', T', nts, SpokeUse(E', i, np, after, before))
  {
    hide Room, Gains;
  }

  lemma StarSpokes(E: Edges, T: seq<Tri>, B: Edges, E': Edges, T': seq<Tri>, t: int, np: int, i1: int, i2: int, i3: int,
      n1: int, n2: int, n3: int)
    requires Starred(E, T, B, E', T', t, np, i1, i2, i3, n1, n2, n3)
    requires Abs(T[t].a1) in B && Abs(T[t].a2) in B && Abs(T[t].a3) in B
    ensures var us, B1, T1, nts := StarUses(E', T[t], np, i1, i2, i3, n1, n2, n3), DropAll(B, T[t], t), T[t := T'[t]],
      [n1, n2, n3];
            UseOk(B1, T1, E', T', nts, us[3]) && UseOk(B1, T1, E', T', nts, us[4]) && UseOk(B1, T1, E', T', nts, us[5])
  {
    var x, gone := T[t], T'[t];
    var (s1, s2, s3) := Verts(E, x);
    var B1, T1, nts := DropAll(B, x, t), T[t := gone], [n1, n2, n3];
    SpokeRoom(E, T1, B, E', i1, s1, np, n3, n1);
    SpokeRoom(E, T1, B, E', i2, s2, np, n1, n2);
    SpokeRoom(E, T1, B, E', i3, s3, np, n2, n3);
    DropAt(B, x, t, i1);
    DropAt(B, x, t, i2);
    DropAt(B, x, t, i3);
    SpokeSigns(E', T', x, i1, s1, i2, s2, i3, s3, np, n1, n2, n3);
    hide DropAll, Room, Gains, Drop, Relist, Cycle, Start, UseOk, Spoke, Blade;
    assert nts[0] == n1 && nts[1] == n2 && nts[2] == n3;
    SpokeOk(B1, T1, E', T', nts, i1, np, n1, n3);
    SpokeOk(B1, T1, E', T', nts, i2, np, n2, n1);
    SpokeOk(B1, T1, E', T', nts, i3, np, n3, n2);
  }

  lemma SpokeSigns(E': Edges, T': seq<Tri>, x: Tri, i1: int, s1: int, i2: int, s2: int, i3: int, s3: int, np: int,
      n1: int, n2: int, n3: int)
    requires i1 in E' && i2 in E' && i3 in E' && i1 > 0 && i2 > 0 && i3 > 0 && np != s1 && np != s2 && np != s3
    requires (E'[i1].st1, E'[i1].st2) == Pair(s1, np) && (E'[i2].st1, E'[i2].st2) == Pair(s2, np)
      && (E'[i3].st1, E'[i3].st2) == Pair(s3, np)
    requires 0 < n1 < |T'| && 0 < n2 < |T'| && 0 < n3 < |T'|
    requires T'[n1] == Blade(E', x.a1, i1, s1, i2, s2) && T'[n2] == Blade(E', x.a2, i2, s2, i3, s3)
      && T'[n3] == Blade(E', x.a3, i3, s3, i1, s1)
    ensures T'[n1].a3 == (if E'[i1].st1 == np then i1 else -i1) && T'[n3].a2 == (if E'[i1].st1 == np then -i1 else i1)
    ensures T'[n2].a3 == (if E'[i2].st1 == np then i2 else -i2) && T'[n1].a2 == (if E'[i2].st1 == np then -i2 else i2)
    ensures T'[n3].a3 == (if E'[i3].st1 == np then i3 else -i3) && T'[n2].a2 == (if E'[i3].st1 == np then -i3 else i3)
    ensures T'[n1].a1 == x.a1 && T'[n2].a1 == x.a2 && T'[n3].a1 == x.a3
  {
  }

  lemma StarNews(E: Edges, T: seq<Tri>, B: Edges, E': Edges, T': seq<Tri>, t: int, np: int, i1: int, i2: int, i3: int,
      n1: int, n2: int, n3: int)
    requires Starred(E, T, B, E', T', t, np, i1, i2, i3, n1, n2, n3)
    requires Cycle(E', T'[n1]) && Cycle(E', T'[n2]) && Cycle(E', T'[n3])
    ensures var us, T1 := StarUses(E', T[t], np, i1, i2, i3, n1, n2, n3), T[t := T'[t]];
            NewOk(T1, E', T', us, n1) && NewOk(T1, E', T', us, n2) && NewOk(T1, E', T', us, n3)
  {
    var us := StarUses(E', T[t], np, i1, i2, i3, n1, n2, n3);
    var x := T[t];
    assert us[0] == SideUse(x.a1, n1) && us[1] == SideUse(x.a2, n2) && us[2] == SideUse(x.a3, n3);
    assert us[3] == SpokeUse(E', i1, np, n1, n3) && us[4] == SpokeUse(E', i2, np, n2, n1)
      && us[5] == SpokeUse(E', i3, np, n3, n2);
    hide Cycle;
  }

  lemma StarRest(E: Edges, T: seq<Tri>, B: Edges, E': Edges, T': seq<Tri>, t: int, np: int, i1: int, i2: int, i3: int,
      n1: int, n2: int, n3: int)
    requires Starred(E, T, B, E', T', t, np, i1, i2, i3, n1, n2, n3)
    requires Abs(T[t].a1) in B && Abs(T[t].a2) in B && Abs(T[t].a3) in B
    ensures var us, B1, T1, nts := StarUses(E', T[t], np, i1, i2, i3, n1, n2, n3), DropAll(B, T[t], t), T[t := T'[t]],
      [n1, n2, n3];
            && E'.Keys == B1.Keys && |T'| == |T1|
            && (forall j, k | 0 <= j < k < |us| :: us[j].edge != us[k].edge)
            && (forall i | i in B1 && (forall k | 0 <= k < |us| :: us[k].edge != i) :: E'[i] == B1[i])
            && (forall u | 0 <= u < |T1| && u !in nts :: T'[u] == T1[u])
  {
    var x := T[t];
    var us, B1, T1, nts := StarUses(E', x, np, i1, i2, i3, n1, n2, n3), DropAll(B, x, t), T[t := T'[t]], [n1, n2, n3];
    DropAt(B, x, t, i1);
    hide DropAll, Cycle, Spoke, Relist, Drop;
    forall i | i in B1 && (forall k | 0 <= k < |us| :: us[k].edge != i) ensures E'[i] == B1[i] {
      DropAt(B, x, t, i);
      assert us[0].edge != i && us[1].edge != i && us[2].edge != i && us[3].edge != i && us[4].edge != i
        && us[5].edge != i;
    }
    forall u | 0 <= u < |T1| && u !in nts ensures T'[u] == T1[u] {
      assert nts[0] == n1 && nts[1] == n2 && nts[2] == n3;
    }
  }
}
