/** `f0trte_`..`f3trte_`: the triangles of a leaf of the tree, one template for each number of sides
    with a middle vertex. */
module Templates {
  import opened Lists
  import opened EdgeTable
  import opened Mesh
  import opened Exchange
  import opened Contours
  import opened Triangles
  import opened Patch

  /** A call fasoar_(u, v, triangle k1, triangle k2): the edge u-v for the template's triangles k1
      and k2 (-1: only k1).  Triangle k1 runs from u to v if fwd, else from v to u. */
  datatype Entry = Entry(u: int, v: int, k1: int, k2: int, fwd: bool)

  /** A side of a triangle: the edge of entry number e, from u to v or back. */
  datatype Side = Side(e: int, fwd: bool)

  datatype Corner3 = Corner3(a: Side, b: Side, c: Side)

  /** The edges a template enters, in order, and the sides of its triangles, column by column. */
  datatype Template = Template(entries: seq<Entry>, tris: seq<Corner3>)

  function From(es: seq<Entry>, s: Side): (r: int) {
    if 0 <= s.e < |es| then (if s.fwd then es[s.e].u else es[s.e].v) else 0
  }

  function To(es: seq<Entry>, s: Side): (r: int) {
    From(es, Side(s.e, !s.fwd))
  }

  predicate HasSide(t: Corner3, s: Side) {
    t.a == s || t.b == s || t.c == s
  }

  /** Triangle k has the edge of entry number e as a side, one way only. */
  predicate Runs(tp: Template, k: int, e: int, fwd: bool) {
    0 <= k < |tp.tris| && HasSide(tp.tris[k], Side(e, fwd)) && !HasSide(tp.tris[k], Side(e, !fwd))
  }

  predicate EntryFits(tp: Template, e: int) {
    && 0 <= e < |tp.entries|
    && var en := tp.entries[e];
       en.u > 0 && en.v > 0 && en.u != en.v && Runs(tp, en.k1, e, en.fwd)
       && (en.k2 == -1 || (en.k2 != en.k1 && Runs(tp, en.k2, e, !en.fwd)))
  }

  predicate SideFits(tp: Template, k: int, s: Side) {
    0 <= s.e < |tp.entries| && (tp.entries[s.e].k1 == k || tp.entries[s.e].k2 == k)
  }

  predicate TriFits(tp: Template, k: int) {
    && 0 <= k < |tp.tris|
    && var t := tp.tris[k];
       && SideFits(tp, k, t.a) && SideFits(tp, k, t.b) && SideFits(tp, k, t.c)
       && To(tp.entries, t.a) == From(tp.entries, t.b) && To(tp.entries, t.b) == From(tp.entries, t.c)
       && To(tp.entries, t.c) == From(tp.entries, t.a)
  }

  function Ends(en: Entry): (r: (int, int)) {
    Pair(en.u, en.v)
  }

  /** The template is a mesh of its own: closed triangles, different edges, each run each way at most once. */
  ghost predicate Fits(tp: Template) {
    && (forall e {:trigger tp.entries[e]} | 0 <= e < |tp.entries| :: EntryFits(tp, e))
    && (forall k {:trigger tp.tris[k]} | 0 <= k < |tp.tris| :: TriFits(tp, k))
    && (forall j, k | 0 <= j < k < |tp.entries| :: Ends(tp.entries[j]) != Ends(tp.entries[k]))
  }

  /** The corners of triangle k. */
  function CornersAt(tp: Template, k: int): (r: (int, int, int)) {
    if 0 <= k < |tp.tris| then (From(tp.entries, tp.tris[k].a), From(tp.entries, tp.tris[k].b),
                               From(tp.entries, tp.tris[k].c)) else (0, 0, 0)
  }

  /** What entry en makes of the edge number i with record e, for the triangles nutr. */
  function UseOf(en: Entry, i: int, e: Edge, nutr: seq<int>): (r: Use) {
    Use(i, if e.st1 == (if en.fwd then en.u else en.v) then 1 else -1,
        if 0 <= en.k1 < |nutr| then nutr[en.k1] else 0, if 0 <= en.k2 < |nutr| then nutr[en.k2] else -1)
  }

  /** If the mesh has the edge of en already, it has room for the template's triangles. */
  ghost predicate RoomFor(E: Edges, T: seq<Tri>, en: Entry) {
    forall i | i in E && (E[i].st1, E[i].st2) == Ends(en) :: Room(T, E[i], UseOf(en, i, E[i], [1, 1, 1, 1]))
  }

  lemma RoomAny(T: seq<Tri>, e: Edge, en: Entry, i: int, nutr: seq<int>)
    requires Room(T, e, UseOf(en, i, e, [1, 1, 1, 1])) && |nutr| <= 4 && 0 <= en.k1 < |nutr|
      && (en.k2 == -1 || 0 <= en.k2 < |nutr|)
    requires forall k | 0 <= k < |nutr| :: nutr[k] > 0
    ensures Room(T, e, UseOf(en, i, e, nutr))
  {
  }

  /** `fasoar_` on an edge with room. */
  lemma AttachRoom(T: seq<Tri>, e: Edge, u: Use)
    requires Room(T, e, u) && u.t1 > 0 && (u.t2 > 0 || u.t2 == -1)
    ensures Attach(e, u.t1, u.t2) == (After(e, u), 0)
  {
  }

  function Bare(q: (int, int)): (r: Edge) {
    Edge(q.0, q.1, 0, -1, -1, -1)
  }

  lemma AttachBare(q: (int, int), u: Use, T: seq<Tri>)
    requires u.t1 > 0 && (u.t2 > 0 || u.t2 == -1)
    ensures After(Bare(q), u) == Edge(q.0, q.1, 0, u.t1, u.t2, -1) && Room(T, Bare(q), u)
  {
  }

  /** After the first k entries: B is the mesh with the new edges, none of them listing a triangle
      yet, and E has the triangles added. */
  ghost predicate Entered(E0: Edges, T: seq<Tri>, B: Edges, E: Edges, es: seq<Entry>, k: int, noars: seq<int>,
      nutr: seq<int>) {
    && 0 <= k == |noars| <= |es| && B.Keys == E.Keys && MeshInv(B, T)
    && (forall i | i in E0 :: i in B && B[i] == E0[i])
    && (forall i | i in B && i !in E0 :: i in noars)
    && (forall i | i in B && i !in noars :: E[i] == B[i])
    && (forall j {:trigger noars[j]} | 0 <= j < k ::
          && noars[j] in B && noars[j] > 0 && (B[noars[j]].st1, B[noars[j]].st2) == Ends(es[j])
          && Room(T, B[noars[j]], UseOf(es[j], noars[j], B[noars[j]], nutr))
          && E[noars[j]] == After(B[noars[j]], UseOf(es[j], noars[j], B[noars[j]], nutr)))
  }

  lemma EnteredEnds(E0: Edges, T: seq<Tri>, B: Edges, E: Edges, es: seq<Entry>, k: int, noars: seq<int>, nutr: seq<int>,
      i: int)
    requires Entered(E0, T, B, E, es, k, noars, nutr) && i in E
    ensures i in B && E[i].st1 == B[i].st1 && E[i].st2 == B[i].st2
  {
    if i in noars {
      var j :| 0 <= j < |noars| && noars[j] == i;
    }
  }

  /** The next entry. */
  lemma EnterNext(E0: Edges, T: seq<Tri>, B: Edges, E: Edges, E': Edges, es: seq<Entry>, k: int, noars: seq<int>,
      nutr: seq<int>, noar: int)
    requires Entered(E0, T, B, E, es, k, noars, nutr) && k < |es| && RoomFor(E0, T, es[k])
    requires |nutr| <= 4 && 0 <= es[k].k1 < |nutr| && (es[k].k2 == -1 || 0 <= es[k].k2 < |nutr|)
      && forall n | 0 <= n < |nutr| :: nutr[n] > 0
    requires es[k].u > 0 && es[k].v > 0 && es[k].u != es[k].v
    requires forall j | 0 <= j < k :: Ends(es[j]) != Ends(es[k])
    requires noar > 0
    requires if noar in E then (E[noar].st1, E[noar].st2) == Ends(es[k])
                               && E' == E[noar := Attach(E[noar], nutr[es[k].k1], if es[k].k2 >= 0 then nutr[es[k].k2]
                               else -1).0]
             else E' == E[noar := Edge(Ends(es[k]).0, Ends(es[k]).1, 0, nutr[es[k].k1], if es[k].k2 >= 0 then
                  nutr[es[k].k2] else -1, -1)]
    ensures noar !in noars
    ensures noar in E ==> Attach(E[noar], nutr[es[k].k1], if es[k].k2 >= 0 then nutr[es[k].k2] else -1).1 == 0
    ensures Entered(E0, T, if noar in E then B else B[noar := Bare(Ends(es[k]))], E', es, k + 1, noars + [noar], nutr)
  {
    hide Room, After, UseOf, Attach, MeshInv, RoomFor, Bare, Entered, Ends;
    EnteredMesh(E0, T, B, E, es, k, noars, nutr);
    EndsOrder(es[k]);
    var en := es[k];
    EnteredNew(E0, T, B, E, es, k, noars, nutr, noar);
    var B' := if noar in E then B else B[noar := Bare(Ends(en))];
    if noar in E {
      OldRoom(E0, T, noar, en, nutr);
    } else {
      UseParts(en, noar, Bare(Ends(en)), nutr);
      AttachBare(Ends(en), UseOf(en, noar, Bare(Ends(en)), nutr), T);
      BareParts(Ends(en));
      BareEdge(B, T, noar, Bare(Ends(en)));
    }
    EnterGrow(E0, T, B, B', E, E', es, k, noars, nutr, noar);
  }

  /** A number that is not entered yet is an edge of the mesh before, or of none. */
  lemma EnteredNew(E0: Edges, T: seq<Tri>, B: Edges, E: Edges, es: seq<Entry>, k: int, noars: seq<int>, nutr: seq<int>,
      noar: int)
    requires Entered(E0, T, B, E, es, k, noars, nutr) && k < |es|
    requires forall j | 0 <= j < k :: Ends(es[j]) != Ends(es[k])
    requires noar in E ==> (E[noar].st1, E[noar].st2) == Ends(es[k])
    ensures noar !in noars && (noar in E <==> noar in B) && (noar in E ==> noar in E0 && B[noar] == E0[noar] == E[noar])
    ensures noar in E0 ==> noar in E
  {
    hide Room, After, UseOf, MeshInv, Ends;
    if noar in noars {
      var j :| 0 <= j < |noars| && noars[j] == noar;
      assert noars[j] in B;
      EnteredEnds(E0, T, B, E, es, k, noars, nutr, noar);
    }
  }

  lemma EnteredMesh(E0: Edges, T: seq<Tri>, B: Edges, E: Edges, es: seq<Entry>, k: int, noars: seq<int>, nutr: seq<int>)
    requires Entered(E0, T, B, E, es, k, noars, nutr)
    ensures MeshInv(B, T) && 0 <= k == |noars|
  {
  }

  lemma UseParts(en: Entry, i: int, e: Edge, nutr: seq<int>)
    requires 0 <= en.k1 < |nutr| && (en.k2 == -1 || 0 <= en.k2 < |nutr|)
    ensures var u := UseOf(en, i, e, nutr);
            u.edge == i && u.t1 == nutr[en.k1] && u.t2 == if en.k2 >= 0 then nutr[en.k2] else -1
  {
  }

  lemma EndsOrder(en: Entry)
    requires en.u > 0 && en.v > 0 && en.u != en.v
    ensures 0 < Ends(en).0 < Ends(en).1
  {
  }

  lemma BareParts(q: (int, int))
    ensures (Bare(q).st1, Bare(q).st2) == q && Bare(q).tr1 <= 0 && Bare(q).tr2 <= 0
  {
  }

  /** `fasoar_` on an edge of the mesh that has room for its entry. */
  lemma OldRoom(E0: Edges, T: seq<Tri>, i: int, en: Entry, nutr: seq<int>)
    requires i in E0 && RoomFor(E0, T, en) && (E0[i].st1, E0[i].st2) == Ends(en)
    requires |nutr| <= 4 && 0 <= en.k1 < |nutr| && (en.k2 == -1 || 0 <= en.k2 < |nutr|) && forall n | 0 <= n < |nutr| ::
      nutr[n] > 0
    ensures var u := UseOf(en, i, E0[i], nutr);
            && Room(T, E0[i], u)
            && Attach(E0[i], nutr[en.k1], if en.k2 >= 0 then nutr[en.k2] else -1) == (After(E0[i], u), 0)
  {
    hide Room, After, Attach, UseOf;
    RoomAny(T, E0[i], en, i, nutr);
    UseParts(en, i, E0[i], nutr);
    AttachRoom(T, E0[i], UseOf(en, i, E0[i], nutr));
  }

  lemma EnterGrow(E0: Edges, T: seq<Tri>, B: Edges, B': Edges, E: Edges, E': Edges, es: seq<Entry>, k: int,
      noars: seq<int>, nutr: seq<int>, noar: int)
    requires Entered(E0, T, B, E, es, k, noars, nutr) && k < |es| && noar > 0 && noar !in noars && MeshInv(B', T)
    requires if noar in B then B' == B else noar in B' && B' == B[noar := B'[noar]] && noar !in E0
    requires noar in B' && (B'[noar].st1, B'[noar].st2) == Ends(es[k]) && (noar in B ==> noar in E0)
    requires var u := UseOf(es[k], noar, B'[noar], nutr);
             Room(T, B'[noar], u) && E' == E[noar := After(B'[noar], u)]
    ensures Entered(E0, T, B', E', es, k + 1, noars + [noar], nutr)
  {
    hide Room, After, UseOf, MeshInv, Ends;
    var l := noars + [noar];
    assert forall i :: i in l <==> i in noars || i == noar by {
      assert l[k] == noar;
    }
    forall j | 0 <= j < k + 1 ensures l[j] in B' && l[j] > 0 && (B'[l[j]].st1, B'[l[j]].st2) == Ends(es[j])
          && Room(T, B'[l[j]], UseOf(es[j], l[j], B'[l[j]], nutr))
            && E'[l[j]] == After(B'[l[j]], UseOf(es[j], l[j], B'[l[j]], nutr)) {
      if j < k {
        assert l[j] == noars[j] && noars[j] in noars;
      }
    }
  }

  /** Side s of a triangle, as a signed edge number. */
  function SignedSide(E: Edges, es: seq<Entry>, noars: seq<int>, s: Side): (r: int) {
    if 0 <= s.e < |noars| && noars[s.e] in E then Signed(E, noars[s.e], From(es, s)) else 0
  }

  function TriOf(E: Edges, es: seq<Entry>, noars: seq<int>, t: Corner3): (r: Tri) {
    Tri(SignedSide(E, es, noars, t.a), SignedSide(E, es, noars, t.b), SignedSide(E, es, noars, t.c))
  }

  /** The columns nutr hold the triangles of the template. */
  ghost predicate Written(T: seq<Tri>, T': seq<Tri>, E: Edges, tp: Template, noars: seq<int>, nutr: seq<int>) {
    && |T'| == |T| && |nutr| == |tp.tris| && Unique(nutr)
    && (forall k {:trigger nutr[k]} | 0 <= k < |nutr| ::
      1 <= nutr[k] < |T| && T[nutr[k]].a1 == 0 && T'[nutr[k]] == TriOf(E, tp.entries, noars, tp.tris[k]))
    && (forall t | 0 <= t < |T| && t !in nutr :: T'[t] == T[t])
  }

  ghost function UsesOf(tp: Template, B: Edges, noars: seq<int>, nutr: seq<int>): (us: seq<Use>)
    requires |noars| == |tp.entries| && forall k | 0 <= k < |noars| :: noars[k] in B
    ensures |us| == |noars|
  {
    seq(|noars|, k requires 0 <= k < |noars| => UseOf(tp.entries[k], noars[k], B[noars[k]], nutr))
  }

  lemma EnteredAt(E0: Edges, T: seq<Tri>, B: Edges, E: Edges, es: seq<Entry>, noars: seq<int>, nutr: seq<int>, j: int)
    requires Entered(E0, T, B, E, es, |es|, noars, nutr) && 0 <= j < |es|
    ensures |noars| == |es| && noars[j] in B && noars[j] in E && noars[j] > 0
    ensures (B[noars[j]].st1, B[noars[j]].st2) == Ends(es[j]) == (E[noars[j]].st1, E[noars[j]].st2)
    ensures Room(T, B[noars[j]], UseOf(es[j], noars[j], B[noars[j]], nutr))
    ensures E[noars[j]] == After(B[noars[j]], UseOf(es[j], noars[j], B[noars[j]], nutr))
  {
  }

  /** Where a side starts and ends, and which of the two ways it runs along its edge. */
  lemma SideRuns(tp: Template, E0: Edges, T: seq<Tri>, B: Edges, E: Edges, noars: seq<int>, nutr: seq<int>, k: int,
      s: Side)
    requires Fits(tp) && Entered(E0, T, B, E, tp.entries, |tp.entries|, noars, nutr) && SideFits(tp, k, s)
    ensures var a := SignedSide(E, tp.entries, noars, s);
            && Abs(a) == noars[s.e] && Abs(a) in E && a != 0
            && Start(E, a) == From(tp.entries, s) && End(E, a) == To(tp.entries, s)
            && SignedSide(E, tp.entries, noars, Side(s.e, !s.fwd)) == -a
  {
    EnteredAt(E0, T, B, E, tp.entries, noars, nutr, s.e);
    assert EntryFits(tp, s.e);
    hide Entered, Fits, Runs;
  }

  /** Different entries have different edges. */
  lemma EdgesDiffer(tp: Template, E0: Edges, T: seq<Tri>, B: Edges, E: Edges, noars: seq<int>, nutr: seq<int>, j: int,
      k: int)
    requires Fits(tp) && Entered(E0, T, B, E, tp.entries, |tp.entries|, noars, nutr) && 0 <= j < |tp.entries|
      && 0 <= k < |tp.entries| && j != k
    ensures |noars| == |tp.entries| && noars[j] != noars[k]
  {
    EnteredAt(E0, T, B, E, tp.entries, noars, nutr, j);
    EnteredAt(E0, T, B, E, tp.entries, noars, nutr, k);
    hide Entered;
    if j < k {
      assert Ends(tp.entries[j]) != Ends(tp.entries[k]);
    } else {
      assert Ends(tp.entries[k]) != Ends(tp.entries[j]);
    }
  }

  /** Triangle k, written, uses the edge of entry e the way it should and not the other. */
  lemma WrittenUser(tp: Template, E0: Edges, T: seq<Tri>, T': seq<Tri>, B: Edges, E: Edges, noars: seq<int>,
      nutr: seq<int>, k: int, e: int, fwd: bool)
    requires Fits(tp) && Entered(E0, T, B, E, tp.entries, |tp.entries|, noars, nutr)
      && Written(T, T', E, tp, noars, nutr)
    requires Runs(tp, k, e, fwd) && 0 <= e < |tp.entries|
    ensures 0 <= k < |nutr| && NewUser(T', nutr, nutr[k], SignedSide(E, tp.entries, noars, Side(e, fwd)))
  {
    var t := tp.tris[k];
    assert nutr[k] in nutr && T'[nutr[k]] == TriOf(E, tp.entries, noars, t);
    assert TriFits(tp, k);
    UserSide(tp, E0, T, B, E, noars, nutr, k, e, fwd, t.a);
    UserSide(tp, E0, T, B, E, noars, nutr, k, e, fwd, t.b);
    UserSide(tp, E0, T, B, E, noars, nutr, k, e, fwd, t.c);
    hide Fits, Entered, Written, SignedSide;
  }

  lemma UserSide(tp: Template, E0: Edges, T: seq<Tri>, B: Edges, E: Edges, noars: seq<int>, nutr: seq<int>, k: int,
      e: int, fwd: bool, s: Side)
    requires Fits(tp) && Entered(E0, T, B, E, tp.entries, |tp.entries|, noars, nutr) && 0 <= k < |tp.tris|
    requires SideFits(tp, k, s) && 0 <= e < |tp.entries| && s != Side(e, !fwd) && (SideFits(tp, k, Side(e, fwd)))
    ensures SignedSide(E, tp.entries, noars, s) != -SignedSide(E, tp.entries, noars, Side(e, fwd))
  {
    hide Fits, Entered, SignedSide;
    SideRuns(tp, E0, T, B, E, noars, nutr, k, s);
    SideRuns(tp, E0, T, B, E, noars, nutr, k, Side(e, fwd));
    if s.e != e {
      EdgesDiffer(tp, E0, T, B, E, noars, nutr, s.e, e);
    } else {
      assert s == Side(e, fwd);
    }
  }

  lemma BuiltUse(tp: Template, E0: Edges, T: seq<Tri>, T': seq<Tri>, B: Edges, E: Edges, noars: seq<int>,
      nutr: seq<int>, e: int)
    requires Fits(tp) && Entered(E0, T, B, E, tp.entries, |tp.entries|, noars, nutr)
      && Written(T, T', E, tp, noars, nutr)
    requires 0 <= e < |tp.entries| && forall k | 0 <= k < |noars| :: noars[k] in B
    ensures UseOk(B, T, E, T', nutr, UsesOf(tp, B, noars, nutr)[e])
  {
    hide Fits, Entered, Written, NewUser, Room, MeshInv, Gains, After, Runs, SignedSide, UseOf, UsesOf, Patch.Along;
    EnteredAt(E0, T, B, E, tp.entries, noars, nutr, e);
    UsesAt(tp, B, noars, nutr, e);
    EntryAt(tp, e);
    EntryRuns(tp, e);
    var en := tp.entries[e];
    WrittenAt(T, T', E, tp, noars, nutr, en.k1);
    UseParts(en, noars[e], B[noars[e]], nutr);
    WrittenUser(tp, E0, T, T', B, E, noars, nutr, en.k1, e, en.fwd);
    AfterGains(T, B[noars[e]], UseOf(en, noars[e], B[noars[e]], nutr));
    SideRuns(tp, E0, T, B, E, noars, nutr, en.k1, Side(e, en.fwd));
    AlongSigned(tp.entries, noars, E, B[noars[e]], nutr, e);
    if en.k2 >= 0 {
      WrittenUser(tp, E0, T, T', B, E, noars, nutr, en.k2, e, !en.fwd);
      WrittenAt(T, T', E, tp, noars, nutr, en.k2);
      WrittenApart(T, T', E, tp, noars, nutr, en.k1, en.k2);
    }
  }

  lemma EntryRuns(tp: Template, e: int)
    requires EntryFits(tp, e)
    ensures 0 <= tp.entries[e].k1 < |tp.tris| && (tp.entries[e].k2 == -1 || 0 <= tp.entries[e].k2 < |tp.tris|)
  {
  }

  lemma UsesAt(tp: Template, B: Edges, noars: seq<int>, nutr: seq<int>, e: int)
    requires |noars| == |tp.entries| && (forall k | 0 <= k < |noars| :: noars[k] in B) && 0 <= e < |noars|
    ensures UsesOf(tp, B, noars, nutr)[e] == UseOf(tp.entries[e], noars[e], B[noars[e]], nutr)
  {
  }

  lemma WrittenAt(T: seq<Tri>, T': seq<Tri>, E: Edges, tp: Template, noars: seq<int>, nutr: seq<int>, k: int)
    requires Written(T, T', E, tp, noars, nutr) && 0 <= k < |tp.tris|
    ensures |nutr| == |tp.tris| && nutr[k] > 0 && forall j | 0 <= j < |nutr| :: nutr[j] > 0
  {
  }

  lemma WrittenApart(T: seq<Tri>, T': seq<Tri>, E: Edges, tp: Template, noars: seq<int>, nutr: seq<int>, j: int, k: int)
    requires Written(T, T', E, tp, noars, nutr) && 0 <= j < |nutr| && 0 <= k < |nutr| && j != k
    ensures nutr[j] != nutr[k]
  {
  }

  /** The way of a use is the sign of its first side. */
  lemma AlongSigned(es: seq<Entry>, noars: seq<int>, E: Edges, e: Edge, nutr: seq<int>, k: int)
    requires 0 <= k < |es| == |noars| && noars[k] in E && E[noars[k]].st1 == e.st1
    ensures var u := UseOf(es[k], noars[k], e, nutr);
            (u.way == 1 || u.way == -1) && Patch.Along(u) == SignedSide(E, es, noars, Side(k, es[k].fwd))
  {
  }

  lemma BuiltNew(tp: Template, E0: Edges, T: seq<Tri>, T': seq<Tri>, B: Edges, E: Edges, noars: seq<int>,
      nutr: seq<int>, k: int)
    requires Fits(tp) && Entered(E0, T, B, E, tp.entries, |tp.entries|, noars, nutr)
      && Written(T, T', E, tp, noars, nutr)
    requires 0 <= k < |nutr| && forall k | 0 <= k < |noars| :: noars[k] in B
    ensures NewOk(T, E, T', UsesOf(tp, B, noars, nutr), nutr[k]) && Verts(E, T'[nutr[k]]) == CornersAt(tp, k)
  {
    var t := tp.tris[k];
    assert TriFits(tp, k);
    assert T'[nutr[k]] == TriOf(E, tp.entries, noars, t);
    SideRuns(tp, E0, T, B, E, noars, nutr, k, t.a);
    SideRuns(tp, E0, T, B, E, noars, nutr, k, t.b);
    SideRuns(tp, E0, T, B, E, noars, nutr, k, t.c);
    BuiltListed(tp, B, noars, nutr, k, t.a);
    BuiltListed(tp, B, noars, nutr, k, t.b);
    BuiltListed(tp, B, noars, nutr, k, t.c);
    hide Fits, Entered, ListedIn, SignedSide;
  }

  lemma BuiltListed(tp: Template, B: Edges, noars: seq<int>, nutr: seq<int>, k: int, s: Side)
    requires |noars| == |tp.entries| && (forall k | 0 <= k < |noars| :: noars[k] in B)
    requires 0 <= k < |nutr| && SideFits(tp, k, s) && nutr[k] > 0
    ensures ListedIn(UsesOf(tp, B, noars, nutr), noars[s.e], nutr[k])
  {
    var us := UsesOf(tp, B, noars, nutr);
    assert us[s.e].edge == noars[s.e];
  }

  /** The whole template is a patch of the mesh. */
  lemma BuiltPatch(tp: Template, E0: Edges, T: seq<Tri>, T': seq<Tri>, B: Edges, E: Edges, noars: seq<int>,
      nutr: seq<int>)
    requires Fits(tp) && Entered(E0, T, B, E, tp.entries, |tp.entries|, noars, nutr)
      && Written(T, T', E, tp, noars, nutr)
    ensures MeshInv(E, T') && forall k | 0 <= k < |nutr| :: Verts(E, T'[nutr[k]]) == CornersAt(tp, k)
  {
    forall k | 0 <= k < |noars| ensures noars[k] in B {
      EnteredAt(E0, T, B, E, tp.entries, noars, nutr, k);
    }
    var us := UsesOf(tp, B, noars, nutr);
    forall j, k | 0 <= j < k < |us| ensures us[j].edge != us[k].edge {
      EdgesDiffer(tp, E0, T, B, E, noars, nutr, j, k);
    }
    forall k | 0 <= k < |us| ensures UseOk(B, T, E, T', nutr, us[k]) {
      BuiltUse(tp, E0, T, T', B, E, noars, nutr, k);
    }
    forall k | 0 <= k < |nutr| ensures NewOk(T, E, T', us, nutr[k]) && Verts(E, T'[nutr[k]]) == CornersAt(tp, k) {
      BuiltNew(tp, E0, T, T', B, E, noars, nutr, k);
    }
    forall i | i in B && (forall k | 0 <= k < |us| :: us[k].edge != i) ensures E[i] == B[i] {
      forall k | 0 <= k < |noars| ensures noars[k] != i {
        assert us[k].edge == noars[k];
      }
    }
    hide UseOk, NewOk, UsesOf, Fits;
    PatchKeeps(B, T, E, T', us, nutr);
  }

  // ---------------------------------------------------------------- the arrays

  /** What the templates start from: a mesh that has room for the edges of tp. */
  ghost predicate Fitting(table: Table, store: Store, tp: Template)
    reads table, table.nosoar, table.noarst, store, store.noartr
  {
    && Sound(table, store.noartr) && store.Valid() && Fits(tp) && 1 <= |tp.tris| <= 4
    && forall e {:trigger tp.entries[e]} | 0 <= e < |tp.entries| ::
         tp.entries[e].u <= table.mxsomm && tp.entries[e].v <= table.mxsomm
           && RoomFor(table.Live(), store.noartr[..], tp.entries[e])
  }

  /** The stock of the table after the first k calls of `fasoar_`, which take what they find. */
  ghost function TookAll(s: Stock, es: seq<Entry>, k: nat): (r: Stock)
    requires k <= |es|
  {
    if k == 0 then s
    else
      var t := TookAll(s, es, k - 1);
      if Finds(t, Ends(es[k - 1])) then Took(t, Ends(es[k - 1])) else t
  }

  /** Call number j finds an edge or a column. */
  ghost predicate FoundAt(s: Stock, es: seq<Entry>, j: int) {
    0 <= j < |es| && Finds(TookAll(s, es, j), Ends(es[j]))
  }

  /** The first k calls, but for number skip, find an edge or a column. */
  ghost predicate FoundBut(s: Stock, es: seq<Entry>, k: int, skip: int) {
    forall j | 0 <= j < k && j != skip :: FoundAt(s, es, j)
  }

  /** Every call but number skip finds an edge or a column, and that one does not. */
  ghost predicate LostAt(s: Stock, es: seq<Entry>, skip: int) {
    0 <= skip < |es| && FoundBut(s, es, |es|, skip) && !FoundAt(s, es, skip)
  }

  lemma {:induction false} SpareLeft(s: Stock, es: seq<Entry>, k: nat)
    requires k <= |es|
    ensures TookAll(s, es, k).spare >= s.spare - k
  {
    if k > 0 {
      SpareLeft(s, es, k - 1);
    }
  }

  /** With a free column for every call before it and one more, a call finds one. */
  lemma EnoughSpare(s: Stock, es: seq<Entry>, j: nat)
    requires j < |es| && s.spare > j
    ensures FoundAt(s, es, j)
  {
    SpareLeft(s, es, j);
  }

  /** The edges with the ends q, if any, are those of E0, unchanged. */
  ghost predicate Untouched(E0: Edges, E: Edges, q: (int, int)) {
    forall i | i in E && (E[i].st1, E[i].st2) == q :: i in E0 && E[i] == E0[i]
  }

  /** The entries from k on find the edges of E0 unchanged. */
  ghost predicate UntouchedFrom(E0: Edges, E: Edges, es: seq<Entry>, k: int) {
    forall j {:trigger es[j]} | k <= j < |es| && 0 <= j :: Untouched(E0, E, Ends(es[j]))
  }

  lemma UntouchedNext(E0: Edges, E: Edges, E': Edges, es: seq<Entry>, k: int, noar: int)
    requires UntouchedFrom(E0, E, es, k) && 0 <= k < |es| && noar in E' && E' == E[noar := E'[noar]]
    requires (E'[noar].st1, E'[noar].st2) == Ends(es[k]) && forall j | k < j < |es| :: Ends(es[j]) != Ends(es[k])
    ensures UntouchedFrom(E0, E', es, k + 1)
  {
    hide Ends;
    forall j | k + 1 <= j < |es| ensures Untouched(E0, E', Ends(es[j])) {
      assert Untouched(E0, E, Ends(es[j]));
    }
  }

  /** `fasoar_` has no error but a full table. */
  lemma NoOtherError(E0: Edges, E: Edges, T: seq<Tri>, es: seq<Entry>, k: int, nutr: seq<int>, i: int)
    requires UntouchedFrom(E0, E, es, k) && 0 <= k < |es| && RoomFor(E0, T, es[k]) && i in E
      && (E[i].st1, E[i].st2) == Ends(es[k])
    requires |nutr| <= 4 && 0 <= es[k].k1 < |nutr| && (es[k].k2 == -1 || 0 <= es[k].k2 < |nutr|)
      && forall n | 0 <= n < |nutr| :: nutr[n] > 0
    ensures Attach(E[i], nutr[es[k].k1], if es[k].k2 >= 0 then nutr[es[k].k2] else -1).1 == 0
  {
    hide RoomFor, Attach, Ends;
    assert Untouched(E0, E, Ends(es[k]));
    OldRoom(E0, T, i, es[k], nutr);
  }

  /** `fasoar_` on entry en, the new record having its ends. */
  lemma FasoarEnds(E: Edges, E': Edges, en: Entry, noar: int, t1: int, t2: int)
    requires noar in E' && (noar in E ==> (E[noar].st1, E[noar].st2) == Ends(en))
    requires if noar in E then E' == E[noar := Attach(E[noar], t1, t2).0]
      else E' == E[noar := Edge(Ends(en).0, Ends(en).1, 0, t1, t2, -1)]
    ensures E' == E[noar := E'[noar]] && (E'[noar].st1, E'[noar].st2) == Ends(en)
    ensures t1 > 0 ==> LinesKept(E, E')
  {
  }

  /** The calls of `fasoar_`, in order.  The error of number skip is not looked at: lost says that it
      failed and that noars has 0 for it. */
  method EnterAll(table: Table, store: Store, tp: Template, nutr: seq<int>, skip: int)
      returns (noars: seq<int>, ierr: int, lost: bool, ghost B: Edges)
    requires table.Valid() && Bounded(table.Live(), table.mxsomm) && Anchored(table.Live(), table.noarst[..])
    requires MeshInv(table.Live(), store.noartr[..]) && Fits(tp) && skip < |tp.entries| - 1
    requires |nutr| == |tp.tris| <= 4 && forall k | 0 <= k < |nutr| :: nutr[k] > 0
    requires forall e {:trigger tp.entries[e]} | 0 <= e < |tp.entries| ::
               tp.entries[e].u <= table.mxsomm && tp.entries[e].v <= table.mxsomm
                 && RoomFor(table.Live(), store.noartr[..], tp.entries[e])
    modifies table`n1soar, table`plan, table.nosoar, table.noarst
    ensures table.Valid() && (ierr == 0 || ierr == 1)
    ensures ierr == 0 <==> FoundBut(old(table.StockOf()), tp.entries, |tp.entries|, skip)
    ensures ierr == 0 ==> (lost <==> LostAt(old(table.StockOf()), tp.entries, skip))
    ensures ierr == 0 ==> table.StockOf() == TookAll(old(table.StockOf()), tp.entries, |tp.entries|)
    ensures ierr == 0 ==> |noars| == |tp.entries| && forall j | 0 <= j < |noars| ::
                          if lost && j == skip then noars[j] == 0 else noars[j] in table.Live()
    ensures ierr == 0 && !lost ==> Bounded(table.Live(), table.mxsomm) && Anchored(table.Live(), table.noarst[..])
    ensures ierr == 0 && !lost ==>
      Entered(old(table.Live()), store.noartr[..], B, table.Live(), tp.entries, |tp.entries|, noars, nutr)
    ensures ierr == 0 ==> LinesKept(old(table.Live()), table.Live())
  {
    hide TableInv, LiveEdges, Entered, Anchored, RoomFor, Fits, MeshInv, Attach, Bounded, Spare, Ends, Finds, Took,
      UntouchedFrom, FoundAt, FoundBut, TookAll, LinesKept;
    ghost var E0, T, s0 := table.Live(), store.noartr[..], table.StockOf();
    noars, ierr, lost, B := [], 0, false, E0;
    EnterNone(E0, T, tp.entries, nutr);
    LinesNone(E0);
    EnterStock(E0, tp.entries, s0, skip);
    var k := 0;
    while k < |tp.entries|
      invariant 0 <= k == |noars| <= |tp.entries| && table.Valid() && (lost ==> 0 <= skip < k)
      invariant table.StockOf() == TookAll(s0, tp.entries, k) && FoundBut(s0, tp.entries, k, skip)
      invariant UntouchedFrom(E0, table.Live(), tp.entries, k)
      invariant 0 <= skip < k ==> (lost <==> !FoundAt(s0, tp.entries, skip))
      invariant forall j | 0 <= j < k :: if lost && j == skip then noars[j] == 0 else noars[j] in table.Live()
      invariant !lost ==> Entered(E0, T, B, table.Live(), tp.entries, k, noars, nutr)
                          && Bounded(table.Live(), table.mxsomm) && Anchored(table.Live(), table.noarst[..])
      invariant ierr == 0 || (ierr == 1 && k == skip + 1)
      invariant store.noartr[..] == T && LinesKept(E0, table.Live())
    {
      var en := tp.entries[k];
      EntryAt(tp, k);
      EntryApart(tp, k);
      var noar;
      ghost var E, index, st := table.Live(), table.plan.index, table.noarst[..];
      var t1, t2 := nutr[en.k1], if en.k2 >= 0 then nutr[en.k2] else -1;
      KeyedOf(table.mxsoar, table.mxsomm, table.nosoar[..], table.n1soar, table.plan);
      EndsPair(en);
      noar, ierr := table.Fasoar(en.u, en.v, t1, t2, 0);
      StockNext(s0, tp.entries, k, skip, noar != 0, table.StockOf());
      if noar != 0 {
        LiveCells(table, noar);
        FasoarKeys(E, table.Live(), index, en, noar, t1, t2);
        FasoarEnds(E, table.Live(), en, noar, t1, t2);
        LinesTwice(E0, E, table.Live());
        UntouchedNext(E0, E, table.Live(), tp.entries, k, noar);
        if noar in E {
          NoOtherError(E0, E, T, tp.entries, k, nutr, noar);
        }
      } else {
        UntouchedLess(E0, E, tp.entries, k);
      }
      if !lost {
        if noar != 0 {
          EnterNext(E0, T, B, E, table.Live(), tp.entries, k, noars, nutr, noar);
          FasoarAnchored(E, table.Live(), st, table.noarst[..], table.mxsomm, en, noar, t1, t2);
          B := if noar in E then B else B[noar := Bare(Ends(en))];
        } else if k == skip {
          lost := true;
        }
      }
      if ierr != 0 && k != skip {
        NotFound(s0, tp.entries, k, skip);
        return;
      }
      noars := noars + [noar];
      k := k + 1;
    }
  }

  lemma EndsPair(en: Entry)
    ensures Ends(en) == Pair(en.u, en.v)
  {
  }

  lemma EnterStock(E0: Edges, es: seq<Entry>, s: Stock, skip: int)
    ensures UntouchedFrom(E0, E0, es, 0) && TookAll(s, es, 0) == s && FoundBut(s, es, 0, skip)
  {
  }

  lemma UntouchedLess(E0: Edges, E: Edges, es: seq<Entry>, k: int)
    requires UntouchedFrom(E0, E, es, k)
    ensures UntouchedFrom(E0, E, es, k + 1)
  {
  }

  /** The stock after one call more. */
  lemma StockNext(s: Stock, es: seq<Entry>, k: nat, skip: int, found: bool, t: Stock)
    requires k < |es| && (found <==> Finds(TookAll(s, es, k), Ends(es[k])))
    requires t == if found then Took(TookAll(s, es, k), Ends(es[k])) else TookAll(s, es, k)
    ensures t == TookAll(s, es, k + 1) && (found <==> FoundAt(s, es, k))
    ensures FoundBut(s, es, k, skip) && (found || k == skip) ==> FoundBut(s, es, k + 1, skip)
  {
    hide Finds, Took, Ends;
  }

  lemma NotFound(s: Stock, es: seq<Entry>, k: nat, skip: int)
    requires k < |es| && k != skip && !FoundAt(s, es, k)
    ensures !FoundBut(s, es, |es|, skip)
  {
  }

  lemma EntryApart(tp: Template, k: int)
    requires Fits(tp) && 0 <= k < |tp.entries|
    ensures forall j | k < j < |tp.entries| :: Ends(tp.entries[j]) != Ends(tp.entries[k])
  {
  }

  lemma EnterNone(E0: Edges, T: seq<Tri>, es: seq<Entry>, nutr: seq<int>)
    requires MeshInv(E0, T)
    ensures Entered(E0, T, E0, E0, es, 0, [], nutr)
  {
  }

  lemma EntryAt(tp: Template, k: int)
    requires Fits(tp) && 0 <= k < |tp.entries|
    ensures EntryFits(tp, k) && forall j | 0 <= j < k :: Ends(tp.entries[j]) != Ends(tp.entries[k])
  {
  }

  /** `fasoar_` keeps the ends of all edges. */
  lemma FasoarKeys(E: Edges, E': Edges, index: map<(int, int), int>, en: Entry, noar: int, t1: int, t2: int)
    requires Keyed(E, index) && noar in E'
    requires if Ends(en) in index then noar == index[Ends(en)] && E' == E[noar := Attach(E[noar], t1, t2).0]
             else noar !in E && E' == E[noar := Edge(Ends(en).0, Ends(en).1, 0, t1, t2, -1)]
    ensures E.Keys <= E'.Keys && E'.Keys == E.Keys + {noar}
    ensures (noar in E <==> Ends(en) in index) && (noar in E ==> (E[noar].st1, E[noar].st2) == Ends(en))
  {
  }

  lemma FasoarAnchored(E: Edges, E': Edges, st: seq<int>, st': seq<int>, mx: int, en: Entry, noar: int, t1: int,
      t2: int)
    requires Bounded(E, mx) && Anchored(E, st) && |st| == mx + 1 && 0 < en.u <= mx && 0 < en.v <= mx
    requires if noar in E then E' == E[noar := Attach(E[noar], t1, t2).0] && st' == st
             else E' == E[noar := Edge(Ends(en).0, Ends(en).1, 0, t1, t2, -1)] && st' == st[en.u := noar][en.v := noar]
    ensures Bounded(E', mx) && Anchored(E', st')
  {
    forall s | 0 <= s < |st'| && st'[s] > 0 ensures Touches(E', st'[s], s) {
      if st'[s] == st[s] && st[s] > 0 {
        assert Touches(E, st[s], s);
      }
    }
  }

  /** The columns for the n triangles of a template leave the free list. */
  method ReserveAll(store: Store, n: nat) returns (nutr: seq<int>, ierr: int)
    requires store.Valid()
    modifies store`n1artr, store`vacant
    ensures ierr == (if |old(store.vacant)| < n then 2 else 0)
    ensures ierr == 0 ==> store.ValidBut(nutr) && |nutr| == n && store.vacant == old(store.vacant)[n..]
                          && nutr == old(store.vacant)[..n]
    ensures ierr == 0 ==> forall k | 0 <= k < n :: 1 <= nutr[k] < store.noartr.Length && store.noartr[nutr[k]].a1 == 0
  {
    hide Vacancy, VacancyBut;
    VacancyNone(store.noartr[..], store.n1artr, store.vacant);
    nutr := [];
    while |nutr| < n
      invariant |nutr| <= n && |nutr| <= |old(store.vacant)| && store.ValidBut(nutr)
      invariant store.vacant == old(store.vacant)[|nutr|..] && nutr == old(store.vacant)[..|nutr|]
      invariant forall k | 0 <= k < |nutr| :: 1 <= nutr[k] < store.noartr.Length && store.noartr[nutr[k]].a1 == 0
    {
      var nt := store.Reserve(nutr);
      if nt == 0 {
        return nutr, 2;
      }
      nutr := nutr + [nt];
    }
    ierr := 0;
  }

  /** Side s, signed by the first vertex of its edge. */
  method SignSide(table: Table, es: seq<Entry>, noars: seq<int>, s: Side) returns (a: int)
    requires table.Valid() && 0 <= s.e < |noars| <= |es|
    requires noars[s.e] == 0 || noars[s.e] in table.Live()
    ensures a == if noars[s.e] == 0 then 0 else SignedSide(table.Live(), es, noars, s)
  {
    hide TableInv;
    if noars[s.e] != 0 {
      LiveCells(table, noars[s.e]);
    }
    var lesign := if From(es, s) == table.nosoar[noars[s.e]].st1 then 1 else -1;
    a := if lesign == 1 then noars[s.e] else -noars[s.e];
  }

  /** The three sides of column number k of the template. */
  method SignTriangle(table: Table, tp: Template, noars: seq<int>, k: int) returns (x: Tri)
    requires table.Valid() && |noars| == |tp.entries| && TriFits(tp, k)
    requires forall j | 0 <= j < |noars| :: noars[j] == 0 || noars[j] in table.Live()
    ensures (forall j | 0 <= j < |noars| :: noars[j] != 0) ==> x == TriOf(table.Live(), tp.entries, noars, tp.tris[k])
    ensures noars[tp.tris[k].a.e] != 0 ==> SidesAre(x, noars, tp.tris[k]) && x.a1 != 0
  {
    hide TableInv, LiveEdges;
    LivePositive(table, noars);
    var a1 := SignSide(table, tp.entries, noars, tp.tris[k].a);
    var a2 := SignSide(table, tp.entries, noars, tp.tris[k].b);
    var a3 := SignSide(table, tp.entries, noars, tp.tris[k].c);
    x := Tri(a1, a2, a3);
  }

  lemma LivePositive(table: Table, noars: seq<int>)
    requires table.Valid()
    ensures forall j | 0 <= j < |noars| && noars[j] in table.Live() :: noars[j] > 0
  {
  }

  /** The columns are written.  first: no triangle of the template starts with the side skip. */
  method FillAll(table: Table, store: Store, tp: Template, nutr: seq<int>, noars: seq<int>, lost: bool, skip: int)
    requires table.Valid() && store.ValidBut(nutr) && |nutr| == |tp.tris| && |noars| == |tp.entries| && Fits(tp)
    requires forall k | 0 <= k < |nutr| :: 1 <= nutr[k] < store.noartr.Length && store.noartr[nutr[k]].a1 == 0
    requires forall j | 0 <= j < |noars| :: if lost && j == skip then noars[j] == 0 else noars[j] in table.Live()
    requires forall k {:trigger tp.tris[k]} | 0 <= k < |tp.tris| :: tp.tris[k].a.e != skip
    modifies store.noartr
    ensures store.ValidBut([])
    ensures !lost ==> Written(old(store.noartr[..]), store.noartr[..], table.Live(), tp, noars, nutr)
    ensures lost && 0 <= skip < |tp.entries| ==> !MeshInv(table.Live(), store.noartr[..])
  {
    hide TableInv, LiveEdges, Fits, VacancyBut, MeshInv, SidesAre, TriOf;
    ghost var T := store.noartr[..];
    LivePositive(table, noars);
    ReservedApart(T, store.n1artr, store.vacant, nutr);
    var k := 0;
    while k < |nutr|
      invariant 0 <= k <= |nutr| && store.ValidBut(nutr[k..])
      invariant |store.noartr[..]| == |T| && forall t | 0 <= t < |T| && t !in nutr[..k] :: store.noartr[t] == T[t]
      invariant forall j {:trigger nutr[j]} | 0 <= j < k :: SidesAre(store.noartr[nutr[j]], noars, tp.tris[j])
      invariant !lost ==> forall j {:trigger nutr[j]} | 0 <= j < k ::
                          store.noartr[nutr[j]] == TriOf(table.Live(), tp.entries, noars, tp.tris[j])
    {
      FitAt(tp, k);
      var x := SignTriangle(table, tp, noars, k);
      store.Fill(nutr[k..], nutr[k], x);
      assert nutr[k..][1..] == nutr[k + 1..];
      assert nutr[..k + 1] == nutr[..k] + [nutr[k]];
      k := k + 1;
    }
    assert nutr[|nutr|..] == [] && nutr[..|nutr|] == nutr;
    if lost && 0 <= skip < |tp.entries| {
      LostSide(tp, table.Live(), store.noartr[..], noars, nutr, skip);
    }
  }

  predicate SidesAre(x: Tri, noars: seq<int>, t: Corner3) {
    && 0 <= t.a.e < |noars| && 0 <= t.b.e < |noars| && 0 <= t.c.e < |noars|
    && Abs(x.a1) == noars[t.a.e] && Abs(x.a2) == noars[t.b.e] && Abs(x.a3) == noars[t.c.e] && x.a1 != 0
  }

  lemma ReservedApart(T: seq<Tri>, n1: int, vacant: seq<int>, r: seq<int>)
    requires VacancyBut(T, n1, vacant, r)
    ensures Unique(r)
  {
  }

  lemma FitAt(tp: Template, k: int)
    requires Fits(tp) && 0 <= k < |tp.tris|
    ensures TriFits(tp, k)
  {
  }

  /** An active triangle with a side 0 is no triangle. */
  lemma LostSide(tp: Template, E: Edges, T: seq<Tri>, noars: seq<int>, nutr: seq<int>, skip: int)
    requires Fits(tp) && |nutr| == |tp.tris| && |noars| == |tp.entries| && 0 <= skip < |tp.entries| && noars[skip] == 0
    requires forall k {:trigger nutr[k]} | 0 <= k < |nutr| ::
      1 <= nutr[k] < |T| && SidesAre(T[nutr[k]], noars, tp.tris[k])
    ensures !MeshInv(E, T)
  {
    assert EntryFits(tp, skip);
    var k := tp.entries[skip].k1;
    var t := nutr[k];
    assert Active(T, t);
  }

  /** A template, from the free columns and the edge table to the written triangles.  When the error
      of entry skip was not looked at and it was one, a triangle has a side 0 and the mesh is broken. */
  method Build(table: Table, store: Store, tp: Template, skip: int) returns (nutr: seq<int>, ierr: int, lost: bool)
    requires Fitting(table, store, tp) && skip < |tp.entries| - 1
      && forall k {:trigger tp.tris[k]} | 0 <= k < |tp.tris| :: tp.tris[k].a.e != skip
    modifies table`n1soar, table`plan, table.nosoar, table.noarst, store`n1artr, store`vacant, store.noartr
    ensures ierr == 0 || ierr == 1 || ierr == 2
    ensures ierr == 2 <==> |old(store.vacant)| < |tp.tris|
    ensures ierr == 0 <==> |old(store.vacant)| >= |tp.tris|
                           && FoundBut(old(table.StockOf()), tp.entries, |tp.entries|, skip)
    ensures ierr == 0 ==> (lost <==> LostAt(old(table.StockOf()), tp.entries, skip))
    ensures ierr == 0 ==> table.StockOf() == TookAll(old(table.StockOf()), tp.entries, |tp.entries|)
    ensures ierr == 0 ==> |nutr| == |tp.tris| && nutr <= old(store.vacant)
    ensures ierr == 0 && !lost ==> Sound(table, store.noartr) && store.Valid()
                                   && store.vacant == old(store.vacant)[|nutr|..]
    ensures ierr == 0 && !lost ==>
      Drawn(old(table.Live()), old(store.noartr[..]), table.Live(), store.noartr[..], tp, nutr)
    ensures ierr == 0 ==> LinesKept(old(table.Live()), table.Live())
    ensures ierr == 0 && lost ==> !MeshInv(table.Live(), store.noartr[..])
  {
    hide TableInv, LiveEdges, Vacancy, VacancyBut, Entered, Fits, RoomFor, MeshInv, Anchored, Bounded, Written, Spare,
      FoundBut, LostAt, Heads, TookAll, LinesKept;
    ghost var E0, T := table.Live(), store.noartr[..];
    lost := false;
    nutr, ierr := ReserveAll(store, |tp.tris|);
    if ierr != 0 {
      return;
    }
    ReservedApart(T, store.n1artr, store.vacant, nutr);
    var noars;
    ghost var B;
    LostSkip(table.StockOf(), tp.entries, skip);
    noars, ierr, lost, B := EnterAll(table, store, tp, nutr, skip);
    if ierr != 0 {
      return;
    }
    FillAll(table, store, tp, nutr, noars, lost, skip);
    VacancyNone(store.noartr[..], store.n1artr, store.vacant);
    if !lost {
      BuiltPatch(tp, E0, T, store.noartr[..], B, table.Live(), noars, nutr);
      BuiltDrawn(tp, E0, T, store.noartr[..], B, table.Live(), noars, nutr);
    }
  }

  lemma LostSkip(s: Stock, es: seq<Entry>, skip: int)
    ensures LostAt(s, es, skip) ==> 0 <= skip < |es|
  {
  }

  /** What a template adds: the triangles nutr with its corners, and edges. */
  ghost predicate Drawn(E: Edges, T: seq<Tri>, E': Edges, T': seq<Tri>, tp: Template, nutr: seq<int>) {
    && Grows(E, E') && |T'| == |T| && |nutr| == |tp.tris| && Unique(nutr)
    && (forall k {:trigger nutr[k]} | 0 <= k < |nutr| ::
      Active(T', nutr[k]) && !Active(T, nutr[k]) && Verts(E', T'[nutr[k]]) == CornersAt(tp, k))
    && (forall t | 0 <= t < |T| && t !in nutr :: T'[t] == T[t])
  }

  lemma BuiltDrawn(tp: Template, E0: Edges, T: seq<Tri>, T': seq<Tri>, B: Edges, E: Edges, noars: seq<int>,
      nutr: seq<int>)
    requires Fits(tp) && Entered(E0, T, B, E, tp.entries, |tp.entries|, noars, nutr)
      && Written(T, T', E, tp, noars, nutr)
    requires forall k | 0 <= k < |nutr| :: Verts(E, T'[nutr[k]]) == CornersAt(tp, k)
    ensures Drawn(E0, T, E, T', tp, nutr)
  {
    forall i | i in E0 ensures i in E && E[i].st1 == E0[i].st1 && E[i].st2 == E0[i].st2 {
      EnteredEnds(E0, T, B, E, tp.entries, |tp.entries|, noars, nutr, i);
    }
    forall k | 0 <= k < |nutr| ensures Active(T', nutr[k]) && !Active(T, nutr[k]) {
      assert TriFits(tp, k);
      SideRuns(tp, E0, T, B, E, noars, nutr, k, tp.tris[k].a);
      assert T'[nutr[k]] == TriOf(E, tp.entries, noars, tp.tris[k]);
    }
    hide Entered, Fits, Verts;
  }
}
