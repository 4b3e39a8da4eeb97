/** Where `focftr_` returns without an error and what it leaves is no contour of the whole hole, or no
    mesh. */
module Holes {
  import opened Lists
  import opened EdgeTable
  import opened Mesh
  import opened Triangles
  import opened Emit
  import opened Etoile
  import opened Focftr
  import opened Refill
  import opened Curves

  // ---------------------------------------------------------------- more than 512 corners

  /** `focftr_` gives up with more than 512 corners after it has taken the triangles off their edges
      and before it frees them: triangles are left that their edges do not list. */
  lemma StillActive(E0: Edges, E: Edges, T: seq<Tri>, ts: seq<int>, ch: seq<int>, via: map<int, int>, order: seq<int>,
      v: seq<int>, rem: seq<int>)
    requires Ordered(E0, T, ts, ch, via, order, v, rem) && Taken(E0, E, T, ts, via)
    ensures !MeshInv(NeatAll(E), T)
  {
    hide Walked, Way, HasOuter, Taken;
    OrderedVia(E0, T, ts, ch, via, order, v, rem);
    OrderedParts(E0, T, ts, ch, via, order, v, rem);
    var i := order[0];
    assert i in ch;
    hide Ordered, Chain0, Chosen;
    ChosenIn(T, ts, via[i]);
    OuterFacts(E0, E, T, ts, ch, via, i);
    Unlisted(E0, E, i, via[i]);
    hide Simple, Taken;
    assert TriOk(NeatAll(E), T, via[i]) ==> !MeshInv(NeatAll(E), T) by {
      hide MeshInv;
      assert !TriOk(NeatAll(E), T, via[i]);
    }
  }

  lemma Unlisted(E0: Edges, E: Edges, i: int, t: int)
    requires i in E0 && i in E && SameBut(Freed(E0[i], t), E[i]) && t > 0
    requires (E0[i].tr1 == t || E0[i].tr2 == t) && !(E0[i].tr1 == t && E0[i].tr2 == t)
    ensures i in NeatAll(E) && !Listed(NeatAll(E)[i], t)
  {
  }

  // ---------------------------------------------------------------- two holes at once

  /** The triangles 1 2 3 and 4 5 6 without a common vertex, and 2 1 7 beside the first. */
  function ApartEdges(): (E: Edges) {
    map[1 := Edge(1, 2, 0, 1, 3, -1), 2 := Edge(2, 3, 0, 1, 0, -1), 3 := Edge(1, 3, 0, 1, 0, -1),
      4 := Edge(4, 5, 0, 2, 0, -1), 5 := Edge(5, 6, 0, 2, 0, -1), 6 := Edge(4, 6, 0, 2, 0, -1),
      7 := Edge(1, 7, 0, 3, 0, -1), 8 := Edge(2, 7, 0, 3, 0, -1)]
  }

  function ApartTriangles(): (T: seq<Tri>) {
    [Tri(0, 0, 0), Tri(1, 2, -3), Tri(4, 5, -6), Tri(-1, 7, -8)]
  }

  lemma ApartSound()
    ensures MeshInv(ApartEdges(), ApartTriangles())
  {
    forall t | Active(ApartTriangles(), t) ensures TriOk(ApartEdges(), ApartTriangles(), t) {
      assert t == 1 || t == 2 || t == 3;
    }
    forall i | i in ApartEdges() ensures i > 0 && EdgeOk(ApartEdges(), ApartTriangles(), i) {
      assert i == 1 || i == 2 || i == 3 || i == 4 || i == 5 || i == 6 || i == 7 || i == 8;
    }
  }

  lemma SidesTwo(T: seq<Tri>, t: int, u: int)
    requires 0 <= t < |T| && 0 <= u < |T|
    ensures SidesOf(T, [t, u]) == SidesAt(T, t) + SidesAt(T, u)
  {
    assert [t, u][..1] == [t] && [t][..0] == [];
    assert SidesOf(T, [t]) == SidesAt(T, t);
  }

  /** The simple edges of the first two triangles are 1 to 6. */
  lemma ApartSimple(ch: seq<int>)
    requires Simple(ApartEdges(), ApartTriangles(), [1, 2], ch)
    ensures forall i :: i in ch <==> 1 <= i <= 6
  {
    forall i ensures i in ch <==> 1 <= i <= 6 {
      ApartCount(i);
    }
  }

  lemma ApartCount(i: int)
    ensures i in ApartEdges() && Count(ApartTriangles(), [1, 2], i) == 1 <==> 1 <= i <= 6
  {
    SidesTwo(ApartTriangles(), 1, 2);
    assert SidesOf(ApartTriangles(), [1, 2]) == [1, 2, 3, 4, 5, 6];
    hide ApartTriangles;
    SixOnce(i);
  }

  lemma SixOnce(i: int)
    ensures multiset([1, 2, 3, 4, 5, 6])[i] == if 1 <= i <= 6 then 1 else 0
  {
    assert multiset([1, 2, 3, 4, 5, 6]) == multiset{1, 2, 3, 4, 5, 6};
  }

  /** The ends of the six edges. */
  predicate IsEnd(i: int, s: int) {
    (i == 1 && (s == 1 || s == 2)) || (i == 2 && (s == 2 || s == 3)) || (i == 3 && (s == 1 || s == 3))
    || (i == 4 && (s == 4 || s == 5)) || (i == 5 && (s == 5 || s == 6)) || (i == 6 && (s == 4 || s == 6))
  }

  lemma ApartEnd(i: int, s: int)
    requires 1 <= i <= 6
    ensures HasEnd(ApartEdges(), i, s) <==> IsEnd(i, s)
    ensures i in ApartEdges() && ApartEdges()[i].st1 != ApartEdges()[i].st2
  {
  }

  /** The other edge at the end s of edge i. */
  function Other(i: int, s: int): (j: int) {
    (if s == 1 then 4 else if s == 2 then 3 else if s == 3 then 5 else if s == 4 then 10
                                                                       else if s == 5 then 9 else 11) - i
  }

  lemma OtherEnd(i: int, s: int)
    requires IsEnd(i, s)
    ensures Other(i, s) != i && IsEnd(Other(i, s), s) && 1 <= i <= 6 && 1 <= Other(i, s) <= 6
    ensures forall j | IsEnd(j, s) :: j == i || j == Other(i, s)
  {
  }

  lemma ApartRegular(ch: seq<int>)
    requires forall i :: i in ch <==> 1 <= i <= 6
    ensures TwoRegular(ApartEdges(), ch)
  {
    forall i, s ensures 1 <= i <= 6 ==> (HasEnd(ApartEdges(), i, s) <==> IsEnd(i, s)) {
      if 1 <= i <= 6 {
        ApartEnd(i, s);
      }
    }
    forall i | i in ch ensures i in ApartEdges() && ApartEdges()[i].st1 != ApartEdges()[i].st2 {
      ApartEnd(i, 0);
    }
    hide ApartEdges, HasEnd, IsEnd, Other;
    forall i, s | i in ch && HasEnd(ApartEdges(), i, s)
      ensures exists j :: j in ch && j != i && HasEnd(ApartEdges(), j, s)
    {
      OtherEnd(i, s);
      assert HasEnd(ApartEdges(), Other(i, s), s);
    }
    forall i, j, k, s | i in ch && j in ch && k in ch
      && HasEnd(ApartEdges(), i, s) && HasEnd(ApartEdges(), j, s) && HasEnd(ApartEdges(), k, s)
      ensures i == j || j == k || i == k
    {
      OtherEnd(i, s);
      assert IsEnd(j, s) && IsEnd(k, s);
    }
  }

  lemma ApartParts(ch: seq<int>)
    requires forall i :: i in ch <==> 1 <= i <= 6
    ensures !Connected(ApartEdges(), ch)
  {
    var a := {1, 2, 3};
    assert PartOf(a, ch) by { assert 1 in a && 4 in ch && 4 !in a; }
    forall i, j, s | i in a && j in ch && j !in a ensures !(HasEnd(ApartEdges(), i, s) && HasEnd(ApartEdges(), j, s)) {
      ApartEnd(i, s);
      ApartEnd(j, s);
    }
    hide ApartEdges, HasEnd;
  }

  /** Set free together, they leave two borders.  The walk of `focftr_` comes back after one of them:
      no error, and edges of the other left on the chain. */
  lemma OtherBorder(ch: seq<int>, via: map<int, int>, order: seq<int>, v: seq<int>, rem: seq<int>)
    requires Ordered(ApartEdges(), ApartTriangles(), [1, 2], ch, via, order, v, rem)
    ensures v[|order|] == v[0] && rem != []
  {
    hide *;
    OrderedParts(ApartEdges(), ApartTriangles(), [1, 2], ch, via, order, v, rem);
    ApartSimple(ch);
    ApartRegular(ch);
    ApartParts(ch);
    OrderCloses(ApartEdges(), ApartTriangles(), [1, 2], ch, via, order, v, rem);
    OrderExact(ApartEdges(), ApartTriangles(), [1, 2], ch, via, order, v, rem);
    if rem == [] {
      OneCurveAt(ApartEdges(), ApartTriangles(), [1, 2], ch);
    }
  }

  /** There `focftr_` reports none of its other errors. */
  lemma ApartNoError()
    ensures var E, T := ApartEdges(), ApartTriangles();
      MeshInv(E, T) && Chosen(T, [1, 2]) && !TooLong(SidesOf(T, [1, 2])) && !NoOuter(E, T, [1, 2])
      && SimpleSet(E, T, [1, 2]) != {}
  {
    ApartSound();
    ApartOuter();
    FewTriangles(ApartTriangles(), [1, 2]);
    hide MeshInv, TooLong, ApartEdges, ApartTriangles, NoOuter;
  }

  lemma ApartOuter()
    ensures var E, T := ApartEdges(), ApartTriangles();
      Chosen(T, [1, 2]) && !NoOuter(E, T, [1, 2]) && SimpleSet(E, T, [1, 2]) != {}
  {
    var E, T := ApartEdges(), ApartTriangles();
    assert Active(T, 1) && Active(T, 2);
    ApartOne();
    hide ApartEdges, ApartTriangles, Count, HasOuter;
    assert 1 in SimpleSet(E, T, [1, 2]);
  }

  /** Edge 1 is simple, with triangle 3 outside. */
  lemma ApartOne()
    ensures 1 in ApartEdges() && Count(ApartTriangles(), [1, 2], 1) == 1 && HasOuter(ApartEdges(), [1, 2], 1)
  {
    SidesTwo(ApartTriangles(), 1, 2);
    assert SidesOf(ApartTriangles(), [1, 2]) == [1, 2, 3, 4, 5, 6];
    assert ApartEdges()[1] == Edge(1, 2, 0, 1, 3, -1);
    hide ApartEdges, ApartTriangles;
  }

  // ---------------------------------------------------------------- a line inside the hole

  /** The triangles 1 2 3 and 1 4 2 on either side of edge 1, which lies on a line, and 3 2 5. */
  function LineEdges(): (E: Edges) {
    map[1 := Edge(1, 2, 1, 1, 2, -1), 2 := Edge(2, 3, 0, 1, 3, -1), 3 := Edge(1, 3, 0, 1, 0, -1),
      4 := Edge(1, 4, 0, 2, 0, -1), 5 := Edge(2, 4, 0, 2, 0, -1), 6 := Edge(2, 5, 0, 3, 0, -1),
      7 := Edge(3, 5, 0, 3, 0, -1)]
  }

  function LineTriangles(): (T: seq<Tri>) {
    [Tri(0, 0, 0), Tri(1, 2, -3), Tri(4, -5, -1), Tri(-2, 6, -7)]
  }

  lemma LineSound()
    ensures MeshInv(LineEdges(), LineTriangles())
  {
    forall t | Active(LineTriangles(), t) ensures TriOk(LineEdges(), LineTriangles(), t) {
      assert t == 1 || t == 2 || t == 3;
    }
    forall i | i in LineEdges() ensures i > 0 && EdgeOk(LineEdges(), LineTriangles(), i) {
      assert i == 1 || i == 2 || i == 3 || i == 4 || i == 5 || i == 6 || i == 7;
    }
  }

  /** The first two set free: the line edge between them goes on listing one of them. */
  lemma LineKept(E: Edges, T': seq<Tri>, ch: seq<int>, via: map<int, int>, order: seq<int>, v: seq<int>, rem: seq<int>)
    requires Ordered(LineEdges(), LineTriangles(), [1, 2], ch, via, order, v, rem)
    requires Taken(LineEdges(), E, LineTriangles(), [1, 2], via) && Emptied(LineTriangles(), T', [1, 2])
    ensures !MeshInv(NeatAll(E), T')
  {
    LineTwice();
    hide *;
    LooseMesh(LineEdges(), E, LineTriangles(), T', [1, 2], ch, via, order, v, rem);
  }

  lemma LineTwice()
    ensures 1 in LineEdges() && LineEdges()[1].line > 0 && Count(LineTriangles(), [1, 2], 1) >= 2
  {
    SidesTwo(LineTriangles(), 1, 2);
    assert SidesOf(LineTriangles(), [1, 2]) == [1, 2, 3, 4, 5, 1];
    assert LineEdges()[1] == Edge(1, 2, 1, 1, 2, -1);
    hide LineEdges, LineTriangles;
  }
}
