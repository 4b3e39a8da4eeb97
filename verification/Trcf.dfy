/** `trcf0a_`..`trcf3s_`: a triangle is cut off the last closed contour, in place. */
module Trcf {
  import opened Lists
  import opened EdgeTable
  import opened Mesh
  import opened Exchange
  import opened Contours
  import opened Cutting
  import opened Triangles

  class Contour {
    const mxarcf: nat
    const noarcf: array<Slot>
    const n1arcf: array<int>
    var nbcf: int
    ghost var free: seq<int>
    ghost var lists: seq<seq<int>>

    ghost predicate Valid(E: Edges)
      reads this, noarcf, n1arcf
    {
      && noarcf.Length == n1arcf.Length == mxarcf + 1 && nbcf == |lists| <= mxarcf
      && Held(E, noarcf[..], n1arcf[..], free, lists)
    }

    /** The arrays of the caller. */
    constructor (mxarcf: nat, noarcf: array<Slot>, n1arcf: array<int>, nbcf: int, ghost free: seq<int>,
        ghost lists: seq<seq<int>>)
      ensures this.mxarcf == mxarcf && this.noarcf == noarcf && this.n1arcf == n1arcf && this.nbcf == nbcf
      ensures this.free == free && this.lists == lists
    {
      this.mxarcf, this.noarcf, this.n1arcf, this.nbcf := mxarcf, noarcf, n1arcf, nbcf;
      this.free, this.lists := free, lists;
    }

    /** The contours as polygons of vertices. */
    ghost function Polygons(): (r: seq<seq<int>>)
      reads this, noarcf
      ensures |r| == |lists|
    {
      Polys(noarcf[..], lists)
    }

    /** The first edges of the contours. */
    ghost function Firsts(): (r: seq<(int, int)>)
      reads this, noarcf, n1arcf
      ensures |r| == |lists|
    {
      FirstsOf(noarcf[..], n1arcf[..], |lists|)
    }

    /** Contour c, read from its member number k. */
    ghost method Turn(E: Edges, c: int, k: nat)
      requires Valid(E) && 0 <= c < nbcf && k <= |lists[c]|
      modifies `lists
      ensures Valid(E)
      ensures lists == TurnedAt(old(lists), c, k)
      ensures Polygons() == TurnedAt(old(Polygons()), c, k)
    {
      hide Held;
      TurnHeld(E, noarcf[..], n1arcf[..], free, lists, c, k);
      lists := lists[c := lists[c][k..] + lists[c][..k]];
    }

    /** The last contour, read from its second corner. */
    ghost method TurnTop(E: Edges, x1: int, a: seq<int>, x2: int, b: seq<int>, x3: int, c: seq<int>)
      requires Valid(E) && nbcf > 0 && Top(lists) == Ring3(x1, a, x2, b, x3, c)
      modifies `lists
      ensures Valid(E) && Top(lists) == Ring3(x2, b, x3, c, x1, a)
      ensures Below(Polygons()) == Below(old(Polygons()))
    {
      hide Held, Ring3, Polys;
      TurnRing(x1, a, x2, b, x3, c);
      Turn(E, nbcf - 1, 1 + |a|);
    }

    /** The end of `trcf2a_`: slot na1 skips na2, which becomes free. */
    method Clip(na1: int, na2: int, na3: int, noar3: int, ghost c: seq<int>, ghost E: Edges)
      requires Valid(E) && nbcf > 0 && c != [] && Top(lists) == Ring3(na1, [], na2, [], na3, c)
      requires Names(E, noar3, Som(noarcf[..], na3), Som(noarcf[..], na1))
      modifies `free, `lists, noarcf, n1arcf
      ensures Valid(E) && nbcf == old(nbcf) && |free| == |old(free)| + 1
      ensures Polygons()
        == Below(old(Polygons())) + [[Som(old(noarcf[..]), na1), Som(old(noarcf[..]), na3)] + Poly(old(noarcf[..]), c)]
    {
      hide Held, Ring3, Names, Chain;
      ghost var s, h, below := noarcf[..], n1arcf[..], Below(lists);
      TopSlots(E, s, h, free, lists, na1, [], na2, [], na3, c);
      ClipHeld(E, s, h, free, below, na1, na2, na3, c, noar3);
      noarcf[na1] := noarcf[na1].(suiv := na3);
      noarcf[na1] := noarcf[na1].(noar := noar3);
      noarcf[na2] := noarcf[na2].(suiv := n1arcf[0]);
      n1arcf[0] := na2;
      n1arcf[nbcf] := na1;
      free := [na2] + free;
      lists := below + [[na1, na3] + c];
      assert noarcf[..] == Cutting.Clip(s, na1, na2, na3, noar3, h[0]);
      assert n1arcf[..] == h[0 := na2][|below| + 1 := na1];
      PolysAdd(noarcf[..], s, below, [[na1, na3] + c], old(lists));
    }

    /** The end of the first case of `trcf3s_`: the contour na1, na2, na3 becomes free. */
    method Close(na1: int, ghost na2: int, na3: int, ghost E: Edges)
      requires Valid(E) && nbcf > 0 && Top(lists) == Ring3(na1, [], na2, [], na3, [])
      modifies `nbcf, `free, `lists, noarcf, n1arcf
      ensures Valid(E) && nbcf == old(nbcf) - 1 && |free| == |old(free)| + 3
      ensures Polygons() == Below(old(Polygons()))
    {
      hide Held, Ring3, Chain;
      ghost var s, h, below := noarcf[..], n1arcf[..], Below(lists);
      TopSlots(E, s, h, free, lists, na1, [], na2, [], na3, []);
      CloseHeld(E, s, h, free, below, na1, na2, na3);
      noarcf[na3] := noarcf[na3].(suiv := n1arcf[0]);
      n1arcf[0] := na1;
      nbcf := nbcf - 1;
      free := [na1] + ([na2] + ([na3] + free));
      lists := below;
      assert noarcf[..] == s[na3 := s[na3].(suiv := h[0])];
      assert n1arcf[..] == h[0 := na1];
      PolysAdd(noarcf[..], s, below, [], old(lists));
      assert below + [] == below;
    }

    /** The first contour of `trcf1a_`: slot na2 leads to na1, and is its first. */
    method FirstPiece(na1: int, na2: int, noar1: int)
      requires noarcf.Length == n1arcf.Length == mxarcf + 1 && 0 < nbcf < mxarcf && 0 <= na2 < noarcf.Length
      modifies `nbcf, noarcf, n1arcf
      ensures nbcf == old(nbcf) + 1 && n1arcf[..] == old(n1arcf[..])[old(nbcf) := na2]
      ensures noarcf[..] == old(noarcf[..])[na2 := Slot(old(noarcf[na2]).som, na1, noar1)]
    {
      noarcf[na2] := noarcf[na2].(suiv := na1);
      noarcf[na2] := noarcf[na2].(noar := noar1);
      n1arcf[nbcf] := na2;
      nbcf := nbcf + 1;
    }

    /** The second contour of `trcf1a_`, from the new slot nav, which na01 leads to. */
    method NewPiece(na01: int, na1: int, na3: int, noar3: int, nav: int)
      requires noarcf.Length == n1arcf.Length == mxarcf + 1 && 0 < nbcf <= mxarcf
      requires 0 <= na01 < noarcf.Length && 0 <= na1 < noarcf.Length && 0 <= nav < noarcf.Length && nav != na01
      modifies noarcf, n1arcf
      ensures n1arcf[..] == old(n1arcf[..])[nbcf := nav]
      ensures noarcf[..] == old(noarcf[..])[nav := Slot(old(noarcf[na1]).som, na3, noar3)]
                                           [na01 := old(noarcf[na01]).(suiv := nav)]
    {
      noarcf[nav] := Slot(noarcf[na1].som, na3, noar3);
      noarcf[na01] := noarcf[na01].(suiv := nav);
      n1arcf[nbcf] := nav;
    }

    /** The end of `trcf1a_`: the contour is divided in two; false when no slot is free. */
    method Divide(na01: int, na1: int, na2: int, na3: int, noar1: int, noar3: int, ghost a: seq<int>, ghost c: seq<int>,
        ghost E: Edges) returns (done: bool)
      requires Valid(E) && 0 < nbcf < mxarcf && a != [] && c != [] && Top(lists) == Ring3(na1, a, na2, [], na3, c)
      requires na01 == c[|c| - 1]
      requires Names(E, noar1, Som(noarcf[..], na1), Som(noarcf[..], na2))
        && Names(E, noar3, Som(noarcf[..], na3), Som(noarcf[..], na1))
      modifies `nbcf, `free, `lists, noarcf, n1arcf
      ensures done <==> |old(free)| >= 1
      ensures done ==> Valid(E) && nbcf == old(nbcf) + 1 && |free| == |old(free)| - 1
      ensures var s := old(noarcf[..]);
              done ==> Polygons() == Below(old(Polygons())) + [[Som(s, na2), Som(s, na1)] + Poly(s, a),
                       [Som(s, na1), Som(s, na3)] + Poly(s, c)]
    {
      hide Held, Ring3, Names, Chain, Polys, Poly, Cutting.Divide;
      ghost var s, h, below := noarcf[..], n1arcf[..], Below(lists);
      TopSlots(E, s, h, free, lists, na1, a, na2, [], na3, c);
      FirstFree(E, s, h, free, lists);
      if free != [] {
        FreeApart(E, s, h, free, lists, na1, a, na2, [], na3, c, 0);
        DivideDone(E, s, h, free, lists, na1, a, na2, na3, c, noar1, noar3);
      }
      FirstPiece(na1, na2, noar1);
      var nav := TakeSlot();
      if nav <= 0 {
        return false;
      }
      NewPiece(na01, na1, na3, noar3, nav);
      free := free[1..];
      lists := below + [[na2, na1] + a, [nav, na3] + c];
      DivideSteps(s, noarcf[..], na01, na1, na2, na3, nav, noar1, noar3);
      assert n1arcf[..] == h[|below| + 1 := na2][0 := s[nav].suiv][|below| + 2 := nav];
      done := true;
    }

    /** The end of the insertion of an isolated vertex in `tridcf_`: ns3 follows na1; false when no slot is free. */
    method Insert(c: int, na1: int, na2: int, ns1: int, ns3: int, noar2: int, noar3: int, ghost m: seq<int>,
        ghost E: Edges) returns (done: bool)
      requires Valid(E) && 0 <= c < nbcf && lists[c] == [na1] + m && n1arcf[c + 1] == na1 && ns3 > 0
      requires 1 <= na1 < noarcf.Length && noarcf[na1].suiv == na2 && noarcf[na1].som == ns1 && 1 <= na2 < noarcf.Length
      requires Names(E, noar2, Som(noarcf[..], na2), ns3) && Names(E, noar3, ns3, ns1)
      modifies `free, `lists, noarcf, n1arcf
      ensures done <==> old(free) != []
      ensures done ==> Valid(E) && nbcf == old(nbcf) && |free| == |old(free)| - 1
      ensures done ==> Polygons() == old(Polygons())[c := [ns1, ns3] + Poly(old(noarcf[..]), m)]
      ensures done ==> Firsts() == old(Firsts())[c := (ns1, ns3)]
    {
      hide Held, Names, Chain, Poly, Polys;
      ghost var s, h := noarcf[..], n1arcf[..];
      FirstFree(E, s, h, free, lists);
      var na12 := n1arcf[0];
      if na12 <= 0 {
        return false;
      }
      InsertHeld(E, s, h, free, lists, c, na1, m, ns3, noar2, noar3);
      InsertFirsts(E, s, h, free, lists, c, na1, m, ns3, noar2, noar3);
      n1arcf[0] := noarcf[na12].suiv;
      noarcf[na1] := Slot(ns1, na12, noar3);
      noarcf[na12] := Slot(ns3, na2, noar2);
      assert noarcf[..] == Cutting.Insert(s, na1, na2, na12, ns1, ns3, noar2, noar3);
      assert n1arcf[..] == h[0 := s[na12].suiv];
      free := free[1..];
      lists := lists[c := [na1, na12] + m];
      done := true;
    }

    /** The first slot of the free list, 0 when there is none, leaves it. */
    method TakeSlot() returns (nav: int)
      requires n1arcf.Length > 0 && (n1arcf[0] > 0 ==> n1arcf[0] < noarcf.Length)
      modifies n1arcf
      ensures nav == old(n1arcf[0])
      ensures n1arcf[..] == if nav <= 0 then old(n1arcf[..]) else old(n1arcf[..])[0 := noarcf[nav].suiv]
    {
      nav := n1arcf[0];
      if nav > 0 {
        n1arcf[0] := noarcf[nav].suiv;
      }
    }

    /** The end of `trcf0a_`: the contour is divided in three; false when fewer than three slots are free. */
    method Shatter(na01: int, na1: int, na2: int, na3: int, noar1: int, noar2: int, noar3: int,
                   ghost a: seq<int>, ghost b: seq<int>, ghost c: seq<int>, ghost E: Edges) returns (done: bool)
      requires Valid(E) && 0 < nbcf && nbcf + 2 <= mxarcf && a != [] && b != [] && c != []
        && Top(lists) == Ring3(na1, a, na2, b, na3, c)
      requires na01 == c[|c| - 1]
      requires Names(E, noar1, Som(noarcf[..], na1), Som(noarcf[..], na2))
        && Names(E, noar2, Som(noarcf[..], na2), Som(noarcf[..], na3))
      requires Names(E, noar3, Som(noarcf[..], na3), Som(noarcf[..], na1))
      modifies `nbcf, `free, `lists, noarcf, n1arcf
      ensures done <==> |old(free)| >= 3
      ensures done ==> Valid(E) && nbcf == old(nbcf) + 2 && |free| == |old(free)| - 3
      ensures var s := old(noarcf[..]);
              done ==> Polygons() == Below(old(Polygons())) + [[Som(s, na2), Som(s, na1)] + Poly(s, a),
                       [Som(s, na3), Som(s, na2)] + Poly(s, b), [Som(s, na1), Som(s, na3)] + Poly(s, c)]
    {
      hide Held, Ring3, Names, Chain, Polys, Poly, Cutting.Shatter;
      ghost var s, h, below := noarcf[..], n1arcf[..], Below(lists);
      TopSlots(E, s, h, free, lists, na1, a, na2, b, na3, c);
      ThreeFree(E, s, h, free, lists, na1, a, na2, b, na3, c);
      var nav, na3s, noar3s := Second(na1, na2, na3, noar1, noar2);
      if nav <= 0 {
        return false;
      }
      ghost var s2 := noarcf[..];
      var nav', nav1 := Third(na01, na1, na3, na3s, noar3s, noar3);
      if nav1 <= 0 {
        return false;
      }
      ShatterSteps(s, s2, noarcf[..], na01, na1, na2, na3, nav, nav', nav1, noar1, noar2, noar3);
      assert n1arcf[..] == h[|below| + 1 := na2][|below| + 2 := na3][0 := s[nav1].suiv][|below| + 3 := nav1];
      ShatterDone(E, s, h, free, lists, na1, a, na2, b, na3, c, noar1, noar2, noar3, noarcf[..], n1arcf[..]);
      free := free[1..][1..][1..];
      lists := below + [[na2, na1] + a, [na3, nav] + b, [nav1, nav'] + c];
      done := true;
    }

    /** The first two contours of `trcf0a_`. */
    method Second(na1: int, na2: int, na3: int, noar1: int, noar2: int) returns (nav: int, na3s: int, noar3s: int)
      requires noarcf.Length == n1arcf.Length == mxarcf + 1 && 0 < nbcf && nbcf + 2 <= mxarcf
      requires 0 <= na2 < noarcf.Length && 0 <= na3 < noarcf.Length && na2 != na3
      requires n1arcf[0] > 0 ==> n1arcf[0] < noarcf.Length && n1arcf[0] != na2 && n1arcf[0] != na3
      modifies `nbcf, noarcf, n1arcf
      ensures nav == old(n1arcf[0]) && nbcf == if nav <= 0 then old(nbcf) + 1 else old(nbcf) + 2
      ensures nav > 0 ==>
        noarcf[..]
        == old(noarcf[..])[na2 := Slot(old(noarcf[na2]).som, na1,
        noar1)][nav := old(noarcf[na2])][na3 := Slot(old(noarcf[na3]).som, nav, noar2)]
      ensures nav > 0 ==>
        n1arcf[..] == old(n1arcf[..])[old(nbcf) := na2][old(nbcf) + 1 := na3][0 := old(noarcf[nav]).suiv]
      ensures nav > 0 ==> na3s == old(noarcf[na3]).suiv && noar3s == old(noarcf[na3]).noar
    {
      na3s, noar3s := 0, 0;
      var na2s := noarcf[na2].suiv;
      noarcf[na2] := noarcf[na2].(suiv := na1);
      var noar2s := noarcf[na2].noar;
      noarcf[na2] := noarcf[na2].(noar := noar1);
      n1arcf[nbcf] := na2;
      nbcf := nbcf + 1;
      nav := TakeSlot();
      if nav <= 0 {
        return;
      }
      noarcf[nav] := Slot(noarcf[na2].som, na2s, noar2s);
      na3s := noarcf[na3].suiv;
      noarcf[na3] := noarcf[na3].(suiv := nav);
      noar3s := noarcf[na3].noar;
      noarcf[na3] := noarcf[na3].(noar := noar2);
      n1arcf[nbcf] := na3;
      nbcf := nbcf + 1;
    }

    /** The third contour of `trcf0a_`. */
    method Third(na01: int, na1: int, na3: int, na3s: int, noar3s: int, noar3: int) returns (nav: int, nav1: int)
      requires noarcf.Length == n1arcf.Length == mxarcf + 1 && 0 < nbcf <= mxarcf
      requires 0 <= na01 < noarcf.Length && 0 <= na1 < noarcf.Length && 0 <= na3 < noarcf.Length
      requires n1arcf[0] > 0 ==> n1arcf[0] < noarcf.Length && n1arcf[0] != na01 && n1arcf[0] != na1 && n1arcf[0] != na3
      requires n1arcf[0] > 0 && noarcf[n1arcf[0]].suiv > 0 ==>
                 noarcf[n1arcf[0]].suiv < noarcf.Length && noarcf[n1arcf[0]].suiv != n1arcf[0]
                 && noarcf[n1arcf[0]].suiv != na01 && noarcf[n1arcf[0]].suiv != na1
      modifies noarcf, n1arcf
      ensures nav == old(n1arcf[0]) && nav1 == if nav <= 0 then 0 else old(noarcf[nav]).suiv
      ensures nav1 > 0 ==> noarcf[..] == old(noarcf[..])[nav := Slot(old(noarcf[na3]).som, na3s, noar3s)]
                                         [na01 := old(noarcf[na01]).(suiv := nav1)][nav1 := Slot(old(noarcf[na1]).som,
                                           nav, noar3)]
      ensures nav1 > 0 ==> n1arcf[..] == old(n1arcf[..])[0 := old(noarcf[nav1]).suiv][nbcf := nav1]
    {
      nav1 := 0;
      nav := TakeSlot();
      if nav <= 0 {
        return;
      }
      noarcf[nav] := Slot(noarcf[na3].som, na3s, noar3s);
      nav1 := TakeSlot();
      if nav1 <= 0 {
        return;
      }
      noarcf[na01] := noarcf[na01].(suiv := nav1);
      noarcf[nav1] := Slot(noarcf[na1].som, nav, noar3);
      n1arcf[nbcf] := nav1;
    }
  }

  lemma DivideSteps(s: seq<Slot>, s': seq<Slot>, x0: int, x1: int, x2: int, x3: int, v: int, noar1: int, noar3: int)
    requires 0 <= x0 < |s| && 0 <= x1 < |s| && 0 <= x2 < |s| && 0 <= v < |s| && v != x0 && v != x2 && v != x1
    requires s' == s[x2 := Slot(s[x2].som, x1, noar1)][v := Slot(s[x1].som, x3, noar3)]
                    [x0 := (if x0 == x2 then Slot(s[x2].som, x1, noar1) else s[x0]).(suiv := v)]
    ensures s' == Cutting.Divide(s, x0, x1, x2, x3, v, noar1, noar3)
  {
  }

  lemma DivideDone(E: Edges, s: seq<Slot>, h: seq<int>, free: seq<int>, lists: seq<seq<int>>, x1: int, a: seq<int>,
      x2: int, x3: int, c: seq<int>, noar1: int, noar3: int)
    requires lists != [] && Held(E, s, h, free, lists) && |h| > |lists| + 1 && free != []
    requires Top(lists) == Ring3(x1, a, x2, [], x3, c) && a != [] && c != []
    requires Names(E, noar1, Som(s, x1), Som(s, x2)) && Names(E, noar3, Som(s, x3), Som(s, x1))
    requires 0 <= x1 < |s| && 0 <= x2 < |s| && 0 <= x3 < |s|
    ensures 1 <= free[0] < |s| && 1 <= c[|c| - 1] < |s|
    ensures var v, pieces := free[0], [[x2, x1] + a, [free[0], x3] + c];
            var s' := Cutting.Divide(s, c[|c| - 1], x1, x2, x3, v, noar1, noar3);
            && Held(E, s', h[|lists| := x2][0 := s[v].suiv][|lists| + 1 := v], free[1..], Below(lists) + pieces)
            && Polys(s', Below(lists) + pieces) == Below(Polys(s, lists))
                 + [[Som(s, x2), Som(s, x1)] + Poly(s, a), [Som(s, x1), Som(s, x3)] + Poly(s, c)]
  {
    hide Held, Ring3, Names, Polys, Poly, Cutting.Divide;
    assert lists == Below(lists) + [Ring3(x1, a, x2, [], x3, c)];
    DivideHeld(E, s, h, free, Below(lists), x1, a, x2, x3, c, noar1, noar3);
    var s' := Cutting.Divide(s, c[|c| - 1], x1, x2, x3, free[0], noar1, noar3);
    PolysAdd(s', s, Below(lists), [[x2, x1] + a, [free[0], x3] + c], lists);
    PolysTwo(s', [x2, x1] + a, [free[0], x3] + c);
  }

  lemma PolysTwo(s: seq<Slot>, p: seq<int>, q: seq<int>)
    ensures Polys(s, [p, q]) == [Poly(s, p), Poly(s, q)]
  {
    hide Poly;
  }

  lemma ShatterSteps(s: seq<Slot>, s2: seq<Slot>, s': seq<Slot>, x0: int, x1: int, x2: int, x3: int, v: int, w: int,
      u: int, noar1: int, noar2: int, noar3: int)
    requires 0 <= x0 < |s| && 0 <= x1 < |s| && 0 <= x2 < |s| && 0 <= x3 < |s| && 0 <= v < |s| && 0 <= w < |s|
      && 0 <= u < |s|
    requires x2 != x3 && v != x2 && v != x3 && v != x1 && w != x0 && w != x1 && w != x3
    requires s2 == s[x2 := Slot(s[x2].som, x1, noar1)][v := s[x2]][x3 := Slot(s[x3].som, v, noar2)]
    requires s' == s2[w := Slot(s2[x3].som, s[x3].suiv, s[x3].noar)][x0 := s2[x0].(suiv := u)][u := Slot(s2[x1].som, w,
      noar3)]
    ensures s' == Cutting.Shatter(s, x0, x1, x2, x3, v, w, u, noar1, noar2, noar3)
  {
  }

  lemma ShatterDone(E: Edges, s: seq<Slot>, h: seq<int>, free: seq<int>, lists: seq<seq<int>>, x1: int, a: seq<int>,
      x2: int, b: seq<int>,
                    x3: int, c: seq<int>, noar1: int, noar2: int, noar3: int, s': seq<Slot>, h': seq<int>)
    requires lists != [] && Held(E, s, h, free, lists) && |h| > |lists| + 2 && |free| >= 3
    requires Top(lists) == Ring3(x1, a, x2, b, x3, c) && a != [] && b != [] && c != []
    requires Names(E, noar1, Som(s, x1), Som(s, x2)) && Names(E, noar2, Som(s, x2), Som(s, x3))
      && Names(E, noar3, Som(s, x3), Som(s, x1))
    requires 0 <= x1 < |s| && 0 <= x2 < |s| && 0 <= x3 < |s| && 0 <= c[|c| - 1] < |s|
    requires 0 <= free[0] < |s| && 0 <= free[1] < |s| && 0 <= free[2] < |s|
    requires s' == Cutting.Shatter(s, c[|c| - 1], x1, x2, x3, free[0], free[1], free[2], noar1, noar2, noar3)
    requires h' == h[|lists| := x2][|lists| + 1 := x3][0 := s[free[2]].suiv][|lists| + 2 := free[2]]
    ensures var pieces := [[x2, x1] + a, [x3, free[0]] + b, [free[2], free[1]] + c];
            && Held(E, s', h', free[1..][1..][1..], Below(lists) + pieces)
            && Polys(s', Below(lists) + pieces) == Below(Polys(s, lists))
                 + [[Som(s, x2), Som(s, x1)] + Poly(s, a), [Som(s, x3), Som(s, x2)] + Poly(s, b),
                   [Som(s, x1), Som(s, x3)] + Poly(s, c)]
  {
    hide Held, Ring3, Names, Polys, Poly, Cutting.Shatter;
    assert lists == Below(lists) + [Ring3(x1, a, x2, b, x3, c)];
    ShatterHeld(E, s, h, free, Below(lists), x1, a, x2, b, x3, c, noar1, noar2, noar3);
    ShatterPolys(s', s, Below(lists), lists, [x2, x1] + a, [x3, free[0]] + b, [free[2], free[1]] + c);
  }

  lemma ShatterPolys(s': seq<Slot>, s: seq<Slot>, below: seq<seq<int>>, lists: seq<seq<int>>, p: seq<int>, q: seq<int>,
      r: seq<int>)
    requires Polys(s', below) == Polys(s, below) && lists != [] && below == Below(lists)
    ensures Polys(s', below + [p, q, r]) == Below(Polys(s, lists)) + [Poly(s', p), Poly(s', q), Poly(s', r)]
  {
    PolysAdd(s', s, below, [p, q, r], lists);
  }

  function Top<T>(l: seq<seq<T>>): (r: seq<T>) {
    if l == [] then [] else l[|l| - 1]
  }

  function Below<T>(l: seq<seq<T>>): (r: seq<seq<T>>) {
    if l == [] then [] else l[..|l| - 1]
  }

  /** Only contour c gets another first edge. */
  lemma InsertFirsts(E: Edges, s: seq<Slot>, h: seq<int>, free: seq<int>, lists: seq<seq<int>>, c: int, x1: int,
      m: seq<int>, ns3: int, noar2: int, noar3: int)
    requires Held(E, s, h, free, lists) && 0 <= c < |lists| && free != [] && lists[c] == [x1] + m && h[c + 1] == x1
    requires 1 <= x1 < |s|
    ensures 1 <= free[0] < |s| && |h| > |lists|
    ensures var s' := Cutting.Insert(s, x1, s[x1].suiv, free[0], s[x1].som, ns3, noar2, noar3);
            FirstsOf(s', h[0 := s[free[0]].suiv], |lists|) == FirstsOf(s, h, |lists|)[c := (s[x1].som, ns3)]
  {
    InsertFacts(E, s, h, free, lists, c, x1, m);
    assert |h| > |lists|;
    var v := free[0];
    var s', h' := Cutting.Insert(s, x1, s[x1].suiv, v, s[x1].som, ns3, noar2, noar3), h[0 := s[v].suiv];
    forall d | 0 <= d < |lists| ensures FirstOf(s', h', d) == if d == c then (s[x1].som, ns3) else FirstOf(s, h, d) {
      hide Held, Path, Chain;
      if d != c {
        FirstElsewhere(E, s, h, free, lists, c, d);
        assert x1 in lists[c] && v in free;
      } else {
        assert h'[c + 1] == x1 && s'[x1] == Slot(s[x1].som, v, noar3) && s'[v].som == ns3;
      }
    }
  }

  /** The first two slots of another contour are neither free nor in contour c. */
  lemma FirstElsewhere(E: Edges, s: seq<Slot>, h: seq<int>, free: seq<int>, lists: seq<seq<int>>, c: int, d: int)
    requires Held(E, s, h, free, lists) && 0 <= c < |lists| && 0 <= d < |lists| && d != c
    ensures |h| > d + 1 && 1 <= h[d + 1] < |s|
    ensures forall x | x == h[d + 1] || x == s[h[d + 1]].suiv :: x !in free && x !in lists[c]
  {
    var l := lists[d];
    assert h[d + 1] in l;
    var i :| 0 <= i < |l| && l[i] == h[d + 1];
    RingOf(E, s, h, lists, d);
    StepOf(E, s, Closed(l), i);
    hide Path, Chain, Sum, Pool, Rings;
    assert Closed(l)[i + 1] in l;
    ElsewhereOf(|s|, free, lists, c, d, h[d + 1]);
    ElsewhereOf(|s|, free, lists, c, d, s[h[d + 1]].suiv);
  }

  /** The head of the free list. */
  lemma FirstFree(E: Edges, s: seq<Slot>, h: seq<int>, free: seq<int>, lists: seq<seq<int>>)
    requires Held(E, s, h, free, lists)
    ensures |h| > 0 && if free == [] then h[0] == 0 else h[0] == free[0] && 1 <= free[0] < |s|
  {
    if free != [] {
      assert free[0] in multiset(free) + Sum(lists);
    }
  }

  lemma FreeEnds(E: Edges, s: seq<Slot>, h: seq<int>, free: seq<int>, lists: seq<seq<int>>, k: int)
    requires Held(E, s, h, free, lists) && k >= 0
    ensures At(free, k) <= 0 ==> |free| <= k
  {
    if k < |free| {
      assert free[k] in multiset(free) + Sum(lists);
    }
  }

  /** The next three slots of the free list, as far as there are any. */
  lemma ThreeFree(E: Edges, s: seq<Slot>, h: seq<int>, free: seq<int>, lists: seq<seq<int>>,
                  x1: int, a: seq<int>, x2: int, b: seq<int>, x3: int, c: seq<int>)
    requires lists != [] && Held(E, s, h, free, lists) && Top(lists) == Ring3(x1, a, x2, b, x3, c)
    ensures |h| > 0 && h[0] == At(free, 0)
    ensures forall k | 0 <= k <= 2 :: At(free, k) <= 0 <==> |free| <= k
    ensures forall k {:trigger free[k]} | 0 <= k <= 2 && k < |free| ::
      1 <= free[k] < |s| && s[free[k]].suiv == At(free, k + 1)
              && free[k] != x1 && free[k] != x2 && free[k] != x3 && (c != [] ==> free[k] != c[|c| - 1])
              && (k > 0 ==> free[k] != free[0] && free[k] != free[k - 1])
  {
    hide Held, Ring3, Top;
    FirstFree(E, s, h, free, lists);
    forall k | 0 <= k <= 2 ensures At(free, k) <= 0 <==> |free| <= k {
      FreeEnds(E, s, h, free, lists, k);
    }
    forall k | 0 <= k <= 2 && k < |free| ensures 1 <= free[k] < |s| && s[free[k]].suiv == At(free, k + 1)
              && free[k] != x1 && free[k] != x2 && free[k] != x3 && (c != [] ==> free[k] != c[|c| - 1])
              && (k > 0 ==> free[k] != free[0] && free[k] != free[k - 1]) {
      FreeApart(E, s, h, free, lists, x1, a, x2, b, x3, c, k);
    }
  }

  /** The free list leads on, away from the corners of the last contour. */
  lemma FreeApart(E: Edges, s: seq<Slot>, h: seq<int>, free: seq<int>, lists: seq<seq<int>>,
                  x1: int, a: seq<int>, x2: int, b: seq<int>, x3: int, c: seq<int>, k: int)
    requires lists != [] && Held(E, s, h, free, lists) && Top(lists) == Ring3(x1, a, x2, b, x3, c) && 0 <= k < |free|
    ensures 1 <= free[k] < |s| && s[free[k]].suiv == At(free, k + 1)
    ensures free[k] != x1 && free[k] != x2 && free[k] != x3 && (c != [] ==> free[k] != c[|c| - 1])
    ensures k > 0 ==> free[k] != free[0] && free[k] != free[k - 1]
  {
    hide Path, Ring3, Chain, Part, Held, Parted;
    assert lists == Below(lists) + [Ring3(x1, a, x2, b, x3, c)];
    TopFacts(E, s, h, free, Below(lists), x1, a, x2, b, x3, c);
    PartedFree(|s|, free, x1, a, x2, b, x3, c, k);
    ChainAt(s, free, k);
  }

  lemma PartedFree(n: int, free: seq<int>, x1: int, a: seq<int>, x2: int, b: seq<int>, x3: int, c: seq<int>, k: int)
    requires Parted(n, free, x1, a, x2, b, x3, c) && 0 <= k < |free|
    ensures 1 <= free[k] < n && free[k] != x1 && free[k] != x2 && free[k] != x3 && (c != [] ==> free[k] != c[|c| - 1])
    ensures k > 0 ==> free[k] != free[0] && free[k] != free[k - 1]
  {
    assert free[k] in free;
    assert c != [] ==> c[|c| - 1] in c;
  }

  lemma {:induction false} ChainAt(s: seq<Slot>, l: seq<int>, k: int)
    requires Chain(s, l) && 0 <= k < |l|
    ensures 0 <= l[k] < |s| && s[l[k]].suiv == At(l, k + 1)
  {
    if k > 0 {
      ChainAt(s, l[1..], k - 1);
    }
  }

  /** Where the corners of the last contour are. */
  lemma TopSlots(E: Edges, s: seq<Slot>, h: seq<int>, free: seq<int>, lists: seq<seq<int>>,
                 x1: int, a: seq<int>, x2: int, b: seq<int>, x3: int, c: seq<int>)
    requires lists != [] && Held(E, s, h, free, lists) && Top(lists) == Ring3(x1, a, x2, b, x3, c)
    ensures lists == Below(lists) + [Ring3(x1, a, x2, b, x3, c)]
    ensures 1 <= x1 < |s| && 1 <= x2 < |s| && 1 <= x3 < |s| && x1 != x2 && x2 != x3 && x3 != x1
    ensures |h| > |lists| && h[0] == At(free, 0)
    ensures c != [] ==> 1 <= c[|c| - 1] < |s| && s[x1].suiv == At(a + [x2], 0)
  {
    hide Path, Held;
    assert lists == Below(lists) + [Ring3(x1, a, x2, b, x3, c)];
    HeldHeads(E, s, h, free, lists);
    TopFacts(E, s, h, free, Below(lists), x1, a, x2, b, x3, c);
    assert c != [] ==> c[|c| - 1] in c;
  }

  /** The list of lists q with list number c read from its member number k. */
  ghost function TurnedAt(q: seq<seq<int>>, c: int, k: nat): (r: seq<seq<int>>) {
    if 0 <= c < |q| && k <= |q[c]| then q[c := q[c][k..] + q[c][..k]] else q
  }

  lemma TurnHeld(E: Edges, s: seq<Slot>, h: seq<int>, free: seq<int>, lists: seq<seq<int>>, c: int, k: nat)
    requires Held(E, s, h, free, lists) && 0 <= c < |lists| && k <= |lists[c]|
    ensures var l := lists[c][k..] + lists[c][..k];
            && Held(E, s, h, free, lists[c := l])
            && Polys(s, lists[c := l]) == Polys(s, lists)[c := Polys(s, lists)[c][k..] + Polys(s, lists)[c][..k]]
  {
    hide Path, Chain, Pool, Closed;
    var a, b := lists[c][..k], lists[c][k..];
    assert lists[c] == a + b;
    assert multiset(b + a) == multiset(a + b);
    RingOf(E, s, h, lists, c);
    if a == [] || b == [] {
      assert b + a == a + b;
    } else {
      Rotate(E, s, a, b);
    }
    assert h[c + 1] in b + a by { assert h[c + 1] in multiset(a + b); }
    TurnPoly(s, lists[c], k);
    Replace(E, s, h, free, lists, c, s, h, free, b + a);
  }

  lemma TurnPoly(s: seq<Slot>, l: seq<int>, k: nat)
    requires k <= |l|
    ensures Poly(s, l[k..] + l[..k]) == Poly(s, l)[k..] + Poly(s, l)[..k]
  {
  }

  lemma TurnRing(x1: int, a: seq<int>, x2: int, b: seq<int>, x3: int, c: seq<int>)
    ensures var l := Ring3(x1, a, x2, b, x3, c);
            0 < 1 + |a| < |l| && l[1 + |a|..] + l[..1 + |a|] == Ring3(x2, b, x3, c, x1, a)
  {
  }

  /** Corners up to the choice of the first. */
  predicate Rotated(v: (int, int, int), v1: int, v2: int, v3: int) {
    v == (v1, v2, v3) || v == (v2, v3, v1) || v == (v3, v1, v2)
  }

  /** Table, triangles and contours fit together. */
  ghost predicate Ready(table: Table, store: Store, cf: Contour)
    reads table, table.nosoar, store, store.noartr, cf, cf.noarcf, cf.n1arcf
  {
    && table.Valid() && Bounded(table.Live(), table.mxsomm) && store.Valid()
    && cf.Valid(table.Live()) && cf.n1arcf != table.noarst
  }

  /** What every cut of contour l at x1, x2, x3 needs to know of the slots. */
  lemma CornerFacts(E: Edges, mx: int, s: seq<Slot>, h: seq<int>, free: seq<int>, lists: seq<seq<int>>,
                    x1: int, a: seq<int>, x2: int, b: seq<int>, x3: int, c: seq<int>)
    requires lists != [] && Held(E, s, h, free, lists) && Top(lists) == Ring3(x1, a, x2, b, x3, c) && Bounded(E, mx)
    ensures lists == Below(lists) + [Ring3(x1, a, x2, b, x3, c)]
    ensures 1 <= x1 < |s| && 1 <= x2 < |s| && 1 <= x3 < |s| && x1 != x2 && x2 != x3 && x3 != x1
    ensures 1 <= s[x1].som <= mx && 1 <= s[x2].som <= mx && 1 <= s[x3].som <= mx
    ensures s[x1].suiv == (if a == [] then x2 else a[0]) && s[x2].suiv == (if b == [] then x3 else b[0])
      && s[x3].suiv == (if c == [] then x1 else c[0])
    ensures (a != [] ==> a[0] != x2) && (b != [] ==> b[0] != x3) && (c != [] ==> c[0] != x1)
    ensures a == [] ==> Names(E, s[x1].noar, s[x1].som, s[x2].som)
    ensures b == [] ==> Names(E, s[x2].noar, s[x2].som, s[x3].som)
    ensures c == [] ==> Names(E, s[x3].noar, s[x3].som, s[x1].som)
    ensures |h| > |lists| && h[0] == At(free, 0)
    ensures forall x | x in free :: 1 <= x < |s| && x != x1 && x != x2 && x != x3 && x !in c
    ensures c != [] ==> 1 <= c[|c| - 1] < |s| && c[|c| - 1] != x1 && c[|c| - 1] != x2
    ensures Chain(s, free)
  {
    hide Path, Held;
    var below := Below(lists);
    assert lists == below + [Ring3(x1, a, x2, b, x3, c)];
    HeldHeads(E, s, h, free, lists);
    TopFacts(E, s, h, free, below, x1, a, x2, b, x3, c);
    hide Ring3, Chain;
    assert a != [] ==> a[0] in a;
    assert b != [] ==> b[0] in b;
    assert c != [] ==> c[0] in c && c[|c| - 1] in c;
    CornerNames(E, mx, s, x1, a, x2);
    CornerNames(E, mx, s, x2, b, x3);
    CornerNames(E, mx, s, x3, c, x1);
  }

  lemma HeldHeads(E: Edges, s: seq<Slot>, h: seq<int>, free: seq<int>, lists: seq<seq<int>>)
    requires Held(E, s, h, free, lists)
    ensures |h| > |lists| && h[0] == At(free, 0)
  {
  }

  lemma CornerNames(E: Edges, mx: int, s: seq<Slot>, x: int, m: seq<int>, y: int)
    requires Part(E, s, x, m, y) && Bounded(E, mx)
    ensures 1 <= x < |s| && 1 <= s[x].som <= mx
    ensures m == [] ==> 0 <= y < |s| && Names(E, s[x].noar, s[x].som, s[y].som)
  {
    StepOf(E, s, [x] + m + [y], 0);
  }

  /** `trcf2a_`: two sides of the triangle are on the contour, the third is new. */
  method Trcf2a(table: Table, store: Store, cf: Contour, na1: int, ghost x2: int, ghost x3: int, ghost c: seq<int>)
      returns (noar3: int, nt: int)
    requires Ready(table, store, cf) && cf.nbcf > 0 && c != []
    requires Top(cf.lists) == Ring3(na1, [], x2, [], x3, c)
    modifies table`n1soar, table`plan, table.nosoar, table.noarst, store`n1artr, store`vacant, store.noartr
    modifies cf`nbcf, cf`free, cf`lists, cf.noarcf, cf.n1arcf
    ensures nt >= 0 && (nt > 0 ==> Ready(table, store, cf))
    ensures nt == 0 ==> Dry(table.n1soar, Spare(old(table.plan)), 3) || old(store.vacant) == []
    ensures nt > 0 ==> cf.nbcf == old(cf.nbcf) && |cf.free| == |old(cf.free)| + 1
    ensures var s := old(cf.noarcf[..]);
            nt > 0 ==> Emitted(old(table.Live()), old(store.noartr[..]), table.Live(), store.noartr[..], nt,
                       (Som(s, na1), Som(s, x2), Som(s, x3)))
    ensures var s := old(cf.noarcf[..]);
            nt > 0 ==> cf.Polygons() == Below(old(cf.Polygons())) + PieceOf(Som(s, x3), Som(s, na1), Poly(s, c))
    ensures nt > 0 ==> Spare(table.plan) + 3 >= Spare(old(table.plan))
    ensures nt > 0 ==> |store.vacant| + 1 == |old(store.vacant)|
    ensures var s := old(cf.noarcf[..]);
            nt > 0 && FreeSide(old(table.Live()), Som(s, x3), Som(s, na1)) ==>
              Sewn(old(table.Live()), old(store.noartr[..]), table.Live(), store.noartr[..], nt,
                (Som(s, na1), Som(s, x2), Som(s, x3)))
  {
    hide Spare, Sewn, SewnOn, FreeSide, Opened, FreeChords, TableInv, Vacancy, Held, Ring3, Names, LiveEdges, Cycle,
      Chain;
    ghost var E, s := table.Live(), cf.noarcf[..];
    CornerFacts(E, table.mxsomm, s, cf.n1arcf[..], cf.free, cf.lists, na1, [], x2, [], x3, c);
    var na2 := cf.noarcf[na1].suiv;
    var na3 := cf.noarcf[na2].suiv;
    var ierr;
    noar3, ierr := NewSide(table, cf.noarcf[na3].som, cf.noarcf[na1].som);
    if ierr != 0 {
      return noar3, 0;
    }
    ghost var E1 := table.Live();
    NamesGrow(E, E1, s[na1].noar, s[na1].som, s[na2].som);
    NamesGrow(E, E1, s[na2].noar, s[na2].som, s[na3].som);
    nt := Trcf3a(table, store, cf.noarcf[na1].som, cf.noarcf[na2].som, cf.noarcf[na3].som, cf.noarcf[na1].noar,
      cf.noarcf[na2].noar, noar3);
    if nt <= 0 {
      return noar3, 0;
    }
    ghost var E2 := table.Live();
    EmittedGrows(E, E1, old(store.noartr[..]), E2, store.noartr[..], nt, (s[na1].som, s[na2].som, s[na3].som));
    if FreeSide(E, s[na3].som, s[na1].som) {
      SewnFrom(E, E1, old(store.noartr[..]), E2, store.noartr[..], nt, (s[na1].som, s[na2].som, s[na3].som),
        s[na1].noar, s[na2].noar, noar3);
    }
    NamesGrow(E1, E2, noar3, s[na3].som, s[na1].som);
    HeldGrows(E, E2, s, cf.n1arcf[..], cf.free, cf.lists);
    cf.Clip(na1, na2, na3, noar3, c, E2);
  }

  lemma NamesGrow(E: Edges, E': Edges, a: int, u: int, v: int)
    requires Grows(E, E') && Names(E, a, u, v)
    ensures Names(E', a, u, v)
  {
  }

  lemma EmittedGrows(E: Edges, E1: Edges, T: seq<Tri>, E': Edges, T': seq<Tri>, nt: int, v: (int, int, int))
    requires Grows(E, E1) && Emitted(E1, T, E', T', nt, v)
    ensures Emitted(E, T, E', T', nt, v)
  {
  }

  lemma PolysAdd(s': seq<Slot>, s: seq<Slot>, below: seq<seq<int>>, pieces: seq<seq<int>>, lists: seq<seq<int>>)
    requires Polys(s', below) == Polys(s, below) && lists != [] && below == Below(lists)
    ensures Polys(s', below + pieces) == Below(Polys(s, lists)) + Polys(s', pieces)
  {
    assert forall c | 0 <= c < |below| :: Polys(s, below)[c] == Polys(s, lists)[c];
  }

  /** `trcf1a_`: only the second side of the triangle, from na2, is on the contour. */
  method Trcf1a(table: Table, store: Store, cf: Contour, na01: int, na1: int, na2: int, ghost x3: int,
      ghost a: seq<int>, ghost c: seq<int>)
    returns (noar1: int, noar3: int, nt: int)
    requires Ready(table, store, cf) && cf.nbcf > 0 && a != [] && c != []
    requires Top(cf.lists) == Ring3(na1, a, na2, [], x3, c) && na01 == c[|c| - 1]
    modifies table`n1soar, table`plan, table.nosoar, table.noarst, store`n1artr, store`vacant, store.noartr
    modifies cf`nbcf, cf`free, cf`lists, cf.noarcf, cf.n1arcf
    ensures nt >= 0 && (nt > 0 ==> Ready(table, store, cf))
    ensures nt == 0 ==> Dry(table.n1soar, Spare(old(table.plan)), 3) || old(store.vacant) == [] || |old(cf.free)| < 1
                        || old(cf.nbcf) >= cf.mxarcf
    ensures nt > 0 ==> cf.nbcf == old(cf.nbcf) + 1 && |cf.free| == |old(cf.free)| - 1
    ensures var s := old(cf.noarcf[..]);
            nt > 0 ==> Emitted(old(table.Live()), old(store.noartr[..]), table.Live(), store.noartr[..], nt,
                       (Som(s, na1), Som(s, na2), Som(s, x3)))
    ensures var s := old(cf.noarcf[..]);
            nt > 0 ==>
              cf.Polygons()
              == Below(old(cf.Polygons())) + (PieceOf(Som(s, na1), Som(s, na2), Poly(s, a)) + PieceOf(Som(s, x3),
              Som(s, na1), Poly(s, c)))
    ensures nt > 0 ==> Spare(table.plan) + 3 >= Spare(old(table.plan))
    ensures nt > 0 ==> |store.vacant| + 1 == |old(store.vacant)|
    ensures var s := old(cf.noarcf[..]);
            nt > 0 && FreeSide(old(table.Live()), Som(s, na1), Som(s, na2))
              && FreeSide(old(table.Live()), Som(s, x3), Som(s, na1)) ==>
              Sewn(old(table.Live()), old(store.noartr[..]), table.Live(), store.noartr[..], nt,
                (Som(s, na1), Som(s, na2), Som(s, x3)))
  {
    hide Spare, Sewn, SewnOn, FreeSide, Opened, FreeChords, TableInv, Vacancy, Held, Ring3, Names, LiveEdges, Cycle,
      Chain;
    noar1, noar3 := 0, 0;
    if cf.nbcf >= cf.mxarcf {
      return noar1, noar3, 0;
    }
    ghost var E, s := table.Live(), cf.noarcf[..];
    CornerFacts(E, table.mxsomm, s, cf.n1arcf[..], cf.free, cf.lists, na1, a, na2, [], x3, c);
    var na3 := cf.noarcf[na2].suiv;
    var ierr;
    noar1, ierr := NewSide(table, cf.noarcf[na1].som, cf.noarcf[na2].som);
    if ierr != 0 {
      return noar1, noar3, 0;
    }
    ghost var E1 := table.Live();
    noar3, ierr := NewSide(table, cf.noarcf[na3].som, cf.noarcf[na1].som);
    if ierr != 0 {
      return noar1, noar3, 0;
    }
    ghost var E2 := table.Live();
    GrowsTwice(E, E1, E2);
    NamesGrow(E1, E2, noar1, s[na1].som, s[na2].som);
    NamesGrow(E, E2, s[na2].noar, s[na2].som, s[na3].som);
    nt := Trcf3a(table, store, cf.noarcf[na1].som, cf.noarcf[na2].som, cf.noarcf[na3].som, noar1, cf.noarcf[na2].noar,
      noar3);
    if nt <= 0 {
      return noar1, noar3, 0;
    }
    ghost var E3 := table.Live();
    EmittedGrows(E, E2, old(store.noartr[..]), E3, store.noartr[..], nt, (s[na1].som, s[na2].som, s[na3].som));
    if FreeSide(E, s[na1].som, s[na2].som) && FreeSide(E, s[na3].som, s[na1].som) {
      OpenedFree(E, E1, s[na3].som, s[na1].som);
      OpenedTwice(E, E1, E2);
      SewnFrom(E, E2, old(store.noartr[..]), E3, store.noartr[..], nt, (s[na1].som, s[na2].som, s[na3].som), noar1,
        s[na2].noar, noar3);
    }
    NamesGrow(E2, E3, noar1, s[na1].som, s[na2].som);
    NamesGrow(E2, E3, noar3, s[na3].som, s[na1].som);
    HeldGrows(E, E3, s, cf.n1arcf[..], cf.free, cf.lists);
    var done := cf.Divide(na01, na1, na2, na3, noar1, noar3, a, c, E3);
    if !done {
      nt := 0;
    }
  }

  lemma EmittedGrowth(E: Edges, T: seq<Tri>, E': Edges, T': seq<Tri>, nt: int, v: (int, int, int))
    requires Emitted(E, T, E', T', nt, v)
    ensures Grows(E, E')
  {
  }

  /** The first part of `trcf0a_`: a triangle and its three edges, all to be found or entered. */
  method ThreeSides(table: Table, store: Store, ns1: int, ns2: int, ns3: int)
      returns (noar1: int, noar2: int, noar3: int, nt: int)
    requires table.Valid() && store.Valid() && Bounded(table.Live(), table.mxsomm)
    requires 1 <= ns1 <= table.mxsomm && 1 <= ns2 <= table.mxsomm && 1 <= ns3 <= table.mxsomm
    modifies table`n1soar, table`plan, table.nosoar, table.noarst, store`n1artr, store`vacant, store.noartr
    ensures table.Valid() && store.Valid() && Bounded(table.Live(), table.mxsomm)
    ensures nt >= 0 && (nt == 0 ==> Dry(table.n1soar, Spare(old(table.plan)), 3) || old(store.vacant) == [])
    ensures nt > 0 ==> Names(table.Live(), noar1, ns1, ns2) && Names(table.Live(), noar2, ns2, ns3)
                       && Names(table.Live(), noar3, ns3, ns1)
    ensures nt > 0 ==> Emitted(old(table.Live()), old(store.noartr[..]), table.Live(), store.noartr[..], nt,
                       (ns1, ns2, ns3))
    ensures nt > 0 && FreeSides(old(table.Live()), ns1, ns2, ns3) ==>
              Sewn(old(table.Live()), old(store.noartr[..]), table.Live(), store.noartr[..], nt, (ns1, ns2, ns3))
    ensures nt > 0 ==> Spare(table.plan) + 3 >= Spare(old(table.plan)) && |store.vacant| + 1 == |old(store.vacant)|
  {
    hide Spare, Sewn, SewnOn, FreeSide, Opened, TableInv, Vacancy, Names, LiveEdges, Cycle, Bounded;
    noar1, noar2, noar3 := 0, 0, 0;
    ghost var E, T := table.Live(), store.noartr[..];
    var ierr;
    noar1, ierr := NewSide(table, ns1, ns2);
    if ierr != 0 {
      return noar1, noar2, noar3, 0;
    }
    ghost var E1 := table.Live();
    noar2, ierr := NewSide(table, ns2, ns3);
    if ierr != 0 {
      return noar1, noar2, noar3, 0;
    }
    ghost var E2 := table.Live();
    noar3, ierr := NewSide(table, ns3, ns1);
    if ierr != 0 {
      return noar1, noar2, noar3, 0;
    }
    ghost var E3 := table.Live();
    GrowsTwice(E1, E2, E3);
    GrowsTwice(E, E1, E3);
    NamesGrow(E1, E3, noar1, ns1, ns2);
    NamesGrow(E2, E3, noar2, ns2, ns3);
    nt := Trcf3a(table, store, ns1, ns2, ns3, noar1, noar2, noar3);
    if nt <= 0 {
      return noar1, noar2, noar3, 0;
    }
    ghost var E4 := table.Live();
    EmittedGrowth(E3, T, E4, store.noartr[..], nt, (ns1, ns2, ns3));
    EmittedGrows(E, E3, T, E4, store.noartr[..], nt, (ns1, ns2, ns3));
    if FreeSides(E, ns1, ns2, ns3) {
      OpenedThrice(E, E1, E2, E3, ns1, ns2, ns3);
      SewnFrom(E, E3, T, E4, store.noartr[..], nt, (ns1, ns2, ns3), noar1, noar2, noar3);
    }
    NamesGrow(E3, E4, noar1, ns1, ns2);
    NamesGrow(E3, E4, noar2, ns2, ns3);
    NamesGrow(E3, E4, noar3, ns3, ns1);
  }

  /** `trcf0a_`: no side of the triangle is on the contour. */
  method Trcf0a(table: Table, store: Store, cf: Contour, na01: int, na1: int, na2: int, na3: int, ghost a: seq<int>,
      ghost b: seq<int>, ghost c: seq<int>)
    returns (noar1: int, noar2: int, noar3: int, nt: int)
    requires Ready(table, store, cf) && cf.nbcf > 0 && a != [] && b != [] && c != []
    requires Top(cf.lists) == Ring3(na1, a, na2, b, na3, c) && na01 == c[|c| - 1]
    modifies table`n1soar, table`plan, table.nosoar, table.noarst, store`n1artr, store`vacant, store.noartr
    modifies cf`nbcf, cf`free, cf`lists, cf.noarcf, cf.n1arcf
    ensures nt >= 0 && (nt > 0 ==> Ready(table, store, cf))
    ensures nt == 0 ==> Dry(table.n1soar, Spare(old(table.plan)), 3) || old(store.vacant) == [] || |old(cf.free)| < 3
                        || old(cf.nbcf) + 2 > cf.mxarcf
    ensures nt > 0 ==> cf.nbcf == old(cf.nbcf) + 2 && |cf.free| == |old(cf.free)| - 3
    ensures var s := old(cf.noarcf[..]);
            nt > 0 ==> Emitted(old(table.Live()), old(store.noartr[..]), table.Live(), store.noartr[..], nt,
                       (Som(s, na1), Som(s, na2), Som(s, na3)))
    ensures var s := old(cf.noarcf[..]);
            nt > 0 ==>
              cf.Polygons()
              == Below(old(cf.Polygons())) + (PieceOf(Som(s, na1), Som(s, na2), Poly(s, a)) + PieceOf(Som(s, na2),
              Som(s, na3), Poly(s, b)) + PieceOf(Som(s, na3), Som(s, na1), Poly(s, c)))
    ensures nt > 0 ==> Spare(table.plan) + 3 >= Spare(old(table.plan))
    ensures nt > 0 ==> |store.vacant| + 1 == |old(store.vacant)|
    ensures var s := old(cf.noarcf[..]);
            nt > 0 && FreeSides(old(table.Live()), Som(s, na1), Som(s, na2), Som(s, na3)) ==>
              Sewn(old(table.Live()), old(store.noartr[..]), table.Live(), store.noartr[..], nt,
                (Som(s, na1), Som(s, na2), Som(s, na3)))
  {
    hide Spare, Sewn, SewnOn, FreeSide, Opened, FreeChords, TableInv, Vacancy, Held, Ring3, Names, LiveEdges, Cycle,
      Chain;
    noar1, noar2, noar3 := 0, 0, 0;
    if cf.nbcf + 2 > cf.mxarcf {
      return noar1, noar2, noar3, 0;
    }
    ghost var E, s := table.Live(), cf.noarcf[..];
    CornerFacts(E, table.mxsomm, s, cf.n1arcf[..], cf.free, cf.lists, na1, a, na2, b, na3, c);
    noar1, noar2, noar3, nt := ThreeSides(table, store, cf.noarcf[na1].som, cf.noarcf[na2].som, cf.noarcf[na3].som);
    if nt <= 0 {
      return noar1, noar2, noar3, 0;
    }
    ghost var E4 := table.Live();
    EmittedGrowth(E, old(store.noartr[..]), E4, store.noartr[..], nt, (s[na1].som, s[na2].som, s[na3].som));
    HeldGrows(E, E4, s, cf.n1arcf[..], cf.free, cf.lists);
    var done := cf.Shatter(na01, na1, na2, na3, noar1, noar2, noar3, a, b, c, E4);
    if !done {
      nt := 0;
    }
  }

  /** The first case of `trcf3s_`: the contour is the triangle. */
  method Trcf3c(table: Table, store: Store, cf: Contour, na1: int, na2: int, na3: int) returns (nt: int)
    requires Ready(table, store, cf) && cf.nbcf > 0 && Top(cf.lists) == Ring3(na1, [], na2, [], na3, [])
    modifies table.nosoar, store`n1artr, store`vacant, store.noartr
    modifies cf`nbcf, cf`free, cf`lists, cf.noarcf, cf.n1arcf
    ensures nt >= 0 && (nt > 0 ==> Ready(table, store, cf))
    ensures nt == 0 ==> old(store.vacant) == []
    ensures nt > 0 ==> cf.nbcf == old(cf.nbcf) - 1 && |cf.free| == |old(cf.free)| + 3
    ensures var s := old(cf.noarcf[..]);
            nt > 0 ==> Emitted(old(table.Live()), old(store.noartr[..]), table.Live(), store.noartr[..], nt,
                       (Som(s, na1), Som(s, na2), Som(s, na3)))
    ensures nt > 0 ==> cf.Polygons() == Below(old(cf.Polygons()))
    ensures nt > 0 ==> |store.vacant| + 1 == |old(store.vacant)|
    ensures var s := old(cf.noarcf[..]);
            nt > 0 ==> Sewn(old(table.Live()), old(store.noartr[..]), table.Live(), store.noartr[..], nt,
                (Som(s, na1), Som(s, na2), Som(s, na3)))
  {
    hide Spare, Sewn, SewnOn, FreeSide, Opened, FreeChords, TableInv, Vacancy, Held, Ring3, Names, LiveEdges, Cycle,
      Chain;
    ghost var E, s := table.Live(), cf.noarcf[..];
    CornerFacts(E, table.mxsomm, s, cf.n1arcf[..], cf.free, cf.lists, na1, [], na2, [], na3, []);
    nt := Trcf3a(table, store, cf.noarcf[na1].som, cf.noarcf[na2].som, cf.noarcf[na3].som, cf.noarcf[na1].noar,
      cf.noarcf[na2].noar, cf.noarcf[na3].noar);
    if nt <= 0 {
      return;
    }
    HeldGrows(E, table.Live(), s, cf.n1arcf[..], cf.free, cf.lists);
    OpenedNone(E);
    SewnFrom(E, E, old(store.noartr[..]), table.Live(), store.noartr[..], nt, (s[na1].som, s[na2].som, s[na3].som),
      s[na1].noar, s[na2].noar, s[na3].noar);
    cf.Close(na1, na2, na3, table.Live());
  }

  /** The slot before y: the last of a list, or x when the list is empty. */
  function LastOr(m: seq<int>, x: int): (r: int) {
    if m == [] then x else m[|m| - 1]
  }

  /** `trcf3s_`: the triangle na1, na2, na3 is cut off the last contour; na0i is the slot before nai.
      nt == 0 when a table is full. */
  method Trcf3s(table: Table, store: Store, cf: Contour, na01: int, na1: int, na02: int, na2: int, na03: int, na3: int,
                ghost a: seq<int>, ghost b: seq<int>, ghost c: seq<int>) returns (nt: int, ghost v: (int, int, int))
    requires Ready(table, store, cf) && cf.nbcf > 0 && Top(cf.lists) == Ring3(na1, a, na2, b, na3, c)
    requires na01 == LastOr(c, na3) && na02 == LastOr(a, na1) && na03 == LastOr(b, na2)
    modifies table`n1soar, table`plan, table.nosoar, table.noarst, store`n1artr, store`vacant, store.noartr
    modifies cf`nbcf, cf`free, cf`lists, cf.noarcf, cf.n1arcf
    ensures nt >= 0 && (nt > 0 ==> Ready(table, store, cf))
    ensures nt == 0 ==> Dry(table.n1soar, Spare(old(table.plan)), 3) || old(store.vacant) == [] || |old(cf.free)| < 3
                        || old(cf.nbcf) + 2 > cf.mxarcf
    ensures nt > 0 ==> |cf.free| + 2 * cf.nbcf == |old(cf.free)| + 2 * old(cf.nbcf) + 1
    ensures nt > 0 ==>
      Rotated(v, Som(old(cf.noarcf[..]), na1), Som(old(cf.noarcf[..]), na2), Som(old(cf.noarcf[..]), na3))
    ensures nt > 0 ==> Emitted(old(table.Live()), old(store.noartr[..]), table.Live(), store.noartr[..], nt, v)
    ensures var s := old(cf.noarcf[..]);
            nt > 0 ==> cf.Polygons() == Below(old(cf.Polygons())) + Pieces(Som(s, na1), Poly(s, a), Som(s, na2),
                       Poly(s, b), Som(s, na3), Poly(s, c))
    ensures nt > 0 ==> Spare(table.plan) + 3 >= Spare(old(table.plan))
    ensures nt > 0 ==> |store.vacant| + 1 == |old(store.vacant)|
    ensures var s := old(cf.noarcf[..]);
            nt > 0 && FreeChords(old(table.Live()), Som(s, na1), Poly(s, a), Som(s, na2), Poly(s, b), Som(s, na3),
              Poly(s, c)) ==>
              Sewn(old(table.Live()), old(store.noartr[..]), table.Live(), store.noartr[..], nt,
                v)
  {
    hide Spare, Sewn, SewnOn, FreeSide, Opened, FreeChords, TableInv, Vacancy, Held, Ring3, Names, LiveEdges, Cycle,
      Chain, Emitted, Poly, Bounded, PieceOf;
    ghost var E, s := table.Live(), cf.noarcf[..];
    CornerFacts(E, table.mxsomm, s, cf.n1arcf[..], cf.free, cf.lists, na1, a, na2, b, na3, c);
    NoPieces(s, a, b, c);
    ChordsOf(E, Som(s, na1), Poly(s, a), Som(s, na2), Poly(s, b), Som(s, na3), Poly(s, c));
    v := (Som(s, na1), Som(s, na2), Som(s, na3));
    var na1cf := if cf.noarcf[na1].suiv == na2 then 1 else 0;
    var na2cf := if cf.noarcf[na2].suiv == na3 then 1 else 0;
    var na3cf := if cf.noarcf[na3].suiv == na1 then 1 else 0;
    var nbascf := na1cf + na2cf + na3cf;
    if nbascf == 3 {
      nt := Trcf3c(table, store, cf, na1, na2, na3);
    } else if nbascf == 2 {
      nt, v := TwoSides(table, store, cf, na1, na2, na3, na1cf, na2cf, a, b, c);
    } else if nbascf == 1 {
      nt, v := OneSide(table, store, cf, na01, na1, na02, na2, na03, na3, na1cf, na3cf, a, b, c);
    } else {
      var noar1, noar2, noar3;
      noar1, noar2, noar3, nt := Trcf0a(table, store, cf, na01, na1, na2, na3, a, b, c);
    }
  }

  lemma ChordsOf(E: Edges, v1: int, a: seq<int>, v2: int, b: seq<int>, v3: int, c: seq<int>)
    ensures FreeChords(E, v1, a, v2, b, v3, c) ==>
              (a != [] ==> FreeSide(E, v1, v2)) && (b != [] ==> FreeSide(E, v2, v3))
                && (c != [] ==> FreeSide(E, v3, v1))
  {
  }

  lemma NoPieces(s: seq<Slot>, a: seq<int>, b: seq<int>, c: seq<int>)
    ensures Poly(s, a) == [] <==> a == []
    ensures Poly(s, b) == [] <==> b == []
    ensures Poly(s, c) == [] <==> c == []
    ensures forall v, w :: PieceOf(v, w, []) == []
  {
  }

  /** The second case of `trcf3s_`: the contour is turned so that its two sides come first. */
  method TwoSides(table: Table, store: Store, cf: Contour, na1: int, na2: int, na3: int, na1cf: int, na2cf: int,
                  ghost a: seq<int>, ghost b: seq<int>, ghost c: seq<int>) returns (nt: int, ghost v: (int, int, int))
    requires Ready(table, store, cf) && cf.nbcf > 0 && Top(cf.lists) == Ring3(na1, a, na2, b, na3, c)
    requires (na1cf == 0 <==> a != []) && (na2cf == 0 <==> b != [])
    requires (a != [] && b == [] && c == []) || (a == [] && b != [] && c == []) || (a == [] && b == [] && c != [])
    modifies table`n1soar, table`plan, table.nosoar, table.noarst, store`n1artr, store`vacant, store.noartr
    modifies cf`nbcf, cf`free, cf`lists, cf.noarcf, cf.n1arcf
    ensures nt >= 0 && (nt > 0 ==> Ready(table, store, cf))
    ensures nt == 0 ==> Dry(table.n1soar, Spare(old(table.plan)), 3) || old(store.vacant) == []
    ensures nt > 0 ==> |cf.free| + 2 * cf.nbcf == |old(cf.free)| + 2 * old(cf.nbcf) + 1
    ensures nt > 0 ==>
      Rotated(v, Som(old(cf.noarcf[..]), na1), Som(old(cf.noarcf[..]), na2), Som(old(cf.noarcf[..]), na3))
    ensures nt > 0 ==> Emitted(old(table.Live()), old(store.noartr[..]), table.Live(), store.noartr[..], nt, v)
    ensures var s := old(cf.noarcf[..]);
            nt > 0 ==> cf.Polygons() == Below(old(cf.Polygons())) + Pieces(Som(s, na1), Poly(s, a), Som(s, na2),
                       Poly(s, b), Som(s, na3), Poly(s, c))
    ensures nt > 0 ==> Spare(table.plan) + 3 >= Spare(old(table.plan))
    ensures nt > 0 ==> |store.vacant| + 1 == |old(store.vacant)|
    ensures var s := old(cf.noarcf[..]);
            nt > 0 && FreeChords(old(table.Live()), Som(s, na1), Poly(s, a), Som(s, na2), Poly(s, b), Som(s, na3),
              Poly(s, c)) ==>
              Sewn(old(table.Live()), old(store.noartr[..]), table.Live(), store.noartr[..], nt,
                v)
  {
    hide Spare, Sewn, SewnOn, FreeSide, Opened, FreeChords, TableInv, Vacancy, Held, Ring3, Names, LiveEdges, Cycle,
      Chain, Emitted, Poly, Bounded, PieceOf;
    ghost var E, s := table.Live(), cf.noarcf[..];
    NoPieces(s, a, b, c);
    ChordsOf(E, Som(s, na1), Poly(s, a), Som(s, na2), Poly(s, b), Som(s, na3), Poly(s, c));
    ghost var v1, v2, v3 := Som(s, na1), Som(s, na2), Som(s, na3);
    var noar3;
    if na1cf == 0 {
      cf.TurnTop(E, na1, a, na2, b, na3, c);
      v := (v2, v3, v1);
      noar3, nt := Trcf2a(table, store, cf, na2, na3, na1, a);
    } else if na2cf == 0 {
      cf.TurnTop(E, na1, a, na2, b, na3, c);
      cf.TurnTop(E, na2, b, na3, c, na1, a);
      v := (v3, v1, v2);
      noar3, nt := Trcf2a(table, store, cf, na3, na1, na2, b);
    } else {
      v := (v1, v2, v3);
      noar3, nt := Trcf2a(table, store, cf, na1, na2, na3, c);
    }
  }

  /** The third case of `trcf3s_`: the contour is turned so that its side comes second. */
  method OneSide(table: Table, store: Store, cf: Contour, na01: int, na1: int, na02: int, na2: int, na03: int, na3: int,
      na1cf: int, na3cf: int,
                 ghost a: seq<int>, ghost b: seq<int>, ghost c: seq<int>) returns (nt: int, ghost v: (int, int, int))
    requires Ready(table, store, cf) && cf.nbcf > 0 && Top(cf.lists) == Ring3(na1, a, na2, b, na3, c)
    requires na01 == LastOr(c, na3) && na02 == LastOr(a, na1) && na03 == LastOr(b, na2)
    requires (na1cf != 0 <==> a == []) && (na3cf != 0 <==> c == [])
    requires (a == [] && b != [] && c != []) || (a != [] && b == [] && c != []) || (a != [] && b != [] && c == [])
    modifies table`n1soar, table`plan, table.nosoar, table.noarst, store`n1artr, store`vacant, store.noartr
    modifies cf`nbcf, cf`free, cf`lists, cf.noarcf, cf.n1arcf
    ensures nt >= 0 && (nt > 0 ==> Ready(table, store, cf))
    ensures nt == 0 ==> Dry(table.n1soar, Spare(old(table.plan)), 3) || old(store.vacant) == [] || |old(cf.free)| < 1
                        || old(cf.nbcf) >= cf.mxarcf
    ensures nt > 0 ==> |cf.free| + 2 * cf.nbcf == |old(cf.free)| + 2 * old(cf.nbcf) + 1
    ensures nt > 0 ==>
      Rotated(v, Som(old(cf.noarcf[..]), na1), Som(old(cf.noarcf[..]), na2), Som(old(cf.noarcf[..]), na3))
    ensures nt > 0 ==> Emitted(old(table.Live()), old(store.noartr[..]), table.Live(), store.noartr[..], nt, v)
    ensures var s := old(cf.noarcf[..]);
            nt > 0 ==> cf.Polygons() == Below(old(cf.Polygons())) + Pieces(Som(s, na1), Poly(s, a), Som(s, na2),
                       Poly(s, b), Som(s, na3), Poly(s, c))
    ensures nt > 0 ==> Spare(table.plan) + 3 >= Spare(old(table.plan))
    ensures nt > 0 ==> |store.vacant| + 1 == |old(store.vacant)|
    ensures var s := old(cf.noarcf[..]);
            nt > 0 && FreeChords(old(table.Live()), Som(s, na1), Poly(s, a), Som(s, na2), Poly(s, b), Som(s, na3),
              Poly(s, c)) ==>
              Sewn(old(table.Live()), old(store.noartr[..]), table.Live(), store.noartr[..], nt,
                v)
  {
    hide Spare, Sewn, SewnOn, FreeSide, Opened, FreeChords, TableInv, Vacancy, Held, Ring3, Names, LiveEdges, Cycle,
      Chain, Emitted, Poly, Bounded, PieceOf;
    ghost var E, s := table.Live(), cf.noarcf[..];
    NoPieces(s, a, b, c);
    ChordsOf(E, Som(s, na1), Poly(s, a), Som(s, na2), Poly(s, b), Som(s, na3), Poly(s, c));
    ghost var v1, v2, v3 := Som(s, na1), Som(s, na2), Som(s, na3);
    var noar1, noar3;
    if na3cf != 0 {
      cf.TurnTop(E, na1, a, na2, b, na3, c);
      v := (v2, v3, v1);
      noar1, noar3, nt := Trcf1a(table, store, cf, na02, na2, na3, na1, b, a);
    } else if na1cf != 0 {
      cf.TurnTop(E, na1, a, na2, b, na3, c);
      cf.TurnTop(E, na2, b, na3, c, na1, a);
      v := (v3, v1, v2);
      noar1, noar3, nt := Trcf1a(table, store, cf, na03, na3, na1, na2, c, b);
    } else {
      v := (v1, v2, v3);
      noar1, noar3, nt := Trcf1a(table, store, cf, na01, na1, na2, na3, a, c);
    }
  }
}
