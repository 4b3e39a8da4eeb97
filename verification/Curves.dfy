/** When the walk of `focftr_` is the whole border of the hole: exactly when the simple edges are one
    closed curve. */
module Curves {
  import opened Lists
  import opened EdgeTable
  import opened Mesh
  import opened Etoile
  import opened Focftr
  import opened Refill

  /** The walk comes back to its start through different vertices and takes all edges. */
  ghost predicate Round(E: Edges, ch: seq<int>, order: seq<int>, v: seq<int>) {
    Walked(E, ch, order, v, []) && v[|order|] == v[0] && Unique(v[..|order|])
    && forall i | i in ch :: i in E && E[i].st1 != E[i].st2
  }

  function Before(k: int, n: int): (j: int) {
    if k == 0 then n - 1 else k - 1
  }

  /** The edges of a round walk at its vertex number m are numbers m and m - 1. */
  lemma EdgesAt(E: Edges, ch: seq<int>, order: seq<int>, v: seq<int>, k: int, m: int)
    requires Round(E, ch, order, v) && 0 <= k < |order| && 0 <= m < |order|
    ensures HasEnd(E, order[k], v[m]) <==> k == m || k == Before(m, |order|)
  {
    var n := |order|;
    assert Joins(E, order[k], v[k], v[k + 1]);
    assert v[..n][m] == v[m] && v[..n][k] == v[k];
    if k + 1 < n {
      assert v[..n][k + 1] == v[k + 1];
    }
  }

  lemma EndAt(E: Edges, ch: seq<int>, order: seq<int>, v: seq<int>, i: int, s: int) returns (k: int, m: int)
    requires Round(E, ch, order, v) && i in ch && HasEnd(E, i, s)
    ensures 0 <= k < |order| && order[k] == i && 0 <= m < |order| && s == v[m] && (k == m || k == Before(m, |order|))
  {
    assert i in order;
    k :| 0 <= k < |order| && order[k] == i;
    assert Joins(E, order[k], v[k], v[k + 1]);
    m := if s == v[k] then k else if k + 1 == |order| then 0 else k + 1;
    EdgesAt(E, ch, order, v, k, m);
  }

  lemma AtLeastTwo(E: Edges, ch: seq<int>, order: seq<int>, v: seq<int>)
    requires Round(E, ch, order, v)
    ensures |order| >= 2
  {
    assert Joins(E, order[0], v[0], v[1]);
    assert order[0] in ch;
  }

  lemma SecondEdge(E: Edges, ch: seq<int>, order: seq<int>, v: seq<int>, i: int, s: int)
    requires Round(E, ch, order, v) && i in ch && HasEnd(E, i, s)
    ensures exists j :: j in ch && j != i && HasEnd(E, j, s)
  {
    var k, m := EndAt(E, ch, order, v, i, s);
    AtLeastTwo(E, ch, order, v);
    var q := if k == m then Before(m, |order|) else m;
    EdgesAt(E, ch, order, v, q, m);
    assert order[q] in ch && order[q] != i;
  }

  lemma NoThirdEdge(E: Edges, ch: seq<int>, order: seq<int>, v: seq<int>, i: int, j: int, h: int, s: int)
    requires Round(E, ch, order, v) && i in ch && j in ch && h in ch
    requires HasEnd(E, i, s) && HasEnd(E, j, s) && HasEnd(E, h, s)
    ensures i == j || j == h || i == h
  {
    var k1, m1 := EndAt(E, ch, order, v, i, s);
    var k2, m2 := EndAt(E, ch, order, v, j, s);
    var k3, m3 := EndAt(E, ch, order, v, h, s);
    assert v[..|order|][m1] == v[..|order|][m2] == v[..|order|][m3];
  }

  /** A list with a member in a and one not in a changes over somewhere. */
  lemma {:induction false} Change(l: seq<int>, a: set<int>, p: int, q: int) returns (k: int)
    requires 0 <= p < q < |l| && (l[p] in a) != (l[q] in a)
    ensures 0 <= k < |l| - 1 && (l[k] in a) != (l[k + 1] in a)
    decreases q - p
  {
    if (l[p] in a) != (l[p + 1] in a) {
      k := p;
    } else {
      k := Change(l, a, p + 1, q);
    }
  }

  lemma HangsTogether(E: Edges, ch: seq<int>, order: seq<int>, v: seq<int>, a: set<int>)
    requires Walked(E, ch, order, v, []) && PartOf(a, ch)
    ensures exists i, j, s :: i in a && j in ch && j !in a && HasEnd(E, i, s) && HasEnd(E, j, s)
  {
    var x :| x in a;
    var y :| y in ch && y !in a;
    assert x in order && y in order;
    var p :| 0 <= p < |order| && order[p] == x;
    var q :| 0 <= q < |order| && order[q] == y;
    var k := Change(order, a, if p < q then p else q, if p < q then q else p);
    assert Joins(E, order[k], v[k], v[k + 1]) && Joins(E, order[k + 1], v[k + 1], v[k + 2]);
    assert HasEnd(E, order[k], v[k + 1]) && HasEnd(E, order[k + 1], v[k + 1]);
    assert order[k] in ch && order[k + 1] in ch;
  }

  lemma RoundCurve(E: Edges, ch: seq<int>, order: seq<int>, v: seq<int>)
    requires Round(E, ch, order, v)
    ensures TwoRegular(E, ch) && Connected(E, ch)
  {
    hide Unique, HasEnd;
    forall i, s | i in ch && HasEnd(E, i, s) ensures exists j :: j in ch && j != i && HasEnd(E, j, s) {
      SecondEdge(E, ch, order, v, i, s);
    }
    forall i, j, k, s | i in ch && j in ch && k in ch && HasEnd(E, i, s) && HasEnd(E, j, s) && HasEnd(E, k, s)
      ensures i == j || j == k || i == k
    {
      NoThirdEdge(E, ch, order, v, i, j, k, s);
    }
    forall a: set<int> | PartOf(a, ch)
      ensures exists i, j, s :: i in a && j in ch && j !in a && HasEnd(E, i, s) && HasEnd(E, j, s)
    {
      HangsTogether(E, ch, order, v, a);
    }
  }

  lemma SameMembers(E: Edges, T: seq<Tri>, ts: seq<int>, ch: seq<int>, ch': seq<int>)
    requires Simple(E, T, ts, ch) && Simple(E, T, ts, ch')
    ensures forall i :: i in ch' <==> i in ch
  {
    hide Count;
  }

  lemma EndsDiffer(E: Edges, T: seq<Tri>, ts: seq<int>, ch: seq<int>, via: map<int, int>)
    requires Chain0(E, T, ts, ch, via)
    ensures forall i | i in ch :: i in E && E[i].st1 != E[i].st2
  {
    hide FlowState, Chosen, Way;
    forall i | i in ch ensures i in E && E[i].st1 != E[i].st2 {
      assert EdgeOk(E, T, i);
    }
  }

  lemma RoundOf(E: Edges, ch: seq<int>, ch': seq<int>, order: seq<int>, v: seq<int>)
    requires Walked(E, ch, order, v, []) && v[|order|] == v[0] && Unique(v[..|order|])
    requires (forall i :: i in ch' <==> i in ch) && forall i | i in ch :: i in E && E[i].st1 != E[i].st2
    ensures Round(E, ch', order, v)
  {
    hide Joins, Unique;
  }

  lemma SimpleRound(E: Edges, T: seq<Tri>, ts: seq<int>, ch: seq<int>, via: map<int, int>, order: seq<int>,
      v: seq<int>, ch': seq<int>)
    requires Ordered(E, T, ts, ch, via, order, v, []) && v[|order|] == v[0] && Unique(v[..|order|])
    requires Simple(E, T, ts, ch')
    ensures Round(E, ch', order, v)
  {
    hide *;
    OrderedParts(E, T, ts, ch, via, order, v, []);
    SameMembers(E, T, ts, ch, ch');
    EndsDiffer(E, T, ts, ch, via);
    RoundOf(E, ch, ch', order, v);
  }

  /** The walk takes all simple edges, comes back, and passes each vertex once, if and only if the
      simple edges are one closed curve. */
  lemma OrderExact(E: Edges, T: seq<Tri>, ts: seq<int>, ch: seq<int>, via: map<int, int>, order: seq<int>, v: seq<int>,
      rem: seq<int>)
    requires Ordered(E, T, ts, ch, via, order, v, rem)
    ensures rem == [] && v[|order|] == v[0] && Unique(v[..|order|]) <==> OneCurve(E, T, ts)
  {
    if OneCurve(E, T, ts) {
      OrderAll(E, T, ts, ch, via, order, v, rem);
    }
    if rem == [] && v[|order|] == v[0] && Unique(v[..|order|]) {
      hide Ordered, Simple, Round, Unique, TwoRegular, Connected;
      forall ch' | Simple(E, T, ts, ch') ensures TwoRegular(E, ch') && Connected(E, ch') {
        SimpleRound(E, T, ts, ch, via, order, v, ch');
        RoundCurve(E, ch', order, v);
      }
    }
  }
}
