/** The edge table `nosoar` of the triangulator: a chained hash table keyed by the smaller
    vertex number, whose columns are handed out from a free list threaded through the table.

    Columns 1..mxsomm are bucket heads; a head stays first in its chain for ever, dead
    (`st1 == 0`) or live.  The columns above are either further members of a chain, always
    live, or on the free list.  Column 0 is scratch: the code writes the back link of "no
    column" there. */
module EdgeTable {
  import opened Lists

  /** One column of `nosoar`.  On a free column `tr1`/`tr2` are the previous/next free column. */
  datatype Cell = Cell(st1: int, st2: int, line: int, tr1: int, tr2: int, chain: int, next: int)

  /** What a live column records about its edge, without the hash link. */
  datatype Edge = Edge(st1: int, st2: int, line: int, tr1: int, tr2: int, chain: int)

  /** The lists behind the links: `lists[0]` is the free list, `lists[h]` the chain of bucket h;
      column i is `lists[own[i]][rank[i]]`.  `index` is the map the table stands for. */
  datatype Plan = Plan(lists: seq<seq<int>>, own: seq<int>, rank: seq<int>, index: map<(int, int), int>)

  function EdgeOf(c: Cell): (r: Edge) {
    Edge(c.st1, c.st2, c.line, c.tr1, c.tr2, c.chain)
  }

  /** The key of the unordered pair {a, b}. */
  function Pair(a: int, b: int): (r: (int, int)) {
    if a <= b then (a, b) else (b, a)
  }

  /** The abstract content of a table: live column number to edge. */
  ghost function LiveEdges(cells: seq<Cell>): (r: map<int, Edge>) {
    map i | 1 <= i < |cells| && cells[i].st1 > 0 :: EdgeOf(cells[i])
  }

  /** Every list member is a column that knows its list and rank. */
  ghost predicate Placed(mx: nat, p: Plan) {
    && |p.own| == |p.rank| == mx + 1
    && forall h, k | 0 <= h < |p.lists| && 0 <= k < |p.lists[h]| ::
         1 <= p.lists[h][k] <= mx && p.own[p.lists[h][k]] == h && p.rank[p.lists[h][k]] == k
  }

  /** Every column 1..mx is where it says. */
  ghost predicate Found(mx: nat, p: Plan) {
    && |p.own| == |p.rank| == mx + 1
    && forall i | 1 <= i <= mx :: 0 <= p.own[i] < |p.lists|
         && 0 <= p.rank[i] < |p.lists[p.own[i]]| && p.lists[p.own[i]][p.rank[i]] == i
  }

  /** The lists partition the columns 1..mx, and head h starts list h. */
  ghost predicate Partition(mx: nat, nsom: nat, p: Plan) {
    && |p.lists| == nsom + 1
    && Placed(mx, p)
    && Found(mx, p)
    && forall h | 1 <= h <= nsom :: |p.lists[h]| > 0 && p.lists[h][0] == h
  }

  /** List h of the plan, empty when there is none. */
  ghost function ListOf(p: Plan, h: int): (r: seq<int>) {
    if 0 <= h < |p.lists| then p.lists[h] else []
  }

  /** The number of free columns. */
  ghost function Spare(p: Plan): (r: nat) {
    |ListOf(p, 0)|
  }

  lemma TakeSpare(p: Plan, a: int, b: int)
    requires 1 <= a < |p.lists| && |p.lists[0]| > 0 && 0 <= p.lists[0][0] < |p.own| == |p.rank|
    ensures Spare(PlanAfterTake(p, a, b)) + 1 == Spare(p)
  {
  }

  lemma SpareIndex(p: Plan, index: map<(int, int), int>)
    ensures Spare(p.(index := index)) == Spare(p)
  {
  }

  lemma SpareNone(mx: nat, nsom: nat, cells: seq<Cell>, n1: int, p: Plan)
    requires TableInv(mx, nsom, cells, n1, p) && n1 <= 0
    ensures Spare(p) == 0
  {
  }

  /** What decides whether `hasoar_` finds room: the pairs that are edges, the bucket heads that are
      live, and the number of free columns. */
  datatype Stock = Stock(pairs: set<(int, int)>, heads: set<int>, spare: int)

  /** The pair q is an edge, or its bucket head can be revived, or a column is free. */
  predicate Finds(s: Stock, q: (int, int)) {
    q in s.pairs || q.0 !in s.heads || s.spare > 0
  }

  /** The stock once q is an edge. */
  function Took(s: Stock, q: (int, int)): (r: Stock) {
    if q in s.pairs then s
    else if q.0 !in s.heads then Stock(s.pairs + {q}, s.heads + {q.0}, s.spare)
    else Stock(s.pairs + {q}, s.heads, s.spare - 1)
  }

  /** The bucket heads that are live. */
  ghost function Heads(live: map<int, Edge>, nsom: int): (r: set<int>) {
    set i | i in live && i <= nsom
  }

  lemma FreeHead(mx: nat, nsom: nat, cells: seq<Cell>, n1: int, p: Plan)
    requires TableInv(mx, nsom, cells, n1, p) && n1 > 0
    ensures n1 > nsom
  {
    assert ListOf(p, 0)[0] == n1;
    FreeAbove(mx, nsom, p, n1);
  }

  /** A free column is no bucket head. */
  lemma FreeAbove(mx: nat, nsom: nat, p: Plan, i: int)
    requires nsom <= mx && Partition(mx, nsom, p) && 1 <= i <= mx && p.own[i] == 0
    ensures i > nsom
  {
    forall h | 1 <= h <= nsom ensures p.own[h] == h {
      assert p.lists[h][0] == h;
    }
  }

  lemma HeadLive(mx: nat, nsom: nat, cells: seq<Cell>, n1: int, p: Plan, a: int)
    requires TableInv(mx, nsom, cells, n1, p) && 1 <= a <= nsom
    ensures a < |cells| && (a in LiveEdges(cells) <==> cells[a].st1 != 0)
  {
    hide Linked, Indexed;
  }

  lemma HeadsMore(live: map<int, Edge>, live': map<int, Edge>, i: int, nsom: int)
    requires i in live' && live' == live[i := live'[i]]
    ensures Heads(live', nsom) == Heads(live, nsom) + if i <= nsom then {i} else {}
  {
  }

  lemma {:induction false} RangeSize(a: int, b: int) returns (r: set<int>)
    requires a <= b
    ensures |r| == b - a && forall i :: i in r <==> a < i <= b
    decreases b - a
  {
    if a == b {
      return {};
    }
    r := RangeSize(a, b - 1);
    r := r + {b};
  }

  lemma {:induction false} ListSize(l: seq<int>) returns (r: set<int>)
    ensures |r| <= |l| && forall i :: i in r <==> i in l
  {
    if l == [] {
      return {};
    }
    r := ListSize(l[1..]);
    assert l == [l[0]] + l[1..];
    r := r + {l[0]};
  }

  lemma SubsetSize(a: set<int>, b: set<int>)
    requires a <= b
    ensures |a| <= |b|
  {
    assert b == a + (b - a);
  }

  /** Every column above the bucket heads is live or free. */
  lemma AboveHeads(mx: nat, nsom: nat, cells: seq<Cell>, n1: int, p: Plan, i: int)
    requires TableInv(mx, nsom, cells, n1, p) && nsom < i <= mx
    ensures i in LiveEdges(cells) || i in ListOf(p, 0)
  {
    hide Linked, Indexed;
    if p.own[i] == 0 {
      assert p.lists[0][p.rank[i]] == i;
    }
  }

  /** The free columns and the edges together are at least the columns above the bucket heads. */
  lemma SpareRoom(mx: nat, nsom: nat, cells: seq<Cell>, n1: int, p: Plan)
    requires TableInv(mx, nsom, cells, n1, p)
    ensures Spare(p) + |LiveEdges(cells)| >= mx - nsom
  {
    var r := RangeSize(nsom, mx);
    var f := ListSize(ListOf(p, 0));
    forall i | i in r ensures i in LiveEdges(cells).Keys + f {
      AboveHeads(mx, nsom, cells, n1, p, i);
    }
    hide TableInv, LiveEdges;
    SubsetSize(r, LiveEdges(cells).Keys + f);
    assert |LiveEdges(cells).Keys| == |LiveEdges(cells)|;
  }

  /** What the links of column i say. */
  ghost predicate LinkAt(c: Cell, p: Plan, i: int)
    requires 0 <= i < |p.own| == |p.rank|
  {
    if p.own[i] > 0 then c.next == At(ListOf(p, p.own[i]), p.rank[i] + 1)
    else c.tr1 == At(ListOf(p, 0), p.rank[i] - 1) && c.tr2 == At(ListOf(p, 0), p.rank[i] + 1)
  }

  /** The links stored in the columns follow the lists. */
  ghost predicate Linked(cells: seq<Cell>, n1: int, p: Plan) {
    && |cells| == |p.own| == |p.rank|
    && n1 == At(ListOf(p, 0), 0)
    && forall i {:trigger cells[i]} | 1 <= i < |cells| :: LinkAt(cells[i], p, i)
  }

  /** Which columns are live, and in which bucket. */
  ghost predicate Filed(cells: seq<Cell>, own: seq<int>) {
    && |own| == |cells|
    && forall i {:trigger cells[i]} | 1 <= i < |cells| ::
         && (own[i] == 0 ==> cells[i].st1 == 0)
         && (own[i] > 0 ==> cells[i].st1 == own[i] || (i == own[i] && cells[i].st1 == 0))
         && (cells[i].st1 > 0 ==> cells[i].st1 <= cells[i].st2)
  }

  /** `index` lists exactly the live columns, each under its pair. */
  ghost predicate Indexed(cells: seq<Cell>, index: map<(int, int), int>) {
    && (forall i | 1 <= i < |cells| && cells[i].st1 > 0 ::
          (cells[i].st1, cells[i].st2) in index && index[(cells[i].st1, cells[i].st2)] == i)
    && (forall q | q in index :: 1 <= index[q] < |cells|
          && cells[index[q]].st1 > 0 && q == (cells[index[q]].st1, cells[index[q]].st2))
  }

  ghost predicate TableInv(mx: nat, nsom: nat, cells: seq<Cell>, n1: int, p: Plan) {
    && |cells| == mx + 1
    && nsom <= mx
    && Partition(mx, nsom, p)
    && Linked(cells, n1, p)
    && Filed(cells, p.own)
    && Indexed(cells, p.index)
  }

  class Table {
    const mxsomm: nat
    const mxsoar: nat
    const nosoar: array<Cell>
    const noarst: array<int>
    var n1soar: int
    ghost var plan: Plan

    ghost predicate Valid()
      reads this, nosoar
    {
      && nosoar.Length == mxsoar + 1 && mxsomm <= mxsoar && noarst.Length == mxsomm + 1
      && TableInv(mxsoar, mxsomm, nosoar[..], n1soar, plan)
    }

    ghost function Live(): (r: map<int, Edge>)
      reads this, nosoar
    {
      LiveEdges(nosoar[..])
    }

    ghost function StockOf(): (r: Stock)
      reads this, nosoar
    {
      Stock(plan.index.Keys, Heads(Live(), mxsomm), Spare(plan))
    }

    /** `insoar_`: the empty table. */
    constructor (mxsomm: nat, mxsoar: nat)
      requires mxsomm < mxsoar
      ensures this.mxsomm == mxsomm && this.mxsoar == mxsoar
      ensures Valid() && fresh(nosoar) && fresh(noarst)
      ensures forall s | 0 <= s <= mxsomm :: noarst[s] == 0
      ensures Live() == map[] && plan.index == map[] && Spare(plan) == mxsoar - mxsomm
    {
      this.mxsomm := mxsomm;
      this.mxsoar := mxsoar;
      nosoar := new Cell[mxsoar + 1](_ => Cell(0, 0, 0, 0, 0, 0, 0));
      noarst := new int[mxsomm + 1](_ => 0);
      n1soar := mxsomm + 1;
      new;
      for i := 1 to mxsomm + 1
        invariant n1soar == mxsomm + 1 && noarst.Length == mxsomm + 1 && fresh(noarst)
        invariant forall s | 0 <= s <= mxsomm :: noarst[s] == 0
        invariant nosoar.Length == mxsoar + 1 && fresh(nosoar)
        invariant forall j | 0 <= j <= mxsoar :: nosoar[j].st1 == 0 && nosoar[j].next == 0
      {
        nosoar[i] := nosoar[i].(st1 := 0, line := 0, chain := -2, next := 0);
      }
      for i := n1soar to mxsoar + 1
        invariant n1soar == mxsomm + 1 && noarst.Length == mxsomm + 1 && fresh(noarst)
        invariant forall s | 0 <= s <= mxsomm :: noarst[s] == 0
        invariant nosoar.Length == mxsoar + 1 && fresh(nosoar)
        invariant forall j | 0 <= j <= mxsoar :: nosoar[j].st1 == 0 && nosoar[j].next == 0
        invariant forall j | mxsomm < j < i :: nosoar[j].tr1 == j - 1 && nosoar[j].tr2 == j + 1
      {
        nosoar[i] := nosoar[i].(st1 := 0, line := 0, tr1 := i - 1, tr2 := i + 1, chain := -2, next := 0);
      }
      nosoar[n1soar] := nosoar[n1soar].(tr1 := 0);
      nosoar[mxsoar] := nosoar[mxsoar].(tr2 := 0);
      plan := FirstPlan(mxsoar, mxsomm);
      FirstPlanInv(mxsoar, mxsomm, nosoar[..], n1soar);
    }

    /** The search of `hasoar_` along the chain of a: ends on the edge (a, b), or on the last
        column of the chain when the table has no such edge. */
    method Seek(a: int, b: int) returns (noar: int)
      requires Valid() && 1 <= a <= mxsomm
      ensures 1 <= noar <= mxsoar
      ensures (nosoar[noar].st1 == a && nosoar[noar].st2 == b) <==> (a, b) in plan.index
      ensures (a, b) in plan.index ==> noar == plan.index[(a, b)]
      ensures (a, b) !in plan.index ==> noar == plan.lists[a][|plan.lists[a]| - 1]
    {
      hide TableInv;
      noar := a;
      ghost var cells := nosoar[..];
      ghost var k := 0;
      ChainBounds(mxsoar, mxsomm, cells, n1soar, plan, a);
      while nosoar[noar].next > 0 && !(nosoar[noar].st1 == a && nosoar[noar].st2 == b)
        invariant 0 <= k < |plan.lists[a]| && noar == plan.lists[a][k]
        invariant forall j | 0 <= j < k :: !(cells[plan.lists[a][j]].st1 == a && cells[plan.lists[a][j]].st2 == b)
        decreases |plan.lists[a]| - k
      {
        NextInChain(mxsoar, mxsomm, cells, n1soar, plan, a, k);
        noar := nosoar[noar].next;
        k := k + 1;
      }
      NextInChain(mxsoar, mxsomm, cells, n1soar, plan, a, k);
      ChainHolds(mxsoar, mxsomm, cells, n1soar, plan, a, b, k);
    }

    /** The end of `hasoar_`: the first free column takes the edge (a, b) at the end of chain a. */
    method Append(a: int, b: int, last: int) returns (noar: int)
      requires Valid() && 1 <= a <= mxsomm && a <= b && n1soar > 0 && (a, b) !in plan.index
      requires |plan.lists| > a && |plan.lists[a]| > 0 && last == plan.lists[a][|plan.lists[a]| - 1]
      modifies `n1soar, `plan, nosoar
      ensures Valid()
      ensures noar > mxsomm && noar !in old(Live()) && noar in Live()
      ensures Live() == old(Live())[noar := Live()[noar]] && (Live()[noar].st1, Live()[noar].st2) == (a, b)
      ensures plan.index == old(plan.index)[(a, b) := noar]
      ensures Spare(plan) + 1 == Spare(old(plan))
    {
      hide TableInv, LiveEdges, PlanAfterTake, Spare;
      ghost var cells := nosoar[..];
      ChainBounds(mxsoar, mxsomm, cells, n1soar, plan, a);
      TakeFree(mxsoar, mxsomm, cells, n1soar, plan, a, b);
      FreeHead(mxsoar, mxsomm, cells, n1soar, plan);
      nosoar[last] := nosoar[last].(next := n1soar);
      noar := n1soar;
      n1soar := nosoar[n1soar].tr2;
      nosoar[n1soar] := nosoar[n1soar].(tr1 := 0);
      nosoar[noar] := nosoar[noar].(next := 0);
      nosoar[noar] := nosoar[noar].(st1 := a, st2 := b);
      TakeReady(mxsoar, mxsomm, cells, old(n1soar), plan, a);
      TakeSpare(plan, a, b);
      plan := PlanAfterTake(plan, a, b);
      assert nosoar[..] == CellsAfterTake(cells, last, noar, n1soar, a, b);
    }

    /** `hasoar_`: find or add the edge of vertices ns1, ns2.  noar > 0: found; noar < 0: added
        as column -noar; 0: not found and no column free. */
    method Hasoar(ns1: int, ns2: int) returns (noar: int)
      requires Valid()
      requires 1 <= Pair(ns1, ns2).0 <= mxsomm
      modifies `n1soar, `plan, nosoar
      ensures Valid()
      ensures noar > 0 <==> Pair(ns1, ns2) in old(plan.index)
      ensures noar > 0 ==> noar == old(plan.index)[Pair(ns1, ns2)]
      ensures noar == 0 ==> n1soar == 0
      ensures noar >= 0 ==> nosoar[..] == old(nosoar[..]) && n1soar == old(n1soar) && plan == old(plan)
      ensures noar < 0 ==> -noar !in old(Live()) && -noar in Live()
      ensures noar < 0 ==> Live() == old(Live())[-noar := Live()[-noar]]
      ensures noar < 0 ==> (Live()[-noar].st1, Live()[-noar].st2) == Pair(ns1, ns2)
      ensures noar < 0 ==> plan.index == old(plan.index)[Pair(ns1, ns2) := -noar]
      ensures Spare(plan) + 1 >= Spare(old(plan)) && (noar == 0 ==> Spare(plan) == 0)
      ensures noar == 0 <==> !Finds(old(StockOf()), Pair(ns1, ns2))
      ensures noar != 0 ==> StockOf() == Took(old(StockOf()), Pair(ns1, ns2))
    {
      hide TableInv, LiveEdges, PlanAfterTake, Spare;
      var a, b := ns1, ns2;
      if a > b { a, b := b, a; }
      HeadLive(mxsoar, mxsomm, nosoar[..], n1soar, plan, a);
      ghost var live := Live();
      ChainBounds(mxsoar, mxsomm, nosoar[..], n1soar, plan, a);
      noar := Seek(a, b);
      if nosoar[noar].st1 == a && nosoar[noar].st2 == b {
        return;
      }
      ghost var cells := nosoar[..];
      if nosoar[a].st1 == 0 {
        noar := a;
        nosoar[noar] := nosoar[noar].(st1 := a, st2 := b);
        assert nosoar[..] == cells[a := cells[a].(st1 := a, st2 := b)];
        ReviveHead(mxsoar, mxsomm, cells, n1soar, plan, a, b);
        SpareIndex(plan, plan.index[(a, b) := a]);
        plan := plan.(index := plan.index[(a, b) := a]);
        HeadsMore(live, Live(), a, mxsomm);
      } else if n1soar <= 0 {
        SpareNone(mxsoar, mxsomm, cells, n1soar, plan);
        noar := 0;
        return;
      } else {
        noar := Append(a, b, noar);
        HeadsMore(live, Live(), noar, mxsomm);
      }
      noar := -noar;
    }

    /** The walk of `sasoar_` along the chain of column noar: the column before it, 0 for a head. */
    method Before(noar: int) returns (noar0: int)
      requires Valid() && noar in Live()
      ensures nosoar[noar].st1 == noar ==> noar0 == 0
      ensures nosoar[noar].st1 != noar ==> noar0 == At(ListOf(plan, nosoar[noar].st1), plan.rank[noar] - 1)
    {
      hide TableInv;
      noar0 := 0;
      var noar1 := nosoar[noar].st1;
      ghost var cells, h, k := nosoar[..], nosoar[noar].st1, 0;
      DropBasics(mxsoar, mxsomm, cells, n1soar, plan, noar);
      ChainBounds(mxsoar, mxsomm, cells, n1soar, plan, h);
      while noar1 != noar
        invariant 0 <= k <= plan.rank[noar] && noar1 == plan.lists[h][k]
        invariant noar0 == At(plan.lists[h], k - 1)
        decreases |plan.lists[h]| - k
      {
        NextInChain(mxsoar, mxsomm, cells, n1soar, plan, h, k);
        noar0 := noar1;
        noar1 := nosoar[noar1].next;
        k := k + 1;
      }
      RankOf(mxsoar, mxsomm, cells, n1soar, plan, h, k);
    }

    /** The second half of `sasoar_`: take the live column noar out of the table.  A head stays
        in its chain as a dead column; any other column goes to the front of the free list. */
    method Unlink(noar: int)
      requires Valid() && noar in Live()
      modifies `n1soar, `plan, nosoar
      ensures Valid()
      ensures Live() == old(Live()) - {noar}
      ensures plan.index == old(plan.index) - {(old(Live())[noar].st1, old(Live())[noar].st2)}
    {
      hide TableInv, PlanAfterDrop;
      ghost var cells, h := nosoar[..], nosoar[noar].st1;
      var noar0 := Before(noar);
      DropBasics(mxsoar, mxsomm, cells, n1soar, plan, noar);
      if noar != nosoar[noar].st1 {
        DropMember(mxsoar, mxsomm, cells, n1soar, plan, noar);
        nosoar[noar0] := nosoar[noar0].(next := nosoar[noar].next);
        nosoar[noar] := nosoar[noar].(tr1 := 0, tr2 := n1soar);
        nosoar[n1soar] := nosoar[n1soar].(tr1 := noar);
        plan := PlanAfterDrop(plan, noar, (h, cells[noar].st2));
        nosoar[noar] := nosoar[noar].(st1 := 0);
        assert nosoar[..] == CellsAfterDrop(cells, noar0, noar, n1soar);
        n1soar := noar;
      } else {
        DropHead(mxsoar, mxsomm, cells, n1soar, plan, noar);
        nosoar[noar] := nosoar[noar].(st1 := 0);
        plan := plan.(index := plan.index - {(h, cells[noar].st2)});
        assert nosoar[..] == cells[noar := cells[noar].(st1 := 0)];
      }
    }

    /** The field writes the mesh makes on a live column: line, triangles, chaining. */
    method Write(noar: int, e: Edge)
      requires Valid() && noar in Live()
      requires e.st1 == Live()[noar].st1 && e.st2 == Live()[noar].st2
      modifies nosoar
      ensures Valid() && Live() == old(Live())[noar := e]
    {
      hide TableInv;
      Rewrite(mxsoar, mxsomm, nosoar[..], n1soar, plan, noar, e);
      ghost var cells := nosoar[..];
      nosoar[noar] := Cell(e.st1, e.st2, e.line, e.tr1, e.tr2, e.chain, nosoar[noar].next);
      assert nosoar[..] == cells[noar := nosoar[noar]];
    }

    /** `fasoar_`: enter the edge ns1-ns2 with its triangles nt1, nt2 (-1: unknown). */
    method Fasoar(ns1: int, ns2: int, nt1: int, nt2: int, nolign: int) returns (noar: int, ierr: int)
      requires Valid()
      requires 1 <= ns1 <= mxsomm && 1 <= ns2 <= mxsomm
      modifies `n1soar, `plan, nosoar, noarst
      ensures Valid()
      ensures (noar == 0 <==> ierr == 1) && (ierr == 0 || ierr == 1 || ierr == 3 || ierr == 4)
      ensures noar == 0 ==> n1soar == 0
      ensures noar == 0 ==> Pair(ns1, ns2) !in old(plan.index) && Live() == old(Live()) && plan == old(plan)
                            && noarst[..] == old(noarst[..])
      ensures noar != 0 ==> noar in Live() && plan.index == old(plan.index)[Pair(ns1, ns2) := noar]
      ensures Spare(plan) + 1 >= Spare(old(plan)) && (noar == 0 ==> Spare(plan) == 0)
      ensures noar == 0 <==> !Finds(old(StockOf()), Pair(ns1, ns2))
      ensures noar != 0 ==> StockOf() == Took(old(StockOf()), Pair(ns1, ns2))
      ensures Pair(ns1, ns2) in old(plan.index) ==> noar == old(plan.index)[Pair(ns1, ns2)] && noar in old(Live())
      ensures Pair(ns1, ns2) in old(plan.index) ==> Live() == old(Live())[noar := Attach(old(Live())[noar], nt1, nt2).0]
      ensures Pair(ns1, ns2) in old(plan.index) ==> ierr == Attach(old(Live())[noar], nt1, nt2).1
                                                    && noarst[..] == old(noarst[..])
      ensures noar != 0 && Pair(ns1, ns2) !in old(plan.index) ==>
                ierr == 0 && noar !in old(Live())
      ensures noar != 0 && Pair(ns1, ns2) !in old(plan.index) ==>
                Live() == old(Live())[noar := Edge(Pair(ns1, ns2).0, Pair(ns1, ns2).1, nolign, nt1, nt2, -1)]
      ensures noar != 0 && Pair(ns1, ns2) !in old(plan.index) ==>
        noarst[..] == old(noarst[..])[ns1 := noar][ns2 := noar]
    {
      hide TableInv, Spare, Heads, Finds, Took, LiveEdges, Attach;
      ierr := 0;
      noar := Hasoar(ns1, ns2);
      ghost var live := Live();
      if noar == 0 {
        ierr := 1;
        return;
      } else if noar < 0 {
        noar := -noar;
        LiveAt(nosoar[..], noar);
        var a, b := nosoar[noar].st1, nosoar[noar].st2;
        Write(noar, Edge(a, b, nolign, nt1, nt2, -1));
        noarst[a] := noar;
        noarst[b] := noar;
        assert noarst[..] == old(noarst[..])[ns1 := noar][ns2 := noar];
      } else {
        IndexedLive(mxsoar, mxsomm, nosoar[..], n1soar, plan, Pair(ns1, ns2));
        ierr := AttachTo(noar, nt1, nt2);
      }
      KeysSame(live, Live(), noar, mxsomm);
    }

    /** The end of `fasoar_`: the triangles nt1, nt2 for the edge noar, found in the table. */
    method AttachTo(noar: int, nt1: int, nt2: int) returns (ierr: int)
      requires Valid() && noar in Live()
      modifies nosoar
      ensures Valid() && Live() == old(Live())[noar := Attach(old(Live())[noar], nt1, nt2).0]
      ensures ierr == Attach(old(Live())[noar], nt1, nt2).1 && (ierr == 0 || ierr == 3 || ierr == 4)
    {
      hide TableInv;
      var e := EdgeOf(nosoar[noar]);
      if e.tr1 > 0 && e.tr2 > 0 {
        if (e.tr1 != nt1 && e.tr1 != nt2) || (e.tr2 != nt1 && e.tr2 != nt2) {
          e := e.(tr1 := nt1, tr2 := nt2);
        }
      }
      if e.tr1 <= 0 {
        e := e.(tr1 := nt1);
      } else {
        if e.tr2 > 0 && nt1 > 0 && e.tr2 != nt1 {
          Write(noar, e);
          return 3;
        }
        e := e.(tr2 := nt1);
      }
      if nt2 > 0 {
        if e.tr2 > 0 && e.tr2 != nt2 {
          Write(noar, e);
          return 4;
        }
        e := e.(tr2 := nt2);
      }
      Write(noar, e);
      ierr := 0;
    }

    /** The loop of `sasoar_` for the end s of edge noar. */
    method Reanchor(s: int, noar: int, mx: int)
      requires Valid() && noar in Live() && mx <= mxsoar && 1 <= s <= mxsomm
      requires s == Live()[noar].st1 || s == Live()[noar].st2
      modifies noarst
      ensures Valid() && Replaces(nosoar[..], s, noar, mx, old(noarst[s]), noarst[s])
      ensures noarst[s] == old(noarst[s]) || Touches(Live(), noarst[s], s)
      ensures forall u | 0 <= u <= mxsomm && u != s :: noarst[u] == old(noarst[u])
    {
      hide TableInv;
      if noarst[s] == noar {
        if nosoar[s].st1 == s && nosoar[s].st2 > 0 && nosoar[s].tr1 > 0 {
          noarst[s] := s;
        } else {
          var i := 1;
          while i <= mx
            && !(nosoar[i].st1 > 0 && nosoar[i].tr1 > 0
            && (nosoar[i].st2 == s || (nosoar[i].st1 == s && nosoar[i].st2 > 0)))
            invariant 1 <= i && forall j | 1 <= j < i && j <= mx :: !Serves(nosoar[..], j, s)
            decreases mx - i
          {
            i := i + 1;
          }
          if i <= mx {
            assert Serves(nosoar[..], i, s);
            noarst[s] := i;
          }
        }
      }
    }

    /** `sasoar_`: remove the edge noar unless it lies on a boundary line, after moving the
        entries of `noarst` that name it; only columns 1..mx are searched for another edge. */
    method Sasoar(noar: int, mx: int)
      requires Valid() && noar in Live() && Live()[noar].st2 <= mxsomm && mx <= mxsoar
      modifies `n1soar, `plan, nosoar, noarst
      ensures Valid()
      ensures old(Live())[noar].line <= 0 ==> Live() == old(Live()) - {noar}
      ensures old(Live())[noar].line <= 0 ==>
        plan.index == old(plan.index) - {(old(Live())[noar].st1, old(Live())[noar].st2)}
      ensures old(Live())[noar].line > 0 ==> Live() == old(Live()) && plan == old(plan)
      ensures forall s | 0 <= s <= mxsomm && s != old(Live())[noar].st1 && s != old(Live())[noar].st2 ::
        noarst[s] == old(noarst[s])
      ensures forall s | s == old(Live())[noar].st1 || s == old(Live())[noar].st2 ::
                Replaces(old(nosoar[..]), s, noar, mx, old(noarst[s]), noarst[s])
                && (noarst[s] == old(noarst[s]) || Touches(old(Live()), noarst[s], s))
    {
      hide TableInv;
      DropBasics(mxsoar, mxsomm, nosoar[..], n1soar, plan, noar);
      ghost var cells, st := nosoar[..], noarst[..];
      var ns := [nosoar[noar].st1, nosoar[noar].st2];
      Reanchor(ns[0], noar, mx);
      ghost var st1 := noarst[..];
      Reanchor(ns[1], noar, mx);
      ReplacesTwice(cells, ns[0], noar, mx, st[ns[0]], st1[ns[0]], noarst[ns[0]]);
      if nosoar[noar].line <= 0 {
        Unlink(noar);
      }
    }
  }

  /** The test of the search of `sasoar_`: column i is an edge with a triangle and the end s. */
  predicate Serves(cells: seq<Cell>, i: int, s: int) {
    0 <= i < |cells| && cells[i].st1 > 0 && cells[i].tr1 > 0
    && (cells[i].st2 == s || (cells[i].st1 == s && cells[i].st2 > 0))
  }

  /** The bucket head of vertex s is an edge from s with a triangle. */
  predicate Heads1(cells: seq<Cell>, s: int) {
    0 <= s < |cells| && cells[s].st1 == s && cells[s].st2 > 0 && cells[s].tr1 > 0
  }

  /** What `sasoar_` makes of the entry st of vertex s when it removes edge noar: an entry for noar
      becomes the bucket head of s, or else the first of the columns 1..mx that serves, and stays when
      there is none.  Edge noar itself may serve. */
  ghost predicate Replaces(cells: seq<Cell>, s: int, noar: int, mx: int, st: int, st': int) {
    if st != noar then st' == st
    else if Heads1(cells, s) then st' == s
    else if exists i :: 1 <= i <= mx && Serves(cells, i, s) then
      1 <= st' <= mx && Serves(cells, st', s) && forall j | 1 <= j < st' :: !Serves(cells, j, s)
    else st' == st
  }

  lemma ReplacesTwice(cells: seq<Cell>, s: int, noar: int, mx: int, st: int, st1: int, st2: int)
    requires Replaces(cells, s, noar, mx, st, st1)
    ensures Replaces(cells, s, noar, mx, st1, st2) ==> Replaces(cells, s, noar, mx, st, st2)
    ensures st1 == st2 ==> Replaces(cells, s, noar, mx, st, st2)
  {
  }

  /** Column i is a live edge with end s. */
  ghost predicate Touches(live: map<int, Edge>, i: int, s: int) {
    i in live && (live[i].st1 == s || live[i].st2 == s)
  }

  /** What `fasoar_` makes of an edge it finds, and its error code.  An edge already between two
      triangles other than nt1, nt2 is first overwritten with them. */
  function Attach(e: Edge, nt1: int, nt2: int): (r: (Edge, int)) {
    var e1 := if e.tr1 > 0 && e.tr2 > 0 && ((e.tr1 != nt1 && e.tr1 != nt2) || (e.tr2 != nt1 && e.tr2 != nt2))
              then e.(tr1 := nt1, tr2 := nt2) else e;
    if e1.tr1 > 0 && e1.tr2 > 0 && nt1 > 0 && e1.tr2 != nt1 then (e1, 3)
    else
      var e2 := if e1.tr1 <= 0 then e1.(tr1 := nt1) else e1.(tr2 := nt1);
      if nt2 <= 0 then (e2, 0)
      else if e2.tr2 > 0 && e2.tr2 != nt2 then (e2, 4)
      else (e2.(tr2 := nt2), 0)
  }

  /** One triangle always gets its place, in a free entry when there is one.  Two triangles do exactly on an
      edge whose first entry is free and whose second one is free or holds nt2; otherwise the code is 3
      when both entries are taken and neither makes way for nt1, and 4 in the other cases. */
  lemma AttachExact(e: Edge, nt1: int, nt2: int)
    requires nt1 > 0 && nt1 != nt2
    ensures var (e', ierr) := Attach(e, nt1, nt2);
      && (ierr == 0 <==> nt2 <= 0 || (e.tr1 <= 0 && (e.tr2 <= 0 || e.tr2 == nt2)))
      && (ierr == 3 <==> nt2 > 0 && e.tr1 > 0 && e.tr2 > 0 && !(e.tr2 == nt1 && (e.tr1 == nt1 || e.tr1 == nt2)))
      && (ierr != 0 ==> ierr == 3 || ierr == 4)
      && (ierr == 0 && nt2 > 0 ==> e' == e.(tr1 := nt1, tr2 := nt2))
      && (ierr == 0 && nt2 <= 0 ==> e' == if e.tr1 <= 0 then e.(tr1 := nt1)
                                          else if e.tr2 <= 0 || e.tr1 == nt1 then e.(tr2 := nt1)
                                          else e.(tr1 := nt1, tr2 := nt1))
  {
  }

  lemma LiveAt(cells: seq<Cell>, i: int)
    requires i in LiveEdges(cells)
    ensures 1 <= i < |cells| && LiveEdges(cells)[i] == EdgeOf(cells[i])
  {
  }

  lemma KeysSame(live: map<int, Edge>, live': map<int, Edge>, i: int, nsom: int)
    requires i in live && i in live' && live' == live[i := live'[i]]
    ensures Heads(live', nsom) == Heads(live, nsom)
  {
  }

  lemma IndexedLive(mx: nat, nsom: nat, cells: seq<Cell>, n1: int, p: Plan, q: (int, int))
    requires TableInv(mx, nsom, cells, n1, p) && q in p.index
    ensures p.index[q] in LiveEdges(cells) && q == (cells[p.index[q]].st1, cells[p.index[q]].st2)
  {
  }

  lemma RewriteLinked(cells: seq<Cell>, n1: int, p: Plan, i: int, e: Edge)
    requires Linked(cells, n1, p) && 1 <= i < |cells| && p.own[i] > 0
    ensures Linked(cells[i := Cell(e.st1, e.st2, e.line, e.tr1, e.tr2, e.chain, cells[i].next)], n1, p)
  {
  }

  /** Writing the other fields of a live column leaves the structure alone. */
  lemma Rewrite(mx: nat, nsom: nat, cells: seq<Cell>, n1: int, p: Plan, i: int, e: Edge)
    requires TableInv(mx, nsom, cells, n1, p) && i in LiveEdges(cells)
    requires e.st1 == cells[i].st1 && e.st2 == cells[i].st2
    ensures var cells' := cells[i := Cell(e.st1, e.st2, e.line, e.tr1, e.tr2, e.chain, cells[i].next)];
            TableInv(mx, nsom, cells', n1, p) && LiveEdges(cells') == LiveEdges(cells)[i := e]
  {
    var cells' := cells[i := Cell(e.st1, e.st2, e.line, e.tr1, e.tr2, e.chain, cells[i].next)];
    hide Partition, Linked, LiveEdges;
    DropBasics(mx, nsom, cells, n1, p, i);
    RewriteLinked(cells, n1, p, i, e);
    LiveUpdate(cells, cells', i);
  }

  // ---------------------------------------------------------------- searching a chain

  lemma ChainBounds(mx: nat, nsom: nat, cells: seq<Cell>, n1: int, p: Plan, a: int)
    requires TableInv(mx, nsom, cells, n1, p) && 1 <= a <= nsom
    ensures |p.lists| == nsom + 1 && |p.own| == |p.rank| == mx + 1
    ensures |p.lists[a]| > 0 && p.lists[a][0] == a
    ensures forall k | 0 <= k < |p.lists[a]| :: 1 <= p.lists[a][k] <= mx
    ensures n1 >= 0
  {
  }

  lemma NextInChain(mx: nat, nsom: nat, cells: seq<Cell>, n1: int, p: Plan, a: int, k: int)
    requires TableInv(mx, nsom, cells, n1, p)
    requires 1 <= a <= nsom && 0 <= k < |p.lists[a]|
    ensures 1 <= p.lists[a][k] <= mx
    ensures cells[p.lists[a][k]].next == At(p.lists[a], k + 1)
    ensures k + 1 < |p.lists[a]| ==> p.lists[a][k + 1] > 0
  {
  }

  /** After a fruitless walk to the end of chain a, or on a hit, `index` agrees. */
  lemma ChainHolds(mx: nat, nsom: nat, cells: seq<Cell>, n1: int, p: Plan, a: int, b: int, k: int)
    requires TableInv(mx, nsom, cells, n1, p)
    requires 1 <= a <= nsom && 0 <= k < |p.lists[a]|
    requires forall j | 0 <= j < k :: !(cells[p.lists[a][j]].st1 == a && cells[p.lists[a][j]].st2 == b)
    requires cells[p.lists[a][k]].next <= 0 || (cells[p.lists[a][k]].st1 == a && cells[p.lists[a][k]].st2 == b)
    ensures (cells[p.lists[a][k]].st1 == a && cells[p.lists[a][k]].st2 == b) <==> (a, b) in p.index
    ensures (a, b) in p.index ==> p.lists[a][k] == p.index[(a, b)]
    ensures (a, b) !in p.index ==> k == |p.lists[a]| - 1
  {
    NextInChain(mx, nsom, cells, n1, p, a, k);
    if (a, b) in p.index {
      var i := p.index[(a, b)];
      var c := cells[i];
      assert p.own[i] == a;
    }
  }

  // ---------------------------------------------------------------- the empty table

  ghost function FirstPlan(mx: nat, nsom: nat): (r: Plan)
    requires nsom <= mx
  {
    Plan([seq(mx - nsom, k => nsom + 1 + k)] + seq(nsom, h => [h + 1]),
         seq(mx + 1, i => if i <= nsom then i else 0),
         seq(mx + 1, i => if i <= nsom then 0 else i - nsom - 1), map[])
  }

  lemma FirstPlanInv(mx: nat, nsom: nat, cells: seq<Cell>, n1: int)
    requires |cells| == mx + 1 && n1 == nsom + 1 <= mx
    requires forall j | 0 <= j <= mx :: cells[j].st1 == 0 && cells[j].next == 0
    requires forall j | nsom < j <= mx :: cells[j].tr1 == (if j == n1 then 0 else j - 1)
                                          && cells[j].tr2 == if j == mx then 0 else j + 1
    ensures TableInv(mx, nsom, cells, n1, FirstPlan(mx, nsom))
  {
    var p := FirstPlan(mx, nsom);
    assert forall h | 1 <= h <= nsom :: p.lists[h] == [h];
    FirstPlanPartition(mx, nsom);
    hide Partition;
  }

  lemma FirstPlanPartition(mx: nat, nsom: nat)
    requires nsom < mx
    ensures Partition(mx, nsom, FirstPlan(mx, nsom))
  {
    var p := FirstPlan(mx, nsom);
    assert forall h | 1 <= h <= nsom :: p.lists[h] == [h];
  }

  // ---------------------------------------------------------------- adding an edge

  lemma LiveUpdate(cells: seq<Cell>, cells': seq<Cell>, i: int)
    requires |cells'| == |cells| && 1 <= i < |cells| && cells'[i].st1 > 0
    requires forall j | 1 <= j < |cells| && j != i ::
      cells'[j].st1 == cells[j].st1 && (cells[j].st1 > 0 ==> EdgeOf(cells'[j]) == EdgeOf(cells[j]))
    ensures LiveEdges(cells') == LiveEdges(cells)[i := EdgeOf(cells'[i])]
  {
  }

  lemma IndexAdd(cells: seq<Cell>, cells': seq<Cell>, i: int, a: int, b: int, index: map<(int, int), int>)
    requires Indexed(cells, index) && (a, b) !in index
    requires |cells'| == |cells| && 1 <= i < |cells| && cells[i].st1 <= 0 && a > 0
    requires cells'[i].st1 == a && cells'[i].st2 == b
    requires forall j | 1 <= j < |cells| && j != i :: cells'[j].st1 == cells[j].st1 && cells'[j].st2 == cells[j].st2
    ensures Indexed(cells', index[(a, b) := i])
  {
  }

  /** A dead head takes a new pair; its chain is kept. */
  lemma ReviveHead(mx: nat, nsom: nat, cells: seq<Cell>, n1: int, p: Plan, a: int, b: int)
    requires TableInv(mx, nsom, cells, n1, p)
    requires 1 <= a <= nsom && a <= b && cells[a].st1 == 0 && (a, b) !in p.index
    ensures var cells' := cells[a := cells[a].(st1 := a, st2 := b)];
            && TableInv(mx, nsom, cells', n1, p.(index := p.index[(a, b) := a]))
            && LiveEdges(cells') == LiveEdges(cells)[a := EdgeOf(cells'[a])]
    ensures a !in LiveEdges(cells)
  {
    var cells' := cells[a := cells[a].(st1 := a, st2 := b)];
    assert p.lists[a][0] == a && p.own[a] == a;
    ReviveLinked(mx, cells, n1, p, a, b);
    ReviveFiled(cells, p.own, a, b);
    IndexAdd(cells, cells', a, a, b, p.index);
    LiveUpdate(cells, cells', a);
  }

  lemma ReviveLinked(mx: nat, cells: seq<Cell>, n1: int, p: Plan, a: int, b: int)
    requires |p.lists| > 0 && |cells| == mx + 1 && Placed(mx, p) && Found(mx, p) && Linked(cells, n1, p)
    requires 1 <= a <= mx && p.own[a] == a
    ensures Linked(cells[a := cells[a].(st1 := a, st2 := b)], n1, p.(index := p.index[(a, b) := a]))
  {
  }

  lemma ReviveFiled(cells: seq<Cell>, own: seq<int>, a: int, b: int)
    requires |own| == |cells| && Filed(cells, own)
    requires 1 <= a < |cells| && own[a] == a && a <= b
    ensures Filed(cells[a := cells[a].(st1 := a, st2 := b)], own)
  {
  }

  ghost function PlanAfterTake(p: Plan, a: int, b: int): (r: Plan)
    requires 1 <= a < |p.lists| && |p.lists[0]| > 0 && 0 <= p.lists[0][0] < |p.own| == |p.rank|
    ensures r.index == p.index[(a, b) := p.lists[0][0]]
  {
    var f := p.lists[0][0];
    Plan(p.lists[a := p.lists[a] + [f]][0 := p.lists[0][1..]],
         p.own[f := a],
         seq(|p.rank|, i requires 0 <= i < |p.rank| =>
           if i == f then |p.lists[a]| else if p.own[i] == 0 then p.rank[i] - 1 else p.rank[i]),
         p.index[(a, b) := f])
  }

  /** Column `last` now points to the taken column f; n1 is the new first free column. */
  ghost function CellsAfterTake(cells: seq<Cell>, last: int, f: int, n1: int, a: int, b: int): (r: seq<Cell>)
    requires 0 <= last < |cells| && 0 <= f < |cells| && 0 <= n1 < |cells|
  {
    var c1 := cells[last := cells[last].(next := f)];
    var c2 := c1[n1 := c1[n1].(tr1 := 0)];
    c2[f := c2[f].(st1 := a, st2 := b, next := 0)]
  }

  lemma TakePlaced(mx: nat, p: Plan, a: int, b: int)
    requires 1 <= a < |p.lists| && |p.lists[0]| > 0
    requires Placed(mx, p)
    ensures Placed(mx, PlanAfterTake(p, a, b))
  {
    var p' := PlanAfterTake(p, a, b);
    forall h, k | 0 <= h < |p'.lists| && 0 <= k < |p'.lists[h]|
      ensures 1 <= p'.lists[h][k] <= mx && p'.own[p'.lists[h][k]] == h && p'.rank[p'.lists[h][k]] == k
    {
      if h == 0 {
        assert p'.lists[0][k] == p.lists[0][k + 1];
      } else if h == a && k == |p.lists[a]| {
        assert p'.lists[h][k] == p.lists[0][0];
      } else {
        assert p'.lists[h][k] == p.lists[h][k];
      }
    }
  }

  lemma TakeFound(mx: nat, p: Plan, a: int, b: int)
    requires 1 <= a < |p.lists| && |p.lists[0]| > 0 && 1 <= p.lists[0][0] <= mx
    requires Found(mx, p)
    requires p.own[p.lists[0][0]] == 0 && p.rank[p.lists[0][0]] == 0
    ensures Found(mx, PlanAfterTake(p, a, b))
  {
  }

  lemma TakeLinked(mx: nat, cells: seq<Cell>, n1: int, p: Plan, a: int, b: int, last: int)
    requires 1 <= a < |p.lists| && |p.lists[0]| > 0 && |p.lists[a]| > 0
    requires |cells| == mx + 1
    requires Placed(mx, p) && Found(mx, p) && Linked(cells, n1, p) && n1 > 0
    requires last == p.lists[a][|p.lists[a]| - 1]
    requires Found(mx, PlanAfterTake(p, a, b))
    requires 1 <= n1 <= mx && 0 <= cells[n1].tr2 <= mx
    ensures Linked(CellsAfterTake(cells, last, n1, cells[n1].tr2, a, b), cells[n1].tr2, PlanAfterTake(p, a, b))
  {
    var n2 := cells[n1].tr2;
    var cells' := CellsAfterTake(cells, last, n1, n2, a, b);
    var p' := PlanAfterTake(p, a, b);
    assert n1 == p.lists[0][0];
    assert n2 == At(p.lists[0], 1) == At(p'.lists[0], 0);
    forall i | 1 <= i <= mx
      ensures LinkAt(cells'[i], p', i)
    {
      var c, c2, r := cells[i], cells[n2], p.rank[i];
      assert p.lists[p.own[i]][r] == i;
      assert n2 > 0 ==> p.own[n2] == 0 && p.rank[n2] == 1;
      TakeLinkedAt(cells, n1, p, a, b, last, i);
    }
  }

  lemma TakeLinkedAt(cells: seq<Cell>, n1: int, p: Plan, a: int, b: int, last: int, i: int)
    requires |p.own| == |p.rank| == |cells|
    requires 1 <= a < |p.lists| && |p.lists[0]| > 0 && |p.lists[a]| > 0
    requires 1 <= n1 < |cells| && n1 == p.lists[0][0] && p.own[n1] == 0 && p.rank[n1] == 0
    requires last == p.lists[a][|p.lists[a]| - 1] && 1 <= last < |cells|
    requires p.own[last] == a && p.rank[last] == |p.lists[a]| - 1
    requires 0 <= cells[n1].tr2 < |cells| && cells[n1].tr2 == At(p.lists[0], 1)
    requires cells[n1].tr2 > 0 ==> p.own[cells[n1].tr2] == 0 && p.rank[cells[n1].tr2] == 1
    requires 1 <= i < |cells| && 0 <= p.own[i] < |p.lists|
    requires 0 <= p.rank[i] < |p.lists[p.own[i]]| && p.lists[p.own[i]][p.rank[i]] == i
    requires LinkAt(cells[i], p, i)
    ensures LinkAt(CellsAfterTake(cells, last, n1, cells[n1].tr2, a, b)[i], PlanAfterTake(p, a, b), i)
  {
  }

  lemma TakeFiled(cells: seq<Cell>, own: seq<int>, last: int, f: int, n2: int, a: int, b: int)
    requires |own| == |cells| && Filed(cells, own)
    requires 1 <= last < |cells| && 1 <= f < |cells| && 0 <= n2 < |cells| && 0 < a <= b
    ensures Filed(CellsAfterTake(cells, last, f, n2, a, b), own[f := a])
  {
  }

  lemma TakeBasics(mx: nat, nsom: nat, cells: seq<Cell>, n1: int, p: Plan, a: int)
    requires |cells| == mx + 1 && Partition(mx, nsom, p) && Linked(cells, n1, p)
    requires 1 <= a <= nsom && n1 > 0
    ensures |p.lists[0]| > 0 && p.lists[0][0] == n1 && 1 <= n1 <= mx && p.own[n1] == 0 && p.rank[n1] == 0
    ensures 0 <= cells[n1].tr2 <= mx && cells[n1].tr2 != n1 && (cells[n1].tr2 > 0 ==> p.own[cells[n1].tr2] == 0)
    ensures var last := p.lists[a][|p.lists[a]| - 1]; 1 <= last <= mx && p.own[last] == a
    ensures |p.own| == |p.rank| == |cells|
  {
    assert cells[n1].tr2 == At(p.lists[0], 1);
  }

  /** The first free column becomes the last of the chain of a. */
  lemma TakeFree(mx: nat, nsom: nat, cells: seq<Cell>, n1: int, p: Plan, a: int, b: int)
    requires TableInv(mx, nsom, cells, n1, p)
    requires 1 <= a <= nsom && a <= b && n1 > 0 && (a, b) !in p.index
    ensures |p.lists[0]| > 0 && p.lists[0][0] == n1 && 1 <= n1 <= mx && 0 <= cells[n1].tr2 <= mx
    ensures n1 !in LiveEdges(cells)
    ensures var last := p.lists[a][|p.lists[a]| - 1];
            && last != n1 && 1 <= last <= mx
            && var cells' := CellsAfterTake(cells, last, n1, cells[n1].tr2, a, b);
            && TableInv(mx, nsom, cells', cells[n1].tr2, PlanAfterTake(p, a, b))
            && LiveEdges(cells') == LiveEdges(cells)[n1 := EdgeOf(cells'[n1])]
  {
    hide Placed, Found, Linked, Filed, Indexed, LiveEdges, PlanAfterTake;
    TakeBasics(mx, nsom, cells, n1, p, a);
    var last := p.lists[a][|p.lists[a]| - 1];
    var n2 := cells[n1].tr2;
    TakePlaced(mx, p, a, b);
    TakeFound(mx, p, a, b);
    TakeLinked(mx, cells, n1, p, a, b, last);
    TakeFiled(cells, p.own, last, n1, n2, a, b);
    TakeContent(cells, p.own, p.index, last, n1, n2, a, b);
    TakeHeads(nsom, p, a, b);
  }

  lemma TakeReady(mx: nat, nsom: nat, cells: seq<Cell>, n1: int, p: Plan, a: int)
    requires TableInv(mx, nsom, cells, n1, p) && 1 <= a <= nsom && n1 > 0
    ensures 1 <= a < |p.lists| && |p.lists[0]| > 0 && 0 <= p.lists[0][0] < |p.own| == |p.rank|
  {
    hide Placed, Found, Linked, Filed, Indexed;
    TakeBasics(mx, nsom, cells, n1, p, a);
  }

  lemma TakeHeads(nsom: nat, p: Plan, a: int, b: int)
    requires |p.lists| == nsom + 1 && |p.lists[0]| > 0 && 0 <= p.lists[0][0] < |p.own| == |p.rank| && 1 <= a <= nsom
    requires forall h | 1 <= h <= nsom :: |p.lists[h]| > 0 && p.lists[h][0] == h
    ensures var p' := PlanAfterTake(p, a, b);
            && |p'.lists| == nsom + 1 && |p'.own| == |p'.rank| == |p.own| && p'.own == p.own[p.lists[0][0] := a]
            && forall h | 1 <= h <= nsom :: |p'.lists[h]| > 0 && p'.lists[h][0] == h
  {
  }

  lemma TakeContent(cells: seq<Cell>, own: seq<int>, index: map<(int, int), int>, last: int, f: int, n2: int, a: int,
      b: int)
    requires |own| == |cells| && Filed(cells, own) && Indexed(cells, index)
    requires 1 <= last < |cells| && 1 <= f < |cells| && 0 <= n2 < |cells| && 0 < a <= b && last != f
    requires own[f] == 0 && (n2 > 0 ==> own[n2] == 0) && (a, b) !in index
    ensures f !in LiveEdges(cells)
    ensures var cells' := CellsAfterTake(cells, last, f, n2, a, b);
            && Indexed(cells', index[(a, b) := f])
            && LiveEdges(cells') == LiveEdges(cells)[f := EdgeOf(cells'[f])]
  {
    var cells' := CellsAfterTake(cells, last, f, n2, a, b);
    var c, c2 := cells[f], cells[n2];
    IndexAdd(cells, cells', f, a, b, index);
    LiveUpdate(cells, cells', f);
  }

  // ---------------------------------------------------------------- dropping an edge

  lemma DropBasics(mx: nat, nsom: nat, cells: seq<Cell>, n1: int, p: Plan, i: int)
    requires TableInv(mx, nsom, cells, n1, p) && i in LiveEdges(cells)
    ensures var h := cells[i].st1;
            && 1 <= i <= mx && 1 <= h <= nsom && h <= cells[i].st2 && |p.own| == |p.rank| == |cells| == mx + 1
              && |p.lists| == nsom + 1
            && p.own[i] == h && 0 <= p.rank[i] < |p.lists[h]| && p.lists[h][p.rank[i]] == i
            && p.lists[h][0] == h && (h, cells[i].st2) in p.index
            && (i == h <==> p.rank[i] == 0)
    ensures 0 <= n1 <= mx && n1 == At(ListOf(p, 0), 0) && (n1 > 0 ==> p.own[n1] == 0 && p.rank[n1] == 0)
  {
    var c := cells[i];
  }

  lemma RankOf(mx: nat, nsom: nat, cells: seq<Cell>, n1: int, p: Plan, h: int, k: int)
    requires TableInv(mx, nsom, cells, n1, p) && 1 <= h <= nsom && 0 <= k < |p.lists[h]|
    ensures 1 <= p.lists[h][k] <= mx && p.rank[p.lists[h][k]] == k && p.own[p.lists[h][k]] == h
  {
  }

  /** All the invariant says about one column. */
  lemma ColumnOf(mx: nat, nsom: nat, cells: seq<Cell>, n1: int, p: Plan, i: int)
    requires TableInv(mx, nsom, cells, n1, p) && 1 <= i <= mx
    ensures |p.own| == |p.rank| == mx + 1 && 0 <= p.own[i] < |p.lists| && 0 <= p.rank[i] < |p.lists[p.own[i]]|
    ensures p.lists[p.own[i]][p.rank[i]] == i && LinkAt(cells[i], p, i)
  {
    var c := cells[i];
  }

  ghost function PlanAfterDrop(p: Plan, i: int, q: (int, int)): (r: Plan)
    requires 0 <= i < |p.own| == |p.rank| && 1 <= p.own[i] < |p.lists| && 0 <= p.rank[i] < |p.lists[p.own[i]]|
    ensures r.index == p.index - {q}
  {
    var h, k := p.own[i], p.rank[i];
    Plan(p.lists[h := p.lists[h][..k] + p.lists[h][k + 1..]][0 := [i] + p.lists[0]],
         p.own[i := 0],
         seq(|p.rank|, j requires 0 <= j < |p.rank| =>
           if j == i then 0
           else if p.own[j] == 0 then p.rank[j] + 1
           else if p.own[j] == h && p.rank[j] > k then p.rank[j] - 1
           else p.rank[j]),
         p.index - {q})
  }

  /** pred skips i, which becomes the free column before n1. */
  ghost function CellsAfterDrop(cells: seq<Cell>, pred: int, i: int, n1: int): (r: seq<Cell>)
    requires 0 <= pred < |cells| && 0 <= i < |cells| && 0 <= n1 < |cells|
  {
    var c1 := cells[pred := cells[pred].(next := cells[i].next)];
    var c2 := c1[i := c1[i].(tr1 := 0, tr2 := n1)];
    var c3 := c2[n1 := c2[n1].(tr1 := i)];
    c3[i := c3[i].(st1 := 0)]
  }

  lemma LiveDrop(cells: seq<Cell>, cells': seq<Cell>, i: int)
    requires |cells'| == |cells| && 1 <= i < |cells| && cells'[i].st1 == 0
    requires forall j | 1 <= j < |cells| && j != i ::
      cells'[j].st1 == cells[j].st1 && (cells[j].st1 > 0 ==> EdgeOf(cells'[j]) == EdgeOf(cells[j]))
    ensures LiveEdges(cells') == LiveEdges(cells) - {i}
  {
  }

  lemma IndexDrop(cells: seq<Cell>, cells': seq<Cell>, i: int, index: map<(int, int), int>)
    requires Indexed(cells, index)
    requires |cells'| == |cells| && 1 <= i < |cells| && cells[i].st1 > 0 && cells'[i].st1 == 0
    requires forall j | 1 <= j < |cells| && j != i :: cells'[j].st1 == cells[j].st1 && cells'[j].st2 == cells[j].st2
    ensures Indexed(cells', index - {(cells[i].st1, cells[i].st2)})
  {
  }

  /** A head dies in place: its chain is kept. */
  lemma DropHead(mx: nat, nsom: nat, cells: seq<Cell>, n1: int, p: Plan, h: int)
    requires TableInv(mx, nsom, cells, n1, p) && h in LiveEdges(cells) && cells[h].st1 == h
    ensures var cells' := cells[h := cells[h].(st1 := 0)];
            && TableInv(mx, nsom, cells', n1, p.(index := p.index - {(h, cells[h].st2)}))
            && LiveEdges(cells') == LiveEdges(cells) - {h}
  {
    hide Partition, Placed, Found;
    var cells' := cells[h := cells[h].(st1 := 0)];
    DropBasics(mx, nsom, cells, n1, p, h);
    DropHeadLinked(cells, n1, p, p.(index := p.index - {(h, cells[h].st2)}), h);
    IndexDrop(cells, cells', h, p.index);
    LiveDrop(cells, cells', h);
    DropHeadFiled(mx, nsom, cells, p, h);
  }

  lemma DropHeadFiled(mx: nat, nsom: nat, cells: seq<Cell>, p: Plan, h: int)
    requires |cells| == mx + 1 && Partition(mx, nsom, p) && Filed(cells, p.own)
    requires 1 <= h <= mx && p.own[h] == h
    ensures var p' := p.(index := p.index - {(h, cells[h].st2)});
            Partition(mx, nsom, p') && Filed(cells[h := cells[h].(st1 := 0)], p'.own)
  {
  }

  lemma DropHeadLinked(cells: seq<Cell>, n1: int, p: Plan, p': Plan, h: int)
    requires |cells| == |p.own| == |p.rank| && |p.lists| > 0 && 1 <= h < |cells|
    requires Linked(cells, n1, p)
    requires p'.lists == p.lists && p'.own == p.own && p'.rank == p.rank
    ensures Linked(cells[h := cells[h].(st1 := 0)], n1, p')
  {
  }

  /** A column that is not a head leaves its chain and heads the free list. */
  lemma DropMember(mx: nat, nsom: nat, cells: seq<Cell>, n1: int, p: Plan, i: int)
    requires TableInv(mx, nsom, cells, n1, p) && i in LiveEdges(cells) && cells[i].st1 != i
    ensures var h := cells[i].st1;
            && 1 <= h <= nsom && |p.own| == |p.rank| == mx + 1 && |p.lists| == nsom + 1 && 1 <= i <= mx && 0 <= n1 <= mx
            && p.own[i] == h && 1 <= p.rank[i] < |p.lists[h]|
            && var pred := p.lists[h][p.rank[i] - 1];
            && 1 <= pred <= mx && pred != i && n1 != i
            && var cells' := CellsAfterDrop(cells, pred, i, n1);
            && TableInv(mx, nsom, cells', i, PlanAfterDrop(p, i, (h, cells[i].st2)))
            && LiveEdges(cells') == LiveEdges(cells) - {i}
  {
    hide Placed, Found, Linked, Filed, Indexed, LiveEdges, PlanAfterDrop;
    DropBasics(mx, nsom, cells, n1, p, i);
    var h, r := cells[i].st1, p.rank[i];
    var pred := p.lists[h][r - 1];
    RankOf(mx, nsom, cells, n1, p, h, r - 1);
    var q := (h, cells[i].st2);
    DropPlaced(mx, p, i, q);
    DropFound(mx, p, i, q);
    DropLinked(mx, nsom, cells, n1, p, i, q);
    DropContent(cells, p.own, p.index, pred, i, n1);
    DropHeads(nsom, p, i, q);
    DropFiled(cells, p.own, pred, i, n1);
  }

  lemma DropHeads(nsom: nat, p: Plan, i: int, q: (int, int))
    requires 0 <= i < |p.own| == |p.rank| && 1 <= p.own[i] < |p.lists| == nsom + 1
      && 1 <= p.rank[i] < |p.lists[p.own[i]]|
    requires forall h | 1 <= h <= nsom :: |p.lists[h]| > 0 && p.lists[h][0] == h
    ensures var p' := PlanAfterDrop(p, i, q);
            && |p'.lists| == nsom + 1 && |p'.own| == |p'.rank| == |p.own| && p'.own == p.own[i := 0]
            && forall h | 1 <= h <= nsom :: |p'.lists[h]| > 0 && p'.lists[h][0] == h
  {
  }

  lemma DropFiled(cells: seq<Cell>, own: seq<int>, pred: int, i: int, n1: int)
    requires |own| == |cells| && Filed(cells, own)
    requires 1 <= pred < |cells| && 1 <= i < |cells| && 0 <= n1 < |cells|
    ensures Filed(CellsAfterDrop(cells, pred, i, n1), own[i := 0])
  {
  }

  lemma DropContent(cells: seq<Cell>, own: seq<int>, index: map<(int, int), int>, pred: int, i: int, n1: int)
    requires |own| == |cells| && Filed(cells, own) && Indexed(cells, index)
    requires 1 <= pred < |cells| && 1 <= i < |cells| && 0 <= n1 < |cells| && pred != i && n1 != i
    requires cells[i].st1 > 0 && (n1 > 0 ==> own[n1] == 0)
    ensures var cells' := CellsAfterDrop(cells, pred, i, n1);
            && Indexed(cells', index - {(cells[i].st1, cells[i].st2)})
            && LiveEdges(cells') == LiveEdges(cells) - {i}
  {
    var cells' := CellsAfterDrop(cells, pred, i, n1);
    var c1 := cells[n1];
    IndexDrop(cells, cells', i, index);
    LiveDrop(cells, cells', i);
  }

  lemma DropPlaced(mx: nat, p: Plan, i: int, q: (int, int))
    requires Placed(mx, p) && 1 <= i <= mx && 1 <= p.own[i] < |p.lists| && 0 <= p.rank[i] < |p.lists[p.own[i]]|
    requires p.lists[p.own[i]][p.rank[i]] == i
    ensures Placed(mx, PlanAfterDrop(p, i, q))
  {
    var p', r := PlanAfterDrop(p, i, q), p.rank[i];
    forall h, k | 0 <= h < |p'.lists| && 0 <= k < |p'.lists[h]|
      ensures 1 <= p'.lists[h][k] <= mx && p'.own[p'.lists[h][k]] == h && p'.rank[p'.lists[h][k]] == k
    {
      if h == 0 {
        assert k > 0 ==> p'.lists[0][k] == p.lists[0][k - 1];
      } else if h == p.own[i] {
        assert p'.lists[h][k] == p.lists[h][if k < r then k else k + 1];
      } else {
        assert p'.lists[h][k] == p.lists[h][k];
      }
    }
  }

  lemma DropFound(mx: nat, p: Plan, i: int, q: (int, int))
    requires Found(mx, p) && 1 <= i <= mx && 1 <= p.own[i] < |p.lists|
    ensures Found(mx, PlanAfterDrop(p, i, q))
  {
  }

  lemma DropLinked(mx: nat, nsom: nat, cells: seq<Cell>, n1: int, p: Plan, i: int, q: (int, int))
    requires TableInv(mx, nsom, cells, n1, p) && i in LiveEdges(cells) && cells[i].st1 != i
    ensures |p.own| == |p.rank| == mx + 1 && 1 <= p.own[i] < |p.lists| && 1 <= p.rank[i] < |p.lists[p.own[i]]|
      && 0 <= n1 <= mx
    ensures 1 <= p.lists[p.own[i]][p.rank[i] - 1] <= mx
    ensures Linked(CellsAfterDrop(cells, p.lists[p.own[i]][p.rank[i] - 1], i, n1), i, PlanAfterDrop(p, i, q))
  {
    hide TableInv, LinkAt;
    DropBasics(mx, nsom, cells, n1, p, i);
    ColumnOf(mx, nsom, cells, n1, p, i);
    RankOf(mx, nsom, cells, n1, p, p.own[i], p.rank[i] - 1);
    var pred := p.lists[p.own[i]][p.rank[i] - 1];
    var cells', p' := CellsAfterDrop(cells, pred, i, n1), PlanAfterDrop(p, i, q);
    forall j | 1 <= j <= mx ensures LinkAt(cells'[j], p', j) {
      ColumnOf(mx, nsom, cells, n1, p, j);
      DropLinkedAt(cells, n1, p, i, q, pred, j);
    }
  }

  lemma DropLinkedAt(cells: seq<Cell>, n1: int, p: Plan, i: int, q: (int, int), pred: int, j: int)
    requires |p.own| == |p.rank| == |cells|
    requires 1 <= i < |cells| && 1 <= p.own[i] < |p.lists| && 1 <= p.rank[i] < |p.lists[p.own[i]]|
    requires pred == p.lists[p.own[i]][p.rank[i] - 1] && p.lists[p.own[i]][p.rank[i]] == i
    requires 1 <= j < |cells| && LinkAt(cells[i], p, i) && LinkAt(cells[j], p, j)
    requires 1 <= pred < |cells| && p.own[pred] == p.own[i] && p.rank[pred] == p.rank[i] - 1
    requires n1 == At(ListOf(p, 0), 0) && 0 <= n1 < |cells| && n1 != i
    requires 0 <= p.own[j] < |p.lists|
    requires 0 <= p.rank[j] < |p.lists[p.own[j]]| && p.lists[p.own[j]][p.rank[j]] == j
    requires n1 == j ==> p.own[j] == 0 && p.rank[j] == 0
    ensures LinkAt(CellsAfterDrop(cells, pred, i, n1)[j], PlanAfterDrop(p, i, q), j)
  {
    var h, r, k, p' := p.own[i], p.rank[i], p.rank[j], PlanAfterDrop(p, i, q);
    if j == i || p.own[j] == 0 {
      assert p'.lists[0] == [i] + p.lists[0];
    } else if p.own[j] == h {
      assert p'.lists[h] == p.lists[h][..r] + p.lists[h][r + 1..];
    } else {
      assert p'.lists[p.own[j]] == p.lists[p.own[j]];
    }
  }
}
