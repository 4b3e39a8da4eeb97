/** Renumbering the marked members of an array in their order. */
module Ranks {

  /** How many of the members 1 to k are marked. */
  function Rank(m: seq<int>, k: nat): (r: nat) {
    if k == 0 then 0 else Rank(m, k - 1) + if k < |m| && m[k] > 0 then 1 else 0
  }

  predicate Marked(m: seq<int>, i: int) {
    1 <= i < |m| && m[i] > 0
  }

  lemma {:induction false} RankGrows(m: seq<int>, i: nat, j: nat)
    requires i <= j
    ensures Rank(m, i) <= Rank(m, j) <= Rank(m, i) + (j - i)
  {
    if i < j {
      RankGrows(m, i, j - 1);
    }
  }

  /** The order is kept. */
  lemma RankOrder(m: seq<int>, i: nat, j: nat)
    requires Marked(m, i) && Marked(m, j)
    ensures i < j <==> Rank(m, i) < Rank(m, j)
    ensures 1 <= Rank(m, i) <= Rank(m, |m| - 1)
  {
    RankGrows(m, 0, i - 1);
    RankGrows(m, i, |m| - 1);
    if i < j {
      RankGrows(m, i, j - 1);
    } else {
      RankGrows(m, j, i);
    }
  }

  /** Every number up to the last is taken. */
  lemma {:induction false} RankOnto(m: seq<int>, k: nat, r: nat) returns (i: nat)
    requires k < |m| && 1 <= r <= Rank(m, k)
    ensures i <= k && Marked(m, i) && Rank(m, i) == r
  {
    if m[k] > 0 && Rank(m, k) == r {
      return k;
    }
    i := RankOnto(m, k - 1, r);
  }

  /** All of 1 to k are marked exactly when the number of k is k. */
  lemma {:induction false} RankFull(m: seq<int>, k: nat)
    requires k < |m|
    ensures Rank(m, k) == k <==> forall i | 1 <= i <= k :: m[i] > 0
  {
    if k > 0 {
      RankFull(m, k - 1);
      RankGrows(m, 0, k - 1);
    }
  }

  /** The number r is given to a marked member. */
  ghost predicate Taken(m: seq<int>, r: int) {
    exists i :: Marked(m, i) && Rank(m, i) == r
  }

  /** The renumbering is a bijection from the marked members to 1..n that keeps their order. */
  lemma RankBijection(m: seq<int>)
    requires m != []
    ensures forall i, j | Marked(m, i) && Marked(m, j) ::
      (i < j <==> Rank(m, i) < Rank(m, j)) && (Rank(m, i) == Rank(m, j) ==> i == j)
    ensures forall i | Marked(m, i) :: 1 <= Rank(m, i) <= Rank(m, |m| - 1)
    ensures forall r | 1 <= r <= Rank(m, |m| - 1) :: Taken(m, r)
  {
    forall i, j | Marked(m, i) && Marked(m, j) ensures (i < j <==> Rank(m, i) < Rank(m, j))
      && (Rank(m, i) == Rank(m, j) ==> i == j) {
      RankOrder(m, i, j);
      RankOrder(m, j, i);
    }
    forall i | Marked(m, i) ensures 1 <= Rank(m, i) <= Rank(m, |m| - 1) {
      RankOrder(m, i, i);
    }
    forall r | 1 <= r <= Rank(m, |m| - 1) ensures Taken(m, r) {
      var i := RankOnto(m, |m| - 1, r);
    }
  }

  /** The marks after the renumbering of the members up to n. */
  function Renumbered(m: seq<int>, n: nat): (r: seq<int>) {
    seq(|m|, i requires 0 <= i < |m| => if i <= n && Marked(m, i) then Rank(m, i) else m[i])
  }
}
