/** Lists of column numbers. */
module Lists {

  /** Member number k + 1 of list l, 0 when there is none. */
  function At(l: seq<int>, k: int): (r: int) {
    if 0 <= k < |l| then l[k] else 0
  }

  /** No number twice. */
  ghost predicate Unique(l: seq<int>) {
    forall i, j | 0 <= i < j < |l| :: l[i] != l[j]
  }

  lemma UniqueOn(x: int, v: seq<int>)
    requires Unique(v) && x !in v
    ensures Unique([x] + v)
  {
    forall i, j | 0 <= i < j < |[x] + v| ensures ([x] + v)[i] != ([x] + v)[j] {
      assert ([x] + v)[j] == v[j - 1] && v[j - 1] in v;
    }
  }

  /** Different members of ch are no more than ch. */
  lemma {:induction false} Pigeons(l: seq<int>, ch: seq<int>)
    requires Unique(l) && forall x | x in l :: x in ch
    ensures |l| <= |ch|
    decreases |l|
  {
    if l != [] {
      assert l[0] in l;
      var k :| 0 <= k < |ch| && ch[k] == l[0];
      var c := ch[..k] + ch[k + 1..];
      forall x | x in l[1..] ensures x in c {
        var i :| 0 <= i < |l[1..]| && l[1..][i] == x;
        assert x == l[i + 1] && x != l[0] && x in l;
        var j :| 0 <= j < |ch| && ch[j] == x;
        assert x == c[if j < k then j else j - 1];
      }
      Pigeons(l[1..], c);
    }
  }
}
