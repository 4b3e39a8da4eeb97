/** Where the triangles of the quaternary tree lie.  Triangle (level, a, b, s) has its corners at
    (a, b), (a + s, b), (a, b + s) in units of 1 / 2^level of the sides of the root; s is 1 for a
    triangle that points the way of the root and -1 for one that points the other way. */
module Lattice {

  datatype Geo = Geo(level: nat, a: int, b: int, s: int)

  /** A lattice point, x and y in units of 1 / 2^level. */
  datatype Pt = Pt(level: nat, x: int, y: int)

  /** The side or corner after and before k (`nosui3_`, `nopre3_`). */
  function Suiv(k: int): (r: int)
    ensures 1 <= k <= 3 ==> 1 <= r <= 3 && r != k && Pre(r) == k
  {
    if k < 3 then k + 1 else 1
  }

  function Pre(k: int): (r: int) {
    if k > 1 then k - 1 else 3
  }

  function Root(): (r: Geo) {
    Geo(0, 0, 0, 1)
  }

  /** Sub-triangle k: 0 in the middle, 1 to 3 at the corners. */
  function Child(g: Geo, k: int): (r: Geo) {
    if k == 0 then Geo(g.level + 1, 2 * g.a + g.s, 2 * g.b + g.s, -g.s)
    else if k == 1 then Geo(g.level + 1, 2 * g.a, 2 * g.b, g.s)
    else if k == 2 then Geo(g.level + 1, 2 * g.a + g.s, 2 * g.b, g.s)
    else Geo(g.level + 1, 2 * g.a, 2 * g.b + g.s, g.s)
  }

  /** The triangle of the same size on the other side of side l; it has that side as its own side l,
      reversed. */
  function Mirror(g: Geo, l: int): (r: Geo) {
    if l == 1 then Geo(g.level, g.a + g.s, g.b, -g.s)
    else if l == 2 then Geo(g.level, g.a + g.s, g.b + g.s, -g.s)
    else Geo(g.level, g.a, g.b + g.s, -g.s)
  }

  /** A point in the largest unit it is a whole multiple of. */
  function Norm(level: nat, x: int, y: int): (r: Pt) {
    if level > 0 && x % 2 == 0 && y % 2 == 0 then Norm(level - 1, x / 2, y / 2) else Pt(level, x, y)
  }

  function Corner(g: Geo, k: int): (r: Pt) {
    if k == 1 then Norm(g.level, g.a, g.b)
    else if k == 2 then Norm(g.level, g.a + g.s, g.b)
    else Norm(g.level, g.a, g.b + g.s)
  }

  /** The middle of side l, which goes from corner l to the corner after it. */
  function Mid(g: Geo, l: int): (r: Pt) {
    if l == 1 then Pt(g.level + 1, 2 * g.a + g.s, 2 * g.b)
    else if l == 2 then Pt(g.level + 1, 2 * g.a + g.s, 2 * g.b + g.s)
    else Pt(g.level + 1, 2 * g.a, 2 * g.b + g.s)
  }

  predicate Sound(g: Geo) {
    g.s == 1 || g.s == -1
  }

  function Pow2(n: nat): (r: nat) {
    if n == 0 then 1 else 2 * Pow2(n - 1)
  }

  /** g lies in the root. */
  predicate InRoot(g: Geo) {
    if g.s == 1 then g.a >= 0 && g.b >= 0 && g.a + g.b + 1 <= Pow2(g.level)
    else g.s == -1 && g.a >= 1 && g.b >= 1 && g.a + g.b <= Pow2(g.level)
  }

  /** Side l of g lies on a side of the root. */
  predicate Border(g: Geo, l: int) {
    g.s == 1 && (if l == 1 then g.b == 0 else if l == 2 then g.a + g.b + 1 == Pow2(g.level) else g.a == 0)
  }

  lemma ChildInRoot(g: Geo, k: int)
    requires InRoot(g) && 0 <= k <= 3
    ensures InRoot(Child(g, k))
  {
  }

  /** Side l of sub-triangle k is on the border exactly when k lies along side l and that side is. */
  lemma BorderChild(g: Geo, k: int, l: int)
    requires InRoot(g) && 0 <= k <= 3 && 1 <= l <= 3
    ensures Border(Child(g, k), l) <==> (k == l || k == Suiv(l)) && Border(g, l)
  {
  }

  /** The corners of a sub-triangle are a corner and middles of sides, or three middles. */
  lemma ChildCorners(g: Geo, k: int)
    requires Sound(g) && 0 <= k <= 3
    ensures k == 0 ==> forall i | 1 <= i <= 3 :: Corner(Child(g, 0), i) == Mid(g, Suiv(i))
    ensures k > 0 ==> Corner(Child(g, k), k) == Corner(g, k)
    ensures k > 0 ==> Corner(Child(g, k), Suiv(k)) == Mid(g, k) && Corner(Child(g, k), Pre(k)) == Mid(g, Pre(k))
  {
  }

  lemma MirrorCorners(g: Geo, l: int)
    requires Sound(g) && 1 <= l <= 3
    ensures Sound(Mirror(g, l)) && Mirror(Mirror(g, l), l) == g && Mid(Mirror(g, l), l) == Mid(g, l)
    ensures Corner(Mirror(g, l), l) == Corner(g, Suiv(l)) && Corner(Mirror(g, l), Suiv(l)) == Corner(g, l)
  {
  }

  /** The neighbour of a sub-triangle is a sub-triangle of the same triangle or of its neighbour. */
  lemma MirrorChild(g: Geo, k: int, l: int)
    requires Sound(g) && 0 <= k <= 3 && 1 <= l <= 3
    ensures k == 0 ==> Mirror(Child(g, k), l) == Child(g, Pre(l))
    ensures k > 0 && Suiv(k) == l ==> Mirror(Child(g, k), l) == Child(g, 0)
    ensures k == l ==> Mirror(Child(g, k), l) == Child(Mirror(g, l), Suiv(k))
    ensures k == Suiv(l) ==> Mirror(Child(g, k), l) == Child(Mirror(g, l), Pre(k))
  {
  }

  /** Only the two triangles of a side have its middle as a middle. */
  lemma MidSame(g: Geo, l: int, h: Geo, m: int)
    requires Sound(g) && Sound(h) && 1 <= l <= 3 && 1 <= m <= 3 && Mid(g, l) == Mid(h, m)
    ensures l == m && (h == g || h == Mirror(g, l))
  {
    var p, q := Mid(g, l), Mid(h, m);
    assert p.x % 2 == q.x % 2 && p.y % 2 == q.y % 2;
  }

  lemma ChildSame(g: Geo, k: int, h: Geo, m: int)
    requires Sound(g) && Sound(h) && 0 <= k <= 3 && 0 <= m <= 3 && Child(g, k) == Child(h, m)
    ensures g == h && k == m
  {
    var p, q := Child(g, k), Child(h, m);
    assert p.a % 2 == q.a % 2 && p.b % 2 == q.b % 2;
  }
}
