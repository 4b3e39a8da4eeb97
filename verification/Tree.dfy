/** The quaternary tree `letree` of equilateral triangles: its invariant, and the search for the
    neighbour of a triangle. */
module Tree {
  import opened Lattice

  /** A column of `letree`.  s0..s3 are the sub-triangles when s0 > 0; else the column is a leaf and
      they are the negated numbers of its points, then zeros.  On a free column s0 is the next free
      one. */
  datatype Te = Te(s0: int, s1: int, s2: int, s3: int, sur: int, kind: int, v1: int, v2: int, v3: int)

  /** What the columns stand for: the place of every triangle of the tree and back, the vertex
      number of every lattice point in use and back, and for every such point that is not a corner
      of the root a subdivided triangle that it is the middle of a side of. */
  datatype Shape = Shape(geo: map<int, Geo>, at: map<Geo, int>, num: map<Pt, int>, pt: map<int, Pt>, src: map<Pt, int>)

  function Sub(t: Te, k: int): (r: int) {
    if k == 0 then t.s0 else if k == 1 then t.s1 else if k == 2 then t.s2 else t.s3
  }

  function Som(t: Te, k: int): (r: int) {
    if k == 1 then t.v1 else if k == 2 then t.v2 else t.v3
  }

  /** Triangle j of the tree is subdivided. */
  ghost predicate Inner(T: seq<Te>, S: Shape, j: int) {
    j in S.geo && 1 <= j < |T| && T[j].s0 > 0
  }

  ghost predicate HasParent(T: seq<Te>, S: Shape, j: int) {
    && j in S.geo && 1 <= j < |T|
    && Inner(T, S, T[j].sur) && 0 <= T[j].kind <= 3 && Sub(T[T[j].sur], T[j].kind) == j
    && S.geo[j] == Child(S.geo[T[j].sur], T[j].kind)
  }

  ghost predicate HasChild(T: seq<Te>, S: Shape, j: int, k: int) {
    && j in S.geo && 1 <= j < |T|
    && var c := Sub(T[j], k);
       c in S.geo && 1 < c < |T| && T[c].sur == j && T[c].kind == k && S.geo[c] == Child(S.geo[j], k)
  }

  ghost predicate NodeOk(T: seq<Te>, S: Shape, j: int) {
    && j in S.geo && 1 <= j < |T| && InRoot(S.geo[j]) && S.geo[j] in S.at && S.at[S.geo[j]] == j
    && (j != 1 ==> HasParent(T, S, j))
    && (T[j].s0 > 0 ==> HasChild(T, S, j, 0) && HasChild(T, S, j, 1) && HasChild(T, S, j, 2) && HasChild(T, S, j, 3))
  }

  /** The columns form a tree of triangles, each at its own place. */
  ghost predicate Woven(T: seq<Te>, S: Shape) {
    && 1 in S.geo && S.geo[1] == Root()
    && (forall j | j in S.geo :: NodeOk(T, S, j))
    && (forall g | g in S.at :: S.at[g] in S.geo && S.geo[S.at[g]] == g)
  }

  // ---------------------------------------------------------------- climbing

  /** The triangle k levels above j. */
  ghost function Up(T: seq<Te>, j: int, k: nat): (r: int)
    decreases k
  {
    if k == 0 then j else if 0 <= j < |T| then Up(T, T[j].sur, k - 1) else 0
  }

  /** j and the k - 1 triangles above it lie along side l of the one above them. */
  ghost predicate Along(T: seq<Te>, j: int, l: int, k: nat)
    decreases k
  {
    k == 0 || (0 <= j < |T| && (T[j].kind == l || T[j].kind == Suiv(l)) && Along(T, T[j].sur, l, k - 1))
  }

  /** q is what `n1trva_` finds across side l of j, h levels up: it has, as its side l reversed, the
      side l of the triangle h levels above j, which contains side l of j. */
  ghost predicate Facing(T: seq<Te>, S: Shape, j: int, l: int, q: int, h: int) {
    && j in S.geo && h >= 0 && Along(T, j, l, h) && Up(T, j, h) in S.geo
    && q in S.geo && S.geo[q] == Mirror(S.geo[Up(T, j, h)], l)
    && (h > 0 ==> !Inner(T, S, q))
  }

  lemma NodeAt(T: seq<Te>, S: Shape, j: int)
    requires Woven(T, S) && j in S.geo
    ensures NodeOk(T, S, j) && Sound(S.geo[j])
  {
  }

  lemma ParentOf(T: seq<Te>, S: Shape, j: int)
    requires Woven(T, S) && j in S.geo && j != 1
    ensures HasParent(T, S, j) && S.geo[j].level == S.geo[T[j].sur].level + 1
  {
  }

  lemma ChildOf(T: seq<Te>, S: Shape, j: int, k: int)
    requires Woven(T, S) && Inner(T, S, j) && 0 <= k <= 3
    ensures HasChild(T, S, j, k)
  {
  }

  lemma RootLevel(T: seq<Te>, S: Shape)
    requires Woven(T, S)
    ensures 1 in S.geo && S.geo[1].level == 0
  {
  }

  /** The triangles above j are in the tree, one level higher each. */
  lemma {:induction false} UpIn(T: seq<Te>, S: Shape, j: int, l: int, h: nat)
    requires Woven(T, S) && j in S.geo && 1 <= l <= 3 && h <= S.geo[j].level
    ensures Up(T, j, h) in S.geo && S.geo[Up(T, j, h)].level == S.geo[j].level - h
    ensures h > 0 ==> Inner(T, S, Up(T, j, h))
    decreases h
  {
    hide Woven, Child;
    if h > 0 {
      RootLevel(T, S);
      ParentOf(T, S, j);
      UpIn(T, S, T[j].sur, l, h - 1);
    }
  }

  lemma {:induction false} UpSnoc(T: seq<Te>, S: Shape, j: int, l: int, h: nat)
    requires Woven(T, S) && j in S.geo && h <= S.geo[j].level
    ensures 0 <= Up(T, j, h) < |T| && Up(T, j, h + 1) == T[Up(T, j, h)].sur
    ensures Along(T, j, l, h + 1) <==> Along(T, j, l, h) && (T[Up(T, j, h)].kind == l || T[Up(T, j, h)].kind == Suiv(l))
    decreases h
  {
    hide Woven, NodeOk;
    NodeAt(T, S, j);
    NodeIndex(T, S, j);
    if h > 0 {
      RootLevel(T, S);
      ParentOf(T, S, j);
      UpSnoc(T, S, T[j].sur, l, h - 1);
    }
  }

  lemma NodeIndex(T: seq<Te>, S: Shape, j: int)
    requires Woven(T, S) && j in S.geo
    ensures 1 <= j < |T|
  {
  }

  /** A side on the border is a side of the root all the way up, and no other. */
  lemma {:induction false} BorderUp(T: seq<Te>, S: Shape, j: int, l: int, h: nat)
    requires Woven(T, S) && j in S.geo && 1 <= l <= 3 && h <= S.geo[j].level && Along(T, j, l, h)
    ensures Up(T, j, h) in S.geo
    ensures Border(S.geo[j], l) <==> Border(S.geo[Up(T, j, h)], l)
    decreases h
  {
    hide Woven, Child, Border;
    if h > 0 {
      RootLevel(T, S);
      ParentOf(T, S, j);
      NodeAt(T, S, T[j].sur);
      BorderChild(S.geo[T[j].sur], T[j].kind, l);
      BorderUp(T, S, T[j].sur, l, h - 1);
    }
  }

  /** When the tree has the neighbour of j of j's own size, that is what is facing j. */
  lemma {:induction false} MirrorUp(T: seq<Te>, S: Shape, j: int, l: int, h: nat)
    requires Woven(T, S) && j in S.geo && 1 <= l <= 3 && h <= S.geo[j].level && Along(T, j, l, h)
    requires Mirror(S.geo[j], l) in S.at
    ensures Up(T, j, h) in S.geo
    ensures Mirror(S.geo[Up(T, j, h)], l) in S.at
    ensures h > 0 ==> Inner(T, S, S.at[Mirror(S.geo[Up(T, j, h)], l)])
    decreases h
  {
    hide Woven, Child, Mirror, NodeOk;
    if h > 0 {
      RootLevel(T, S);
      ParentOf(T, S, j);
      MirrorParent(T, S, j, l);
      MirrorUp(T, S, T[j].sur, l, h - 1);
    }
  }

  /** The triangles above two neighbours that lie along the same side are neighbours. */
  lemma MirrorParent(T: seq<Te>, S: Shape, j: int, l: int)
    requires Woven(T, S) && j in S.geo && 1 <= l <= 3 && HasParent(T, S, j) && (T[j].kind == l || T[j].kind == Suiv(l))
    requires Mirror(S.geo[j], l) in S.at
    ensures Mirror(S.geo[T[j].sur], l) in S.at && Inner(T, S, S.at[Mirror(S.geo[T[j].sur], l)])
  {
    hide Woven;
    var p, k := T[j].sur, T[j].kind;
    NodeAt(T, S, p);
    var m := S.at[Mirror(S.geo[j], l)];
    AtAt(T, S, Mirror(S.geo[j], l));
    MirrorChild(S.geo[p], k, l);
    MirrorCorners(S.geo[p], l);
    RootLevel(T, S);
    ParentOf(T, S, m);
    NodeAt(T, S, T[m].sur);
    ChildSame(S.geo[T[m].sur], T[m].kind, Mirror(S.geo[p], l), if k == l then Suiv(k) else Pre(k));
  }

  lemma AtAt(T: seq<Te>, S: Shape, g: Geo)
    requires Woven(T, S) && g in S.at
    ensures S.at[g] in S.geo && S.geo[S.at[g]] == g
  {
  }

  lemma FacingSame(T: seq<Te>, S: Shape, j: int, l: int, q: int, h: int)
    requires Woven(T, S) && Facing(T, S, j, l, q, h) && 1 <= l <= 3 && h <= S.geo[j].level
    requires Mirror(S.geo[j], l) in S.at
    ensures h == 0 && q == S.at[Mirror(S.geo[j], l)]
  {
    MirrorUp(T, S, j, l, h);
    NodeAt(T, S, q);
  }

  /** One step up or sideways of the search: what is across side l of triangle j of kind k below p. */
  lemma AcrossSibling(T: seq<Te>, S: Shape, j: int, l: int)
    requires Woven(T, S) && j in S.geo && j != 1 && 1 <= l <= 3
    ensures HasParent(T, S, j)
    ensures var k, p := T[j].kind, T[T[j].sur];
            && (k == 0 ==> Sub(p, Pre(l)) in S.geo && S.geo[Sub(p, Pre(l))] == Mirror(S.geo[j], l))
            && (k != 0 && Suiv(k) == l ==> p.s0 in S.geo && S.geo[p.s0] == Mirror(S.geo[j], l))
            && (k != 0 && Suiv(k) != l ==> k == l || k == Suiv(l))
    ensures S.geo[j].level > 0 && !(T[j].kind == l || T[j].kind == Suiv(l)) ==> !Border(S.geo[j], l)
  {
    ParentOf(T, S, j);
    var p, k := T[j].sur, T[j].kind;
    NodeAt(T, S, p);
    MirrorChild(S.geo[p], k, l);
    BorderChild(S.geo[p], k, l);
    ChildOf(T, S, p, Pre(l));
    ChildOf(T, S, p, 0);
  }

  /** One step down: j lies along side l of p, whose neighbour q is subdivided. */
  lemma AcrossBelow(T: seq<Te>, S: Shape, j: int, l: int, q: int)
    requires Woven(T, S) && j in S.geo && j != 1 && 1 <= l <= 3
    requires T[j].kind == l || T[j].kind == Suiv(l)
    requires HasParent(T, S, j) && Inner(T, S, q) && S.geo[q] == Mirror(S.geo[T[j].sur], l)
    ensures var k := T[j].kind;
            var c := Sub(T[q], if k == l then Suiv(k) else Pre(k));
            c in S.geo && S.geo[c] == Mirror(S.geo[j], l)
  {
    var p, k := T[j].sur, T[j].kind;
    NodeAt(T, S, p);
    MirrorChild(S.geo[p], k, l);
    ChildOf(T, S, q, if k == l then Suiv(k) else Pre(k));
  }

  /** `n1trva_`: the triangle across side lar of nt, of nt's size or larger; lhpile levels larger.
      No triangle, 0, exactly when the side is on the border of the root. */
  method N1trva(letree: array<Te>, nt: int, lar: int, ghost S: Shape) returns (notrva: int, lhpile: int)
    requires Woven(letree[..], S) && nt in S.geo && 1 <= lar <= 3
    ensures lhpile >= 0 && (notrva == 0 <==> Border(S.geo[nt], lar))
    ensures notrva != 0 ==> Facing(letree[..], S, nt, lar, notrva, lhpile) && S.geo[nt].level - S.geo[notrva].level
                            == lhpile
    ensures notrva != 0 ==>
      notrva > 0 && (Mirror(S.geo[nt], lar) in S.at ==> lhpile == 0 && notrva == S.at[Mirror(S.geo[nt], lar)])
    ensures notrva != 0 && lhpile == 0 ==> notrva in S.geo && S.geo[notrva] == Mirror(S.geo[nt], lar)
  {
    hide Woven, NodeOk;
    ghost var T, top := letree[..], S.geo[nt].level;
    NodeAt(T, S, nt);
    var lapile := [nt];
    lhpile := 1;
    var ntr := nt;
    var found := false;
    while !found
      invariant 1 <= lhpile <= top + 1 && |lapile| == lhpile
      invariant forall i | 0 <= i < lhpile - 1 :: lapile[i] == Up(T, nt, i)
      invariant Up(T, nt, lhpile - 1) in S.geo && Along(T, nt, lar, lhpile - 1)
      invariant !found ==> lapile[lhpile - 1] == Up(T, nt, lhpile - 1)
      invariant found ==> lapile[lhpile - 1] in S.geo
                          && S.geo[lapile[lhpile - 1]] == Mirror(S.geo[Up(T, nt, lhpile - 1)], lar)
      invariant found ==> !Border(S.geo[nt], lar)
      decreases top + 1 - lhpile, if found then 0 else 1
    {
      UpIn(T, S, nt, lar, lhpile - 1);
      BorderUp(T, S, nt, lar, lhpile - 1);
      ntr := lapile[lhpile - 1];
      if ntr == 1 {
        RootBorder(T, S, lar);
        return 0, lhpile - 1;
      }
      AcrossSibling(T, S, ntr, lar);
      NodeAt(T, S, ntr);
      LevelPositive(T, S, ntr);
      var nty := letree[ntr].kind;
      var nsut := letree[ntr].sur;
      if nty == 0 {
        lapile := lapile[lhpile - 1 := Sub(letree[nsut], Pre(lar))];
        found := true;
      } else if Suiv(nty) == lar {
        lapile := lapile[lhpile - 1 := letree[nsut].s0];
        found := true;
      } else {
        UpSnoc(T, S, nt, lar, lhpile - 1);
        UpIn(T, S, nt, lar, lhpile);
        lhpile := lhpile + 1;
        lapile := lapile + [nsut];
      }
    }
    notrva := lapile[lhpile - 1];
    lhpile := lhpile - 1;
    NodeAt(T, S, notrva);
    while letree[notrva].s0 > 0 && lhpile > 0
      invariant 0 <= lhpile <= top && lhpile < |lapile|
      invariant forall i | 0 <= i < lhpile :: lapile[i] == Up(T, nt, i)
      invariant Along(T, nt, lar, lhpile) && Up(T, nt, lhpile) in S.geo
      invariant notrva in S.geo && 1 <= notrva < |T| && S.geo[notrva] == Mirror(S.geo[Up(T, nt, lhpile)], lar)
      decreases lhpile
    {
      var j := lapile[lhpile - 1];
      StepDown(T, S, nt, lar, lhpile - 1);
      AcrossBelow(T, S, j, lar, notrva);
      var nty := letree[j].kind;
      if nty == lar {
        notrva := Sub(letree[notrva], Suiv(nty));
      } else {
        notrva := Sub(letree[notrva], Pre(nty));
      }
      lhpile := lhpile - 1;
      NodeAt(T, S, notrva);
    }
    UpIn(T, S, nt, lar, lhpile);
    if Mirror(S.geo[nt], lar) in S.at {
      FacingSame(T, S, nt, lar, notrva, lhpile);
    }
  }

  lemma RootBorder(T: seq<Te>, S: Shape, l: int)
    requires Woven(T, S) && 1 <= l <= 3
    ensures 1 in S.geo && Border(S.geo[1], l)
  {
  }

  lemma LevelPositive(T: seq<Te>, S: Shape, j: int)
    requires Woven(T, S) && j in S.geo && j != 1
    ensures S.geo[j].level > 0
  {
    ParentOf(T, S, j);
  }

  /** The h-th triangle above j, seen from the next one. */
  lemma StepDown(T: seq<Te>, S: Shape, j: int, l: int, h: nat)
    requires Woven(T, S) && j in S.geo && 1 <= l <= 3 && h + 1 <= S.geo[j].level && Along(T, j, l, h + 1)
    ensures Along(T, j, l, h) && Up(T, j, h) in S.geo && Up(T, j, h) != 1 && HasParent(T, S, Up(T, j, h))
    ensures T[Up(T, j, h)].sur == Up(T, j, h + 1) && (T[Up(T, j, h)].kind == l || T[Up(T, j, h)].kind == Suiv(l))
  {
    hide Woven, NodeOk;
    UpIn(T, S, j, l, h);
    RootLevel(T, S);
    UpSnoc(T, S, j, l, h);
    ParentOf(T, S, Up(T, j, h));
  }

  // ---------------------------------------------------------------- sides contain sides

  function Scale(x: int, h: nat): (r: int) {
    if h == 0 then x else 2 * Scale(x, h - 1)
  }

  /** Side l of g is one of the 2^h equal parts of side l of u. */
  predicate PartOf(g: Geo, u: Geo, l: int, h: nat) {
    && g.s == u.s && g.level == u.level + h
    && (if l == 1 then g.b == Scale(u.b, h) && 0 <= (g.a - Scale(u.a, h)) * g.s < Pow2(h)
        else if l == 2 then g.a + g.b + g.s == Scale(u.a + u.b + u.s, h) && 0 <= (g.b - Scale(u.b, h)) * g.s < Pow2(h)
        else g.a == Scale(u.a, h) && 0 <= (g.b - Scale(u.b, h)) * g.s < Pow2(h))
  }

  /** Side l of j is a part of side l of the triangle that `n1trva_` crosses, so the triangle it
      finds contains side l of j, reversed, in its own side l. */
  lemma {:induction false} FacingContains(T: seq<Te>, S: Shape, j: int, l: int, h: nat)
    requires Woven(T, S) && j in S.geo && 1 <= l <= 3 && h <= S.geo[j].level && Along(T, j, l, h)
    ensures Up(T, j, h) in S.geo && PartOf(S.geo[j], S.geo[Up(T, j, h)], l, h)
    decreases h
  {
    hide Woven, NodeOk;
    NodeAt(T, S, j);
    if h > 0 {
      RootLevel(T, S);
      ParentOf(T, S, j);
      NodeAt(T, S, T[j].sur);
      FacingContains(T, S, T[j].sur, l, h - 1);
      PartChild(S.geo[T[j].sur], T[j].kind, S.geo[Up(T, j, h)], l, h);
    }
  }

  lemma PartChild(p: Geo, k: int, u: Geo, l: int, h: nat)
    requires Sound(p) && 1 <= l <= 3 && (k == l || k == Suiv(l)) && h > 0 && PartOf(p, u, l, h - 1)
    ensures PartOf(Child(p, k), u, l, h)
  {
  }
}
