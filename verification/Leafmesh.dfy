/** The triangles of one leaf of the tree: the four templates, what they bound and cover, and the
    stars of its points (`trpite_`). */
module Leafmesh {
  import opened Lists
  import opened Geometry
  import opened Delaunay
  import opened EdgeTable
  import opened Mesh
  import opened Exchange
  import opened Contours
  import opened Areas
  import opened Triangles
  import opened Templates
  import opened Splitting
  import opened Leaves
  import opened Star
  import opened Tr3str

  type Tri3 = (int, int, int)

  // ---------------------------------------------------------------- the templates

  /** `f0trte_`: the leaf itself. */
  function F0(s1: int, s2: int, s3: int): (r: Template) {
    Template([Entry(s1, s2, 0, -1, true), Entry(s2, s3, 0, -1, true), Entry(s3, s1, 0, -1, true)],
             [Corner3(Side(0, true), Side(1, true), Side(2, true))])
  }

  /** `f1trte_`, turned so that the middle nm is on the side from s3 to s1. */
  function F1(s1: int, s2: int, s3: int, nm: int): (r: Template) {
    Template([Entry(s1, s2, 0, -1, true), Entry(s2, s3, 1, -1, true), Entry(s3, nm, 1, -1, true),
      Entry(s1, nm, 0, -1, false),
              Entry(s2, nm, 0, 1, true)],
             [Corner3(Side(0, true), Side(4, true), Side(3, false)),
               Corner3(Side(1, true), Side(2, true), Side(4, false))])
  }

  /** `f2trte_`, turned so that the side from s1 to s2 has no middle. */
  function F2(s1: int, s2: int, s3: int, nm2: int, nm3: int): (r: Template) {
    Template([Entry(s1, s2, 0, -1, true), Entry(s2, nm2, 0, -1, true), Entry(s1, nm2, 0, 1, false),
      Entry(nm3, nm2, 1, 2, false),
              Entry(s1, nm3, 1, -1, false), Entry(nm2, s3, 2, -1, true), Entry(s3, nm3, 2, -1, true)],
             [Corner3(Side(0, true), Side(1, true), Side(2, false)),
               Corner3(Side(2, true), Side(3, false), Side(4, false)),
              Corner3(Side(3, true), Side(5, true), Side(6, true))])
  }

  /** `f3trte_`: the middles m1, m2, m3 of the sides 1, 2, 3. */
  function F3(s1: int, s2: int, s3: int, m1: int, m2: int, m3: int): (r: Template) {
    Template([Entry(s1, m1, 0, -1, true), Entry(m1, m3, 0, 3, true), Entry(m3, s1, 0, -1, true),
              Entry(s2, m2, 1, -1, true), Entry(m2, m1, 1, 3, true), Entry(m1, s2, 1, -1, true),
              Entry(s3, m3, 2, -1, true), Entry(m3, m2, 2, 3, true), Entry(m2, s3, 2, -1, true)],
             [Corner3(Side(0, true), Side(1, true), Side(2, true)),
               Corner3(Side(3, true), Side(4, true), Side(5, true)),
              Corner3(Side(6, true), Side(7, true), Side(8, true)),
                Corner3(Side(1, false), Side(4, false), Side(7, false))])
  }

  /** The template for a leaf with the middles m1, m2, m3 of its sides, 0 for none. */
  function TemplateOf(v1: int, v2: int, v3: int, m1: int, m2: int, m3: int): (r: Template) {
    if m1 == 0 && m2 == 0 && m3 == 0 then F0(v1, v2, v3)
    else if m2 == 0 && m3 == 0 then F1(v2, v3, v1, m1)
    else if m1 == 0 && m3 == 0 then F1(v3, v1, v2, m2)
    else if m1 == 0 && m2 == 0 then F1(v1, v2, v3, m3)
    else if m1 == 0 then F2(v1, v2, v3, m2, m3)
    else if m3 == 0 then F2(v3, v1, v2, m1, m2)
    else if m2 == 0 then F2(v2, v3, v1, m3, m1)
    else F3(v1, v2, v3, m1, m2, m3)
  }

  lemma F0Fits(s1: int, s2: int, s3: int)
    requires s1 > 0 && s2 > 0 && s3 > 0 && s1 != s2 && s2 != s3 && s3 != s1
    ensures Fits(F0(s1, s2, s3)) && |F0(s1, s2, s3).tris| == 1 && CornersAt(F0(s1, s2, s3), 0) == (s1, s2, s3)
  {
    var tp := F0(s1, s2, s3);
    forall e | 0 <= e < |tp.entries| ensures EntryFits(tp, e) {
      assert e == 0 || e == 1 || e == 2;
    }
    forall k | 0 <= k < |tp.tris| ensures TriFits(tp, k) {
      assert k == 0;
    }
    forall j, k | 0 <= j < k < |tp.entries| ensures Ends(tp.entries[j]) != Ends(tp.entries[k]) {
      assert j == 0 || j == 1;
      assert k == 1 || k == 2;
    }
  }

  lemma F1Fits(s1: int, s2: int, s3: int, nm: int)
    requires s1 > 0 && s2 > 0 && s3 > 0 && nm > 0 && Unique([s1, s2, s3, nm])
    ensures Fits(F1(s1, s2, s3, nm)) && |F1(s1, s2, s3, nm).tris| == 2
    ensures CornersAt(F1(s1, s2, s3, nm), 0) == (s1, s2, nm) && CornersAt(F1(s1, s2, s3, nm), 1) == (s2, s3, nm)
  {
    var tp := F1(s1, s2, s3, nm);
    var l := [s1, s2, s3, nm];
    assert l[0] == s1 && l[1] == s2 && l[2] == s3 && l[3] == nm;
    forall e | 0 <= e < |tp.entries| ensures EntryFits(tp, e) {
      assert e == 0 || e == 1 || e == 2 || e == 3 || e == 4;
    }
    forall k | 0 <= k < |tp.tris| ensures TriFits(tp, k) {
      assert k == 0 || k == 1;
    }
    forall j, k | 0 <= j < k < |tp.entries| ensures Ends(tp.entries[j]) != Ends(tp.entries[k]) {
      assert j == 0 || j == 1 || j == 2 || j == 3;
      assert k == 1 || k == 2 || k == 3 || k == 4;
    }
  }

  lemma F2Fits(s1: int, s2: int, s3: int, nm2: int, nm3: int)
    requires s1 > 0 && s2 > 0 && s3 > 0 && nm2 > 0 && nm3 > 0 && Unique([s1, s2, s3, nm2, nm3])
    ensures Fits(F2(s1, s2, s3, nm2, nm3)) && |F2(s1, s2, s3, nm2, nm3).tris| == 3
    ensures CornersAt(F2(s1, s2, s3, nm2, nm3), 0) == (s1, s2, nm2) && CornersAt(F2(s1, s2, s3, nm2, nm3), 1)
      == (s1, nm2, nm3)
    ensures CornersAt(F2(s1, s2, s3, nm2, nm3), 2) == (nm3, nm2, s3)
  {
    var tp := F2(s1, s2, s3, nm2, nm3);
    var l := [s1, s2, s3, nm2, nm3];
    assert l[0] == s1 && l[1] == s2 && l[2] == s3 && l[3] == nm2 && l[4] == nm3;
    forall e | 0 <= e < |tp.entries| ensures EntryFits(tp, e) {
      assert e == 0 || e == 1 || e == 2 || e == 3 || e == 4 || e == 5 || e == 6;
    }
    forall k | 0 <= k < |tp.tris| ensures TriFits(tp, k) {
      assert k == 0 || k == 1 || k == 2;
    }
    forall j, k | 0 <= j < k < |tp.entries| ensures Ends(tp.entries[j]) != Ends(tp.entries[k]) {
      assert j == 0 || j == 1 || j == 2 || j == 3 || j == 4 || j == 5;
      assert k == 1 || k == 2 || k == 3 || k == 4 || k == 5 || k == 6;
    }
  }

  lemma F3Fits(s1: int, s2: int, s3: int, m1: int, m2: int, m3: int)
    requires s1 > 0 && s2 > 0 && s3 > 0 && m1 > 0 && m2 > 0 && m3 > 0 && Unique([s1, s2, s3, m1, m2, m3])
    ensures Fits(F3(s1, s2, s3, m1, m2, m3)) && |F3(s1, s2, s3, m1, m2, m3).tris| == 4
    ensures CornersAt(F3(s1, s2, s3, m1, m2, m3), 0) == (s1, m1, m3) && CornersAt(F3(s1, s2, s3, m1, m2, m3), 1)
      == (s2, m2, m1)
    ensures CornersAt(F3(s1, s2, s3, m1, m2, m3), 2) == (s3, m3, m2) && CornersAt(F3(s1, s2, s3, m1, m2, m3), 3)
      == (m3, m1, m2)
  {
    var tp := F3(s1, s2, s3, m1, m2, m3);
    var l := [s1, s2, s3, m1, m2, m3];
    assert l[0] == s1 && l[1] == s2 && l[2] == s3 && l[3] == m1 && l[4] == m2 && l[5] == m3;
    forall e | 0 <= e < |tp.entries| ensures EntryFits(tp, e) {
      assert e == 0 || e == 1 || e == 2 || e == 3 || e == 4 || e == 5 || e == 6 || e == 7 || e == 8;
    }
    forall k | 0 <= k < |tp.tris| ensures TriFits(tp, k) {
      assert k == 0 || k == 1 || k == 2 || k == 3;
    }
    forall j, k | 0 <= j < k < |tp.entries| ensures Ends(tp.entries[j]) != Ends(tp.entries[k]) {
      assert j == 0 || j == 1 || j == 2 || j == 3 || j == 4 || j == 5 || j == 6 || j == 7;
      assert k == 1 || k == 2 || k == 3 || k == 4 || k == 5 || k == 6 || k == 7 || k == 8;
    }
  }

  function CornersOfTemplate(tp: Template): (r: seq<Tri3>) {
    seq(|tp.tris|, k requires 0 <= k < |tp.tris| => CornersAt(tp, k))
  }

  function Opt(m: int): (r: seq<int>) {
    if m == 0 then [] else [m]
  }

  /** The border of a leaf with its middles inserted. */
  function Border(v1: int, v2: int, v3: int, m1: int, m2: int, m3: int): (r: seq<int>) {
    [v1] + Opt(m1) + [v2] + Opt(m2) + [v3] + Opt(m3)
  }

  lemma Fit(v1: int, v2: int, v3: int, m1: int, m2: int, m3: int)
    requires LeafVertices(v1, v2, v3, m1, m2, m3)
    ensures var tp := TemplateOf(v1, v2, v3, m1, m2, m3);
            Fits(tp) && 1 <= |tp.tris| <= 4
              && |CornersOfTemplate(tp)| == |tp.tris| == 1 + |Opt(m1)| + |Opt(m2)| + |Opt(m3)|
  {
    hide Fits;
    if m1 == 0 && m2 == 0 && m3 == 0 {
      F0Fits(v1, v2, v3);
    } else if m2 == 0 && m3 == 0 {
      F1Fits(v2, v3, v1, m1);
    } else if m1 == 0 && m3 == 0 {
      F1Fits(v3, v1, v2, m2);
    } else if m1 == 0 && m2 == 0 {
      F1Fits(v1, v2, v3, m3);
    } else if m1 == 0 {
      F2Fits(v1, v2, v3, m2, m3);
    } else if m3 == 0 {
      F2Fits(v3, v1, v2, m1, m2);
    } else if m2 == 0 {
      F2Fits(v2, v3, v1, m3, m1);
    } else {
      F3Fits(v1, v2, v3, m1, m2, m3);
    }
  }

  /** The corners and middles of a leaf are different vertices. */
  predicate LeafVertices(v1: int, v2: int, v3: int, m1: int, m2: int, m3: int) {
    && v1 > 0 && v2 > 0 && v3 > 0 && v1 != v2 && v2 != v3 && v3 != v1
    && m1 >= 0 && m2 >= 0 && m3 >= 0
    && (m1 > 0 ==> m1 != v1 && m1 != v2 && m1 != v3 && m1 != m2 && m1 != m3)
    && (m2 > 0 ==> m2 != v1 && m2 != v2 && m2 != v3 && m2 != m3)
    && (m3 > 0 ==> m3 != v1 && m3 != v2 && m3 != v3)
  }

  // ---------------------------------------------------------------- what a template bounds

  lemma Tris1(f: (int, int) -> real, a: Tri3)
    ensures OfTriangles(f, [a]) == f(a.0, a.1) + f(a.1, a.2) + f(a.2, a.0)
  {
    assert [a][..0] == [];
  }

  lemma TrisSnoc(f: (int, int) -> real, l: seq<Tri3>, a: Tri3)
    ensures OfTriangles(f, l + [a]) == OfTriangles(f, l) + (f(a.0, a.1) + f(a.1, a.2) + f(a.2, a.0))
  {
    assert (l + [a])[..|l|] == l;
  }

  lemma AlongCons(f: (int, int) -> real, x: int, y: int, l: seq<int>)
    ensures Contours.Along(f, [x, y] + l) == f(x, y) + Contours.Along(f, [y] + l)
  {
    assert ([x, y] + l)[1..] == [y] + l;
  }

  lemma F0Bounds(f: (int, int) -> real, s1: int, s2: int, s3: int)
    ensures OfTriangles(f, [(s1, s2, s3)]) == Contours.Along(f, Closed([s1, s2, s3]))
  {
    Tris1(f, (s1, s2, s3));
    AlongCons(f, s1, s2, [s3, s1]);
    AlongCons(f, s2, s3, [s1]);
    AlongCons(f, s3, s1, []);
    assert Closed([s1, s2, s3]) == [s1, s2] + [s3, s1] && [s2] + [s3, s1] == [s2, s3] + [s1]
      && [s3] + [s1] == [s3, s1] + [];
  }

  /** A triangle more, glued to the side between the neighbours of s. */
  lemma Glue(f: (int, int) -> real, r: int, s: int, u: int, l: seq<int>)
    requires Odd(f)
    ensures Contours.Along(f, Closed([r, s, u] + l))
      == Contours.Along(f, Closed([r, u] + l)) + (f(r, s) + f(s, u) + f(u, r))
  {
    AlongCons(f, r, s, [u] + l + [r]);
    AlongCons(f, s, u, l + [r]);
    AlongCons(f, r, u, l + [r]);
    assert Closed([r, s, u] + l) == [r, s] + ([u] + l + [r]) && [s] + ([u] + l + [r]) == [s, u] + (l + [r]);
    assert Closed([r, u] + l) == [r, u] + (l + [r]);
    assert f(u, r) == -f(r, u);
  }

  lemma F1Bounds(f: (int, int) -> real, s1: int, s2: int, s3: int, nm: int)
    requires Odd(f)
    ensures OfTriangles(f, [(s1, s2, nm), (s2, s3, nm)]) == Contours.Along(f, Closed([s2, s3, nm, s1]))
  {
    Tris1(f, (s1, s2, nm));
    TrisSnoc(f, [(s1, s2, nm)], (s2, s3, nm));
    F0Bounds(f, s2, nm, s1);
    Tris1(f, (s2, nm, s1));
    Glue(f, s2, s3, nm, [s1]);
    assert [s2, s3, nm] + [s1] == [s2, s3, nm, s1] && [s2, nm] + [s1] == [s2, nm, s1];
    assert [(s1, s2, nm)] + [(s2, s3, nm)] == [(s1, s2, nm), (s2, s3, nm)];
  }

  lemma F2Bounds(f: (int, int) -> real, s1: int, s2: int, s3: int, nm2: int, nm3: int)
    requires Odd(f)
    ensures OfTriangles(f, [(s1, s2, nm2), (s1, nm2, nm3), (nm3, nm2, s3)])
      == Contours.Along(f, Closed([s1, s2, nm2, s3, nm3]))
  {
    var l := [(s1, s2, nm2), (s1, nm2, nm3)];
    Tris1(f, (s1, s2, nm2));
    TrisSnoc(f, [(s1, s2, nm2)], (s1, nm2, nm3));
    TrisSnoc(f, l, (nm3, nm2, s3));
    assert [(s1, s2, nm2)] + [(s1, nm2, nm3)] == l
      && l + [(nm3, nm2, s3)] == [(s1, s2, nm2), (s1, nm2, nm3), (nm3, nm2, s3)];
    Glue(f, s1, s2, nm2, [s3, nm3]);
    Glue(f, nm2, s3, nm3, [s1]);
    assert [s1, s2, nm2] + [s3, nm3] == [s1, s2, nm2, s3, nm3] && [nm2, s3, nm3] + [s1] == [nm2, s3, nm3, s1]
      && [nm2, nm3] + [s1] == [nm2, nm3, s1];
    RotateAlong(f, [s1], [nm2, s3, nm3]);
    assert [s1] + [nm2, s3, nm3] == [s1, nm2] + [s3, nm3] && [nm2, s3, nm3] + [s1] == [nm2, s3, nm3, s1];
    F0Bounds(f, nm2, nm3, s1);
    Tris1(f, (nm2, nm3, s1));
  }

  lemma F3Bounds(f: (int, int) -> real, s1: int, s2: int, s3: int, m1: int, m2: int, m3: int)
    requires Odd(f)
    ensures OfTriangles(f, [(s1, m1, m3), (s2, m2, m1), (s3, m3, m2), (m3, m1, m2)])
      == Contours.Along(f, Closed([s1, m1, s2, m2, s3, m3]))
  {
    hide Contours.Along, OfTriangles, Odd;
    var a, b, c, d := (s1, m1, m3), (s2, m2, m1), (s3, m3, m2), (m3, m1, m2);
    Tris1(f, a);
    TrisSnoc(f, [a], b);
    TrisSnoc(f, [a, b], c);
    TrisSnoc(f, [a, b, c], d);
    assert [a] + [b] == [a, b] && [a, b] + [c] == [a, b, c] && [a, b, c] + [d] == [a, b, c, d];
    RotateAlong(f, [s1], [m1, s2, m2, s3, m3]);
    assert [s1] + [m1, s2, m2, s3, m3] == [s1, m1, s2, m2, s3, m3]
      && [m1, s2, m2, s3, m3] + [s1] == [m1, s2, m2] + [s3, m3, s1];
    Glue(f, m1, s2, m2, [s3, m3, s1]);
    RotateAlong(f, [m1], [m2, s3, m3, s1]);
    assert [m1] + [m2, s3, m3, s1] == [m1, m2] + [s3, m3, s1] && [m2, s3, m3, s1] + [m1] == [m2, s3, m3] + [s1, m1];
    Glue(f, m2, s3, m3, [s1, m1]);
    RotateAlong(f, [m2], [m3, s1, m1]);
    assert [m2] + [m3, s1, m1] == [m2, m3] + [s1, m1] && [m3, s1, m1] + [m2] == [m3, s1, m1] + [m2];
    Glue(f, m3, s1, m1, [m2]);
    assert [m3, m1] + [m2] == [m3, m1, m2];
    F0Bounds(f, m3, m1, m2);
    Tris1(f, d);
  }

  /** The directed sides of a template add up to the border of the leaf with its middles inserted. */
  lemma TemplateBounds(f: (int, int) -> real, v1: int, v2: int, v3: int, m1: int, m2: int, m3: int)
    requires LeafVertices(v1, v2, v3, m1, m2, m3) && Odd(f)
    ensures OfTriangles(f, CornersOfTemplate(TemplateOf(v1, v2, v3, m1, m2, m3)))
      == Contours.Along(f, Closed(Border(v1, v2, v3, m1, m2, m3)))
  {
    var ts, b := CornersOfTemplate(TemplateOf(v1, v2, v3, m1, m2, m3)), Border(v1, v2, v3, m1, m2, m3);
    hide Contours.Along, OfTriangles, Odd, Closed;
    if m1 == 0 && m2 == 0 && m3 == 0 {
      assert ts == [(v1, v2, v3)] && b == [v1, v2, v3];
      F0Bounds(f, v1, v2, v3);
    } else if m2 == 0 && m3 == 0 {
      assert ts == [(v2, v3, m1), (v3, v1, m1)] && b == [v1, m1, v2] + [v3] && [v3] + [v1, m1, v2] == [v3, v1, m1, v2];
      F1Bounds(f, v2, v3, v1, m1);
      RotateAlong(f, [v1, m1, v2], [v3]);
    } else if m1 == 0 && m3 == 0 {
      assert ts == [(v3, v1, m2), (v1, v2, m2)] && b == [v1, v2, m2, v3];
      F1Bounds(f, v3, v1, v2, m2);
    } else if m1 == 0 && m2 == 0 {
      assert ts == [(v1, v2, m3), (v2, v3, m3)] && b == [v1] + [v2, v3, m3] && [v2, v3, m3] + [v1] == [v2, v3, m3, v1];
      F1Bounds(f, v1, v2, v3, m3);
      RotateAlong(f, [v1], [v2, v3, m3]);
    } else if m1 == 0 {
      assert ts == [(v1, v2, m2), (v1, m2, m3), (m3, m2, v3)] && b == [v1, v2, m2, v3, m3];
      F2Bounds(f, v1, v2, v3, m2, m3);
    } else if m3 == 0 {
      assert ts == [(v3, v1, m1), (v3, m1, m2), (m2, m1, v2)] && b == [v1, m1, v2, m2] + [v3]
        && [v3] + [v1, m1, v2, m2] == [v3, v1, m1, v2, m2];
      F2Bounds(f, v3, v1, v2, m1, m2);
      RotateAlong(f, [v1, m1, v2, m2], [v3]);
    } else if m2 == 0 {
      assert ts == [(v2, v3, m3), (v2, m3, m1), (m1, m3, v1)] && b == [v1, m1] + [v2, v3, m3]
        && [v2, v3, m3] + [v1, m1] == [v2, v3, m3, v1, m1];
      F2Bounds(f, v2, v3, v1, m3, m1);
      RotateAlong(f, [v1, m1], [v2, v3, m3]);
    } else {
      assert ts == [(v1, m1, m3), (v2, m2, m1), (v3, m3, m2), (m3, m1, m2)] && b == [v1, m1, v2, m2, v3, m3];
      F3Bounds(f, v1, v2, v3, m1, m2, m3);
    }
  }

  // ---------------------------------------------------------------- what triangles cover

  /** Point z is in the triangle, sides included, and the triangle has a positive area. */
  predicate InProper(P: seq<Point>, t: Tri3, z: Point) {
    AreaOf(P, t) > 0.0 && In(z, PointOf(P, t.0), PointOf(P, t.1), PointOf(P, t.2))
  }

  /** Every point of the triangle a, b, c is in one of the triangles ts. */
  ghost predicate Covers(P: seq<Point>, ts: seq<Tri3>, a: Point, b: Point, c: Point) {
    forall z | In(z, a, b, c) :: exists k :: 0 <= k < |ts| && InProper(P, ts[k], z)
  }

  /** Seen from a corner, the areas of two points compare as their shares of the triangle. */
  lemma SharesFrom(a: Point, b: Point, c: Point, p: Point, q: Point)
    ensures Area(a, p, q) * Area(a, b, c) == Area(c, a, p) * Area(a, b, q) - Area(a, b, p) * Area(c, a, q)
  {
    var ux, uy, vx, vy := b.x - a.x, b.y - a.y, c.x - a.x, c.y - a.y;
    var sx, sy, tx, ty := p.x - a.x, p.y - a.y, q.x - a.x, q.y - a.y;
    assert Area(a, p, q) == 0.5 * (sx * ty - sy * tx) && Area(a, b, c) == 0.5 * (ux * vy - uy * vx);
    assert Area(c, a, p) == 0.5 * (sx * vy - sy * vx) && Area(a, b, q) == 0.5 * (ux * ty - uy * tx);
    assert Area(a, b, p) == 0.5 * (ux * sy - uy * sx) && Area(c, a, q) == 0.5 * (tx * vy - ty * vx);
    Plucker(ux, uy, vx, vy, sx, sy, tx, ty);
  }

  lemma Plucker(ux: real, uy: real, vx: real, vy: real, sx: real, sy: real, tx: real, ty: real)
    ensures (0.5 * (sx * ty - sy * tx)) * (0.5 * (ux * vy - uy * vx))
         == (0.5 * (sx * vy - sy * vx)) * (0.5 * (ux * ty - uy * tx))
            - (0.5 * (ux * sy - uy * sx)) * (0.5 * (tx * vy - ty * vx))
  {
  }

  /** Of three shares with a positive one, the one that is least compared with another family of shares. */
  lemma LeastShare(a1: real, a2: real, a3: real, b1: real, b2: real, b3: real)
    requires a1 >= 0.0 && a2 >= 0.0 && a3 >= 0.0 && a1 + a2 + a3 > 0.0 && b1 >= 0.0 && b2 >= 0.0 && b3 >= 0.0
    ensures (a1 > 0.0 && a1 * b2 >= a2 * b1 && a1 * b3 >= a3 * b1)
         || (a2 > 0.0 && a2 * b3 >= a3 * b2 && a2 * b1 >= a1 * b2)
         || (a3 > 0.0 && a3 * b1 >= a1 * b3 && a3 * b2 >= a2 * b3)
  {
    var r1 := if a1 > 0.0 then Ratio(b1, a1) else 0.0;
    var r2 := if a2 > 0.0 then Ratio(b2, a2) else 0.0;
    var r3 := if a3 > 0.0 then Ratio(b3, a3) else 0.0;
    if a1 > 0.0 && (a2 > 0.0 ==> r1 <= r2) && (a3 > 0.0 ==> r1 <= r3) {
      Smaller(a1, b1, r1, a2, b2, r2);
      Smaller(a1, b1, r1, a3, b3, r3);
    } else if a2 > 0.0 && (a3 > 0.0 ==> r2 <= r3) && (a1 > 0.0 ==> r2 <= r1) {
      Smaller(a2, b2, r2, a3, b3, r3);
      Smaller(a2, b2, r2, a1, b1, r1);
    } else {
      Smaller(a3, b3, r3, a1, b1, r1);
      Smaller(a3, b3, r3, a2, b2, r2);
    }
  }

  lemma Smaller(a1: real, b1: real, r1: real, a2: real, b2: real, r2: real)
    requires a1 > 0.0 && a2 >= 0.0 && b1 >= 0.0 && b2 >= 0.0 && r1 * a1 == b1
    requires a2 > 0.0 ==> r2 * a2 == b2 && r1 <= r2
    ensures a1 * b2 >= a2 * b1
  {
    if a2 > 0.0 {
      assert a1 * b2 == a1 * a2 * r2 && a2 * b1 == a1 * a2 * r1;
      var m := a1 * a2;
      assert m > 0.0 && m * (r2 - r1) >= 0.0;
    }
  }

  /** A star around a point p of the triangle covers it, with its triangles of positive area. */
  lemma StarCovers(a: Point, b: Point, c: Point, p: Point, z: Point)
    requires Area(a, b, c) > 0.0 && In(p, a, b, c) && In(z, a, b, c)
    ensures (Area(a, b, p) > 0.0 && In(z, a, b, p)) || (Area(b, c, p) > 0.0 && In(z, b, c, p))
      || (Area(c, a, p) > 0.0 && In(z, c, a, p))
  {
    SharesFrom(a, b, c, p, z);
    SharesFrom(b, c, a, p, z);
    SharesFrom(c, a, b, p, z);
    Shares(a, b, c, p);
    TurnAreas(a, b, c);
    TurnAreas(a, p, z);
    TurnAreas(b, p, z);
    TurnAreas(c, p, z);
    var w := Area(a, b, c);
    var a1, a2, a3 := Area(a, b, p), Area(b, c, p), Area(c, a, p);
    var b1, b2, b3 := Area(a, b, z), Area(b, c, z), Area(c, a, z);
    hide Area;
    LeastShare(a1, a2, a3, b1, b2, b3);
    NoLess(Area(a, p, z), w, a3 * b1, a1 * b3);
    NoLess(Area(b, p, z), w, a1 * b2, a2 * b1);
    NoLess(Area(c, p, z), w, a2 * b3, a3 * b2);
  }

  lemma NoLess(x: real, w: real, m: real, n: real)
    requires w > 0.0 && x * w == m - n
    ensures (m >= n ==> x >= 0.0) && (m <= n ==> x <= 0.0)
  {
  }

  lemma Shares(a: Point, b: Point, c: Point, p: Point)
    ensures Area(a, b, p) + Area(b, c, p) + Area(c, a, p) == Area(a, b, c)
  {
  }

  lemma TurnAreas(a: Point, b: Point, c: Point)
    ensures Area(b, c, a) == Area(a, b, c) && Area(c, a, b) == Area(a, b, c) && Area(b, a, c) == -Area(a, b, c)
  {
  }

  /** The areas of the template's triangles, for middles in the middle: positive, and their sum. */
  lemma HalfAreas(a: Point, b: Point, c: Point, m: Point)
    requires m == Middle(c, a)
    ensures Area(a, b, m) == Area(a, b, c) * 0.5 && Area(b, c, m) == Area(a, b, c) * 0.5 && Area(c, a, m) == 0.0
    ensures Area(a, b, c) > 0.0 ==> In(m, a, b, c)
  {
  }

  /** The triangles ts, all of positive area, cover the triangle v exactly. */
  ghost predicate TilesLeaf(P: seq<Point>, ts: seq<Tri3>, v: Tri3) {
    && (forall k | 0 <= k < |ts| :: AreaOf(P, ts[k]) > 0.0)
    && TrianglesArea(P, ts) == AreaOf(P, v)
    && Covers(P, ts, PointOf(P, v.0), PointOf(P, v.1), PointOf(P, v.2))
  }

  lemma AreasSnoc(P: seq<Point>, l: seq<Tri3>, t: Tri3)
    ensures TrianglesArea(P, l + [t]) == TrianglesArea(P, l) + AreaOf(P, t)
    ensures TrianglesArea(P, []) == 0.0
  {
    assert (l + [t])[..|l|] == l;
  }

  lemma Areas4(P: seq<Point>, a: Tri3, b: Tri3, c: Tri3, d: Tri3)
    ensures TrianglesArea(P, [a]) == AreaOf(P, a)
    ensures TrianglesArea(P, [a, b]) == AreaOf(P, a) + AreaOf(P, b)
    ensures TrianglesArea(P, [a, b, c]) == AreaOf(P, a) + AreaOf(P, b) + AreaOf(P, c)
    ensures TrianglesArea(P, [a, b, c, d]) == AreaOf(P, a) + AreaOf(P, b) + AreaOf(P, c) + AreaOf(P, d)
  {
    hide AreaOf, TrianglesArea;
    AreasSnoc(P, [], a);
    AreasSnoc(P, [a], b);
    AreasSnoc(P, [a, b], c);
    AreasSnoc(P, [a, b, c], d);
    assert [] + [a] == [a] && [a] + [b] == [a, b] && [a, b] + [c] == [a, b, c] && [a, b, c] + [d] == [a, b, c, d];
  }

  lemma CoverWith(P: seq<Point>, ts: seq<Tri3>, k: int, z: Point)
    requires 0 <= k < |ts| && InProper(P, ts[k], z)
    ensures exists k :: 0 <= k < |ts| && InProper(P, ts[k], z)
  {
  }

  lemma F1Tiles(P: seq<Point>, s1: int, s2: int, s3: int, nm: int)
    requires AreaOf(P, (s1, s2, s3)) > 0.0 && PointOf(P, nm) == Middle(PointOf(P, s3), PointOf(P, s1))
    ensures TilesLeaf(P, [(s1, s2, nm), (s2, s3, nm)], (s1, s2, s3))
  {
    var ts: seq<Tri3> := [(s1, s2, nm), (s2, s3, nm)];
    var a, b, c, m := PointOf(P, s1), PointOf(P, s2), PointOf(P, s3), PointOf(P, nm);
    HalfAreas(a, b, c, m);
    Areas4(P, ts[0], ts[1], ts[0], ts[0]);
    hide Area, Middle, PointOf, In, TrianglesArea;
    forall z | In(z, a, b, c) ensures exists k :: 0 <= k < |ts| && InProper(P, ts[k], z) {
      StarCovers(a, b, c, m, z);
      if Area(a, b, m) > 0.0 && In(z, a, b, m) {
        CoverWith(P, ts, 0, z);
      } else {
        CoverWith(P, ts, 1, z);
      }
    }
  }

  lemma F2Tiles(P: seq<Point>, s1: int, s2: int, s3: int, nm2: int, nm3: int)
    requires AreaOf(P, (s1, s2, s3)) > 0.0
    requires PointOf(P, nm2) == Middle(PointOf(P, s2), PointOf(P, s3))
      && PointOf(P, nm3) == Middle(PointOf(P, s3), PointOf(P, s1))
    ensures TilesLeaf(P, [(s1, s2, nm2), (s1, nm2, nm3), (nm3, nm2, s3)], (s1, s2, s3))
  {
    var ts: seq<Tri3> := [(s1, s2, nm2), (s1, nm2, nm3), (nm3, nm2, s3)];
    var a, b, c, m, n := PointOf(P, s1), PointOf(P, s2), PointOf(P, s3), PointOf(P, nm2), PointOf(P, nm3);
    HalfAreas(c, a, b, m);
    HalfAreas(a, m, c, n);
    TurnAreas(a, b, c);
    TurnAreas(a, m, c);
    TurnAreas(n, m, c);
    Areas4(P, ts[0], ts[1], ts[2], ts[0]);
    forall z ensures In(z, a, b, c) ==> In(z, c, a, b) {
    }
    forall z ensures In(z, c, a, m) ==> In(z, a, m, c) {
    }
    forall z ensures In(z, m, c, n) ==> In(z, n, m, c) {
    }
    hide Area, Middle, PointOf, In, TrianglesArea;
    forall z | In(z, a, b, c) ensures exists k :: 0 <= k < |ts| && InProper(P, ts[k], z) {
      StarCovers(c, a, b, m, z);
      if Area(a, b, m) > 0.0 && In(z, a, b, m) {
        CoverWith(P, ts, 0, z);
      } else {
        StarCovers(a, m, c, n, z);
        if Area(a, m, n) > 0.0 && In(z, a, m, n) {
          CoverWith(P, ts, 1, z);
        } else {
          CoverWith(P, ts, 2, z);
        }
      }
    }
  }

  lemma F3Tiles(P: seq<Point>, s1: int, s2: int, s3: int, m1: int, m2: int, m3: int)
    requires AreaOf(P, (s1, s2, s3)) > 0.0 && PointOf(P, m1) == Middle(PointOf(P, s1), PointOf(P, s2))
    requires PointOf(P, m2) == Middle(PointOf(P, s2), PointOf(P, s3))
      && PointOf(P, m3) == Middle(PointOf(P, s3), PointOf(P, s1))
    ensures TilesLeaf(P, [(s1, m1, m3), (s2, m2, m1), (s3, m3, m2), (m3, m1, m2)], (s1, s2, s3))
  {
    var ts: seq<Tri3> := [(s1, m1, m3), (s2, m2, m1), (s3, m3, m2), (m3, m1, m2)];
    var a, b, c, x, y, w := PointOf(P, s1), PointOf(P, s2), PointOf(P, s3), PointOf(P, m1), PointOf(P, m2),
      PointOf(P, m3);
    QuarterAreas(a, b, c, x, y, w);
    TurnAreas(x, b, y);
    TurnAreas(w, y, c);
    TurnAreas(y, w, x);
    Areas4(P, ts[0], ts[1], ts[2], ts[3]);
    forall z ensures In(z, x, b, y) ==> In(z, b, y, x) {
    }
    forall z ensures In(z, w, y, c) ==> In(z, c, w, y) {
    }
    forall z ensures In(z, y, w, x) ==> In(z, w, x, y) {
    }
    hide Area, Middle, PointOf, In, TrianglesArea;
    forall z | In(z, a, b, c) ensures exists k :: 0 <= k < |ts| && InProper(P, ts[k], z) {
      QuarterHolds(a, b, c, x, y, w, z);
      if In(z, a, x, w) {
        CoverWith(P, ts, 0, z);
      } else if In(z, b, y, x) {
        CoverWith(P, ts, 1, z);
      } else if In(z, c, w, y) {
        CoverWith(P, ts, 2, z);
      } else {
        CoverWith(P, ts, 3, z);
      }
    }
  }

  /** The template of a leaf, with the middles in the middle of the sides, tiles the leaf. */
  lemma TemplateTiles(P: seq<Point>, v1: int, v2: int, v3: int, m1: int, m2: int, m3: int)
    requires LeafVertices(v1, v2, v3, m1, m2, m3) && AreaOf(P, (v1, v2, v3)) > 0.0
    requires m1 > 0 ==> PointOf(P, m1) == Middle(PointOf(P, v1), PointOf(P, v2))
    requires m2 > 0 ==> PointOf(P, m2) == Middle(PointOf(P, v2), PointOf(P, v3))
    requires m3 > 0 ==> PointOf(P, m3) == Middle(PointOf(P, v3), PointOf(P, v1))
    ensures TilesLeaf(P, CornersOfTemplate(TemplateOf(v1, v2, v3, m1, m2, m3)), (v1, v2, v3))
  {
    var ts := CornersOfTemplate(TemplateOf(v1, v2, v3, m1, m2, m3));
    hide TilesLeaf, Middle;
    TilesTurn(P, ts, v1, v2, v3);
    TilesTurn(P, ts, v2, v3, v1);
    TurnAreas(PointOf(P, v1), PointOf(P, v2), PointOf(P, v3));
    hide PointOf, Area;
    if m1 == 0 && m2 == 0 && m3 == 0 {
      assert ts == [(v1, v2, v3)];
      F0Tiles(P, v1, v2, v3);
    } else if m2 == 0 && m3 == 0 {
      assert ts == [(v2, v3, m1), (v3, v1, m1)];
      F1Tiles(P, v2, v3, v1, m1);
    } else if m1 == 0 && m3 == 0 {
      assert ts == [(v3, v1, m2), (v1, v2, m2)];
      F1Tiles(P, v3, v1, v2, m2);
    } else if m1 == 0 && m2 == 0 {
      assert ts == [(v1, v2, m3), (v2, v3, m3)];
      F1Tiles(P, v1, v2, v3, m3);
    } else if m1 == 0 {
      assert ts == [(v1, v2, m2), (v1, m2, m3), (m3, m2, v3)];
      F2Tiles(P, v1, v2, v3, m2, m3);
    } else if m3 == 0 {
      assert ts == [(v3, v1, m1), (v3, m1, m2), (m2, m1, v2)];
      F2Tiles(P, v3, v1, v2, m1, m2);
    } else if m2 == 0 {
      assert ts == [(v2, v3, m3), (v2, m3, m1), (m1, m3, v1)];
      F2Tiles(P, v2, v3, v1, m3, m1);
    } else {
      assert ts == [(v1, m1, m3), (v2, m2, m1), (v3, m3, m2), (m3, m1, m2)];
      F3Tiles(P, v1, v2, v3, m1, m2, m3);
    }
  }

  lemma F0Tiles(P: seq<Point>, s1: int, s2: int, s3: int)
    requires AreaOf(P, (s1, s2, s3)) > 0.0
    ensures TilesLeaf(P, [(s1, s2, s3)], (s1, s2, s3))
  {
    var ts: seq<Tri3> := [(s1, s2, s3)];
    Areas4(P, ts[0], ts[0], ts[0], ts[0]);
    hide Area, In;
    forall z | In(z, PointOf(P, s1), PointOf(P, s2), PointOf(P, s3)) ensures exists k ::
      0 <= k < |ts| && InProper(P, ts[k], z) {
      CoverWith(P, ts, 0, z);
    }
  }

  lemma TilesTurn(P: seq<Point>, ts: seq<Tri3>, v1: int, v2: int, v3: int)
    ensures TilesLeaf(P, ts, (v2, v3, v1)) <==> TilesLeaf(P, ts, (v1, v2, v3))
  {
    TurnAreas(PointOf(P, v1), PointOf(P, v2), PointOf(P, v3));
    var a, b, c := PointOf(P, v1), PointOf(P, v2), PointOf(P, v3);
    forall z ensures In(z, a, b, c) <==> In(z, b, c, a) {
    }
    hide In, Area, InProper;
  }
}
