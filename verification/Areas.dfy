/** Areas as a quantity of directed edges. */
module Areas {
  import opened Geometry
  import opened Delaunay
  import opened Contours

  /** Half the cross product of the ends of a directed edge. */
  ghost function Shoelace(P: seq<Point>): (r: (int, int) -> real) {
    (u: int, v: int) => (PointOf(P, u).x * PointOf(P, v).y - PointOf(P, v).x * PointOf(P, u).y) * 0.5
  }

  ghost function TrianglesArea(P: seq<Point>, tris: seq<(int, int, int)>): (r: real) {
    if tris == [] then 0.0 else TrianglesArea(P, tris[..|tris| - 1]) + AreaOf(P, tris[|tris| - 1])
  }

  lemma ShoelaceArea(P: seq<Point>, u: int, v: int, w: int)
    ensures var f := Shoelace(P); f(u, v) + f(v, w) + f(w, u) == AreaOf(P, (u, v, w))
  {
  }

  lemma {:induction false} ShoelaceTriangles(P: seq<Point>, tris: seq<(int, int, int)>)
    ensures OfTriangles(Shoelace(P), tris) == TrianglesArea(P, tris)
  {
    if tris != [] {
      ShoelaceTriangles(P, tris[..|tris| - 1]);
      var (u, v, w) := tris[|tris| - 1];
      ShoelaceArea(P, u, v, w);
    }
  }

  lemma ShoelaceOdd(P: seq<Point>)
    ensures Odd(Shoelace(P))
  {
  }
}
