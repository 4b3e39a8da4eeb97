/** The flow across a pair of vertices: how often triangles and paths step from one to the other. */
module Flows {
  import opened Contours

  /** How many triangles have the directed side (u, v). */
  function SidesFrom(tris: seq<(int, int, int)>, u: int, v: int): (r: nat) {
    if tris == [] then 0
    else var (a, b, c) := tris[|tris| - 1];
         SidesFrom(tris[..|tris| - 1], u, v) + One2(a, b, u, v) + One2(b, c, u, v) + One2(c, a, u, v)
  }

  function One2(a: int, b: int, u: int, v: int): (r: nat) {
    if a == u && b == v then 1 else 0
  }

  /** The path has no step between u and v, either way. */
  ghost predicate Avoids(path: seq<int>, u: int, v: int) {
    forall i | 0 <= i < |path| - 1 :: !(path[i] == u && path[i + 1] == v) && !(path[i] == v && path[i + 1] == u)
  }

  /** Step (u, v) counts +1, step (v, u) -1. */
  ghost function Flow(u: int, v: int): (r: (int, int) -> real) {
    (a: int, b: int) => One2(a, b, u, v) as real - One2(a, b, v, u) as real
  }

  lemma {:induction false} FlowTriangles(tris: seq<(int, int, int)>, u: int, v: int)
    ensures OfTriangles(Flow(u, v), tris) == SidesFrom(tris, u, v) as real - SidesFrom(tris, v, u) as real
  {
    if tris != [] {
      FlowTriangles(tris[..|tris| - 1], u, v);
    }
  }

  lemma {:induction false} FlowAlong(path: seq<int>, u: int, v: int)
    requires Avoids(path, u, v)
    ensures Contours.Along(Flow(u, v), path) == 0.0
  {
    if |path| > 1 {
      assert Avoids(path[1..], u, v) by {
        assert forall i | 0 <= i < |path| - 1 :: path[1..][i] == path[i + 1];
      }
      FlowAlong(path[1..], u, v);
    }
  }

  lemma {:induction false} FlowAround(p: seq<seq<int>>, u: int, v: int)
    requires forall c | 0 <= c < |p| :: Avoids(Closed(p[c]), u, v)
    ensures Around(Flow(u, v), p) == 0.0
  {
    if p != [] {
      FlowAround(p[..|p| - 1], u, v);
      FlowAlong(Closed(p[|p| - 1]), u, v);
    }
  }
}
