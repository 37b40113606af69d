/** The plane as the relaxation sees it: exact points, straight hops between
    them, the boundary curves that are scanned, and the geometry engine whose
    predicates and measures are supplied by the caller. */
module Geometry {

  /** A point in the analysis reference, with exact coordinates. */
  datatype Point = Point(x: real, y: real)

  /** The straight segment from `a` to `b` (a hop, or a candidate walkable piece). */
  datatype Segment = Segment(a: Point, b: Point)

  /** One feature of the clipped boundary layer: its `ic_boundary_id` and the
      vertex list of each part of its multi-polyline. */
  datatype Boundary = Boundary(id: int, parts: seq<seq<Point>>)

  /** The geometry engine, fixed for one run.
      - `crosses(s)`: s crosses the obstacle region eroded by 0.05;
      - `hopLength(s)`: the length of s;
      - `within(b, s)`: s lies within b buffered by 0.1;
      - `meets(b, c, r)`: b intersects the disk of radius r around c;
      - `clip(b, c, r)`: the vertices, part by part, of b intersected with that disk. */
  datatype Engine = Engine(
    crosses: Segment -> bool,
    hopLength: Segment -> real,
    within: (Boundary, Segment) -> bool,
    meets: (Boundary, Point, real) -> bool,
    clip: (Boundary, Point, real) -> seq<seq<Point>>)

  /** What the relaxation assumes of the engine's length measure. */
  ghost predicate HopsNonNegative(g: Engine)
  {
    forall s :: g.hopLength(s) >= 0.0
  }

  /** Half-width of the square searched around a candidate vertex. */
  const BoxHalfWidth: real := 0.005

  /** `q` lies in the closed square of half-width 0.005 centred on `p`. */
  predicate InBox(q: Point, p: Point)
  {
    && p.x - BoxHalfWidth <= q.x <= p.x + BoxHalfWidth
    && p.y - BoxHalfWidth <= q.y <= p.y + BoxHalfWidth
  }

  /** The squares are symmetric: q is near p exactly when p is near q. */
  lemma InBoxSymmetric(p: Point, q: Point)
    ensures InBox(q, p) <==> InBox(p, q)
  {
  }

  /** The vertices of a multi-polyline in the order the nested part/vertex
      loops visit them. */
  function Flatten(parts: seq<seq<Point>>): (r: seq<Point>)
    ensures forall p :: p in r <==> exists i :: 0 <= i < |parts| && p in parts[i]
  {
    if parts == [] then []
    else
      var r := Flatten(parts[..|parts| - 1]) + parts[|parts| - 1];
      assert forall i :: 0 <= i < |parts| - 1 ==> parts[..|parts| - 1][i] == parts[i];
      r
  }
}
