/** The visibility-limited wavefront relaxation of ICWorker.run
    (icworker.py:363-553) as functions of the run's state: the seed pass from
    the origin, the expansion passes from the frontier, and the driver that
    repeats passes until the frontier is exhausted. */
module Relaxation {
  import opened Geometry
  import opened VertexTable
  import opened Walkable
  import opened Pairs
  import opened Chain

  /** The two in-memory layers: frontier vertices and walkable geometry. */
  datatype State = State(table: Table, lines: Lines)

  /** The empty layers the run starts from. */
  function Start(): (s: State)
    ensures s.table.Valid() && s.table.log == [] && s.lines == map[]
  {
    State(Table(map[], []), map[])
  }

  /** The row written for a visible candidate at p reached from `anchor`
      with `budget` left (icworker.py:399, 411-416; 495, 507-513). */
  function Candidate(g: Engine, anchor: Point, budget: real, p: Point, it: nat, prev: Option<nat>, bid: int): (v: Vertex)
    ensures v.pos == p && v.iteration == it && v.prevId == prev && v.boundaryId == bid
    ensures v.budget == budget - g.hopLength(Segment(p, anchor))
    ensures HopsNonNegative(g) ==> v.budget <= budget
  {
    Vertex(p, budget - g.hopLength(Segment(p, anchor)), it, prev, bid)
  }

  /** The candidate points whose hop to `anchor` does not cross the
      obstacles, in scan order. */
  function VisibleFrom(g: Engine, anchor: Point, pts: seq<Point>): (r: seq<Point>)
    ensures forall p :: p in r <==> p in pts && !g.crosses(Segment(p, anchor))
    ensures |r| <= |pts|
    decreases |pts|
  {
    if pts == [] then []
    else
      var front := pts[..|pts| - 1];
      var p := pts[|pts| - 1];
      assert forall q :: q in pts <==> q in front || q == p;
      if g.crosses(Segment(p, anchor)) then VisibleFrom(g, anchor, front) else VisibleFrom(g, anchor, front) + [p]
  }

  /** The vertex table after every visible candidate of `pts` has gone
      through the dedup-and-replace step, in scan order. */
  function ScanTable(g: Engine, t: Table, anchor: Point, budget: real, pts: seq<Point>,
                     it: nat, prev: Option<nat>, bid: int): (r: Table)
    requires t.Valid()
    ensures r.Valid()
    ensures t.log <= r.log
    // every row written is the candidate row of a visible point of the scan
    ensures forall i :: |t.log| <= i < |r.log| ==>
      && r.log[i].pos in pts
      && !g.crosses(Segment(r.log[i].pos, anchor))
      && r.log[i] == Candidate(g, anchor, budget, r.log[i].pos, it, prev, bid)
    ensures Separated(t.rows) ==> Separated(r.rows)
    decreases |pts|
  {
    if pts == [] then t
    else
      var front := pts[..|pts| - 1];
      var p := pts[|pts| - 1];
      assert forall q :: q in front ==> q in pts;
      var t' := ScanTable(g, t, anchor, budget, front, it, prev, bid);
      if g.crosses(Segment(p, anchor)) then t'
      else
        var c := Candidate(g, anchor, budget, p, it, prev, bid);
        assert Separated(t.rows) ==> Separated(Dedup(t', c).rows) by {
          if Separated(t.rows) {
            DedupKeepsSeparated(t', c);
          }
        }
        Dedup(t', c)
  }

  /** A candidate whose hop crosses the obstacles changes nothing: it is
      neither written nor added to the points that are paired. */
  lemma BlockedCandidateChangesNothing(g: Engine, t: Table, anchor: Point, budget: real, pts: seq<Point>,
                                       p: Point, it: nat, prev: Option<nat>, bid: int)
    requires t.Valid()
    requires g.crosses(Segment(p, anchor))
    ensures ScanTable(g, t, anchor, budget, pts + [p], it, prev, bid) == ScanTable(g, t, anchor, budget, pts, it, prev, bid)
    ensures VisibleFrom(g, anchor, pts + [p]) == VisibleFrom(g, anchor, pts)
  {
    assert (pts + [p])[..|pts|] == pts;
  }

  /** What a scan from `anchor` may rely on about its source: the origin
      with the whole budget in iteration 1, or a logged frontier row of the
      iteration before. */
  ghost predicate SourceOK(origin: Point, walking: real, log: seq<Vertex>, anchor: Point, budget: real, it: nat, prev: Option<nat>)
  {
    match prev
    case None => anchor == origin && budget == walking && it == 1
    case Some(j) =>
      j < |log| && log[j].pos == anchor && log[j].budget == budget && log[j].iteration + 1 == it && budget > MinBudget
  }

  /** A scan keeps every written row linked to its source. */
  lemma ScanKeepsChained(g: Engine, origin: Point, walking: real, t: Table, anchor: Point, budget: real,
                         pts: seq<Point>, it: nat, prev: Option<nat>, bid: int)
    requires t.Valid() && Chained(g, origin, walking, t.log)
    requires SourceOK(origin, walking, t.log, anchor, budget, it, prev)
    ensures Chained(g, origin, walking, ScanTable(g, t, anchor, budget, pts, it, prev, bid).log)
  {
    var r := ScanTable(g, t, anchor, budget, pts, it, prev, bid);
    forall i | |t.log| <= i < |r.log| ensures Linked(g, origin, walking, r.log, i) {
      if prev.Some? {
        assert r.log[prev.value] == t.log[prev.value];
      }
    }
    ChainedPrefix(g, origin, walking, t.log, r.log);
  }

  /** The seed scan of one boundary (icworker.py:373-442): every vertex of
      the boundary is tried from the origin with the whole walking budget;
      the segments kept among the origin and the visible vertices become the
      boundary's entry. */
  function SeedStep(g: Engine, s: State, origin: Point, walking: real, b: Boundary): (r: State)
    requires s.table.Valid()
    ensures r.table.Valid() && s.table.log <= r.table.log
    // the new rows are seeds of this boundary, budgets measured from the origin
    ensures forall i :: |s.table.log| <= i < |r.table.log| ==>
      && r.table.log[i].iteration == 1 && r.table.log[i].prevId == None && r.table.log[i].boundaryId == b.id
      && r.table.log[i].budget == walking - g.hopLength(Segment(r.table.log[i].pos, origin))
    // only this boundary's entry may be written, and only with segments on it
    ensures r.lines.Keys <= s.lines.Keys + {b.id}
    ensures forall k :: k in s.lines && k != b.id ==> k in r.lines && r.lines[k] == s.lines[k]
    ensures b.id in r.lines && b.id !in s.lines ==> r.lines[b.id] != {} && forall x :: x in r.lines[b.id] ==> g.within(b, x)
  {
    var pts := Flatten(b.parts);
    var t := ScanTable(g, s.table, origin, walking, pts, 1, None, b.id);
    var found := KeptPairs(g, b, [origin] + VisibleFrom(g, origin, pts));
    State(t, if found == {} then s.lines else s.lines[b.id := found])
  }

  /** The seed pass over the boundaries, in layer order. */
  function SeedAll(g: Engine, s: State, origin: Point, walking: real, bs: seq<Boundary>): (r: State)
    requires s.table.Valid()
    ensures r.table.Valid() && s.table.log <= r.table.log
    decreases |bs|
  {
    if bs == [] then s
    else SeedStep(g, SeedAll(g, s, origin, walking, bs[..|bs| - 1]), origin, walking, bs[|bs| - 1])
  }

  /** One micro-expansion from frontier row `id` (icworker.py:473-531): if
      the boundary meets the disk of the vertex's budget, the vertices of
      their intersection are tried from the frontier vertex, and the segments
      kept among it and the visible ones join `found`. */
  function ExpandFrom(g: Engine, t: Table, found: set<Segment>, b: Boundary, it: nat, id: nat, sp: Vertex): (r: (Table, set<Segment>))
    requires t.Valid()
    ensures r.0.Valid() && t.log <= r.0.log
    ensures found <= r.1 && forall x :: x in r.1 - found ==> g.within(b, x)
    // the new rows hang off `id`, in this iteration, on this boundary
    ensures forall i :: |t.log| <= i < |r.0.log| ==>
      && r.0.log[i].iteration == it && r.0.log[i].prevId == Some(id) && r.0.log[i].boundaryId == b.id
      && r.0.log[i].budget == sp.budget - g.hopLength(Segment(r.0.log[i].pos, sp.pos))
  {
    if !g.meets(b, sp.pos, sp.budget) then (t, found)
    else
      var pts := Flatten(g.clip(b, sp.pos, sp.budget));
      (ScanTable(g, t, sp.pos, sp.budget, pts, it, Some(id), b.id),
       found + KeptPairs(g, b, [sp.pos] + VisibleFrom(g, sp.pos, pts)))
  }

  /** The micro-expansions of one boundary from the frontier rows with ids
      below k, in ascending id order. */
  function ExpandUpTo(g: Engine, t: Table, frontier: map<nat, Vertex>, b: Boundary, it: nat, k: nat): (r: (Table, set<Segment>))
    requires t.Valid()
    ensures r.0.Valid() && t.log <= r.0.log
    ensures forall x :: x in r.1 ==> g.within(b, x)
    // every new row hangs off a frontier row below k, in this iteration, on this boundary
    ensures forall i :: |t.log| <= i < |r.0.log| ==>
      && r.0.log[i].iteration == it && r.0.log[i].boundaryId == b.id
      && r.0.log[i].prevId.Some? && r.0.log[i].prevId.value in frontier && r.0.log[i].prevId.value < k
    decreases k
  {
    if k == 0 then (t, {})
    else
      var r := ExpandUpTo(g, t, frontier, b, it, k - 1);
      if k - 1 in frontier then ExpandFrom(g, r.0, r.1, b, it, k - 1, frontier[k - 1]) else r
  }

  /** One boundary of an expansion pass (icworker.py:451-546): a snapshot of
      the frontier is taken, each frontier row is expanded in id order, and
      the segments found are merged into the boundary's entry. */
  function ExpandStep(g: Engine, s: State, b: Boundary, it: nat): (r: State)
    requires s.table.Valid()
    ensures r.table.Valid() && s.table.log <= r.table.log
    // no walkable entry is removed or shrinks
    ensures Grows(s.lines, r.lines)
  {
    var frontier := Frontier(s.table.rows, it);
    var e := ExpandUpTo(g, s.table, frontier, b, it, |s.table.log|);
    State(e.0, Merge(s.lines, b.id, e.1))
  }

  /** One expansion pass over the boundaries, in layer order. */
  function PassOver(g: Engine, s: State, bs: seq<Boundary>, it: nat): (r: State)
    requires s.table.Valid()
    ensures r.table.Valid() && s.table.log <= r.table.log
    ensures Grows(s.lines, r.lines)
    decreases |bs|
  {
    if bs == [] then s
    else
      var front := PassOver(g, s, bs[..|bs| - 1], it);
      var r := ExpandStep(g, front, bs[|bs| - 1], it);
      GrowsTransitive(s.lines, front.lines, r.lines);
      r
  }

  /** The `while` loop of icworker.py:450-553, cut off after `fuel` passes:
      while some row of iteration it - 1 has budget above 0.001, run a pass
      and advance the counter. Returns the state, the final counter and
      whether the frontier ran out. */
  function Drive(g: Engine, s: State, bs: seq<Boundary>, it: nat, fuel: nat): (r: (State, nat, bool))
    requires s.table.Valid()
    ensures r.0.table.Valid() && s.table.log <= r.0.table.log
    // the loop stops exactly when the frontier at the final counter is empty
    ensures r.2 <==> !FrontierNonEmpty(r.0.table.rows, r.1)
    // one pass per unit of counter, and no more passes than fuel
    ensures it <= r.1 <= it + fuel
    ensures !r.2 ==> r.1 == it + fuel
    // the expansion phase never removes or shrinks a walkable entry
    ensures Grows(s.lines, r.0.lines)
    decreases fuel
  {
    if !FrontierNonEmpty(s.table.rows, it) then (s, it, true)
    else if fuel == 0 then (s, it, false)
    else
      var next := PassOver(g, s, bs, it);
      var r := Drive(g, next, bs, it + 1, fuel - 1);
      GrowsTransitive(s.lines, next.lines, r.0.lines);
      r
  }

  /** One step of the driver: a pass when the frontier is non-empty and fuel
      remains, otherwise a stop that reports whether the frontier ran out. */
  lemma DriveStep(g: Engine, s: State, bs: seq<Boundary>, it: nat, fuel: nat)
    requires s.table.Valid()
    ensures FrontierNonEmpty(s.table.rows, it) && fuel > 0 ==>
      Drive(g, s, bs, it, fuel) == Drive(g, PassOver(g, s, bs, it), bs, it + 1, fuel - 1)
    ensures !(FrontierNonEmpty(s.table.rows, it) && fuel > 0) ==>
      Drive(g, s, bs, it, fuel) == (s, it, !FrontierNonEmpty(s.table.rows, it))
  {
  }

  /** A run that converges within `fuel` passes is the same run with any
      larger fuel: the cut-off never changes a run that finishes. */
  lemma {:induction false} DriveFuelIrrelevant(g: Engine, s: State, bs: seq<Boundary>, it: nat, fuel: nat, fuel': nat)
    requires s.table.Valid()
    requires Drive(g, s, bs, it, fuel).2 && fuel <= fuel'
    ensures Drive(g, s, bs, it, fuel') == Drive(g, s, bs, it, fuel)
    decreases fuel
  {
    DriveStep(g, s, bs, it, fuel);
    DriveStep(g, s, bs, it, fuel');
    if FrontierNonEmpty(s.table.rows, it) {
      DriveFuelIrrelevant(g, PassOver(g, s, bs, it), bs, it + 1, fuel - 1, fuel' - 1);
    }
  }

  /** The whole relaxation: the seed pass in iteration 1, then expansion
      passes from iteration 2 on. */
  function Relaxed(g: Engine, origin: Point, walking: real, bs: seq<Boundary>, fuel: nat): (r: (State, nat, bool))
    ensures r.0.table.Valid()
  {
    Drive(g, SeedAll(g, Start(), origin, walking, bs), bs, 2, fuel)
  }
}
