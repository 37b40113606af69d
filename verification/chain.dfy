/** How each frontier vertex was discovered: a `prev_id` chain of visible
    hops back to the origin, along which the walking budget is spent. */
module Chain {
  import opened Geometry
  import opened VertexTable

  /** Row i of the log was written for a hop that does not cross the eroded
      obstacles: from the origin with the whole walking budget (a seed:
      iteration 1, no `prev_id`), or from an earlier row that was a frontier
      vertex (one iteration later, budget measured from the parent's). */
  ghost predicate Linked(g: Engine, origin: Point, walking: real, log: seq<Vertex>, i: nat)
    requires i < |log|
  {
    var v := log[i];
    match v.prevId
    case None =>
      && v.iteration == 1
      && !g.crosses(Segment(v.pos, origin))
      && v.budget == walking - g.hopLength(Segment(v.pos, origin))
    case Some(j) =>
      && j < i
      && v.iteration == log[j].iteration + 1
      && log[j].budget > MinBudget
      && !g.crosses(Segment(v.pos, log[j].pos))
      && v.budget == log[j].budget - g.hopLength(Segment(v.pos, log[j].pos))
  }

  /** Every row ever written is linked. */
  ghost predicate Chained(g: Engine, origin: Point, walking: real, log: seq<Vertex>)
  {
    forall i :: 0 <= i < |log| ==> Linked(g, origin, walking, log, i)
  }

  /** The total length of the hops on the `prev_id` chain of row i, back to the origin. */
  ghost function PathLength(g: Engine, origin: Point, walking: real, log: seq<Vertex>, i: nat): real
    requires Chained(g, origin, walking, log) && i < |log|
    decreases i
  {
    assert Linked(g, origin, walking, log, i);
    match log[i].prevId
    case None => g.hopLength(Segment(log[i].pos, origin))
    case Some(j) => PathLength(g, origin, walking, log, j) + g.hopLength(Segment(log[i].pos, log[j].pos))
  }

  /** The number of hops on the `prev_id` chain of row i. */
  ghost function Hops(g: Engine, origin: Point, walking: real, log: seq<Vertex>, i: nat): nat
    requires Chained(g, origin, walking, log) && i < |log|
    decreases i
  {
    assert Linked(g, origin, walking, log, i);
    match log[i].prevId
    case None => 1
    case Some(j) => Hops(g, origin, walking, log, j) + 1
  }

  /** The remaining budget of a vertex is the walking budget less the length
      of its chain of hops. */
  lemma {:induction false} BudgetIsWalkingLessPath(g: Engine, origin: Point, walking: real, log: seq<Vertex>, i: nat)
    requires Chained(g, origin, walking, log) && i < |log|
    ensures log[i].budget == walking - PathLength(g, origin, walking, log, i)
    decreases i
  {
    assert Linked(g, origin, walking, log, i);
    match log[i].prevId
    case None =>
    case Some(j) => BudgetIsWalkingLessPath(g, origin, walking, log, j);
  }

  /** A vertex's iteration counts the hops of its chain. */
  lemma {:induction false} IterationCountsHops(g: Engine, origin: Point, walking: real, log: seq<Vertex>, i: nat)
    requires Chained(g, origin, walking, log) && i < |log|
    ensures log[i].iteration == Hops(g, origin, walking, log, i)
    decreases i
  {
    assert Linked(g, origin, walking, log, i);
    match log[i].prevId
    case None =>
    case Some(j) => IterationCountsHops(g, origin, walking, log, j);
  }

  /** With non-negative hop lengths, chains only cost. */
  lemma {:induction false} PathLengthNonNegative(g: Engine, origin: Point, walking: real, log: seq<Vertex>, i: nat)
    requires HopsNonNegative(g)
    requires Chained(g, origin, walking, log) && i < |log|
    ensures PathLength(g, origin, walking, log, i) >= 0.0
    decreases i
  {
    assert Linked(g, origin, walking, log, i);
    match log[i].prevId
    case None =>
      assert g.hopLength(Segment(log[i].pos, origin)) >= 0.0;
    case Some(j) =>
      PathLengthNonNegative(g, origin, walking, log, j);
      assert g.hopLength(Segment(log[i].pos, log[j].pos)) >= 0.0;
  }

  /** No vertex has more budget than the walk started with, and none has
      more than the vertex it was reached from. */
  lemma BudgetNeverGrows(g: Engine, origin: Point, walking: real, log: seq<Vertex>, i: nat)
    requires HopsNonNegative(g)
    requires Chained(g, origin, walking, log) && i < |log|
    ensures log[i].budget <= walking
    ensures log[i].prevId.Some? ==> log[i].prevId.value < i && log[i].budget <= log[log[i].prevId.value].budget
  {
    BudgetIsWalkingLessPath(g, origin, walking, log, i);
    PathLengthNonNegative(g, origin, walking, log, i);
    assert Linked(g, origin, walking, log, i);
    if log[i].prevId.Some? {
      var j := log[i].prevId.value;
      assert g.hopLength(Segment(log[i].pos, log[j].pos)) >= 0.0;
    }
  }

  /** Only frontier vertices spawn: a parent had more than 0.001 left and
      belongs to the iteration just before its child's. */
  lemma ParentWasFrontier(g: Engine, origin: Point, walking: real, log: seq<Vertex>, i: nat, j: nat)
    requires Chained(g, origin, walking, log) && i < |log|
    requires log[i].prevId == Some(j)
    ensures j < i && log[j].budget > MinBudget && log[j].iteration + 1 == log[i].iteration
  {
    assert Linked(g, origin, walking, log, i);
  }

  /** Linked rows stay linked when the log grows at its end. */
  lemma ChainedPrefix(g: Engine, origin: Point, walking: real, log: seq<Vertex>, log': seq<Vertex>)
    requires Chained(g, origin, walking, log) && log <= log'
    requires forall i :: |log| <= i < |log'| ==> Linked(g, origin, walking, log', i)
    ensures Chained(g, origin, walking, log')
  {
    forall i | 0 <= i < |log'| ensures Linked(g, origin, walking, log', i) {
      if i < |log| {
        assert Linked(g, origin, walking, log, i);
        assert log'[i] == log[i];
        if log[i].prevId.Some? {
          assert log'[log[i].prevId.value] == log[log[i].prevId.value];
        }
      }
    }
  }
}
