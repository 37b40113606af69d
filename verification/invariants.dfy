/** What every pass of the relaxation preserves: the vertex table stays
    well formed with at most one live vertex per location, every row ever
    written is linked to its source by a visible hop, and each walkable entry
    is a non-empty set of segments lying on its own boundary curve. */
module Invariants {
  import opened Geometry
  import opened VertexTable
  import opened Walkable
  import opened Pairs
  import opened Chain
  import opened Relaxation

  /** The `ic_boundary_id` values of the boundary layer. */
  function Ids(bs: seq<Boundary>): set<int>
  {
    set i | 0 <= i < |bs| :: bs[i].id
  }

  /** Boundary ids are feature ids (icworker.py:295-306), so no two boundaries share one. */
  predicate DistinctIds(bs: seq<Boundary>)
  {
    forall i, j :: 0 <= i < j < |bs| ==> bs[i].id != bs[j].id
  }

  /** Entries exist only for boundaries of the layer, and every segment of an
      entry lies within that boundary's buffer. */
  ghost predicate OnBoundaries(g: Engine, bs: seq<Boundary>, lines: Lines)
  {
    && (forall k :: k in lines ==> k in Ids(bs))
    && (forall i, x :: 0 <= i < |bs| && bs[i].id in lines && x in lines[bs[i].id] ==> g.within(bs[i], x))
  }

  ghost predicate Inv(g: Engine, origin: Point, walking: real, bs: seq<Boundary>, s: State)
  {
    && s.table.Valid()
    && Separated(s.table.rows)
    && Chained(g, origin, walking, s.table.log)
    && NonEmptyEntries(s.lines)
    && OnBoundaries(g, bs, s.lines)
  }

  /** Seeding boundary i, after those before it, preserves the invariant
      and writes only boundary i's entry. */
  lemma SeedStepInv(g: Engine, origin: Point, walking: real, bs: seq<Boundary>, s: State, i: nat)
    requires DistinctIds(bs) && i < |bs|
    requires Inv(g, origin, walking, bs, s) && s.lines.Keys <= Ids(bs[..i])
    ensures Inv(g, origin, walking, bs, SeedStep(g, s, origin, walking, bs[i]))
    ensures SeedStep(g, s, origin, walking, bs[i]).lines.Keys <= Ids(bs[..i + 1])
  {
    var b := bs[i];
    var r := SeedStep(g, s, origin, walking, b);
    ScanKeepsChained(g, origin, walking, s.table, origin, walking, Flatten(b.parts), 1, None, b.id);
    assert b.id !in Ids(bs[..i]);
    assert Ids(bs[..i + 1]) == Ids(bs[..i]) + {b.id} by {
      assert forall j :: 0 <= j < i ==> bs[..i + 1][j] == bs[..i][j];
      assert bs[..i + 1][i] == b;
    }
  }

  /** The seed pass over the first k boundaries establishes the invariant and
      writes entries only for those boundaries. */
  lemma {:induction false} SeedAllInv(g: Engine, origin: Point, walking: real, bs: seq<Boundary>, k: nat)
    requires DistinctIds(bs) && k <= |bs|
    ensures Inv(g, origin, walking, bs, SeedAll(g, Start(), origin, walking, bs[..k]))
    ensures SeedAll(g, Start(), origin, walking, bs[..k]).lines.Keys <= Ids(bs[..k])
  {
    if k == 0 {
      assert bs[..0] == [];
    } else {
      SeedAllInv(g, origin, walking, bs, k - 1);
      assert bs[..k][..k - 1] == bs[..k - 1];
      assert bs[..k][k - 1] == bs[k - 1];
      SeedStepInv(g, origin, walking, bs, SeedAll(g, Start(), origin, walking, bs[..k - 1]), k - 1);
    }
  }

  /** The micro-expansions of one boundary keep the table separated and chained. */
  lemma {:induction false} ExpandUpToInv(g: Engine, origin: Point, walking: real, t: Table, b: Boundary, it: nat, k: nat)
    requires t.Valid() && Separated(t.rows) && Chained(g, origin, walking, t.log)
    ensures Separated(ExpandUpTo(g, t, Frontier(t.rows, it), b, it, k).0.rows)
    ensures Chained(g, origin, walking, ExpandUpTo(g, t, Frontier(t.rows, it), b, it, k).0.log)
  {
    var frontier := Frontier(t.rows, it);
    if k > 0 {
      ExpandUpToInv(g, origin, walking, t, b, it, k - 1);
      var r := ExpandUpTo(g, t, frontier, b, it, k - 1);
      if k - 1 in frontier {
        var sp := frontier[k - 1];
        assert sp == t.log[k - 1] == r.0.log[k - 1];
        if g.meets(b, sp.pos, sp.budget) {
          var pts := Flatten(g.clip(b, sp.pos, sp.budget));
          ScanKeepsChained(g, origin, walking, r.0, sp.pos, sp.budget, pts, it, Some(k - 1), b.id);
        }
      }
    }
  }

  /** One boundary of an expansion pass preserves the invariant. */
  lemma ExpandStepInv(g: Engine, origin: Point, walking: real, bs: seq<Boundary>, s: State, i: nat, it: nat)
    requires DistinctIds(bs) && i < |bs|
    requires Inv(g, origin, walking, bs, s)
    ensures Inv(g, origin, walking, bs, ExpandStep(g, s, bs[i], it))
  {
    var b := bs[i];
    var e := ExpandUpTo(g, s.table, Frontier(s.table.rows, it), b, it, |s.table.log|);
    ExpandUpToInv(g, origin, walking, s.table, b, it, |s.table.log|);
    var r := ExpandStep(g, s, b, it);
    assert r.lines == Merge(s.lines, b.id, e.1);
  }

  /** An expansion pass over the first k boundaries preserves the invariant. */
  lemma {:induction false} PassOverInv(g: Engine, origin: Point, walking: real, bs: seq<Boundary>, s: State, it: nat, k: nat)
    requires DistinctIds(bs) && k <= |bs|
    requires Inv(g, origin, walking, bs, s)
    ensures Inv(g, origin, walking, bs, PassOver(g, s, bs[..k], it))
  {
    if k == 0 {
      assert bs[..0] == [];
    } else {
      PassOverInv(g, origin, walking, bs, s, it, k - 1);
      assert bs[..k][..k - 1] == bs[..k - 1];
      ExpandStepInv(g, origin, walking, bs, PassOver(g, s, bs[..k - 1], it), k - 1, it);
    }
  }

  /** A full expansion pass preserves the invariant. */
  lemma PassOverAllInv(g: Engine, origin: Point, walking: real, bs: seq<Boundary>, s: State, it: nat)
    requires DistinctIds(bs)
    requires Inv(g, origin, walking, bs, s)
    ensures Inv(g, origin, walking, bs, PassOver(g, s, bs, it))
  {
    PassOverInv(g, origin, walking, bs, s, it, |bs|);
    assert bs[..|bs|] == bs;
  }

  /** Every state the driver reaches satisfies the invariant. */
  lemma {:induction false} DriveInv(g: Engine, origin: Point, walking: real, bs: seq<Boundary>, s: State, it: nat, fuel: nat)
    requires DistinctIds(bs)
    requires Inv(g, origin, walking, bs, s)
    ensures Inv(g, origin, walking, bs, Drive(g, s, bs, it, fuel).0)
    decreases fuel
  {
    DriveStep(g, s, bs, it, fuel);
    if FrontierNonEmpty(s.table.rows, it) && fuel > 0 {
      PassOverAllInv(g, origin, walking, bs, s, it);
      DriveInv(g, origin, walking, bs, PassOver(g, s, bs, it), it + 1, fuel - 1);
    }
  }

  /** The relaxation ends in a state where the invariant holds: at most one
      live vertex per location, every row linked to its source by a visible
      hop, and every walkable segment on its own boundary. */
  lemma RelaxedInv(g: Engine, origin: Point, walking: real, bs: seq<Boundary>, fuel: nat)
    requires DistinctIds(bs)
    ensures Inv(g, origin, walking, bs, Relaxed(g, origin, walking, bs, fuel).0)
  {
    SeedAllInv(g, origin, walking, bs, |bs|);
    assert bs[..|bs|] == bs;
    DriveInv(g, origin, walking, bs, SeedAll(g, Start(), origin, walking, bs), 2, fuel);
  }

  /** In the final state every live vertex has at most the walking budget
      left, exactly the walking budget less the length of its hop chain. */
  lemma RelaxedBudgets(g: Engine, origin: Point, walking: real, bs: seq<Boundary>, fuel: nat, id: nat)
    requires DistinctIds(bs) && HopsNonNegative(g)
    requires id in Relaxed(g, origin, walking, bs, fuel).0.table.rows
    ensures Relaxed(g, origin, walking, bs, fuel).0.table.rows[id].budget <= walking
    ensures var log := Relaxed(g, origin, walking, bs, fuel).0.table.log;
      id < |log| && Chained(g, origin, walking, log) &&
      Relaxed(g, origin, walking, bs, fuel).0.table.rows[id].budget == walking - PathLength(g, origin, walking, log, id)
  {
    RelaxedInv(g, origin, walking, bs, fuel);
    var t := Relaxed(g, origin, walking, bs, fuel).0.table;
    BudgetNeverGrows(g, origin, walking, t.log, id);
    BudgetIsWalkingLessPath(g, origin, walking, t.log, id);
  }
}
