/** The relaxation part of ICWorker.run (icworker.py:322-553), step by step
    on the two in-memory layers, each step proved to compute the state the
    specification functions of module Relaxation describe. */
module Worker {
  import opened Geometry
  import opened VertexTable
  import opened Walkable
  import opened Pairs
  import opened Chain
  import opened Relaxation
  import opened Invariants

  /** One more point of a scan: a blocked point changes nothing, a visible
      one goes through the dedup step and is appended to the points paired. */
  lemma ScanNext(g: Engine, t: Table, anchor: Point, budget: real, pts: seq<Point>,
                 it: nat, prev: Option<nat>, bid: int, i: nat)
    requires t.Valid() && i < |pts|
    ensures g.crosses(Segment(pts[i], anchor)) ==>
      && ScanTable(g, t, anchor, budget, pts[..i + 1], it, prev, bid) == ScanTable(g, t, anchor, budget, pts[..i], it, prev, bid)
      && VisibleFrom(g, anchor, pts[..i + 1]) == VisibleFrom(g, anchor, pts[..i])
    ensures !g.crosses(Segment(pts[i], anchor)) ==>
      && ScanTable(g, t, anchor, budget, pts[..i + 1], it, prev, bid)
         == Dedup(ScanTable(g, t, anchor, budget, pts[..i], it, prev, bid), Candidate(g, anchor, budget, pts[i], it, prev, bid))
      && VisibleFrom(g, anchor, pts[..i + 1]) == VisibleFrom(g, anchor, pts[..i]) + [pts[i]]
  {
    var ps := pts[..i + 1];
    assert ps[..|ps| - 1] == pts[..i];
    assert ps[|ps| - 1] == pts[i];
  }

  /** One candidate point (icworker.py:393-419): if its hop to `anchor`
      does not cross the obstacles, it goes through the dedup step and is
      reported as seen. */
  method ScanPoint(g: Engine, vs: VertexLayer, anchor: Point, budget: real, p: Point,
                   it: nat, prev: Option<nat>, bid: int) returns (seen: bool)
    requires vs.Valid()
    modifies vs
    ensures vs.Valid()
    ensures seen == !g.crosses(Segment(p, anchor))
    ensures seen ==> vs.Contents() == Dedup(old(vs.Contents()), Candidate(g, anchor, budget, p, it, prev, bid))
    ensures !seen ==> vs.Contents() == old(vs.Contents())
  {
    var line := Segment(p, anchor);
    seen := !g.crosses(line);
    if seen {
      var _ := DedupInsert(vs, Candidate(g, anchor, budget, p, it, prev, bid));
    }
  }

  /** The candidate loop over `pts` (icworker.py:386-420 and 484-517): each
      point whose hop to `anchor` does not cross the obstacles goes through
      the dedup-and-replace step and is appended to the points to pair. */
  method Scan(g: Engine, vs: VertexLayer, anchor: Point, budget: real, pts: seq<Point>,
              it: nat, prev: Option<nat>, bid: int) returns (visible: seq<Point>)
    requires vs.Valid()
    modifies vs
    ensures vs.Valid()
    ensures vs.Contents() == ScanTable(g, old(vs.Contents()), anchor, budget, pts, it, prev, bid)
    ensures visible == VisibleFrom(g, anchor, pts)
  {
    ghost var t0 := vs.Contents();
    visible := [];
    var i := 0;
    while i < |pts|
      invariant 0 <= i <= |pts| && vs.Valid()
      invariant vs.Contents() == ScanTable(g, t0, anchor, budget, pts[..i], it, prev, bid)
      invariant visible == VisibleFrom(g, anchor, pts[..i])
    {
      ScanNext(g, t0, anchor, budget, pts, it, prev, bid, i);
      var seen := ScanPoint(g, vs, anchor, budget, pts[i], it, prev, bid);
      if seen {
        visible := visible + [pts[i]];
      }
      i := i + 1;
    }
    assert pts[..|pts|] == pts;
  }

  /** The seed scan of one boundary (icworker.py:373-442). */
  method SeedBoundary(g: Engine, vs: VertexLayer, ls: LinesLayer, origin: Point, walking: real, b: Boundary)
    requires vs.Valid() && b.id !in ls.entries
    modifies vs, ls
    ensures vs.Valid()
    ensures State(vs.Contents(), ls.entries) == SeedStep(g, State(old(vs.Contents()), old(ls.entries)), origin, walking, b)
  {
    var pts := Flatten(b.parts);
    var visible := Scan(g, vs, origin, walking, pts, 1, None, b.id);
    var newlines, _ := PairwiseSegments(g, b, [origin] + visible);
    if newlines != {} {
      ls.Add(b.id, newlines);
    }
  }

  /** Seeding boundary i continues the seed pass over those before it. */
  lemma SeedNext(g: Engine, origin: Point, walking: real, bs: seq<Boundary>, i: nat)
    requires i < |bs|
    ensures SeedAll(g, Start(), origin, walking, bs[..i + 1])
         == SeedStep(g, SeedAll(g, Start(), origin, walking, bs[..i]), origin, walking, bs[i])
  {
    var bs' := bs[..i + 1];
    assert bs'[..|bs'| - 1] == bs[..i];
    assert bs'[|bs'| - 1] == bs[i];
  }

  /** Boundary i's id is new among the ids of those before it. */
  lemma IdsNext(bs: seq<Boundary>, i: nat)
    requires DistinctIds(bs) && i < |bs|
    ensures bs[i].id !in Ids(bs[..i])
    ensures Ids(bs[..i + 1]) == Ids(bs[..i]) + {bs[i].id}
  {
    assert forall j :: 0 <= j < i ==> bs[..i + 1][j] == bs[..i][j];
    assert bs[..i + 1][i] == bs[i];
  }

  /** The seed pass (icworker.py:367-444), boundary by boundary. */
  method SeedPass(g: Engine, vs: VertexLayer, ls: LinesLayer, origin: Point, walking: real, bs: seq<Boundary>)
    requires DistinctIds(bs)
    requires vs.Valid() && vs.log == [] && ls.entries == map[]
    modifies vs, ls
    ensures vs.Valid()
    ensures State(vs.Contents(), ls.entries) == SeedAll(g, Start(), origin, walking, bs)
  {
    var i := 0;
    while i < |bs|
      invariant i <= |bs| && vs.Valid()
      invariant State(vs.Contents(), ls.entries) == SeedAll(g, Start(), origin, walking, bs[..i])
      invariant ls.entries.Keys <= Ids(bs[..i])
    {
      ghost var pre := SeedAll(g, Start(), origin, walking, bs[..i]);
      SeedNext(g, origin, walking, bs, i);
      IdsNext(bs, i);
      SeedBoundary(g, vs, ls, origin, walking, bs[i]);
      assert State(vs.Contents(), ls.entries) == SeedStep(g, pre, origin, walking, bs[i]);
      i := i + 1;
    }
    assert bs[..|bs|] == bs;
  }

  /** One micro-expansion (icworker.py:473-531): when the boundary meets the
      disk of the frontier vertex's budget, scan the vertices of their
      intersection from it and add the segments kept among them to `found`. */
  method ExpandVertex(g: Engine, vs: VertexLayer, b: Boundary, iteration: nat, id: nat, sp: Vertex,
                      found: set<Segment>) returns (found': set<Segment>)
    requires vs.Valid()
    modifies vs
    ensures vs.Valid()
    ensures (vs.Contents(), found') == ExpandFrom(g, old(vs.Contents()), found, b, iteration, id, sp)
  {
    found' := found;
    if g.meets(b, sp.pos, sp.budget) {
      var pts := Flatten(g.clip(b, sp.pos, sp.budget));
      var visible := Scan(g, vs, sp.pos, sp.budget, pts, iteration, Some(id), b.id);
      var segs, _ := PairwiseSegments(g, b, [sp.pos] + visible);
      found' := found + segs;
    }
  }

  /** Frontier row `id` is expanded after those below it, if it is in the snapshot. */
  lemma ExpandNext(g: Engine, t: Table, frontier: map<nat, Vertex>, b: Boundary, it: nat, id: nat)
    requires t.Valid()
    ensures id in frontier ==>
      (ExpandUpTo(g, t, frontier, b, it, id + 1)
       == ExpandFrom(g, ExpandUpTo(g, t, frontier, b, it, id).0, ExpandUpTo(g, t, frontier, b, it, id).1, b, it, id, frontier[id]))
    ensures id !in frontier ==> ExpandUpTo(g, t, frontier, b, it, id + 1) == ExpandUpTo(g, t, frontier, b, it, id)
  {
  }

  /** The frontier loop of one boundary (icworker.py:467-531): take a
      snapshot of the frontier and expand its rows in ascending feature id,
      collecting the segments found. */
  method ExpandAll(g: Engine, vs: VertexLayer, b: Boundary, iteration: nat) returns (newlines: set<Segment>)
    requires vs.Valid()
    modifies vs
    ensures vs.Valid()
    ensures (vs.Contents(), newlines)
         == ExpandUpTo(g, old(vs.Contents()), Frontier(old(vs.rows), iteration), b, iteration, |old(vs.log)|)
  {
    ghost var t0 := vs.Contents();
    newlines := {};
    var frontier := vs.FrontierRows(iteration);
    var n := vs.nextId;
    var id := 0;
    while id < n
      invariant id <= n && vs.Valid()
      invariant (vs.Contents(), newlines) == ExpandUpTo(g, t0, frontier, b, iteration, id)
    {
      ExpandNext(g, t0, frontier, b, iteration, id);
      if id in frontier {
        newlines := ExpandVertex(g, vs, b, iteration, id, frontier[id], newlines);
      }
      id := id + 1;
    }
  }

  /** One boundary of an expansion pass (icworker.py:451-546): look up the
      boundary's entry, expand the frontier against the boundary, then
      commit the segments found. */
  method ExpandBoundary(g: Engine, vs: VertexLayer, ls: LinesLayer, b: Boundary, iteration: nat)
    requires vs.Valid() && NonEmptyEntries(ls.entries)
    modifies vs, ls
    ensures vs.Valid() && NonEmptyEntries(ls.entries)
    ensures State(vs.Contents(), ls.entries) == ExpandStep(g, State(old(vs.Contents()), old(ls.entries)), b, iteration)
  {
    var existing := ls.Existing(b.id);
    var newlines := ExpandAll(g, vs, b, iteration);
    Commit(ls, b.id, existing, newlines);
  }

  /** One expansion pass, boundary by boundary (icworker.py:451-546). */
  method ExpansionPass(g: Engine, vs: VertexLayer, ls: LinesLayer, bs: seq<Boundary>, iteration: nat)
    requires vs.Valid() && NonEmptyEntries(ls.entries)
    modifies vs, ls
    ensures vs.Valid() && NonEmptyEntries(ls.entries)
    ensures State(vs.Contents(), ls.entries) == PassOver(g, State(old(vs.Contents()), old(ls.entries)), bs, iteration)
  {
    ghost var s0 := State(vs.Contents(), ls.entries);
    var i := 0;
    while i < |bs|
      invariant i <= |bs| && vs.Valid() && NonEmptyEntries(ls.entries)
      invariant State(vs.Contents(), ls.entries) == PassOver(g, s0, bs[..i], iteration)
    {
      assert bs[..i + 1][..i] == bs[..i];
      ExpandBoundary(g, vs, ls, bs[i], iteration);
      i := i + 1;
    }
    assert bs[..|bs|] == bs;
  }

  /** The relaxation (icworker.py:322-553): build the two layers, seed them
      from the origin in iteration 1, then run expansion passes while some
      vertex of the previous iteration has budget above 0.001, at most
      `fuel` of them. */
  method Relax(g: Engine, origin: Point, walking: real, bs: seq<Boundary>, fuel: nat)
    returns (vs: VertexLayer, ls: LinesLayer, converged: bool, iteration: nat)
    requires DistinctIds(bs)
    ensures fresh(vs) && fresh(ls) && vs.Valid()
    ensures (State(vs.Contents(), ls.entries), iteration, converged) == Relaxed(g, origin, walking, bs, fuel)
    ensures Inv(g, origin, walking, bs, State(vs.Contents(), ls.entries))
    // the loop stopped because no vertex of the last iteration can still spend budget
    ensures converged <==> forall id :: id in vs.rows ==> !(vs.rows[id].iteration + 1 == iteration && vs.rows[id].budget > MinBudget)
    ensures 2 <= iteration <= fuel + 2 && (!converged ==> iteration == fuel + 2)
  {
    vs := new VertexLayer();
    ls := new LinesLayer();
    SeedPass(g, vs, ls, origin, walking, bs);
    iteration := 2;
    ghost var s0 := State(vs.Contents(), ls.entries);
    SeedAllInv(g, origin, walking, bs, |bs|);
    assert bs[..|bs|] == bs;
    var more := vs.HasFrontier(iteration);
    var left := fuel;
    while more && left > 0
      invariant vs.Valid() && NonEmptyEntries(ls.entries)
      invariant iteration + left == fuel + 2
      invariant more == FrontierNonEmpty(vs.rows, iteration)
      invariant Drive(g, State(vs.Contents(), ls.entries), bs, iteration, left) == Drive(g, s0, bs, 2, fuel)
    {
      ghost var cur := State(vs.Contents(), ls.entries);
      DriveStep(g, cur, bs, iteration, left);
      ExpansionPass(g, vs, ls, bs, iteration);
      iteration := iteration + 1;
      more := vs.HasFrontier(iteration);
      left := left - 1;
    }
    DriveStep(g, State(vs.Contents(), ls.entries), bs, iteration, left);
    converged := !more;
    RelaxedInv(g, origin, walking, bs, fuel);
  }
}
