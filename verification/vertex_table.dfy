/** The frontier-vertex layer (`IC_vertices`, icworker.py:342-361) and the
    dedup-and-replace rule every visible candidate goes through
    (icworker.py:400-417 and 496-514). */
module VertexTable {
  import opened Geometry

  datatype Option<T> = None | Some(value: T)

  /** Frontier vertices at or below this remaining budget are not expanded. */
  const MinBudget: real := 0.001

  /** One row of the layer: its point, `distance` (the remaining walking
      budget), `iteration`, `prev_id` (unset for seeds) and `boundary_id`. */
  datatype Vertex = Vertex(pos: Point, budget: real, iteration: nat, prevId: Option<nat>, boundaryId: int)

  /** The live rows by feature id, and every row ever added, indexed by the
      feature id it received. */
  datatype Table = Table(rows: map<nat, Vertex>, log: seq<Vertex>)
  {
    /** Live rows are rows that were added and have not changed since. */
    predicate Valid()
    {
      forall id :: id in rows ==> id < |log| && rows[id] == log[id]
    }
  }

  /** At most one live vertex per location: no live vertex lies in the
      square of another. */
  predicate Separated(rows: map<nat, Vertex>)
  {
    forall i, j :: i in rows && j in rows && i != j ==> !InBox(rows[i].pos, rows[j].pos)
  }

  /** Some live vertex in the candidate's square has at least its budget. */
  predicate Blocked(rows: map<nat, Vertex>, c: Vertex)
  {
    exists id :: id in rows && InBox(rows[id].pos, c.pos) && rows[id].budget >= c.budget
  }

  /** The rows left once the candidate has deleted the weaker vertices in its square. */
  function Survivors(rows: map<nat, Vertex>, c: Vertex): map<nat, Vertex>
  {
    map id | id in rows && !(InBox(rows[id].pos, c.pos) && rows[id].budget < c.budget) :: rows[id]
  }

  /** One dedup-and-replace step for a visible candidate `c`. */
  function Dedup(t: Table, c: Vertex): (r: Table)
    requires t.Valid()
    ensures r.Valid()
    // every vertex in the square with a strictly smaller budget is deleted,
    // whether or not the candidate is written
    ensures forall id :: id in t.rows && InBox(t.rows[id].pos, c.pos) && t.rows[id].budget < c.budget ==> id !in r.rows
    // the candidate is written, under the next feature id, or nothing is added
    ensures r.log == t.log || r.log == t.log + [c]
    ensures r.log == t.log + [c] ==> |t.log| in r.rows
    // written iff no vertex in the square has a budget >= its own (ties keep the old vertex)
    ensures r.log == t.log + [c] <==> forall id :: id in t.rows && InBox(t.rows[id].pos, c.pos) ==> t.rows[id].budget < c.budget
    // afterwards every live vertex in the square has at least the candidate's budget
    ensures forall id :: id in r.rows && InBox(r.rows[id].pos, c.pos) ==> r.rows[id].budget >= c.budget
    // vertices outside the square are untouched
    ensures forall id :: id in t.rows && !InBox(t.rows[id].pos, c.pos) ==> id in r.rows && r.rows[id] == t.rows[id]
    // surviving vertices keep their rows; the only new row is the candidate
    ensures forall id :: id in r.rows && id in t.rows ==> r.rows[id] == t.rows[id]
    ensures forall id :: id in r.rows && id !in t.rows ==> id == |t.log| && r.rows[id] == c
  {
    var s := Survivors(t.rows, c);
    if Blocked(t.rows, c) then Table(s, t.log) else Table(s[|t.log| := c], t.log + [c])
  }

  /** The step keeps at most one live vertex per location. */
  lemma DedupKeepsSeparated(t: Table, c: Vertex)
    requires t.Valid() && Separated(t.rows)
    ensures Separated(Dedup(t, c).rows)
  {
    var r := Dedup(t, c);
    if r.log != t.log {
      forall i, j | i in r.rows && j in r.rows && i != j
        ensures !InBox(r.rows[i].pos, r.rows[j].pos)
      {
        if i == |t.log| {
          InBoxSymmetric(r.rows[i].pos, r.rows[j].pos);
        }
      }
    }
  }

  /** The rows with `iteration` one below `it` and budget above 0.001. */
  function Frontier(rows: map<nat, Vertex>, it: nat): (f: map<nat, Vertex>)
    ensures forall id :: id in f <==> id in rows && rows[id].iteration + 1 == it && rows[id].budget > MinBudget
    ensures forall id :: id in f ==> f[id] == rows[id]
  {
    map id | id in rows && rows[id].iteration + 1 == it && rows[id].budget > MinBudget :: rows[id]
  }

  /** Some live row belongs to iteration it - 1 and has budget above 0.001:
      the test of the relaxation's `while` loop. */
  predicate FrontierNonEmpty(rows: map<nat, Vertex>, it: nat)
  {
    exists id :: id in rows && rows[id].iteration + 1 == it && rows[id].budget > MinBudget
  }

  /** The loop test agrees with the frontier snapshot: it holds exactly when
      the snapshot has a row. */
  lemma FrontierEmpty(rows: map<nat, Vertex>, it: nat)
    ensures Frontier(rows, it) == map[] <==> !FrontierNonEmpty(rows, it)
  {
    var f := Frontier(rows, it);
    if f != map[] {
      var id :| id in f;
    }
  }

  /** The in-memory point layer, updated in place through its data provider. */
  class VertexLayer {
    var rows: map<nat, Vertex>
    var nextId: nat
    ghost var log: seq<Vertex>

    ghost predicate Valid()
      reads this
    {
      |log| == nextId && Table(rows, log).Valid()
    }

    ghost function Contents(): Table
      reads this
    {
      Table(rows, log)
    }

    constructor ()
      ensures Valid() && rows == map[] && log == []
    {
      rows, nextId, log := map[], 0, [];
    }

    /** `addFeatures`: the row is stored under the next free feature id. */
    method Add(v: Vertex) returns (id: nat)
      requires Valid()
      modifies this
      ensures Valid()
      ensures id == old(nextId) && rows == old(rows)[id := v] && log == old(log) + [v]
    {
      id := nextId;
      rows := rows[id := v];
      nextId := nextId + 1;
      log := log + [v];
    }

    /** `deleteFeatures` of one feature id. */
    method Delete(id: nat)
      requires Valid()
      modifies this
      ensures Valid()
      ensures rows == old(rows) - {id} && nextId == old(nextId) && log == old(log)
    {
      rows := rows - {id};
    }

    /** `getFeatures` with a filter rectangle: a snapshot of the rows whose
        point lies in the square around `p`. */
    method RowsInBox(p: Point) returns (snap: map<nat, Vertex>)
      ensures forall id :: id in snap <==> id in rows && InBox(rows[id].pos, p)
      ensures forall id :: id in snap ==> snap[id] == rows[id]
    {
      snap := map id | id in rows && InBox(rows[id].pos, p) :: rows[id];
    }

    /** `getFeatures('"iteration" = it-1 AND "distance" > 0.001')`: a snapshot. */
    method FrontierRows(it: nat) returns (snap: map<nat, Vertex>)
      ensures snap == Frontier(rows, it)
    {
      snap := Frontier(rows, it);
    }

    /** `any(getFeatures(...))` over the same query. */
    method HasFrontier(it: nat) returns (any: bool)
      ensures any <==> FrontierNonEmpty(rows, it)
    {
      var snap := FrontierRows(it);
      any := snap != map[];
      FrontierEmpty(rows, it);
    }
  }

  /** The loop of icworker.py:400-417 (and 496-514): scan a snapshot of the
      candidate's square, delete every vertex with a strictly smaller budget,
      clear `writepoint` on any other, then write the candidate if the flag
      survived. */
  method DedupInsert(layer: VertexLayer, c: Vertex) returns (writepoint: bool)
    requires layer.Valid()
    modifies layer
    ensures layer.Valid()
    ensures layer.Contents() == Dedup(old(layer.Contents()), c)
    ensures writepoint <==> layer.log == old(layer.log) + [c]
  {
    ghost var t0 := layer.Contents();
    var snap := layer.RowsInBox(c.pos);
    var pending := snap.Keys;
    writepoint := true;
    while pending != {}
      invariant layer.Valid()
      invariant pending <= snap.Keys
      invariant layer.log == t0.log && layer.nextId == |t0.log|
      invariant forall id :: id in layer.rows <==> id in t0.rows && !(id in snap && id !in pending && snap[id].budget < c.budget)
      invariant forall id :: id in layer.rows ==> layer.rows[id] == t0.rows[id]
      invariant writepoint <==> forall id :: id in snap && id !in pending ==> snap[id].budget < c.budget
      decreases pending
    {
      var id :| id in pending;
      if c.budget > snap[id].budget {
        layer.Delete(id);
      } else {
        writepoint := false;
      }
      pending := pending - {id};
    }
    assert writepoint <==> !Blocked(t0.rows, c);
    assert layer.rows == Survivors(t0.rows, c);
    if writepoint {
      var _ := layer.Add(c);
    }
  }
}
