/** The walkable-geometry layer (`lines`, icworker.py:328-338): at most one
    entry per `boundary_id`, holding the thickened segments whose union is
    the walkable part found so far on that boundary curve. */
module Walkable {
  import opened Geometry

  /** Entries by `boundary_id`; a geometry is the set of segments it is the union of. */
  type Lines = map<int, set<Segment>>

  /** Every entry holds at least one segment: entries are only ever written
      from a non-empty set of new segments. */
  predicate NonEmptyEntries(lines: Lines)
  {
    forall k :: k in lines ==> lines[k] != {}
  }

  /** `b` keeps every entry of `a`, each holding at least the same segments. */
  predicate Grows(a: Lines, b: Lines)
  {
    forall k :: k in a ==> k in b && a[k] <= b[k]
  }

  lemma GrowsTransitive(a: Lines, b: Lines, c: Lines)
    requires Grows(a, b) && Grows(b, c)
    ensures Grows(a, c)
  {
  }

  /** The end-of-boundary update of an expansion pass (icworker.py:533-546). */
  function Merge(lines: Lines, bid: int, found: set<Segment>): (r: Lines)
    // nothing found: the layer is unchanged
    ensures found == {} ==> r == lines
    // something found and no entry yet: one entry keyed by the boundary is created
    ensures found != {} && bid !in lines ==> bid in r && r[bid] == found
    // something found and an entry exists: it becomes the union of new and old
    ensures found != {} && bid in lines ==> bid in r && r[bid] == found + lines[bid]
    // no other boundary's entry changes, and no entry is removed or shrinks
    ensures r.Keys == lines.Keys + (if found == {} then {} else {bid})
    ensures forall k :: k in lines && k != bid ==> r[k] == lines[k]
    ensures forall k :: k in lines ==> lines[k] <= r[k]
    ensures NonEmptyEntries(lines) ==> NonEmptyEntries(r)
  {
    if found == {} then lines
    else if bid in lines then lines[bid := found + lines[bid]]
    else lines[bid := found]
  }

  /** The in-memory polygon layer, updated in place. */
  class LinesLayer {
    var entries: Lines

    constructor ()
      ensures entries == map[]
    {
      entries := map[];
    }

    /** `addFeatures` of a feature whose `boundary_id` has no entry yet. */
    method Add(bid: int, geom: set<Segment>)
      requires bid !in entries
      modifies this
      ensures entries == old(entries)[bid := geom]
    {
      entries := entries[bid := geom];
    }

    /** `changeGeometry` of the entry of `bid`. */
    method Change(bid: int, geom: set<Segment>)
      requires bid in entries
      modifies this
      ensures entries == old(entries)[bid := geom]
    {
      entries := entries[bid := geom];
    }

    /** `getFeatures('"boundary_id"=bid')`: the entry's geometry, or the
        empty geometry when there is none. */
    method Existing(bid: int) returns (geom: set<Segment>)
      ensures bid in entries ==> geom == entries[bid]
      ensures bid !in entries ==> geom == {}
    {
      geom := if bid in entries then entries[bid] else {};
    }
  }

  /** icworker.py:533-546: union the pass's segments with the existing entry
      and write the result back, changing the entry when the existing
      geometry is non-empty and adding one otherwise. */
  method Commit(layer: LinesLayer, bid: int, existing: set<Segment>, newlines: set<Segment>)
    requires NonEmptyEntries(layer.entries)
    requires existing == if bid in layer.entries then layer.entries[bid] else {}
    modifies layer
    ensures layer.entries == Merge(old(layer.entries), bid, newlines)
    ensures NonEmptyEntries(layer.entries)
  {
    var walkable := newlines + existing;
    if newlines != {} {
      if existing != {} {
        layer.Change(bid, walkable);
      } else {
        assert walkable == newlines;
        layer.Add(bid, walkable);
      }
    }
  }
}
