/** Pairwise segment enumeration (icworker.py:422-433 and 519-531): every
    unordered pair of the anchor and the visible points is joined by a
    straight segment, and the segments lying on the boundary are kept. */
module Pairs {
  import opened Geometry

  /** Row j of the nested loops up to column k: the pairs (j, lo), (j, lo + 1), ..., (j, k - 1). */
  function Row(j: nat, lo: nat, k: nat): seq<(nat, nat)>
    decreases k
  {
    if k <= lo then [] else Row(j, lo, k - 1) + [(j, k - 1)]
  }

  lemma {:induction false} RowShape(j: nat, lo: nat, k: nat)
    ensures |Row(j, lo, k)| == if lo <= k then k - lo else 0
    ensures forall i :: 0 <= i < |Row(j, lo, k)| ==> Row(j, lo, k)[i] == (j, lo + i)
    decreases k
  {
    if lo < k {
      RowShape(j, lo, k - 1);
    }
  }

  /** The pairs from row j on, in the order of the nested loops. */
  function PairsFrom(j: nat, n: nat): seq<(nat, nat)>
    decreases n - j
  {
    if j >= n then [] else Row(j, j + 1, n) + PairsFrom(j + 1, n)
  }

  /** The index pairs the nested loops try over a list of n points. */
  function Pairs(n: nat): seq<(nat, nat)>
  {
    PairsFrom(0, n)
  }

  lemma {:induction false} PairsFromMembers(j: nat, n: nat)
    ensures forall a: nat, b: nat :: (a, b) in PairsFrom(j, n) <==> j <= a < b < n
    decreases n - j
  {
    if j < n {
      PairsFromMembers(j + 1, n);
      RowShape(j, j + 1, n);
      var row: seq<(nat, nat)>, rest: seq<(nat, nat)> := Row(j, j + 1, n), PairsFrom(j + 1, n);
      assert PairsFrom(j, n) == row + rest;
      forall a: nat, b: nat ensures (a, b) in row + rest <==> j <= a < b < n {
        if j <= a < b < n && a == j {
          assert row[b - j - 1] == (a, b);
        }
      }
    }
  }

  lemma {:induction false} PairsFromDistinct(j: nat, n: nat)
    ensures forall x, y :: 0 <= x < y < |PairsFrom(j, n)| ==> PairsFrom(j, n)[x] != PairsFrom(j, n)[y]
    decreases n - j
  {
    if j < n {
      PairsFromDistinct(j + 1, n);
      PairsFromMembers(j + 1, n);
      RowShape(j, j + 1, n);
      var row: seq<(nat, nat)>, rest: seq<(nat, nat)> := Row(j, j + 1, n), PairsFrom(j + 1, n);
      assert PairsFrom(j, n) == row + rest;
      forall x, y | 0 <= x < y < |row + rest| ensures (row + rest)[x] != (row + rest)[y] {
        if y >= |row| && x < |row| {
          var p := rest[y - |row|];
          assert p in rest;
          assert p.0 > j;
        }
      }
    }
  }

  lemma {:induction false} PairsFromCount(j: nat, n: nat)
    requires j <= n
    ensures 2 * |PairsFrom(j, n)| == (n - j) * (n - j - 1)
    decreases n - j
  {
    if j < n {
      PairsFromCount(j + 1, n);
      RowShape(j, j + 1, n);
      var m := n - j;
      calc {
        2 * |PairsFrom(j, n)|;
        2 * (|Row(j, j + 1, n)| + |PairsFrom(j + 1, n)|);
        2 * (m - 1) + (m - 1) * (m - 2);
        (m - 1) * (2 + m - 2);
        m * (m - 1);
      }
    }
  }

  /** Each unordered pair of distinct indices below n is tried exactly once,
      with the smaller index first; so the anchor, at index 0, meets every
      visible point. */
  lemma PairsExactlyOnce(n: nat)
    ensures forall a: nat, b: nat :: (a, b) in Pairs(n) <==> a < b < n
    ensures forall x, y :: 0 <= x < y < |Pairs(n)| ==> Pairs(n)[x] != Pairs(n)[y]
    ensures 2 * |Pairs(n)| == n * (n - 1)
  {
    PairsFromMembers(0, n);
    PairsFromDistinct(0, n);
    PairsFromCount(0, n);
  }

  predicate InRange(ps: seq<(nat, nat)>, n: nat)
  {
    forall i :: 0 <= i < |ps| ==> ps[i].0 < n && ps[i].1 < n
  }

  /** The segment joining the two points a pair of indices names. */
  function Join(pts: seq<Point>, p: (nat, nat)): Segment
    requires p.0 < |pts| && p.1 < |pts|
  {
    Segment(pts[p.0], pts[p.1])
  }

  /** The segments kept while trying the pairs `ps` in order; a pair that
      does not name two points of the list contributes nothing. */
  function KeptAlong(g: Engine, b: Boundary, pts: seq<Point>, ps: seq<(nat, nat)>): set<Segment>
    decreases |ps|
  {
    if ps == [] then {}
    else
      var p := ps[|ps| - 1];
      var rest := KeptAlong(g, b, pts, ps[..|ps| - 1]);
      if p.0 < |pts| && p.1 < |pts| && g.within(b, Join(pts, p)) then rest + {Join(pts, p)} else rest
  }

  /** A segment is kept along `ps` iff it joins the points of some pair of
      `ps` and lies within the buffered boundary. */
  lemma {:induction false} KeptAlongMembers(g: Engine, b: Boundary, pts: seq<Point>, ps: seq<(nat, nat)>)
    requires InRange(ps, |pts|)
    ensures forall s :: s in KeptAlong(g, b, pts, ps) <==> exists i :: 0 <= i < |ps| && s == Join(pts, ps[i]) && g.within(b, s)
    decreases |ps|
  {
    if ps != [] {
      var front := ps[..|ps| - 1];
      assert forall i :: 0 <= i < |front| ==> front[i] == ps[i];
      KeptAlongMembers(g, b, pts, front);
    }
  }

  lemma PairsInRange(n: nat)
    ensures InRange(Pairs(n), n)
  {
    PairsExactlyOnce(n);
    var ps := Pairs(n);
    forall i | 0 <= i < |ps| ensures ps[i].0 < n && ps[i].1 < n {
      assert (ps[i].0, ps[i].1) in ps;
    }
  }

  /** Every segment kept over all pairs joins two points, smaller index first. */
  lemma KeptAlongPairsSound(g: Engine, b: Boundary, pts: seq<Point>, s: Segment)
    requires s in KeptAlong(g, b, pts, Pairs(|pts|))
    ensures exists j, k :: 0 <= j < k < |pts| && s == Segment(pts[j], pts[k]) && g.within(b, s)
  {
    PairsInRange(|pts|);
    PairsExactlyOnce(|pts|);
    var ps := Pairs(|pts|);
    KeptAlongMembers(g, b, pts, ps);
    var i :| 0 <= i < |ps| && s == Join(pts, ps[i]) && g.within(b, s);
    assert (ps[i].0, ps[i].1) in ps;
  }

  /** Every segment joining two points within the buffered boundary is kept. */
  lemma KeptAlongPairsComplete(g: Engine, b: Boundary, pts: seq<Point>, j: nat, k: nat)
    requires j < k < |pts| && g.within(b, Segment(pts[j], pts[k]))
    ensures Segment(pts[j], pts[k]) in KeptAlong(g, b, pts, Pairs(|pts|))
  {
    PairsInRange(|pts|);
    PairsExactlyOnce(|pts|);
    var ps := Pairs(|pts|);
    KeptAlongMembers(g, b, pts, ps);
    assert (j, k) in ps;
    var i :| 0 <= i < |ps| && ps[i] == (j, k);
    assert Segment(pts[j], pts[k]) == Join(pts, ps[i]);
  }

  lemma KeptAlongPairs(g: Engine, b: Boundary, pts: seq<Point>)
    ensures forall s :: s in KeptAlong(g, b, pts, Pairs(|pts|)) <==>
      exists j, k :: 0 <= j < k < |pts| && s == Segment(pts[j], pts[k]) && g.within(b, s)
  {
    PairsInRange(|pts|);
    var r := KeptAlong(g, b, pts, Pairs(|pts|));
    forall s | s in r ensures exists j, k :: 0 <= j < k < |pts| && s == Segment(pts[j], pts[k]) && g.within(b, s) {
      KeptAlongPairsSound(g, b, pts, s);
    }
    forall s | exists j, k :: 0 <= j < k < |pts| && s == Segment(pts[j], pts[k]) && g.within(b, s) ensures s in r {
      var j: nat, k: nat :| j < k < |pts| && s == Segment(pts[j], pts[k]) && g.within(b, s);
      KeptAlongPairsComplete(g, b, pts, j, k);
    }
  }

  /** The segments kept by the enumeration: exactly those joining two of the
      points (by index, smaller first) that lie within the buffered boundary. */
  function KeptPairs(g: Engine, b: Boundary, pts: seq<Point>): (r: set<Segment>)
    ensures forall s :: s in r <==> exists j, k :: 0 <= j < k < |pts| && s == Segment(pts[j], pts[k]) && g.within(b, s)
  {
    KeptAlongPairs(g, b, pts);
    KeptAlong(g, b, pts, Pairs(|pts|))
  }

  /** Trying pair (j, k) extends the row tried so far by that pair. */
  lemma RowNext(tried: seq<(nat, nat)>, j: nat, lo: nat, k: nat)
    requires lo <= k
    ensures tried + Row(j, lo, k + 1) == (tried + Row(j, lo, k)) + [(j, k)]
  {
    assert Row(j, lo, k + 1) == Row(j, lo, k) + [(j, k)];
  }

  /** Trying one more pair keeps its segment iff it lies within the buffered boundary. */
  lemma KeptAlongNext(g: Engine, b: Boundary, pts: seq<Point>, tried: seq<(nat, nat)>, j: nat, k: nat)
    requires j < |pts| && k < |pts|
    ensures KeptAlong(g, b, pts, tried + [(j, k)])
         == KeptAlong(g, b, pts, tried) + (if g.within(b, Segment(pts[j], pts[k])) then {Segment(pts[j], pts[k])} else {})
  {
    var ps := tried + [(j, k)];
    assert ps[..|ps| - 1] == tried;
  }

  /** The inner loop of icworker.py:423-433 (and 520-531): pair point j with
      every later point. */
  method PairRow(g: Engine, b: Boundary, pts: seq<Point>, j: nat, kept: set<Segment>, ghost tried: seq<(nat, nat)>)
    returns (kept': set<Segment>, ghost tried': seq<(nat, nat)>)
    requires j < |pts| && kept == KeptAlong(g, b, pts, tried)
    ensures tried' == tried + Row(j, j + 1, |pts|)
    ensures kept' == KeptAlong(g, b, pts, tried')
  {
    var n := |pts|;
    kept', tried' := kept, tried;
    var k := j + 1;
    while k < n
      invariant j + 1 <= k <= n
      invariant tried' == tried + Row(j, j + 1, k)
      invariant kept' == KeptAlong(g, b, pts, tried')
    {
      KeptAlongNext(g, b, pts, tried', j, k);
      RowNext(tried, j, j + 1, k);
      tried' := tried' + [(j, k)];
      var line := Segment(pts[j], pts[k]);
      if g.within(b, line) {
        kept' := kept' + {line};
      }
      k := k + 1;
    }
  }

  /** Finishing row j moves it from the rows still to try to those tried. */
  lemma PairsNext(tried: seq<(nat, nat)>, j: nat, n: nat)
    requires j < n
    ensures tried + PairsFrom(j, n) == (tried + Row(j, j + 1, n)) + PairsFrom(j + 1, n)
  {
    assert PairsFrom(j, n) == Row(j, j + 1, n) + PairsFrom(j + 1, n);
  }

  /** The nested loops of icworker.py:422-433 (and 519-531): try each pair
      in order and keep the segments within the buffered boundary. */
  method PairwiseSegments(g: Engine, b: Boundary, pts: seq<Point>) returns (kept: set<Segment>, ghost tried: seq<(nat, nat)>)
    ensures tried == Pairs(|pts|)
    ensures kept == KeptPairs(g, b, pts)
  {
    var n := |pts|;
    kept, tried := {}, [];
    var j := 0;
    while j < n
      invariant j <= n
      invariant tried + PairsFrom(j, n) == Pairs(n)
      invariant kept == KeptAlong(g, b, pts, tried)
    {
      PairsNext(tried, j, n);
      kept, tried := PairRow(g, b, pts, j, kept, tried);
      j := j + 1;
    }
    assert tried == Pairs(n);
  }
}
