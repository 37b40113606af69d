# Isochrone relaxation of ICWorker.run

This project models the heart of the isochrone worker in `icworker.py`: the visibility-limited wavefront relaxation. It spreads a walking budget from a starting point along boundary curves (the street edges left after the blocks are dissolved and clipped).

The relaxation keeps two in-memory layers:

- **`IC_vertices`**, the vertex table. Each row holds a point, its remaining budget (`distance`), the `iteration` that found it, its parent's feature id (`prev_id`) and the `boundary_id` of the curve it lies on.
- **`lines`**, the walkable-geometry table. It holds one entry per boundary, the union of the thickened segments found walkable on that curve.

**Seed pass (iteration 1).** Every vertex of every boundary is tried from the origin with the whole budget. A vertex is a candidate when the hop to it does not cross the slightly eroded obstacles. Each candidate goes through a dedup-and-replace step:

- every vertex within the 0.005 square around the candidate with a strictly smaller budget is deleted;
- the candidate is written only if no vertex in that square has at least its budget.

The origin and the visible vertices are then joined pairwise. The segments lying within the boundary buffered by 0.1 become that boundary's entry.

**Expansion passes (iterations 2, 3, ...).** While some vertex of the previous iteration has budget above 0.001, each such frontier vertex is expanded against every boundary the disk of its budget meets, in the same way. The segments found are merged into the boundary's entry.

**Modules:**

- `Geometry`: points, segments, boundaries, and the geometry engine as caller-supplied predicates.
- `VertexTable`: the vertex layer as a class, the dedup step as a function, and the in-place loop proved against it.
- `Walkable`: the lines layer as a class, and its merge rule.
- `Pairs`: the pairwise segment enumeration.
- `Chain`: the `prev_id` chain, and how budgets are spent along it.
- `Relaxation`: the passes and the driver as functions of the two layers.
- `Invariants`: what every pass preserves.
- `Worker`: the imperative relaxation. It mutates the two layers and is proved to compute exactly the state described in `Relaxation`.

## Model

| member | source | states |
|---|---|---|
| Geometry.Flatten | icworker.py:387-388 | the candidate points are exactly the vertices of the boundary's parts, in the order the part and vertex loops visit them |
| VertexTable.Dedup | icworker.py:400-417 | every vertex in the candidate's square with a strictly smaller budget is deleted. The candidate is written, under the next feature id, iff every vertex in the square has a smaller budget (ties keep the old vertex). Afterwards every live vertex in the square has at least the candidate's budget. Vertices outside the square and surviving rows are untouched |
| VertexTable.DedupKeepsSeparated | icworker.py:400-417 | the dedup step keeps at most one live vertex per 0.005 square |
| VertexTable.DedupInsert | icworker.py:400-417 | the in-place loop over the square's snapshot leaves the layer in exactly the state `Dedup` describes; `writepoint` is true iff a row was added |
| VertexTable.Frontier | icworker.py:450 | the frontier holds exactly the live rows of iteration it - 1 with budget above 0.001 |
| VertexTable.FrontierEmpty | icworker.py:450 | the loop test and the frontier snapshot agree: the snapshot is empty iff no live row belongs to iteration it - 1 with budget above 0.001 |
| VertexTable.VertexLayer.Add | icworker.py:416 | a row is stored under the next free feature id; nothing else changes |
| VertexTable.VertexLayer.Delete | icworker.py:406 | one feature id is removed; nothing else changes |
| VertexTable.VertexLayer.RowsInBox | icworker.py:403-404 | the rectangle query returns exactly the live rows whose point lies in the closed square |
| VertexTable.VertexLayer.FrontierRows | icworker.py:467-469 | the frontier query returns a snapshot equal to `Frontier` |
| VertexTable.VertexLayer.HasFrontier | icworker.py:450 | `any(...)` is true iff some live row belongs to iteration it - 1 with budget above 0.001 |
| Walkable.GrowsTransitive | icworker.py:533-546 | growth of the walkable table composes across updates |
| Walkable.Merge | icworker.py:533-546 | if nothing was found the table is unchanged. Otherwise the boundary's entry is created from the new segments, or becomes the union of new and old. No other entry changes, no entry shrinks, and entries stay non-empty |
| Walkable.LinesLayer.Add | icworker.py:542-546 | a new entry is added for a boundary that has none |
| Walkable.LinesLayer.Change | icworker.py:536-540 | the boundary's existing entry is replaced |
| Walkable.LinesLayer.Existing | icworker.py:459-465 | returns the boundary's entry, or the empty geometry when there is none |
| Walkable.Commit | icworker.py:533-546 | the change-or-add branch on the existing geometry leaves the table equal to `Merge` |
| Pairs.RowShape | icworker.py:520 | row j up to column k holds the pairs (j, lo), (j, lo + 1), ..., (j, k - 1), in that order |
| Pairs.RowNext | icworker.py:520 | trying pair (j, k) extends the row tried so far by exactly that pair |
| Pairs.PairsFromMembers | icworker.py:519-520 | from row j on, the loops try exactly the pairs j <= a < b < n |
| Pairs.PairsFromDistinct | icworker.py:519-520 | no pair is tried twice |
| Pairs.PairsFromCount | icworker.py:519-520 | from row j on, (n - j)(n - j - 1)/2 pairs are tried |
| Pairs.PairsExactlyOnce | icworker.py:422-423 | each unordered pair of distinct indices is tried exactly once, smaller index first: n(n - 1)/2 pairs |
| Pairs.PairsInRange | icworker.py:422-423 | every pair tried names two points of the list |
| Pairs.KeptAlongMembers | icworker.py:432-433 | the segments kept along a sequence of pairs are exactly the joins of those pairs that lie within the buffered boundary |
| Pairs.KeptAlongNext | icworker.py:529-531 | trying one more pair adds its segment iff the segment lies within the buffered boundary |
| Pairs.KeptAlongPairsSound | icworker.py:422-433 | every kept segment joins two listed points, smaller index first, and lies within the buffered boundary |
| Pairs.KeptAlongPairsComplete | icworker.py:422-433 | every segment joining two listed points within the buffered boundary is kept |
| Pairs.KeptAlongPairs | icworker.py:422-433 | over all pairs, a segment is kept iff it joins points j < k and lies within the buffered boundary |
| Pairs.KeptPairs | icworker.py:422-433 | the kept segments are exactly the joins of two listed points (smaller index first) that lie within the buffered boundary |
| Pairs.PairsNext | icworker.py:519 | finishing row j moves it from the rows still to try to those tried |
| Pairs.PairRow | icworker.py:520-531 | the inner loop tries exactly row j's pairs, in order, and keeps the segments `KeptAlong` describes |
| Pairs.PairwiseSegments | icworker.py:519-531 | the nested loops try the pairs in the order `Pairs` lists them, and keep exactly `KeptPairs` |
| Chain.BudgetIsWalkingLessPath | icworker.py:399 | every row's budget is the walking budget less the total length of its hop chain back to the origin |
| Chain.IterationCountsHops | icworker.py:414 | every row's iteration is the number of hops on its chain |
| Chain.PathLengthNonNegative | icworker.py:495 | with non-negative lengths, a chain's total length is non-negative |
| Chain.BudgetNeverGrows | icworker.py:495 | with non-negative lengths, no row has more than the walking budget, nor more than its parent |
| Chain.ParentWasFrontier | icworker.py:467-469 | a row's parent was written earlier, had budget above 0.001, and belongs to the iteration just before |
| Chain.ChainedPrefix | icworker.py:416 | rows already linked stay linked as the layer grows |
| Relaxation.Start | icworker.py:328-361 | both layers start empty |
| Relaxation.Candidate | icworker.py:507-513 | the candidate row carries the point, the iteration, the parent and the boundary id. Its budget is the anchor's less the hop length, so with non-negative lengths it never exceeds the anchor's |
| Relaxation.VisibleFrom | icworker.py:419 | a point is paired iff it is a candidate whose hop does not cross the obstacles; at most all points are |
| Relaxation.ScanTable | icworker.py:387-420 | the table stays valid and its log only grows. Every row written is the candidate row of a visible point of the scan. Separation is preserved |
| Relaxation.BlockedCandidateChangesNothing | icworker.py:398 | a candidate whose hop crosses the obstacles changes neither the table nor the points paired |
| Relaxation.ScanKeepsChained | icworker.py:398-416 | a scan from the origin, or from a frontier row, keeps every written row linked to its source |
| Relaxation.SeedStep | icworker.py:378-442 | new rows are seeds of this boundary, with budget measured from the origin. Only this boundary's entry may be written, non-empty and with segments within its buffer |
| Relaxation.SeedAll | icworker.py:373-442 | the seed pass keeps the table valid and only grows its log |
| Relaxation.ExpandFrom | icworker.py:476-531 | new rows hang off the frontier row, in this iteration, on this boundary, with budget measured from it. Found segments only grow, and the new ones lie within the buffer |
| Relaxation.ExpandUpTo | icworker.py:467-531 | every new row hangs off a snapshot frontier row with a smaller id; every found segment lies within the buffer |
| Relaxation.ExpandStep | icworker.py:451-546 | one boundary of an expansion pass keeps the table valid, only grows its log, and never removes or shrinks a walkable entry |
| Relaxation.PassOver | icworker.py:451-546 | an expansion pass keeps the table valid, only grows its log, and never removes or shrinks a walkable entry |
| Relaxation.Drive | icworker.py:450-553 | the driver stops exactly when no live row of the final iteration - 1 has budget above 0.001, or after `fuel` passes. The counter advances by one per pass. No walkable entry is removed or shrinks |
| Relaxation.DriveFuelIrrelevant | icworker.py:450-553 | a run that converges within `fuel` passes gives the same result under any larger fuel, so the cut-off never changes a run that finishes |
| Relaxation.DriveStep | icworker.py:450 | one driver step runs a pass when the frontier is non-empty and fuel remains; otherwise it stops and reports whether the frontier ran out |
| Relaxation.Relaxed | icworker.py:363-553 | the final table is valid |
| Invariants.SeedStepInv | icworker.py:378-442 | seeding one boundary preserves the invariant and writes only that boundary's entry |
| Invariants.SeedAllInv | icworker.py:373-444 | the seed pass establishes the invariant: a valid, separated, chained table, and non-empty entries of segments on their boundary |
| Invariants.ExpandUpToInv | icworker.py:467-531 | the micro-expansions of one boundary keep the table separated and chained |
| Invariants.ExpandStepInv | icworker.py:451-546 | one boundary of an expansion pass preserves the invariant |
| Invariants.PassOverInv | icworker.py:451-546 | an expansion pass over the first k boundaries preserves the invariant |
| Invariants.PassOverAllInv | icworker.py:451-546 | a full expansion pass preserves the invariant |
| Invariants.DriveInv | icworker.py:450-553 | every state the driver reaches satisfies the invariant |
| Invariants.RelaxedInv | icworker.py:363-553 | the relaxation ends with the invariant holding |
| Invariants.RelaxedBudgets | icworker.py:399 | every final live vertex has at most the walking budget: exactly the walking budget less the length of its hop chain |
| Worker.SeedNext | icworker.py:378 | seeding boundary i continues the seed pass over those before it |
| Worker.IdsNext | icworker.py:295-306 | with ids unique per feature, boundary i's id is new among those before it |
| Worker.ScanNext | icworker.py:393-419 | one more point of a scan: a blocked point changes nothing; a visible one goes through the dedup step and is appended to the points paired |
| Worker.ScanPoint | icworker.py:393-419 | one candidate point is seen iff its hop does not cross the obstacles; if seen, the layer goes through `Dedup`, otherwise it is unchanged |
| Worker.Scan | icworker.py:387-420 | the candidate loop leaves the vertex layer equal to `ScanTable` and returns exactly `VisibleFrom` |
| Worker.SeedBoundary | icworker.py:378-442 | seeding one boundary in place leaves the layers equal to `SeedStep` |
| Worker.SeedPass | icworker.py:373-444 | the seed pass in place leaves the layers equal to `SeedAll` |
| Worker.ExpandVertex | icworker.py:473-531 | one micro-expansion in place leaves the layer and the found segments equal to `ExpandFrom` |
| Worker.ExpandNext | icworker.py:467-469 | frontier row `id` is expanded after those below it, if it is in the snapshot |
| Worker.ExpandAll | icworker.py:467-531 | the frontier loop of one boundary, over a snapshot in ascending feature id, leaves the layer and the found segments equal to `ExpandUpTo` |
| Worker.ExpandBoundary | icworker.py:451-546 | one boundary of an expansion pass in place leaves the layers equal to `ExpandStep` |
| Worker.ExpansionPass | icworker.py:451-546 | one expansion pass in place leaves the layers equal to `PassOver` |
| Worker.Relax | icworker.py:322-553 | the relaxation returns fresh layers equal to `Relaxed`, satisfying the invariant. It converges iff no live row of the final iteration - 1 has budget above 0.001; otherwise it stopped after `fuel` passes |

## Left out

- The QGIS processing pipeline before the relaxation (reprojection, dissolving, buffering, clipping, exploding, the field calculator) is not modelled. Its output enters as the boundary sequence, whose ids are assumed distinct, as `$id` makes them.
- The output stage after the relaxation (fixing geometries, merging, adding layers to the project) is not modelled.
- Concrete planar geometry is not modelled. `crosses`, `length`, `within` of the 0.1 buffer, `intersects` and `intersection` with the budget disk, and the 0.05 erosion of the obstacles are parameters of `Geometry.Engine`. Floating-point rounding is replaced by exact reals.
- Walkable geometry is modelled as the set of segments whose buffered union it is. `unaryUnion` becomes set union, and a geometry's emptiness becomes emptiness of the set. In the model every entry is non-empty (`NonEmptyEntries`), so the `isEmpty` test on an existing entry only tells a missing entry apart.
- Cancellation (`isCanceled`) is left out: it makes `run` return False in the middle of the relaxation and the layers are discarded, so there is no partial result to model.
- Logging, debug output and `updateFields` calls are left out: they do not change the layers.
- Dead values in the source are left out: `writepoints_list`, the `difference` of the seed boundary geometry, `sp_boundary_id`, and `setId` on the memory provider, which assigns its own ids.
- Only one starting point is modelled, as the starting-point layer holds one feature. With several, the seed would add a second entry for the same boundary.
- Feature ids of the vertex layer are numbered from 0 in the model. The memory provider numbers them from 1; only their order and uniqueness matter.
- Relaxation.Drive: the `while` loop carries a `fuel` bound on the number of expansion passes, because its termination depends on the geometry engine. An unconverged run reports that it stopped after `fuel` passes. A converged run does not depend on the bound (`Relaxation.DriveFuelIrrelevant`).
- Walkable.Merge: a segment joining a point to itself (a repeated boundary vertex, or the shared first and last vertex of a ring) is a non-empty member of the segment set. In icworker.py:433 and 531 its flat-capped buffer is an empty polygon. A boundary whose only kept segments are such joins would therefore get an entry whose geometry is empty. The next `isEmpty` test (icworker.py:535) would then add a second `lines` row for that boundary, and from then on the single-entry test (icworker.py:460) would fail. The model never produces an empty entry, so neither `Walkable.Merge` nor `Walkable.Commit` captures this duplication.
- Worker.Relax: see `Relaxation.Drive`. Runs that would need more than `fuel` passes are cut off.
- Strict decrease of budgets along a chain is not proved, since a zero-length hop is possible; only non-increase is (`Chain.BudgetNeverGrows`).
- The box query visits rows in the provider's order. The model visits them in arbitrary order, and the outcome is proved independent of it. The frontier query is a snapshot iterated in ascending feature id.
