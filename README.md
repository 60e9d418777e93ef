# Mesher core of the OpenVDB remesher, in Dafny

This project models the bookkeeping core of the OpenVDB mesher header used by
the remesh modifier (`intern/openvdb/intern/openvdb_mesher.h`):

- `doVolumeToMesh` runs the external volume-to-mesh algorithm and copies its
  point list. A counting pass sizes one quad array and one triangle array.
  A copy pass then flattens the algorithm's list of polygon pools into them,
  pool by pool, each pool's quads and then its triangles, through two running
  cursors. The overload for non-scalar grids raises a `TypeError`.
- `Ray` and `AABBox::intersect` implement the slab test used to pull a feature
  point back into its voxel cell.
- `GenAdaptivityMaskOp` clamps its edge tolerance into [0, 1]. It then turns
  off every on voxel of the adaptivity mask that is not an edge voxel. An
  edge voxel has, among 18 neighbour offsets, an active voxel of the index
  tree with a different index, and the two owning triangles' normals have a
  dot product below the tolerance.
- `TransformOp` and `PrimCpyOp` are range bodies. `TransformOp` writes the
  index-space image of each reference point. `PrimCpyOp` writes each reference
  triangle as a 4-slot record padded with `INVALID_IDX`.
- `SharpenFeaturesOp` works on a copy of the output point buffer, one point
  of a range at a time:
  - it floors the point's index-space position to a voxel;
  - it skips the point when that voxel is off in the mask, or has fewer than
    two edge intersections;
  - otherwise it solves for a feature point;
  - a solution outside the voxel cell, which the model takes as the unit cell
    padded by 0.3 on every side (see Findings), is moved along the ray toward
    the intersections' centroid, onto the cell;
  - the result goes back to world space and is written into the copy.

  At the end the whole copy is published.

Modules: `Geometry` (vectors, voxel coordinates, ray and box), `ReferenceSurface`
(the level-set object the operators read and the output buffer they replace),
`VolumeToMesh`, `AdaptivityMask`, `RangeOps`, `SharpenFeatures`, and `Wrappers`
(`Option`, `Outcome`).

Floating point is modelled by `real`.

Library calls whose code is not part of this model are function-valued
parameters or constant fields:
- the OpenVDB `VolumeToMesh` algorithm;
- `Transform::worldToIndex` and `Transform::indexToWorld`;
- `MeshToVoxelEdgeData::getEdgeData` (its points only);
- `tools::findFeaturePoint`;
- `Vec3s::normalize`;
- `face_normal`.

The values of `util::COORD_OFFSETS` are a constant sequence with at least 18
entries.

Trees are modelled as follows:
- The index tree is a map from its active voxels to their values, plus a
  background value.
- A leaf of the boolean mask is the set of its on voxels, so turning a voxel
  off removes it from the set.

Each stateful operator is a class whose method is proved against a function
of the old state: `MapRange`, `PrunedRange`, `SharpenedRange`, `Concat`. The
properties the source relies on are proved as lemmas about those functions.

## Model

| member | source | states |
|---|---|---|
| Geometry.FloorCoord | intern/openvdb/intern/openvdb_mesher.h:465-467 | each coordinate of the voxel is the floor of the position's coordinate (c <= p < c + 1) |
| Geometry.MakeRay | intern/openvdb/intern/openvdb_mesher.h:136-141 | for a direction with no zero component, the ray keeps origin and direction, its reciprocal multiplies the direction to 1, and each sign bit is 1 exactly when the reciprocal is negative |
| Geometry.Intersect | intern/openvdb/intern/openvdb_mesher.h:154-191 | the slab test, with the x/y and the z rejections and the fallback to the exit parameter; a reported parameter is never negative |
| Geometry.SlabAxis | intern/openvdb/intern/openvdb_mesher.h:158-161 | on one axis, the parameters between the near and the far plane are exactly those whose ray point lies inside the slab |
| Geometry.SlabAxisScalar | intern/openvdb/intern/openvdb_mesher.h:158-161 | the same equivalence, from the reciprocal and sign bit of that axis alone |
| Geometry.ValidRayAxis | intern/openvdb/intern/openvdb_mesher.h:136-141 | a constructed ray's reciprocal and sign bit are consistent on every axis |
| Geometry.SlabOrdered | intern/openvdb/intern/openvdb_mesher.h:158-161 | in a well-formed box the near plane is never after the far plane, whatever the sign of the direction |
| Geometry.IntersectSound | intern/openvdb/intern/openvdb_mesher.h:154-191 | a reported hit of a well-formed box is a point of the box at a non-negative parameter |
| Geometry.IntersectComplete | intern/openvdb/intern/openvdb_mesher.h:154-191 | every box point in front of the origin makes the test report a hit; the reported parameter is the entry point (no later than that point), or the exit point (no earlier) when the origin lies inside the box |
| Geometry.IntersectClosedForm | intern/openvdb/intern/openvdb_mesher.h:162-190 | on a well-formed box the staged comparisons equal the textbook rule: no hit when the latest entry is after the earliest exit or the exit is behind the origin; otherwise the entry, or the exit when the entry is negative |
| Geometry.OriginInsideHits | intern/openvdb/intern/openvdb_mesher.h:182-190 | a ray starting inside the box always reports a hit |
| ReferenceSurface.LevelSet.SetOutPoints | intern/openvdb/intern/openvdb_mesher.h:524 | `set_out_points` replaces the whole output buffer |
| VolumeToMesh.CountPrimitives | intern/openvdb/intern/openvdb_mesher.h:63-75 | the counting pass returns, per kind, the sum over all pools, which is the length of that kind's concatenation |
| VolumeToMesh.CopyPrimitives | intern/openvdb/intern/openvdb_mesher.h:77-89 | with arrays presized by the counts, the copy pass leaves the quad array equal to the concatenation of the pools' quads in pool order, and likewise the triangle array (every slot written, no cursor out of bounds) |
| VolumeToMesh.CopyInto | intern/openvdb/intern/openvdb_mesher.h:81-87 | one pool's inner loop writes its primitives in order at the cursor, advances the cursor by their number, and leaves every slot before the old cursor and from the new cursor on unchanged |
| VolumeToMesh.ConcatLength | intern/openvdb/intern/openvdb_mesher.h:63-75 | the concatenation has as many primitives as the counting pass sums |
| VolumeToMesh.ConcatSnoc | intern/openvdb/intern/openvdb_mesher.h:78-89 | one more pool appends its primitives after those of the pools before it and adds their number to the count |
| VolumeToMesh.ConcatPlacement | intern/openvdb/intern/openvdb_mesher.h:78-89 | primitive i of pool n lands at the slot just after all primitives of pools 0..n-1 |
| VolumeToMesh.ConcatOrigin | intern/openvdb/intern/openvdb_mesher.h:78-89 | every flattened primitive is a primitive of some pool |
| VolumeToMesh.PrefixTotalBound | intern/openvdb/intern/openvdb_mesher.h:63-75 | the pools before any cursor position hold no more primitives than the array was sized for |
| VolumeToMesh.FlattenKeepsIndicesBelow | intern/openvdb/intern/openvdb_mesher.h:78-89 | if every pool primitive refers only to existing points, so does every flattened quad and triangle |
| VolumeToMesh.DoVolumeToMesh | intern/openvdb/intern/openvdb_mesher.h:32-105 | a non-scalar grid gives `TypeError` with the source's message and leaves the outputs untouched; a scalar grid gives fresh outputs holding the algorithm's point list and its pools flattened, sized by the counts |
| AdaptivityMask.ClampTolerance | intern/openvdb/intern/openvdb_mesher.h:226-227 | the stored tolerance lies in [0, 1]: unchanged inside, 0 below, 1 above |
| AdaptivityMask.GenAdaptivityMaskOp.constructor | intern/openvdb/intern/openvdb_mesher.h:218-228 | keeps the surface, the index tree and the leaves, and stores the clamped tolerance |
| AdaptivityMask.GenAdaptivityMaskOp.ScanNeighbours | intern/openvdb/intern/openvdb_mesher.h:261-280 | the early-break probe of the 18 offsets answers true exactly when some offset reaches an active voxel with a different index whose triangle normal diverges beyond the tolerance |
| AdaptivityMask.GenAdaptivityMaskOp.PruneLeaf | intern/openvdb/intern/openvdb_mesher.h:255-284 | one leaf keeps exactly its on voxels that are edge voxels; no other leaf changes |
| AdaptivityMask.GenAdaptivityMaskOp.Apply | intern/openvdb/intern/openvdb_mesher.h:241-286 | leaves in the range are pruned, leaves outside it are unchanged |
| AdaptivityMask.GenAdaptivityMaskOp.Run | intern/openvdb/intern/openvdb_mesher.h:230-239 | the whole leaf range is pruned |
| AdaptivityMask.GenAdaptivityMaskOp.PrunedMembership | intern/openvdb/intern/openvdb_mesher.h:256-284 | a voxel is on after pruning iff it was on and some of the 18 neighbours diverges; an off voxel never turns on |
| AdaptivityMask.GenAdaptivityMaskOp.PruneIdempotent | intern/openvdb/intern/openvdb_mesher.h:256-284 | pruning a pruned range again changes nothing |
| AdaptivityMask.GenAdaptivityMaskOp.PruneSplit | intern/openvdb/intern/openvdb_mesher.h:230-239 | pruning [begin, mid) and then [mid, end) equals pruning [begin, end), so the range may be split among workers |
| AdaptivityMask.GenAdaptivityMaskOp.IsolatedVoxelTurnedOff | intern/openvdb/intern/openvdb_mesher.h:270-271 | a voxel none of whose neighbours is active with another index is turned off |
| AdaptivityMask.GenAdaptivityMaskOp.FlatRegionTurnedOff | intern/openvdb/intern/openvdb_mesher.h:275 | when every pair of owning triangles' normals agrees within the tolerance, the leaf ends up empty |
| RangeOps.MapRange | intern/openvdb/intern/openvdb_mesher.h:323-327 | slots in [begin, end) hold the mapped input, every other slot is untouched, the length is kept |
| RangeOps.MapRangeSplit | intern/openvdb/intern/openvdb_mesher.h:323-327 | a range body run over [begin, mid) and then [mid, end) writes what one run over [begin, end) writes |
| RangeOps.TriangleRecordRoundTrip | intern/openvdb/intern/openvdb_mesher.h:353-357 | a primitive record gives back its triangle and carries `INVALID_IDX` in slot 3 |
| RangeOps.TransformOp.constructor | intern/openvdb/intern/openvdb_mesher.h:310-315 | keeps the reference surface, the transform and the output point list |
| RangeOps.TransformOp.Apply | intern/openvdb/intern/openvdb_mesher.h:317-328 | the point list becomes `worldToIndex` of the reference points on the range and is unchanged elsewhere |
| RangeOps.PrimCpyOp.constructor | intern/openvdb/intern/openvdb_mesher.h:344-347 | keeps the reference surface and the output primitive list |
| RangeOps.PrimCpyOp.Apply | intern/openvdb/intern/openvdb_mesher.h:349-361 | on the range each record holds the triangle's three indices and `INVALID_IDX`; elsewhere the list is unchanged |
| SharpenFeatures.ExpandedCell | intern/openvdb/intern/openvdb_mesher.h:496-500 | the cell used for the clamp, taken as the voxel's unit cell padded by 0.3 on every side, is a well-formed box |
| SharpenFeatures.ExpandedCellIsPadding | intern/openvdb/intern/openvdb_mesher.h:496-500 | a point lies in that cell exactly when each coordinate is at most 0.3 outside the unit cell's range on that axis |
| SharpenFeatures.EnclosePoint | intern/openvdb/intern/openvdb_mesher.h:500 | the box grown to enclose a point holds that point and every point of the original box |
| SharpenFeatures.AsWrittenCellLacksMargin | intern/openvdb/intern/openvdb_mesher.h:496-500 | read as the point overload of `expand`, the cell of a voxel with x >= 0 misses a point 0.1 past its upper x face that the padded cell holds |
| SharpenFeatures.AsWrittenCellStretches | intern/openvdb/intern/openvdb_mesher.h:496-500 | read as the point overload of `expand`, the cell of a voxel with all coordinates >= 1 holds (0.3, 0.3, 0.3), which the padded cell does not |
| SharpenFeatures.PositionInsideOwnCell | intern/openvdb/intern/openvdb_mesher.h:463-467 | an index-space position lies in the expanded cell of the voxel it floors to |
| SharpenFeatures.GatherNormals | intern/openvdb/intern/openvdb_mesher.h:479-487 | the loop leaves `avgP` equal to the sum of the intersection points, and the normal list equal to the list that has one entry per intersection, entry n being `face_normal(n)` (looked up by position, not by the intersection's primitive) |
| SharpenFeatures.ClampToCell | intern/openvdb/intern/openvdb_mesher.h:502-518 | a point inside the cell is kept; otherwise the result is the point itself or a point of the cell |
| SharpenFeatures.ClampIsEntryPoint | intern/openvdb/intern/openvdb_mesher.h:502-518 | when a point outside the cell has a ray toward the centroid that meets the cell, the point is moved: the result differs from it, lies in the cell, and lies on that ray no farther than any cell point on the ray |
| SharpenFeatures.ClampLandsInCell | intern/openvdb/intern/openvdb_mesher.h:502-518 | when the centroid lies in the cell and normalisation is a positive scaling, the result always lies in the cell |
| SharpenFeatures.CentroidComp | intern/openvdb/intern/openvdb_mesher.h:506 | each coordinate of `avgP * (1 / count)` is the mean of that coordinate over the intersections |
| SharpenFeatures.CentroidInBox | intern/openvdb/intern/openvdb_mesher.h:506 | the centroid of points of a box is a point of the box |
| SharpenFeatures.SharpenedPoint | intern/openvdb/intern/openvdb_mesher.h:460-522 | a point whose voxel is off in the mask, or that has fewer than two intersections, is left as it was |
| SharpenFeatures.SharpenedPointShape | intern/openvdb/intern/openvdb_mesher.h:490-521 | a refined point is `indexToWorld` of either the solver's result or a point of the expanded cell |
| SharpenFeatures.SharpenedRange | intern/openvdb/intern/openvdb_mesher.h:442-524 | the buffer keeps its length; only slots in [begin, end) can change, each to its refined point |
| SharpenFeatures.SharpenSequentialSplit | intern/openvdb/intern/openvdb_mesher.h:442-524 | two passes over [begin, mid) and [mid, end), one after the other, equal one pass over [begin, end) |
| SharpenFeatures.SharpenedRangeExtend | intern/openvdb/intern/openvdb_mesher.h:460-522 | extending the range by one index writes that slot's refined point |
| SharpenFeatures.PublishRange | intern/openvdb/intern/openvdb_mesher.h:524 | publishing a worker's own slots: [lo, hi) from its copy, every other slot as the buffer holds now, the length kept |
| SharpenFeatures.WholePublishLosesUpdate | intern/openvdb/intern/openvdb_mesher.h:442-524 | two workers that copied the same buffer and publish their whole copies one after the other leave a buffer that is not the refinement of the joint range whenever the earlier worker moved its first point |
| SharpenFeatures.LostUpdateExample | intern/openvdb/intern/openvdb_mesher.h:442-524 | a concrete buffer, ranges and library calls on which that happens |
| SharpenFeatures.RangePublishAnyOrder | intern/openvdb/intern/openvdb_mesher.h:442-524 | publishing only their own slots, two such workers leave the joint range refined, in either order |
| SharpenFeatures.PublishAloneAgrees | intern/openvdb/intern/openvdb_mesher.h:442-524 | for one call running alone, publishing its own slots and publishing its whole copy give the same buffer |
| SharpenFeatures.SharpenFeaturesOp.constructor | intern/openvdb/intern/openvdb_mesher.h:430-436 | keeps the reference surface, the library calls and the optional mask |
| SharpenFeatures.SharpenFeaturesOp.RefinePoint | intern/openvdb/intern/openvdb_mesher.h:462-522 | the loop body writes nothing exactly when the voxel is masked off or has fewer than two intersections, and otherwise writes the refined point |
| SharpenFeatures.SharpenFeaturesOp.Apply | intern/openvdb/intern/openvdb_mesher.h:438-525 | the published buffer is the old buffer with the points of the range refined |

## Left out

- Each parallel body is modelled run once, sequentially, over a range; `tbb::parallel_for` (lines 57 and 234) and the threaded switch of `run` are not modelled. The split lemmas show that sequential splitting is safe. For `SharpenFeaturesOp`, only the interleaving in which two workers copy the buffer before either publishes is modelled, as values (see Findings); SharpenFeatures.SharpenFeaturesOp.Apply publishes its whole copy, as the source does.
- Default arguments are not modelled: every caller of the model passes the edge tolerance (default `0.0`, line 203), the mask (default `nullptr`, line 417, modelled as `None`) and no `threaded` flag (default `true`, line 205; `Run` covers both settings, as they prune the same leaves).
- SharpenFeatures.ExpandedCell: the model takes `cell.expand(openvdb::Vec3d(0.3, 0.3, 0.3))` (line 500) as a margin of 0.3 on every side. OpenVDB's `BBox` class is not part of this model; if that call resolves to the overload that encloses a point, the source's cell is `ExpandedCellAsWritten` instead (see Findings).
- The OpenVDB `VolumeToMesh` algorithm, `findFeaturePoint`, `getEdgeData`, `worldToIndex`/`indexToWorld`, `normalize`, `face_normal` and the tree accessors are library code that is not part of this model. They appear as uninterpreted functions and maps.
- IEEE single and double precision are not modelled: `real` replaces `float`/`double`, and every `Vec3s`/`Vec3d` conversion is the identity.
- `OpenVDB BBox::isInside` is modelled as closed containment, without OpenVDB's floating-point tolerance.
- Geometry.MakeRay: requires a direction with no zero component. The source's IEEE infinities for `1 / 0` are not modelled. Geometry.Intersect and the slab lemmas take the consistent ray that `MakeRay` builds.
- SharpenFeatures.ClampToCell: when the normalised direction has a zero component, the model keeps the point. The source would build a ray with an infinite reciprocal. The length-zero case of `normalize` is left to the library function.
- Geometry.IntersectSound and SharpenFeatures.ClampToCell's in-cell guarantee assume a well-formed box (lower corner below the upper one). The cell built by the source always is one.
- The `Ray` member `invdir` is a reference bound to a temporary in the source (line 144). The model treats it as a value.
- When `intersect` returns false, the model does not describe the value it may have left in its out-parameter. The caller never reads it in that case.
- `PointListCopy` is a per-element copy; it is modelled as filling a fresh array from the algorithm's point list. `mesher.pointList().reset(nullptr)` (line 58) is memory management and is left out.
- The primitive ids that `getEdgeData` returns (line 477) are never read, so they are left out.
- AdaptivityMask.GenAdaptivityMaskOp.Valid: the index tree's values and its background are assumed to be valid positions in `vert_tri`, as the source indexes `vert_tri` with them unchecked.
- AdaptivityMask.GenAdaptivityMaskOp.PruneLeaf: visits a leaf's on voxels in an unspecified order rather than in coordinate order. The edge test reads only the index tree, not the mask, so the order cannot change the result.
- VolumeToMesh.DoVolumeToMesh: the two overloads are selected at compile time by `std::is_scalar` and are modelled as one method dispatching on the grid's value type. The non-scalar overload takes eight parameters while `volumeToMesh` passes nine, so through `volumeToMesh` a non-scalar grid would be a compile error rather than a `TypeError`.
- The `#if 0` `VertexNormalOp` block (lines 363-406) is dead code and is left out.

## Findings

| source | as written | input that shows it | evidently intended | confidence | as-written member | corrected member |
|---|---|---|---|---|---|---|
| intern/openvdb/intern/openvdb_mesher.h:496-500 | `cell.expand(openvdb::Vec3d(0.3, 0.3, 0.3))` passes a vector; in OpenVDB's `BBox` the vector overload grows the box to enclose that point, and padding is the scalar overload | voxel (0, 0, 0): the cell stays [0, 1]^3, so a solution at (1.1, 0.5, 0.5) is clamped although it is within 0.3 of the cell; voxel (5, 5, 5): the cell stretches down to (0.3, 0.3, 0.3) | the unit cell padded by 0.3 on every side (`expand(0.3)`) | medium, not executed; depends on the `BBox` overloads, which are not part of this model | SharpenFeatures.AsWrittenCellLacksMargin | SharpenFeatures.ExpandedCellIsPadding |
| intern/openvdb/intern/openvdb_mesher.h:409,442,524 | the TBB body copies the whole output buffer on entry and publishes the whole copy on exit | two workers over [0, 1) and [1, 2) of the buffer [(0.25, 0.25, 0.25), (0.75, 0.75, 0.75)], with the solver returning (0.5, 0.5, 0.5) and identity transforms, both copying before either publishes: the later publication restores (0.25, 0.25, 0.25) | each worker publishes only the slots of its own range | medium, not executed; the caller that runs the body in parallel is not part of this model | SharpenFeatures.LostUpdateExample | SharpenFeatures.RangePublishAnyOrder |
