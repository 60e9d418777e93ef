/**
 * `SharpenFeaturesOp`: for each output point of a range, finds its voxel,
 * skips it when the voxel is masked off or has fewer than two edge
 * intersections, and otherwise replaces it by the solved feature point, pulled
 * back along a ray toward the intersections' centroid onto the voxel's cell
 * (expanded by 0.3 on every side) when the solution falls outside that cell.
 *
 * The transforms, the edge-intersection query, the feature-point solver and
 * vector normalisation are library calls, held as functions.
 */
module SharpenFeatures {
  import opened Wrappers
  import opened Geometry
  import opened ReferenceSurface

  /** How far the voxel's unit cell is expanded on every side (`cell.expand(0.3)`). */
  const CellMargin: real := 0.3

  /** The library calls the pass relies on. */
  datatype Library = Library(
    worldToIndex: Vec3 -> Vec3,                       // Transform::worldToIndex
    indexToWorld: Vec3 -> Vec3,                       // Transform::indexToWorld
    edgeData: Coord -> seq<Vec3>,                     // MeshToVoxelEdgeData::getEdgeData, points only
    findFeaturePoint: (seq<Vec3>, seq<Vec3>) -> Vec3, // tools::findFeaturePoint
    normalize: Vec3 -> Vec3)                          // Vec3s::normalize

  /** Everything a single point's refinement reads. */
  datatype SharpenEnv = SharpenEnv(lib: Library, faceNormal: nat -> Vec3, mask: Option<set<Coord>>)

  // ---------------------------------------------------------------------------
  // Pieces of the per-point step

  /** The voxel cell with corner `ijk`, expanded by the margin. */
  function ExpandedCell(ijk: Coord): (cell: AABBox)
    ensures WellFormed(cell)
  {
    AABBox(Vec3(ijk.x as real - CellMargin, ijk.y as real - CellMargin, ijk.z as real - CellMargin),
           Vec3(ijk.x as real + 1.0 + CellMargin, ijk.y as real + 1.0 + CellMargin, ijk.z as real + 1.0 + CellMargin))
  }

  /** The voxel's unit cell, from `ijk` to `ijk + 1`. */
  function UnitCell(ijk: Coord): AABBox
  {
    AABBox(Vec3(ijk.x as real, ijk.y as real, ijk.z as real),
           Vec3(ijk.x as real + 1.0, ijk.y as real + 1.0, ijk.z as real + 1.0))
  }

  /**
   * The expanded cell is the unit cell padded by the margin on every side:
   * a point lies in it exactly when each coordinate is at most the margin
   * outside the unit cell's range on that axis.
   */
  lemma ExpandedCellIsPadding(ijk: Coord, p: Vec3)
    ensures InBox(ExpandedCell(ijk), p) <==>
      forall a :: Comp(UnitCell(ijk).b0, a) - CellMargin <= Comp(p, a) <= Comp(UnitCell(ijk).b1, a) + CellMargin
  {
    var cell, unit := ExpandedCell(ijk), UnitCell(ijk);
    forall a ensures InSlab(cell, p, a) <==> Comp(unit.b0, a) - CellMargin <= Comp(p, a) <= Comp(unit.b1, a) + CellMargin {
      match a case X => case Y => case Z =>
    }
  }

  /** The smallest box holding `box` and the point `p` (the point overload of `BBox::expand`). */
  function EnclosePoint(box: AABBox, p: Vec3): (r: AABBox)
    ensures InBox(r, p)
    ensures forall q :: InBox(box, q) ==> InBox(r, q)
  {
    AABBox(Vec3(if p.x < box.b0.x then p.x else box.b0.x,
                if p.y < box.b0.y then p.y else box.b0.y,
                if p.z < box.b0.z then p.z else box.b0.z),
           Vec3(if p.x > box.b1.x then p.x else box.b1.x,
                if p.y > box.b1.y then p.y else box.b1.y,
                if p.z > box.b1.z then p.z else box.b1.z))
  }

  /**
   * The cell as written: `cell.expand(Vec3d(0.3, 0.3, 0.3))` taken as the
   * vector overload of OpenVDB's `BBox::expand`, which grows the unit cell to
   * enclose the point (0.3, 0.3, 0.3) instead of padding it.
   */
  function ExpandedCellAsWritten(ijk: Coord): AABBox
  {
    EnclosePoint(UnitCell(ijk), Vec3(CellMargin, CellMargin, CellMargin))
  }

  /**
   * Read as the point overload, the cell has no margin above a voxel of
   * nonnegative x: a point 0.1 past the cell's upper x face, inside the
   * padded cell, lies outside it.
   */
  lemma AsWrittenCellLacksMargin(ijk: Coord)
    requires ijk.x >= 0
    ensures var p := Vec3(ijk.x as real + 1.1, ijk.y as real + 0.5, ijk.z as real + 0.5);
      InBox(ExpandedCell(ijk), p) && !InBox(ExpandedCellAsWritten(ijk), p)
  {
  }

  /**
   * Read as the point overload, the cell of a voxel with all coordinates at
   * least 1 stretches to the point (0.3, 0.3, 0.3), far outside the padded
   * cell.
   */
  lemma AsWrittenCellStretches(ijk: Coord)
    requires ijk.x >= 1 && ijk.y >= 1 && ijk.z >= 1
    ensures var p := Vec3(CellMargin, CellMargin, CellMargin);
      InBox(ExpandedCellAsWritten(ijk), p) && !InBox(ExpandedCell(ijk), p)
  {
  }

  /** An index-space position lies in the expanded cell of the voxel it floors to. */
  lemma PositionInsideOwnCell(p: Vec3)
    ensures InBox(ExpandedCell(FloorCoord(p)), p)
  {
  }

  /** The sum of the intersection points (`avgP` before it is divided). */
  function SumPoints(points: seq<Vec3>): Vec3
  {
    if |points| == 0 then Vec3(0.0, 0.0, 0.0)
    else Add(SumPoints(points[..|points| - 1]), points[|points| - 1])
  }

  function Centroid(points: seq<Vec3>): Vec3
    requires |points| > 0
  {
    Scale(SumPoints(points), 1.0 / |points| as real)
  }

  /** The normal list: the face normal looked up by each intersection's position in the list. */
  function PositionalNormals(faceNormal: nat -> Vec3, n: nat): seq<Vec3>
  {
    seq(n, k requires 0 <= k < n => faceNormal(k))
  }

  /** The loop that accumulates `avgP` and pushes one normal per intersection. */
  method GatherNormals(points: seq<Vec3>, faceNormal: nat -> Vec3) returns (avgP: Vec3, normals: seq<Vec3>)
    ensures avgP == SumPoints(points)
    ensures normals == PositionalNormals(faceNormal, |points|)
  {
    avgP := Vec3(0.0, 0.0, 0.0);
    normals := [];
    var n := 0;
    while n < |points|
      invariant 0 <= n <= |points|
      invariant avgP == SumPoints(points[..n])
      invariant |normals| == n
      invariant forall k :: 0 <= k < n ==> normals[k] == faceNormal(k)
    {
      assert points[..n + 1][..n] == points[..n];
      avgP := Add(avgP, points[n]);
      var normal := faceNormal(n);
      normals := normals + [normal];
      n := n + 1;
    }
    assert points[..n] == points;
    assert normals == PositionalNormals(faceNormal, |points|);
  }

  /**
   * The containment step: a solved point outside the cell is moved along the
   * ray toward the centroid to where that ray meets the cell.  When the
   * normalised direction has a zero component, or the ray misses, the point
   * is kept.
   */
  function ClampToCell(pos: Vec3, cell: AABBox, centroid: Vec3, normalize: Vec3 -> Vec3): (r: Vec3)
    requires WellFormed(cell)
    ensures InBox(cell, pos) ==> r == pos
    ensures r == pos || InBox(cell, r)
  {
    if InBox(cell, pos) then pos
    else
      var dir := normalize(Sub(centroid, pos));
      if !NonZero(dir) then pos
      else
        var ray := MakeRay(pos, dir);
        var hit := Intersect(cell, ray);
        if hit.None? then pos
        else
          IntersectSound(cell, ray);
          Add(pos, Scale(dir, hit.value))
  }

  /**
   * A moved point is the first point of the cell along the ray: no cell point
   * lies on the ray before it.
   */
  lemma ClampIsEntryPoint(pos: Vec3, cell: AABBox, centroid: Vec3, normalize: Vec3 -> Vec3, t: real)
    requires WellFormed(cell) && !InBox(cell, pos)
    requires NonZero(normalize(Sub(centroid, pos)))
    requires t >= 0.0 && InBox(cell, At(MakeRay(pos, normalize(Sub(centroid, pos))), t))
    ensures InBox(cell, ClampToCell(pos, cell, centroid, normalize))
    ensures ClampToCell(pos, cell, centroid, normalize) != pos
    ensures exists s :: (0.0 <= s <= t &&
      ClampToCell(pos, cell, centroid, normalize) == At(MakeRay(pos, normalize(Sub(centroid, pos))), s))
  {
    var ray := MakeRay(pos, normalize(Sub(centroid, pos)));
    IntersectComplete(cell, ray, t);
    IntersectSound(cell, ray);
    var s := Intersect(cell, ray).value;
    assert ClampToCell(pos, cell, centroid, normalize) == At(ray, s);
  }

  lemma ScaleInverse(v: Vec3, k: real)
    requires k > 0.0
    ensures Scale(Scale(v, k), 1.0 / k) == v
  {
    assert k * (1.0 / k) == 1.0;
    assert v.x * k * (1.0 / k) == v.x;
    assert v.y * k * (1.0 / k) == v.y;
    assert v.z * k * (1.0 / k) == v.z;
  }

  /**
   * When the centroid lies in the cell and normalisation is a positive
   * scaling, the ray always meets the cell, so the result lies in the cell.
   */
  lemma ClampLandsInCell(pos: Vec3, cell: AABBox, centroid: Vec3, normalize: Vec3 -> Vec3, k: real)
    requires WellFormed(cell) && InBox(cell, centroid)
    requires NonZero(Sub(centroid, pos))
    requires k > 0.0 && normalize(Sub(centroid, pos)) == Scale(Sub(centroid, pos), k)
    ensures InBox(cell, ClampToCell(pos, cell, centroid, normalize))
  {
    if !InBox(cell, pos) {
      var v := Sub(centroid, pos);
      var dir := normalize(v);
      assert dir.x == v.x * k && dir.y == v.y * k && dir.z == v.z * k;
      assert NonZero(dir) by {
        assert v.x * k != 0.0 && v.y * k != 0.0 && v.z * k != 0.0;
      }
      var ray := MakeRay(pos, dir);
      ScaleInverse(v, k);
      assert At(ray, 1.0 / k) == centroid;
      IntersectComplete(cell, ray, 1.0 / k);
      IntersectSound(cell, ray);
    }
  }

  lemma AddBounds(m: real, lo: real, s: real, hi: real, p: real)
    requires m * lo <= s <= m * hi && lo <= p <= hi
    ensures (m + 1.0) * lo <= s + p <= (m + 1.0) * hi
  {
    assert (m + 1.0) * lo == m * lo + lo;
    assert (m + 1.0) * hi == m * hi + hi;
  }

  function SumReals(vs: seq<real>): real
  {
    if |vs| == 0 then 0.0 else SumReals(vs[..|vs| - 1]) + vs[|vs| - 1]
  }

  /** One coordinate of every point. */
  function Comps(points: seq<Vec3>, a: Axis): (vs: seq<real>)
    ensures |vs| == |points| && forall i :: 0 <= i < |points| ==> vs[i] == Comp(points[i], a)
  {
    seq(|points|, i requires 0 <= i < |points| => Comp(points[i], a))
  }

  lemma {:induction false} SumComps(points: seq<Vec3>, a: Axis)
    ensures Comp(SumPoints(points), a) == SumReals(Comps(points, a))
  {
    if |points| > 0 {
      var init := points[..|points| - 1];
      SumComps(init, a);
      assert Comps(points, a)[..|points| - 1] == Comps(init, a);
      match a case X => case Y => case Z =>
    }
  }

  /** A sum of n values in [lo, hi] lies in [n * lo, n * hi]. */
  lemma {:induction false} SumRealsBounds(vs: seq<real>, lo: real, hi: real)
    requires forall i :: 0 <= i < |vs| ==> lo <= vs[i] <= hi
    ensures |vs| as real * lo <= SumReals(vs) <= |vs| as real * hi
  {
    if |vs| > 0 {
      var init := vs[..|vs| - 1];
      SumRealsBounds(init, lo, hi);
      AddBounds(|init| as real, lo, SumReals(init), hi, vs[|vs| - 1]);
    }
  }

  lemma DivideBounds(lo: real, s: real, hi: real, n: real)
    requires n > 0.0 && n * lo <= s <= n * hi
    ensures lo <= s * (1.0 / n) <= hi
  {
    assert (s - n * lo) * (1.0 / n) >= 0.0;
    assert (n * hi - s) * (1.0 / n) >= 0.0;
    assert n * (1.0 / n) == 1.0;
  }

  /** The centroid of points of a box is a point of the box. */
  lemma CentroidInBox(points: seq<Vec3>, box: AABBox)
    requires |points| > 0
    requires forall i :: 0 <= i < |points| ==> InBox(box, points[i])
    ensures InBox(box, Centroid(points))
  {
    forall a: Axis ensures InSlab(box, Centroid(points), a) {
      CompsInSlab(points, box, a);
      CentroidAxis(points, box, a);
    }
  }

  lemma CentroidAxis(points: seq<Vec3>, box: AABBox, a: Axis)
    requires |points| > 0
    requires forall i :: 0 <= i < |points| ==> Comp(box.b0, a) <= Comps(points, a)[i] <= Comp(box.b1, a)
    ensures InSlab(box, Centroid(points), a)
  {
    MeanBounds(Comps(points, a), Comp(box.b0, a), Comp(box.b1, a));
    CentroidComp(points, a);
  }

  /** One coordinate of the centroid is the mean of that coordinate over the points. */
  lemma CentroidComp(points: seq<Vec3>, a: Axis)
    requires |points| > 0
    ensures Comp(Centroid(points), a) == SumReals(Comps(points, a)) * (1.0 / |Comps(points, a)| as real)
  {
    SumComps(points, a);
    CompScale(SumPoints(points), 1.0 / |points| as real, a);
  }

  /** The mean of values in [lo, hi] lies in [lo, hi]. */
  lemma MeanBounds(vs: seq<real>, lo: real, hi: real)
    requires |vs| > 0
    requires forall i :: 0 <= i < |vs| ==> lo <= vs[i] <= hi
    ensures lo <= SumReals(vs) * (1.0 / |vs| as real) <= hi
  {
    SumRealsBounds(vs, lo, hi);
    DivideBounds(lo, SumReals(vs), hi, |vs| as real);
  }

  lemma CompsInSlab(points: seq<Vec3>, box: AABBox, a: Axis)
    requires forall i :: 0 <= i < |points| ==> InBox(box, points[i])
    ensures forall i :: 0 <= i < |points| ==> Comp(box.b0, a) <= Comps(points, a)[i] <= Comp(box.b1, a)
  {
    forall i | 0 <= i < |points| ensures Comp(box.b0, a) <= Comps(points, a)[i] <= Comp(box.b1, a) {
      assert InBox(box, points[i]);
      match a case X => case Y => case Z =>
    }
  }

  lemma CompScale(v: Vec3, k: real, a: Axis)
    ensures Comp(Scale(v, k), a) == Comp(v, a) * k
  {
    match a case X => case Y => case Z =>
  }

  // ---------------------------------------------------------------------------
  // One point, and a range of points

  /** The voxel a world-space point falls in. */
  function VoxelOf(env: SharpenEnv, p: Vec3): Coord
  {
    FloorCoord(env.lib.worldToIndex(p))
  }

  predicate MaskedOff(env: SharpenEnv, p: Vec3)
  {
    env.mask.Some? && VoxelOf(env, p) !in env.mask.value
  }

  /** What the loop body makes of one output point. */
  function SharpenedPoint(env: SharpenEnv, p: Vec3): (r: Vec3)
    ensures MaskedOff(env, p) ==> r == p
    ensures |env.lib.edgeData(VoxelOf(env, p))| < 2 ==> r == p
  {
    var ijk := VoxelOf(env, p);
    if env.mask.Some? && ijk !in env.mask.value then p
    else
      var points := env.lib.edgeData(ijk);
      if |points| > 1 then
        var solved := env.lib.findFeaturePoint(points, PositionalNormals(env.faceNormal, |points|));
        env.lib.indexToWorld(ClampToCell(solved, ExpandedCell(ijk), Centroid(points), env.lib.normalize))
      else p
  }

  /**
   * A refined point is the solver's result or a point of the expanded cell,
   * carried back to world space.
   */
  lemma SharpenedPointShape(env: SharpenEnv, p: Vec3)
    requires !MaskedOff(env, p) && |env.lib.edgeData(VoxelOf(env, p))| >= 2
    ensures var ijk := VoxelOf(env, p);
      var points := env.lib.edgeData(ijk);
      var solved := env.lib.findFeaturePoint(points, PositionalNormals(env.faceNormal, |points|));
      exists q :: (q == solved || InBox(ExpandedCell(ijk), q)) && SharpenedPoint(env, p) == env.lib.indexToWorld(q)
  {
    var ijk := VoxelOf(env, p);
    var points := env.lib.edgeData(ijk);
    var solved := env.lib.findFeaturePoint(points, PositionalNormals(env.faceNormal, |points|));
    var q := ClampToCell(solved, ExpandedCell(ijk), Centroid(points), env.lib.normalize);
    assert SharpenedPoint(env, p) == env.lib.indexToWorld(q);
  }

  /** The buffer after the points of [begin, end) have been refined. */
  function SharpenedRange(env: SharpenEnv, s: seq<Vec3>, begin: int, end: int): (r: seq<Vec3>)
    requires 0 <= begin <= end <= |s|
    ensures |r| == |s|
    ensures forall i :: 0 <= i < |s| ==> r[i] == if begin <= i < end then SharpenedPoint(env, s[i]) else s[i]
  {
    s[..begin] + seq(end - begin, k requires 0 <= k < end - begin => SharpenedPoint(env, s[begin + k])) + s[end..]
  }

  /**
   * Run one after the other, a pass over [begin, mid) and a pass over
   * [mid, end) give the same buffer as one pass over [begin, end).
   */
  lemma SharpenSequentialSplit(env: SharpenEnv, s: seq<Vec3>, begin: int, mid: int, end: int)
    requires 0 <= begin <= mid <= end <= |s|
    ensures SharpenedRange(env, SharpenedRange(env, s, begin, mid), mid, end) == SharpenedRange(env, s, begin, end)
  {
    var lhs := SharpenedRange(env, SharpenedRange(env, s, begin, mid), mid, end);
    var rhs := SharpenedRange(env, s, begin, end);
    assert forall i :: 0 <= i < |s| ==> lhs[i] == rhs[i];
  }

  /** Extending the refined range by one slot writes that slot's refined point. */
  lemma SharpenedRangeExtend(env: SharpenEnv, s: seq<Vec3>, begin: int, i: int)
    requires 0 <= begin <= i < |s|
    ensures SharpenedRange(env, s, begin, i + 1) == SharpenedRange(env, s, begin, i)[i := SharpenedPoint(env, s[i])]
  {
    var lhs := SharpenedRange(env, s, begin, i + 1);
    var rhs := SharpenedRange(env, s, begin, i)[i := SharpenedPoint(env, s[i])];
    assert forall k :: 0 <= k < |s| ==> lhs[k] == rhs[k];
  }

  // ---------------------------------------------------------------------------
  // Publication by concurrent workers

  /** `set_out_points(result)`: the worker's whole copy replaces the buffer, whatever it holds now. */
  function PublishWhole(current: seq<Vec3>, copy: seq<Vec3>): seq<Vec3>
  {
    copy
  }

  /** Publication of the worker's own slots only: [lo, hi) from its copy, the rest as the buffer holds now. */
  function PublishRange(current: seq<Vec3>, copy: seq<Vec3>, lo: int, hi: int): (r: seq<Vec3>)
    requires 0 <= lo <= hi <= |current| == |copy|
    ensures |r| == |current|
    ensures forall i :: 0 <= i < |r| ==> r[i] == if lo <= i < hi then copy[i] else current[i]
  {
    current[..lo] + copy[lo..hi] + current[hi..]
  }

  /**
   * Two workers copy the same buffer, refine [begin, mid) and [mid, end),
   * and publish their whole copies one after the other: the later one wipes
   * out the earlier one's refinement of `s[begin]`.
   */
  lemma WholePublishLosesUpdate(env: SharpenEnv, s: seq<Vec3>, begin: int, mid: int, end: int)
    requires 0 <= begin < mid <= end <= |s|
    requires SharpenedPoint(env, s[begin]) != s[begin]
    ensures var first := SharpenedRange(env, s, begin, mid);
      var second := SharpenedRange(env, s, mid, end);
      PublishWhole(PublishWhole(s, first), second) != SharpenedRange(env, s, begin, end)
  {
    var second := SharpenedRange(env, s, mid, end);
    assert second[begin] == s[begin];
    assert SharpenedRange(env, s, begin, end)[begin] == SharpenedPoint(env, s[begin]);
  }

  /** Library calls under which the point (0.25, 0.25, 0.25) is moved to (0.5, 0.5, 0.5). */
  function LostUpdateEnv(): SharpenEnv
  {
    SharpenEnv(
      Library(p => p, p => p,
              c => [Vec3(0.0, 0.0, 0.0), Vec3(1.0, 1.0, 1.0)],
              (ps, ns) => Vec3(0.5, 0.5, 0.5),
              v => v),
      n => Vec3(0.0, 0.0, 1.0),
      None)
  }

  /** A concrete input on which whole-copy publication by two workers loses an update. */
  lemma LostUpdateExample()
    ensures var s := [Vec3(0.25, 0.25, 0.25), Vec3(0.75, 0.75, 0.75)];
      PublishWhole(PublishWhole(s, SharpenedRange(LostUpdateEnv(), s, 0, 1)), SharpenedRange(LostUpdateEnv(), s, 1, 2))
        != SharpenedRange(LostUpdateEnv(), s, 0, 2)
  {
    var env := LostUpdateEnv();
    var p := Vec3(0.25, 0.25, 0.25);
    var ijk := VoxelOf(env, p);
    assert ijk == Coord(0, 0, 0);
    assert InBox(ExpandedCell(ijk), Vec3(0.5, 0.5, 0.5));
    assert SharpenedPoint(env, p) == Vec3(0.5, 0.5, 0.5);
    WholePublishLosesUpdate(env, [p, Vec3(0.75, 0.75, 0.75)], 0, 1, 2);
  }

  /**
   * Publishing only the worker's own slots, two workers that copied the same
   * buffer leave the buffer refined over [begin, end), in either order.
   */
  lemma RangePublishAnyOrder(env: SharpenEnv, s: seq<Vec3>, begin: int, mid: int, end: int)
    requires 0 <= begin <= mid <= end <= |s|
    ensures var first := SharpenedRange(env, s, begin, mid);
      var second := SharpenedRange(env, s, mid, end);
      && PublishRange(PublishRange(s, first, begin, mid), second, mid, end) == SharpenedRange(env, s, begin, end)
      && PublishRange(PublishRange(s, second, mid, end), first, begin, mid) == SharpenedRange(env, s, begin, end)
  {
    var first := SharpenedRange(env, s, begin, mid);
    var second := SharpenedRange(env, s, mid, end);
    var whole := SharpenedRange(env, s, begin, end);
    var ab := PublishRange(PublishRange(s, first, begin, mid), second, mid, end);
    var ba := PublishRange(PublishRange(s, second, mid, end), first, begin, mid);
    assert forall i :: 0 <= i < |s| ==> ab[i] == whole[i];
    assert forall i :: 0 <= i < |s| ==> ba[i] == whole[i];
  }

  /** A single call running alone publishes the same buffer either way. */
  lemma PublishAloneAgrees(env: SharpenEnv, s: seq<Vec3>, begin: int, end: int)
    requires 0 <= begin <= end <= |s|
    ensures PublishRange(s, SharpenedRange(env, s, begin, end), begin, end) == PublishWhole(s, SharpenedRange(env, s, begin, end))
  {
    var copy := SharpenedRange(env, s, begin, end);
    assert forall i :: 0 <= i < |s| ==> PublishRange(s, copy, begin, end)[i] == copy[i];
  }

  // ---------------------------------------------------------------------------
  // The operator

  class SharpenFeaturesOp {
    const refGeo: LevelSet
    const lib: Library
    /** The optional mask tree, as its set of on voxels. */
    const mask: Option<set<Coord>>

    constructor (refGeo: LevelSet, lib: Library, mask: Option<set<Coord>>)
      ensures this.refGeo == refGeo && this.lib == lib && this.mask == mask
    {
      this.refGeo := refGeo;
      this.lib := lib;
      this.mask := mask;
    }

    function Env(): SharpenEnv
    {
      SharpenEnv(lib, refGeo.faceNormal, mask)
    }

    /**
     * The loop body for one point: `None` where the source skips the point
     * (masked off, or fewer than two intersections), otherwise the value
     * written back.
     */
    method RefinePoint(p: Vec3) returns (written: Option<Vec3>)
      ensures written.None? ==> SharpenedPoint(Env(), p) == p
      ensures written.Some? ==> written.value == SharpenedPoint(Env(), p)
      ensures written.None? <==> MaskedOff(Env(), p) || |lib.edgeData(VoxelOf(Env(), p))| < 2
    {
      var pos := lib.worldToIndex(p);
      var ijk := FloorCoord(pos);
      if mask.Some? && ijk !in mask.value {
        return None;
      }
      var points := lib.edgeData(ijk);
      var avgP, normals := GatherNormals(points, refGeo.faceNormal);
      if |points| > 1 {
        assert normals == PositionalNormals(refGeo.faceNormal, |points|);
        assert Scale(avgP, 1.0 / |points| as real) == Centroid(points);
        pos := lib.findFeaturePoint(points, normals);
        var cell := ExpandedCell(ijk);
        pos := ClampToCell(pos, cell, Scale(avgP, 1.0 / |points| as real), lib.normalize);
        pos := lib.indexToWorld(pos);
        return Some(pos);
      }
      return None;
    }

    /**
     * `operator()`: refines a copy of the output buffer over [begin, end) and
     * publishes the whole copy.
     */
    method Apply(begin: int, end: int)
      requires 0 <= begin <= end <= |refGeo.outPoints|
      modifies refGeo
      ensures refGeo.outPoints == SharpenedRange(Env(), old(refGeo.outPoints), begin, end)
    {
      var result := refGeo.outPoints;
      ghost var original := result;
      var i := begin;
      while i < end
        invariant begin <= i <= end
        invariant result == SharpenedRange(Env(), original, begin, i)
      {
        assert result[i] == original[i];
        var written := RefinePoint(result[i]);
        SharpenedRangeExtend(Env(), original, begin, i);
        if written.Some? {
          result := result[i := written.value];
        } else {
          assert result == result[i := SharpenedPoint(Env(), original[i])];
        }
        i := i + 1;
      }
      refGeo.SetOutPoints(result);
    }
  }
}
