/**
 * The isosurface extraction adapter `doVolumeToMesh`: it runs the external
 * volume-to-mesh algorithm, copies its point list, and flattens its list of
 * polygon pools into one quad array and one triangle array, pool by pool,
 * quads before triangles.  Only scalar grids are accepted; any other grid
 * raises a `TypeError` and leaves the outputs alone.
 */
module VolumeToMesh {
  import opened Wrappers
  import opened Geometry

  /** One pool of the extraction result: its quads and its triangles. */
  datatype PolygonPool = PolygonPool(quads: seq<Vec4I>, triangles: seq<Vec3I>)

  function QuadsOf(p: PolygonPool): seq<Vec4I> { p.quads }

  function TrianglesOf(p: PolygonPool): seq<Vec3I> { p.triangles }

  // ---------------------------------------------------------------------------
  // Specification of the flattening

  /** Sum, over the pools, of the number of primitives of one kind. */
  function Total<T>(pools: seq<PolygonPool>, part: PolygonPool -> seq<T>): nat
  {
    if |pools| == 0 then 0
    else Total(pools[..|pools| - 1], part) + |part(pools[|pools| - 1])|
  }

  /** The primitives of one kind of every pool, in pool order. */
  function Concat<T>(pools: seq<PolygonPool>, part: PolygonPool -> seq<T>): seq<T>
  {
    if |pools| == 0 then []
    else Concat(pools[..|pools| - 1], part) + part(pools[|pools| - 1])
  }

  lemma {:induction false} ConcatLength<T>(pools: seq<PolygonPool>, part: PolygonPool -> seq<T>)
    ensures |Concat(pools, part)| == Total(pools, part)
  {
    if |pools| > 0 {
      ConcatLength(pools[..|pools| - 1], part);
    }
  }

  /** Extending the pools by one appends that pool's primitives. */
  lemma ConcatSnoc<T>(pools: seq<PolygonPool>, part: PolygonPool -> seq<T>, n: nat)
    requires n < |pools|
    ensures Concat(pools[..n + 1], part) == Concat(pools[..n], part) + part(pools[n])
    ensures Total(pools[..n + 1], part) == Total(pools[..n], part) + |part(pools[n])|
  {
    assert pools[..n + 1][..n] == pools[..n];
  }

  /**
   * Primitive `i` of pool `n` sits in the flattened array right after all the
   * primitives of the pools before `n`.
   */
  lemma {:induction false} ConcatPlacement<T>(pools: seq<PolygonPool>, part: PolygonPool -> seq<T>, n: nat, i: nat)
    requires n < |pools| && i < |part(pools[n])|
    ensures Total(pools[..n], part) + i < |Concat(pools, part)|
    ensures Concat(pools, part)[Total(pools[..n], part) + i] == part(pools[n])[i]
  {
    var last := |pools| - 1;
    var init := pools[..last];
    ConcatLength(pools, part);
    ConcatLength(init, part);
    if n == last {
      assert pools[..n] == init;
    } else {
      assert init[..n] == pools[..n];
      ConcatPlacement(init, part, n, i);
    }
  }

  /** Every flattened primitive comes from some pool. */
  lemma {:induction false} ConcatOrigin<T>(pools: seq<PolygonPool>, part: PolygonPool -> seq<T>, k: nat)
    requires k < |Concat(pools, part)|
    ensures exists n, i :: 0 <= n < |pools| && 0 <= i < |part(pools[n])| && Concat(pools, part)[k] == part(pools[n])[i]
  {
    var last := |pools| - 1;
    var init := pools[..last];
    if k < |Concat(init, part)| {
      ConcatOrigin(init, part, k);
      var n, i :| 0 <= n < |init| && 0 <= i < |part(init[n])| && Concat(init, part)[k] == part(init[n])[i];
      assert init[n] == pools[n];
    } else {
      var i := k - |Concat(init, part)|;
      assert Concat(pools, part)[k] == part(pools[last])[i];
    }
  }

  // ---------------------------------------------------------------------------
  // Index bounds

  predicate QuadBelow(q: Vec4I, numPoints: nat)
  {
    q.v0 < numPoints && q.v1 < numPoints && q.v2 < numPoints && q.v3 < numPoints
  }

  predicate TriangleBelow(t: Vec3I, numPoints: nat)
  {
    t.v0 < numPoints && t.v1 < numPoints && t.v2 < numPoints
  }

  /** Every primitive of every pool refers only to existing points. */
  predicate PoolsBelow(pools: seq<PolygonPool>, numPoints: nat)
  {
    && (forall n, i :: 0 <= n < |pools| && 0 <= i < |pools[n].quads| ==> QuadBelow(pools[n].quads[i], numPoints))
    && (forall n, i :: 0 <= n < |pools| && 0 <= i < |pools[n].triangles| ==> TriangleBelow(pools[n].triangles[i], numPoints))
  }

  /** Flattening keeps every polygon index below the point count. */
  lemma FlattenKeepsIndicesBelow(pools: seq<PolygonPool>, numPoints: nat)
    requires PoolsBelow(pools, numPoints)
    ensures forall k :: 0 <= k < |Concat(pools, QuadsOf)| ==> QuadBelow(Concat(pools, QuadsOf)[k], numPoints)
    ensures forall k :: 0 <= k < |Concat(pools, TrianglesOf)| ==> TriangleBelow(Concat(pools, TrianglesOf)[k], numPoints)
  {
    forall k | 0 <= k < |Concat(pools, QuadsOf)|
      ensures QuadBelow(Concat(pools, QuadsOf)[k], numPoints)
    {
      ConcatOrigin(pools, QuadsOf, k);
    }
    forall k | 0 <= k < |Concat(pools, TrianglesOf)|
      ensures TriangleBelow(Concat(pools, TrianglesOf)[k], numPoints)
    {
      ConcatOrigin(pools, TrianglesOf, k);
    }
  }

  // ---------------------------------------------------------------------------
  // The two passes over the pool list

  /** The counting pass: the sizes the two output arrays are given. */
  method CountPrimitives(pools: seq<PolygonPool>) returns (numQuads: nat, numTriangles: nat)
    ensures numQuads == Total(pools, QuadsOf) && numQuads == |Concat(pools, QuadsOf)|
    ensures numTriangles == Total(pools, TrianglesOf) && numTriangles == |Concat(pools, TrianglesOf)|
  {
    numQuads, numTriangles := 0, 0;
    var n := 0;
    while n < |pools|
      invariant 0 <= n <= |pools|
      invariant numQuads == Total(pools[..n], QuadsOf)
      invariant numTriangles == Total(pools[..n], TrianglesOf)
    {
      ConcatSnoc(pools, QuadsOf, n);
      ConcatSnoc(pools, TrianglesOf, n);
      numTriangles := numTriangles + |pools[n].triangles|;
      numQuads := numQuads + |pools[n].quads|;
      n := n + 1;
    }
    assert pools[..n] == pools;
    ConcatLength(pools, QuadsOf);
    ConcatLength(pools, TrianglesOf);
  }

  /**
   * The copy pass: two running cursors write each pool's quads, then its
   * triangles, into arrays presized by the counting pass.
   */
  method CopyPrimitives(pools: seq<PolygonPool>, quads: array<Vec4I>, triangles: array<Vec3I>)
    requires quads.Length == Total(pools, QuadsOf)
    requires triangles.Length == Total(pools, TrianglesOf)
    modifies quads, triangles
    ensures quads[..] == Concat(pools, QuadsOf)
    ensures triangles[..] == Concat(pools, TrianglesOf)
  {
    ConcatLength(pools, QuadsOf);
    ConcatLength(pools, TrianglesOf);
    var qIdx, tIdx := 0, 0;
    var n := 0;
    while n < |pools|
      invariant 0 <= n <= |pools|
      invariant qIdx == Total(pools[..n], QuadsOf) && tIdx == Total(pools[..n], TrianglesOf)
      invariant qIdx <= quads.Length && tIdx <= triangles.Length
      invariant quads[..qIdx] == Concat(pools[..n], QuadsOf)
      invariant triangles[..tIdx] == Concat(pools[..n], TrianglesOf)
    {
      var polygons := pools[n];
      ConcatSnoc(pools, QuadsOf, n);
      ConcatSnoc(pools, TrianglesOf, n);
      PrefixTotalBound(pools, QuadsOf, n + 1);
      PrefixTotalBound(pools, TrianglesOf, n + 1);
      qIdx := CopyInto(quads, qIdx, polygons.quads);
      tIdx := CopyInto(triangles, tIdx, polygons.triangles);
      n := n + 1;
    }
    assert pools[..n] == pools;
    assert quads[..] == quads[..qIdx];
    assert triangles[..] == triangles[..tIdx];
  }

  /** One pool's inner loop: writes `src` at the cursor and returns the advanced cursor. */
  method CopyInto<T>(dst: array<T>, at: nat, src: seq<T>) returns (next: nat)
    requires at + |src| <= dst.Length
    modifies dst
    ensures next == at + |src|
    ensures dst[..next] == old(dst[..at]) + src
    ensures dst[next..] == old(dst[next..])
  {
    ghost var before := dst[..at];
    next := at;
    var i := 0;
    while i < |src|
      invariant 0 <= i <= |src|
      invariant next == at + i
      invariant dst[..next] == before + src[..i]
      invariant dst[at + |src|..] == old(dst[at + |src|..])
    {
      dst[next] := src[i];
      next := next + 1;
      i := i + 1;
    }
    assert src[..i] == src;
  }

  /** A prefix of the pools holds no more primitives than all of them. */
  lemma {:induction false} PrefixTotalBound<T>(pools: seq<PolygonPool>, part: PolygonPool -> seq<T>, n: nat)
    requires n <= |pools|
    ensures Total(pools[..n], part) <= Total(pools, part)
    decreases |pools| - n
  {
    if n < |pools| {
      ConcatSnoc(pools, part, n);
      PrefixTotalBound(pools, part, n + 1);
    } else {
      assert pools[..n] == pools;
    }
  }

  // ---------------------------------------------------------------------------
  // The adapter

  datatype ValueType = Scalar | NonScalar

  /** A grid: the kind of value it stores and the payload the algorithm reads. */
  datatype Grid<G> = Grid(valueType: ValueType, data: G)

  /** The parameters handed to the extraction algorithm. */
  datatype MesherSettings<R> = MesherSettings(
    isovalue: real,
    adaptivity: real,
    relaxDisorientedTriangles: bool,
    adaptivityMask: Option<set<Coord>>,
    refGrid: Option<R>)

  /** What the extraction algorithm leaves behind: its point list and polygon pools. */
  datatype MesherOutput = MesherOutput(pointList: seq<Vec3>, pools: seq<PolygonPool>)

  datatype MeshError = TypeError(message: string)

  const NonScalarMessage := "volume to mesh conversion is supported only for scalar grids"

  /** The caller's three output vectors. */
  class MeshBuffers {
    var points: array<Vec3>
    var triangles: array<Vec3I>
    var quads: array<Vec4I>

    constructor ()
      ensures points.Length == 0 && triangles.Length == 0 && quads.Length == 0
    {
      points := new Vec3[0];
      triangles := new Vec3I[0];
      quads := new Vec4I[0];
    }
  }

  /**
   * `doVolumeToMesh`, both overloads: on a non-scalar grid a `TypeError` and
   * nothing written; on a scalar grid the algorithm's points and its pools
   * flattened into quads and triangles.
   */
  method DoVolumeToMesh<G, R>(grid: Grid<G>, settings: MesherSettings<R>,
                              mesher: (G, MesherSettings<R>) -> MesherOutput, out: MeshBuffers)
    returns (result: Outcome<MeshError>)
    modifies out
    ensures grid.valueType == NonScalar ==>
      result == Fail(TypeError(NonScalarMessage)) && unchanged(out)
    ensures grid.valueType == Scalar ==>
      var m := mesher(grid.data, settings);
      && result == Pass
      && fresh(out.points) && fresh(out.triangles) && fresh(out.quads)
      && out.points[..] == m.pointList
      && out.triangles.Length == Total(m.pools, TrianglesOf)
      && out.quads.Length == Total(m.pools, QuadsOf)
      && out.triangles[..] == Concat(m.pools, TrianglesOf)
      && out.quads[..] == Concat(m.pools, QuadsOf)
  {
    if grid.valueType == NonScalar {
      return Fail(TypeError(NonScalarMessage));
    }
    var m := mesher(grid.data, settings);

    // Preallocate and copy the point list.
    var pointList := m.pointList;
    out.points := new Vec3[|pointList|](i requires 0 <= i < |pointList| => pointList[i]);

    // Preallocate the primitive lists.
    var numQuads, numTriangles := CountPrimitives(m.pools);
    out.triangles := new Vec3I[numTriangles];
    out.quads := new Vec4I[numQuads];

    // Copy the primitives.
    CopyPrimitives(m.pools, out.quads, out.triangles);
    result := Pass;
  }
}
