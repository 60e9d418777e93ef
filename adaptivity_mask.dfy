/**
 * `GenAdaptivityMaskOp`: prunes a boolean voxel mask down to the "edge
 * voxels", the on voxels that have, among 18 neighbour offsets, an active
 * voxel of the index tree owned by a different reference triangle whose face
 * normal diverges from their own by more than the edge tolerance.
 *
 * The index tree is a map from its active voxels to their values, with a
 * background value read off the active set.  The mask is an array of leaves,
 * each the set of its on voxels; turning a voxel off removes it from its leaf.
 */
module AdaptivityMask {
  import opened Geometry
  import opened ReferenceSurface

  /** Number of `COORD_OFFSETS` entries probed: the 6 face and 12 edge neighbours. */
  const NeighbourCount := 18

  /** The constructor's clamp of the edge tolerance into [0, 1] (`std::max`, then `std::min`). */
  function ClampTolerance(t: real): (r: real)
    ensures 0.0 <= r <= 1.0
    ensures 0.0 <= t <= 1.0 ==> r == t
    ensures t < 0.0 ==> r == 0.0
    ensures t > 1.0 ==> r == 1.0
  {
    var atLeastZero := if 0.0 < t then t else 0.0;
    if atLeastZero < 1.0 then atLeastZero else 1.0
  }

  class GenAdaptivityMaskOp {
    const lvl: LevelSet
    /** The active voxels of the index tree and the value stored at each. */
    const indexTree: map<Coord, int>
    /** What the index tree returns for a voxel that is not active. */
    const indexBackground: int
    /** `util::COORD_OFFSETS`; only its first 18 entries are used. */
    const coordOffsets: seq<Coord>
    /** The leaves of the mask, each as the set of its on voxels. */
    const leafs: array<set<Coord>>
    const edgeTolerance: real

    constructor (lvl: LevelSet, indexTree: map<Coord, int>, indexBackground: int,
                 coordOffsets: seq<Coord>, leafs: array<set<Coord>>, edgetolerance: real)
      ensures this.lvl == lvl && this.indexTree == indexTree
      ensures this.indexBackground == indexBackground
      ensures this.coordOffsets == coordOffsets && this.leafs == leafs
      ensures edgeTolerance == ClampTolerance(edgetolerance)
      ensures 0.0 <= edgeTolerance <= 1.0
    {
      this.lvl := lvl;
      this.indexTree := indexTree;
      this.indexBackground := indexBackground;
      this.coordOffsets := coordOffsets;
      this.leafs := leafs;
      edgeTolerance := ClampTolerance(edgetolerance);
    }

    /**
     * Every value the index tree can return resolves through the
     * vertex-to-triangle table, and the offset table has 18 entries to probe.
     */
    predicate Valid()
    {
      && |coordOffsets| >= NeighbourCount
      && 0 <= indexBackground < |lvl.vertTri|
      && forall c :: c in indexTree ==> 0 <= indexTree[c] < |lvl.vertTri|
    }

    /** `idxAcc.getValue(ijk)`. */
    function IndexAt(ijk: Coord): int
    {
      if ijk in indexTree then indexTree[ijk] else indexBackground
    }

    /** Face normal of the triangle owning index-tree value `idx`. */
    function NormalOf(idx: int): Vec3
      requires Valid() && 0 <= idx < |lvl.vertTri|
    {
      lvl.faceNormal(lvl.vertTri[idx])
    }

    /**
     * Offset `i` leads to an active voxel with a different index whose
     * triangle normal diverges from `ijk`'s beyond the tolerance.
     */
    predicate DivergentNeighbour(ijk: Coord, i: int)
      requires Valid() && 0 <= i < NeighbourCount
    {
      var nijk := CoordAdd(ijk, coordOffsets[i]);
      && nijk in indexTree
      && indexTree[nijk] != IndexAt(ijk)
      && Dot(NormalOf(IndexAt(ijk)), NormalOf(indexTree[nijk])) < edgeTolerance
    }

    predicate IsEdgeVoxel(ijk: Coord)
      requires Valid()
    {
      exists i :: 0 <= i < NeighbourCount && DivergentNeighbour(ijk, i)
    }

    /** A leaf after pruning: its on voxels that are edge voxels. */
    function Pruned(leaf: set<Coord>): set<Coord>
      requires Valid()
    {
      set c | c in leaf && IsEdgeVoxel(c)
    }

    /** The leaves after the leaves in [begin, end) have been pruned. */
    function PrunedRange(ls: seq<set<Coord>>, begin: int, end: int): (r: seq<set<Coord>>)
      requires Valid()
    {
      seq(|ls|, m requires 0 <= m < |ls| => if begin <= m < end then Pruned(ls[m]) else ls[m])
    }

    /** The 18-neighbour probe with its early break. */
    method ScanNeighbours(ijk: Coord) returns (edgeVoxel: bool)
      requires Valid()
      ensures edgeVoxel <==> IsEdgeVoxel(ijk)
    {
      var idx := IndexAt(ijk);
      var normal := lvl.faceNormal(lvl.vertTri[idx]);
      edgeVoxel := false;
      var i := 0;
      while i < NeighbourCount
        invariant 0 <= i <= NeighbourCount
        invariant forall j :: 0 <= j < i ==> !DivergentNeighbour(ijk, j)
      {
        var nijk := CoordAdd(ijk, coordOffsets[i]);
        if nijk in indexTree && indexTree[nijk] != idx {
          var tmpN := lvl.faceNormal(lvl.vertTri[indexTree[nijk]]);
          if Dot(normal, tmpN) < edgeTolerance {
            assert DivergentNeighbour(ijk, i);
            edgeVoxel := true;
            break;
          }
        }
        i := i + 1;
      }
    }

    /** The body of the leaf loop for leaf `n`: each on voxel that is not an edge voxel is turned off. */
    method PruneLeaf(n: int)
      requires Valid() && 0 <= n < leafs.Length
      modifies leafs
      ensures leafs[n] == Pruned(old(leafs[n]))
      ensures forall m :: 0 <= m < leafs.Length && m != n ==> leafs[m] == old(leafs[m])
    {
      ghost var original := leafs[n];
      var todo := leafs[n];
      while todo != {}
        invariant todo <= original
        invariant leafs[n] == Pruned(original - todo) + todo
        invariant forall m :: 0 <= m < leafs.Length && m != n ==> leafs[m] == old(leafs[m])
        decreases todo
      {
        var ijk :| ijk in todo;
        var edgeVoxel := ScanNeighbours(ijk);
        if !edgeVoxel {
          leafs[n] := leafs[n] - {ijk};
        }
        todo := todo - {ijk};
        assert leafs[n] == Pruned(original - todo) + todo;
      }
      assert original - todo == original;
    }

    /** `operator()`: prunes every leaf of the range in turn. */
    method Apply(begin: int, end: int)
      requires Valid() && 0 <= begin <= end <= leafs.Length
      modifies leafs
      ensures leafs[..] == PrunedRange(old(leafs[..]), begin, end)
    {
      var n := begin;
      while n < end
        invariant begin <= n <= end
        invariant leafs[..] == PrunedRange(old(leafs[..]), begin, n)
      {
        PruneLeaf(n);
        n := n + 1;
      }
    }

    /** `run`: the whole leaf range, threaded or not (each leaf is independent). */
    method Run()
      requires Valid()
      modifies leafs
      ensures leafs[..] == PrunedRange(old(leafs[..]), 0, leafs.Length)
    {
      Apply(0, leafs.Length);
    }

    // -------------------------------------------------------------------------
    // Properties of the pruning

    /** An on voxel stays on exactly when some neighbour diverges; an off voxel never turns on. */
    lemma PrunedMembership(leaf: set<Coord>, c: Coord)
      requires Valid()
      ensures c in Pruned(leaf) <==> c in leaf && exists i :: 0 <= i < NeighbourCount && DivergentNeighbour(c, i)
    {
    }

    /** Pruning again changes nothing: the result does not depend on the mask. */
    lemma PruneIdempotent(ls: seq<set<Coord>>, begin: int, end: int)
      requires Valid()
      ensures PrunedRange(PrunedRange(ls, begin, end), begin, end) == PrunedRange(ls, begin, end)
    {
      var once := PrunedRange(ls, begin, end);
      forall m | 0 <= m < |ls| && begin <= m < end
        ensures Pruned(once[m]) == once[m]
      {
        assert Pruned(Pruned(ls[m])) == Pruned(ls[m]);
      }
    }

    /**
     * Pruning [begin, mid) and then [mid, end) gives the same mask as pruning
     * [begin, end) at once, so splitting the range among workers is safe.
     */
    lemma PruneSplit(ls: seq<set<Coord>>, begin: int, mid: int, end: int)
      requires Valid() && begin <= mid <= end
      ensures PrunedRange(PrunedRange(ls, begin, mid), mid, end) == PrunedRange(ls, begin, end)
    {
    }

    /** A voxel without a neighbour of another index is never an edge voxel. */
    lemma IsolatedVoxelTurnedOff(leaf: set<Coord>, c: Coord)
      requires Valid()
      requires forall i :: 0 <= i < NeighbourCount ==>
        CoordAdd(c, coordOffsets[i]) !in indexTree || indexTree[CoordAdd(c, coordOffsets[i])] == IndexAt(c)
      ensures c !in Pruned(leaf)
    {
    }

    /** When all owning triangles' normals agree within the tolerance, every voxel is turned off. */
    lemma FlatRegionTurnedOff(leaf: set<Coord>)
      requires Valid()
      requires forall a, b :: 0 <= a < |lvl.vertTri| && 0 <= b < |lvl.vertTri| ==>
        Dot(NormalOf(a), NormalOf(b)) >= edgeTolerance
      ensures Pruned(leaf) == {}
    {
    }
  }
}
