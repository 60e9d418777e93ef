/**
 * The two per-element copy bodies run over index ranges: `TransformOp` maps
 * reference points into index space, `PrimCpyOp` turns triangles into 4-slot
 * primitive records.  Each writes its output vector only inside [begin, end).
 */
module RangeOps {
  import opened Geometry
  import opened ReferenceSurface

  /** `out` with slots [begin, end) replaced by `f` of the matching input. */
  function MapRange<A, B>(out: seq<B>, input: seq<A>, f: A -> B, begin: int, end: int): (r: seq<B>)
    requires 0 <= begin <= end <= |out| && end <= |input|
    ensures |r| == |out|
    ensures forall i :: 0 <= i < |r| ==> r[i] == if begin <= i < end then f(input[i]) else out[i]
  {
    out[..begin] + seq(end - begin, k requires 0 <= k < end - begin => f(input[begin + k])) + out[end..]
  }

  /**
   * Running the body over [begin, mid) and then [mid, end) writes the same
   * output as one run over [begin, end): a range may be split among workers.
   */
  lemma MapRangeSplit<A, B>(out: seq<B>, input: seq<A>, f: A -> B, begin: int, mid: int, end: int)
    requires 0 <= begin <= mid <= end <= |out| && end <= |input|
    ensures MapRange(MapRange(out, input, f, begin, mid), input, f, mid, end) == MapRange(out, input, f, begin, end)
  {
    var lhs := MapRange(MapRange(out, input, f, begin, mid), input, f, mid, end);
    var rhs := MapRange(out, input, f, begin, end);
    assert forall i :: 0 <= i < |lhs| ==> lhs[i] == rhs[i];
  }

  /** The record `PrimCpyOp` builds for one triangle. */
  function TriangleRecord(t: Vec3I): Vec4I
  {
    Vec4I(t.v0, t.v1, t.v2, INVALID_IDX)
  }

  /** The triangle stored in a record whose slot 3 is unused. */
  function RecordTriangle(p: Vec4I): Vec3I
  {
    Vec3I(p.v0, p.v1, p.v2)
  }

  /** A record carries its triangle back unchanged and is marked as a triangle, not a quad. */
  lemma TriangleRecordRoundTrip(t: Vec3I)
    ensures RecordTriangle(TriangleRecord(t)) == t
    ensures TriangleRecord(t).v3 == INVALID_IDX
  {
  }

  class TransformOp {
    const lvl: LevelSet
    /** `Transform::worldToIndex` of the grid. */
    const worldToIndex: Vec3 -> Vec3
    const pointList: array<Vec3>

    constructor (lvl: LevelSet, worldToIndex: Vec3 -> Vec3, pointList: array<Vec3>)
      ensures this.lvl == lvl && this.worldToIndex == worldToIndex && this.pointList == pointList
    {
      this.lvl := lvl;
      this.worldToIndex := worldToIndex;
      this.pointList := pointList;
    }

    /** `operator()`: `pointList[i] = worldToIndex(points[i])` for each `i` of the range. */
    method Apply(begin: int, end: int)
      requires 0 <= begin <= end <= pointList.Length && end <= |lvl.points|
      modifies pointList
      ensures pointList[..] == MapRange(old(pointList[..]), lvl.points, worldToIndex, begin, end)
    {
      var i := begin;
      while i < end
        invariant begin <= i <= end
        invariant pointList[..] == MapRange(old(pointList[..]), lvl.points, worldToIndex, begin, i)
      {
        var pos := lvl.points[i];
        var ipos := worldToIndex(pos);
        pointList[i] := ipos;
        i := i + 1;
      }
    }
  }

  class PrimCpyOp {
    const lvl: LevelSet
    const primList: array<Vec4I>

    constructor (lvl: LevelSet, primList: array<Vec4I>)
      ensures this.lvl == lvl && this.primList == primList
    {
      this.lvl := lvl;
      this.primList := primList;
    }

    /** `operator()`: copies each triangle of the range and pads slot 3 with `INVALID_IDX`. */
    method Apply(begin: int, end: int)
      requires 0 <= begin <= end <= primList.Length && end <= |lvl.triangles|
      modifies primList
      ensures primList[..] == MapRange(old(primList[..]), lvl.triangles, TriangleRecord, begin, end)
      ensures forall i :: begin <= i < end ==>
        RecordTriangle(primList[i]) == lvl.triangles[i] && primList[i].v3 == INVALID_IDX
    {
      var i := begin;
      while i < end
        invariant begin <= i <= end
        invariant primList[..] == MapRange(old(primList[..]), lvl.triangles, TriangleRecord, begin, i)
      {
        var tri := lvl.triangles[i];
        var prim := Vec4I(tri.v0, tri.v1, tri.v2, INVALID_IDX);
        primList[i] := prim;
        i := i + 1;
      }
    }
  }
}
