/**
 * The reference surface (`OpenVDBLevelSet`) as far as the mesher uses it:
 * point positions, triangle vertex indices, the vertex-to-triangle table, a
 * face-normal accessor and the output point buffer.  Its own code is not part
 * of this model; only the output point buffer is ever changed by the mesher.
 */
module ReferenceSurface {
  import opened Geometry

  class LevelSet {
    /** `get_points()`: world-space vertex positions. */
    const points: seq<Vec3>
    /** `get_triangles()`. */
    const triangles: seq<Vec3I>
    /** `get_vert_tri()`: for an index-tree value, the triangle that owns it. */
    const vertTri: seq<Index>
    /** `face_normal(tri)`. */
    const faceNormal: nat -> Vec3
    /** `get_out_points()` / `set_out_points()`. */
    var outPoints: seq<Vec3>

    constructor (points: seq<Vec3>, triangles: seq<Vec3I>, vertTri: seq<Index>,
                 faceNormal: nat -> Vec3, outPoints: seq<Vec3>)
      ensures this.points == points && this.triangles == triangles
      ensures this.vertTri == vertTri && this.faceNormal == faceNormal
      ensures this.outPoints == outPoints
    {
      this.points := points;
      this.triangles := triangles;
      this.vertTri := vertTri;
      this.faceNormal := faceNormal;
      this.outPoints := outPoints;
    }

    /** `set_out_points(result)`: replaces the whole output buffer. */
    method SetOutPoints(result: seq<Vec3>)
      modifies this
      ensures outPoints == result
    {
      outPoints := result;
    }
  }
}
