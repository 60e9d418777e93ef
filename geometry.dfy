/**
 * Vectors, voxel coordinates and the ray / axis-aligned box slab test
 * (the `Ray` and `AABBox` helper classes of the mesher).
 *
 * Floating point is modelled by `real`: the reciprocal direction is exact and
 * every direction component must be nonzero (no IEEE infinities).
 */
module Geometry {
  import opened Wrappers

  datatype Vec3 = Vec3(x: real, y: real, z: real)

  /** An integer voxel coordinate in index space. */
  datatype Coord = Coord(x: int, y: int, z: int)

  /** A 32-bit unsigned vertex index (`openvdb::Index32`). */
  type Index = i: int | 0 <= i < 0x1_0000_0000

  /** `openvdb::util::INVALID_IDX`, the largest 32-bit index. */
  const INVALID_IDX: Index := 0xFFFF_FFFF

  /** `Vec3I`: the three vertex indices of a triangle. */
  datatype Vec3I = Vec3I(v0: Index, v1: Index, v2: Index)

  /** `Vec4I`: a quad, or a triangle padded with `INVALID_IDX` in slot 3. */
  datatype Vec4I = Vec4I(v0: Index, v1: Index, v2: Index, v3: Index)

  datatype Axis = X | Y | Z

  function Comp(v: Vec3, a: Axis): real
  {
    match a
    case X => v.x
    case Y => v.y
    case Z => v.z
  }

  function Add(a: Vec3, b: Vec3): Vec3 { Vec3(a.x + b.x, a.y + b.y, a.z + b.z) }

  function Sub(a: Vec3, b: Vec3): Vec3 { Vec3(a.x - b.x, a.y - b.y, a.z - b.z) }

  function Scale(a: Vec3, s: real): Vec3 { Vec3(a.x * s, a.y * s, a.z * s) }

  function Dot(a: Vec3, b: Vec3): real { a.x * b.x + a.y * b.y + a.z * b.z }

  function CoordAdd(a: Coord, b: Coord): Coord { Coord(a.x + b.x, a.y + b.y, a.z + b.z) }

  /** The voxel that contains an index-space position (`int(std::floor(.))` per axis). */
  function FloorCoord(p: Vec3): (c: Coord)
    ensures c.x as real <= p.x < c.x as real + 1.0
    ensures c.y as real <= p.y < c.y as real + 1.0
    ensures c.z as real <= p.z < c.z as real + 1.0
  {
    Coord(p.x.Floor, p.y.Floor, p.z.Floor)
  }

  predicate NonZero(v: Vec3)
  {
    v.x != 0.0 && v.y != 0.0 && v.z != 0.0
  }

  // ---------------------------------------------------------------------------
  // Axis-aligned box

  /** `bounds[0]` and `bounds[1]` of an `AABBox`. */
  datatype AABBox = AABBox(b0: Vec3, b1: Vec3)

  function Bound(box: AABBox, i: int): Vec3
  {
    if i == 0 then box.b0 else box.b1
  }

  /** The lower corner is below the upper one on every axis. */
  predicate WellFormed(box: AABBox)
  {
    box.b0.x <= box.b1.x && box.b0.y <= box.b1.y && box.b0.z <= box.b1.z
  }

  predicate InSlab(box: AABBox, p: Vec3, a: Axis)
  {
    Comp(box.b0, a) <= Comp(p, a) <= Comp(box.b1, a)
  }

  /** Closed containment, corners included. */
  predicate InBox(box: AABBox, p: Vec3)
  {
    InSlab(box, p, X) && InSlab(box, p, Y) && InSlab(box, p, Z)
  }

  // ---------------------------------------------------------------------------
  // Ray

  /**
   * A ray with its precomputed reciprocal direction and, per axis, the sign
   * bit (1 when the reciprocal is negative) that picks the near bound.
   */
  datatype Ray = Ray(orig: Vec3, dir: Vec3, invdir: Vec3, signX: int, signY: int, signZ: int)

  function Sign(r: Ray, a: Axis): int
  {
    match a
    case X => r.signX
    case Y => r.signY
    case Z => r.signZ
  }

  /** The reciprocal really is the reciprocal and each sign bit matches it. */
  predicate ValidRay(r: Ray)
  {
    && Comp(r.invdir, X) * Comp(r.dir, X) == 1.0
    && Comp(r.invdir, Y) * Comp(r.dir, Y) == 1.0
    && Comp(r.invdir, Z) * Comp(r.dir, Z) == 1.0
    && r.signX == (if r.invdir.x < 0.0 then 1 else 0)
    && r.signY == (if r.invdir.y < 0.0 then 1 else 0)
    && r.signZ == (if r.invdir.z < 0.0 then 1 else 0)
  }

  /** The `Ray(orig, dir)` constructor. */
  function MakeRay(orig: Vec3, dir: Vec3): (r: Ray)
    requires NonZero(dir)
    ensures ValidRay(r) && r.orig == orig && r.dir == dir
  {
    var inv := Vec3(1.0 / dir.x, 1.0 / dir.y, 1.0 / dir.z);
    Ray(orig, dir, inv,
        if inv.x < 0.0 then 1 else 0,
        if inv.y < 0.0 then 1 else 0,
        if inv.z < 0.0 then 1 else 0)
  }

  /** The point reached after travelling parameter `t` along the ray. */
  function At(r: Ray, t: real): Vec3
  {
    Add(r.orig, Scale(r.dir, t))
  }

  /** Parameter at which the ray crosses the near plane of axis `a`. */
  function SlabNear(box: AABBox, r: Ray, a: Axis): real
  {
    (Comp(Bound(box, Sign(r, a)), a) - Comp(r.orig, a)) * Comp(r.invdir, a)
  }

  /** Parameter at which the ray crosses the far plane of axis `a`. */
  function SlabFar(box: AABBox, r: Ray, a: Axis): real
  {
    (Comp(Bound(box, 1 - Sign(r, a)), a) - Comp(r.orig, a)) * Comp(r.invdir, a)
  }

  /**
   * `AABBox::intersect`: the slab test.  `None` is a `false` return; `Some(t)`
   * is a `true` return with the distance written to `t`.  The x and y slabs
   * are intersected first, then the z slab; a negative entry falls back to
   * the exit parameter.
   */
  function Intersect(box: AABBox, r: Ray): (hit: Option<real>)
    requires ValidRay(r)
    ensures hit.Some? ==> hit.value >= 0.0
  {
    var tmin := SlabNear(box, r, X);
    var tmax := SlabFar(box, r, X);
    var tymin := SlabNear(box, r, Y);
    var tymax := SlabFar(box, r, Y);
    if tmin > tymax || tymin > tmax then None
    else
      var tmin := if tymin > tmin then tymin else tmin;
      var tmax := if tymax < tmax then tymax else tmax;
      var tzmin := SlabNear(box, r, Z);
      var tzmax := SlabFar(box, r, Z);
      if tmin > tzmax || tzmin > tmax then None
      else
        var tmin := if tzmin > tmin then tzmin else tmin;
        var tmax := if tzmax < tmax then tzmax else tmax;
        if tmin < 0.0 then
          if tmax < 0.0 then None else Some(tmax)
        else Some(tmin)
  }

  // ---------------------------------------------------------------------------
  // Slab lemmas

  lemma MulSign(a: real, d: real)
    requires d > 0.0
    ensures a >= 0.0 <==> a * d >= 0.0
  {
    if a < 0.0 {
      assert a * d < 0.0;
    }
  }

  /** The slab test on one coordinate, in scalars. */
  lemma ScalarSlab(o: real, d: real, inv: real, b0: real, b1: real, t: real)
    requires inv * d == 1.0
    ensures var lo := (if inv < 0.0 then b1 else b0) - o;
            var hi := (if inv < 0.0 then b0 else b1) - o;
            (lo * inv <= t <= hi * inv) <==> (b0 <= o + t * d <= b1)
  {
    var lo := (if inv < 0.0 then b1 else b0) - o;
    var hi := (if inv < 0.0 then b0 else b1) - o;
    var e := if inv < 0.0 then -d else d;
    assert e > 0.0;
    assert lo * inv * d == lo;
    assert hi * inv * d == hi;
    MulSign(t - lo * inv, e);
    MulSign(hi * inv - t, e);
  }

  /** The ray's reciprocal and sign bit on one axis. */
  predicate AxisValid(r: Ray, a: Axis)
  {
    Comp(r.invdir, a) * Comp(r.dir, a) == 1.0 && Sign(r, a) == (if Comp(r.invdir, a) < 0.0 then 1 else 0)
  }

  lemma ValidRayAxis(r: Ray, a: Axis)
    requires ValidRay(r)
    ensures AxisValid(r, a)
  {
    match a case X => case Y => case Z =>
  }

  /** One coordinate of the slab test: the near/far interval is exactly the set of parameters inside the slab. */
  lemma SlabAxis(box: AABBox, r: Ray, a: Axis, t: real)
    requires ValidRay(r)
    ensures (SlabNear(box, r, a) <= t <= SlabFar(box, r, a)) <==> InSlab(box, At(r, t), a)
  {
    ValidRayAxis(r, a);
    SlabAxisScalar(box, r, a, t);
  }

  lemma SlabAxisScalar(box: AABBox, r: Ray, a: Axis, t: real)
    requires AxisValid(r, a)
    ensures (SlabNear(box, r, a) <= t <= SlabFar(box, r, a)) <==> InSlab(box, At(r, t), a)
  {
    var o, d, inv := Comp(r.orig, a), Comp(r.dir, a), Comp(r.invdir, a);
    var b0, b1 := Comp(box.b0, a), Comp(box.b1, a);
    assert Comp(At(r, t), a) == o + t * d by { match a case X => case Y => case Z => }
    assert SlabNear(box, r, a) == ((if inv < 0.0 then b1 else b0) - o) * inv;
    assert SlabFar(box, r, a) == ((if inv < 0.0 then b0 else b1) - o) * inv;
    ScalarSlab(o, d, inv, b0, b1, t);
  }

  /** In a well-formed box each slab interval is nonempty. */
  lemma {:induction false} SlabOrdered(box: AABBox, r: Ray, a: Axis)
    requires ValidRay(r) && WellFormed(box)
    ensures SlabNear(box, r, a) <= SlabFar(box, r, a)
  {
    var inv := Comp(r.invdir, a);
    var b0, b1 := Comp(box.b0, a), Comp(box.b1, a);
    assert b0 <= b1 by { match a case X => case Y => case Z => }
    assert Sign(r, a) == (if inv < 0.0 then 1 else 0) by { match a case X => case Y => case Z => }
    if inv < 0.0 {
      MulSign(b1 - b0, -inv);
    } else {
      MulSign(b1 - b0, inv);
    }
  }

  /** A reported hit is a point of the (well-formed) box, in front of the origin. */
  lemma {:induction false} IntersectSound(box: AABBox, r: Ray)
    requires ValidRay(r) && WellFormed(box)
    requires Intersect(box, r).Some?
    ensures Intersect(box, r).value >= 0.0
    ensures InBox(box, At(r, Intersect(box, r).value))
  {
    var t := Intersect(box, r).value;
    SlabOrdered(box, r, X);
    SlabOrdered(box, r, Y);
    SlabOrdered(box, r, Z);
    SlabAxis(box, r, X, t);
    SlabAxis(box, r, Y, t);
    SlabAxis(box, r, Z, t);
  }

  /**
   * Every box point in front of the origin is found, and the reported
   * parameter is the entry point (no later than `t`) unless the origin itself
   * lies in the box, in which case it is the exit point (no earlier than `t`).
   */
  lemma {:induction false} IntersectComplete(box: AABBox, r: Ray, t: real)
    requires ValidRay(r)
    requires t >= 0.0 && InBox(box, At(r, t))
    ensures Intersect(box, r).Some?
    ensures Intersect(box, r).value <= t || (InBox(box, r.orig) && Intersect(box, r).value >= t)
  {
    SlabAxis(box, r, X, t);
    SlabAxis(box, r, Y, t);
    SlabAxis(box, r, Z, t);
    var entry := Max3(SlabNear(box, r, X), SlabNear(box, r, Y), SlabNear(box, r, Z));
    if entry < 0.0 {
      SlabAxis(box, r, X, 0.0);
      SlabAxis(box, r, Y, 0.0);
      SlabAxis(box, r, Z, 0.0);
      assert At(r, 0.0) == r.orig;
    }
  }

  function Max3(a: real, b: real, c: real): real
  {
    var m := if a > b then a else b;
    if m > c then m else c
  }

  function Min3(a: real, b: real, c: real): real
  {
    var m := if a < b then a else b;
    if m < c then m else c
  }

  /**
   * On a well-formed box the staged comparisons amount to the textbook slab
   * test: the ray meets the box on the parameters between the latest entry
   * and the earliest exit, and the reported parameter is that entry, or the
   * exit when the entry lies behind the origin.
   */
  lemma IntersectClosedForm(box: AABBox, r: Ray)
    requires ValidRay(r) && WellFormed(box)
    ensures var entry := Max3(SlabNear(box, r, X), SlabNear(box, r, Y), SlabNear(box, r, Z));
            var exit := Min3(SlabFar(box, r, X), SlabFar(box, r, Y), SlabFar(box, r, Z));
            Intersect(box, r) ==
              if entry > exit || exit < 0.0 then None
              else if entry >= 0.0 then Some(entry)
              else Some(exit)
  {
    SlabOrdered(box, r, X);
    SlabOrdered(box, r, Y);
    SlabOrdered(box, r, Z);
  }

  /** A ray that starts inside the box always reports a hit. */
  lemma OriginInsideHits(box: AABBox, r: Ray)
    requires ValidRay(r) && InBox(box, r.orig)
    ensures Intersect(box, r).Some?
  {
    assert At(r, 0.0) == r.orig;
    IntersectComplete(box, r, 0.0);
  }
}
