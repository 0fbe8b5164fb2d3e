/**
 * The engine's small math types as the annotation code uses them:
 * vectors, 4x4 matrices applied to row vectors, the axis-aligned boxes
 * FBox and FBox2D with their accumulation and area rules, clamping and
 * the tolerance tests. Floating point is modelled by `real`.
 */
module Geometry {

  datatype Vec2 = Vec2(x: real, y: real)
  datatype Vec3 = Vec3(x: real, y: real, z: real)
  datatype Vec4 = Vec4(x: real, y: real, z: real, w: real)

  /** A 4x4 matrix stored row by row; points are row vectors multiplied on the left (v * M). */
  datatype Mat4 = Mat4(r0: Vec4, r1: Vec4, r2: Vec4, r3: Vec4)

  const Identity: Mat4 :=
    Mat4(Vec4(1.0, 0.0, 0.0, 0.0), Vec4(0.0, 1.0, 0.0, 0.0),
         Vec4(0.0, 0.0, 1.0, 0.0), Vec4(0.0, 0.0, 0.0, 1.0))

  /** SMALL_NUMBER, the default tolerance of the scalar nearly-zero test. */
  const SmallNumber: real := 0.00000001
  /** KINDA_SMALL_NUMBER, the default tolerance of the vector test and the substitute for a vanishing w. */
  const KindaSmallNumber: real := 0.0001

  function Scale4(k: real, v: Vec4): Vec4 {
    Vec4(k * v.x, k * v.y, k * v.z, k * v.w)
  }

  function Add4(a: Vec4, b: Vec4): Vec4 {
    Vec4(a.x + b.x, a.y + b.y, a.z + b.z, a.w + b.w)
  }

  /** FMatrix::TransformFVector4: the row vector v times m. */
  function TransformVector4(m: Mat4, v: Vec4): Vec4 {
    Add4(Add4(Scale4(v.x, m.r0), Scale4(v.y, m.r1)), Add4(Scale4(v.z, m.r2), Scale4(v.w, m.r3)))
  }

  /** TransformPosition: the point (p, 1) times m, keeping the first three components. */
  function TransformPosition(m: Mat4, p: Vec3): Vec3 {
    var q := TransformVector4(m, Vec4(p.x, p.y, p.z, 1.0));
    Vec3(q.x, q.y, q.z)
  }

  lemma IdentityTransformsToItself(v: Vec4)
    ensures TransformVector4(Identity, v) == v
  {
  }

  function Min(a: real, b: real): real { if a <= b then a else b }
  function Max(a: real, b: real): real { if a >= b then a else b }

  /** FMath::Clamp: below lo gives lo, otherwise below hi gives x, otherwise hi. */
  function Clamp(x: real, lo: real, hi: real): (r: real)
    requires lo <= hi
    ensures lo <= r <= hi
    ensures lo <= x <= hi ==> r == x
  {
    if x < lo then lo else if x < hi then x else hi
  }

  /** Clamping never moves two ordered values further apart, and keeps them ordered. */
  lemma ClampShrinks(a: real, b: real, lo: real, hi: real)
    requires lo <= hi && a <= b
    ensures 0.0 <= Clamp(b, lo, hi) - Clamp(a, lo, hi) <= b - a
  {
  }

  function Abs(x: real): real { if x < 0.0 then -x else x }

  /** FMath::IsNearlyZero with an explicit tolerance. */
  predicate IsNearlyZero(x: real, tolerance: real) {
    Abs(x) <= tolerance
  }

  /** FVector::IsZero: every component is exactly zero. */
  predicate Vec3IsZero(v: Vec3) {
    v.x == 0.0 && v.y == 0.0 && v.z == 0.0
  }

  /** FVector::IsNearlyZero: every component lies within the tolerance. */
  predicate Vec3IsNearlyZero(v: Vec3, tolerance: real) {
    IsNearlyZero(v.x, tolerance) && IsNearlyZero(v.y, tolerance) && IsNearlyZero(v.z, tolerance)
  }

  lemma ZeroIsNearlyZero(v: Vec3, tolerance: real)
    requires tolerance >= 0.0 && Vec3IsZero(v)
    ensures Vec3IsNearlyZero(v, tolerance)
  {
  }

  // ---------------------------------------------------------------- FBox (3D)

  /** FBox: a 3D axis-aligned box with a validity flag. */
  datatype Box3 = Box3(min: Vec3, max: Vec3, isValid: bool)

  /** FBox::GetExtent: half the size along each axis. */
  function Extent(b: Box3): Vec3 {
    Vec3(0.5 * (b.max.x - b.min.x), 0.5 * (b.max.y - b.min.y), 0.5 * (b.max.z - b.min.z))
  }

  /** FBox::GetCenter: the midpoint of the corners. */
  function Center(b: Box3): Vec3 {
    Vec3(0.5 * (b.min.x + b.max.x), 0.5 * (b.min.y + b.max.y), 0.5 * (b.min.z + b.max.z))
  }

  // ---------------------------------------------------------------- FBox2D

  /** FBox2D: a 2D axis-aligned box with a validity flag. */
  datatype Box2D = Box2D(min: Vec2, max: Vec2, isValid: bool)

  /** FBox2D(ForceInitToZero): both corners at the origin, not valid. */
  const ZeroBox: Box2D := Box2D(Vec2(0.0, 0.0), Vec2(0.0, 0.0), false)

  /** FBox2D += FVector2D: an invalid box becomes the point; a valid one grows to include it. */
  function AddPoint(b: Box2D, p: Vec2): (r: Box2D)
    ensures r.isValid && ContainsPoint(r, p)
    ensures b.isValid ==> ContainsBox(r, b)
    ensures b.isValid && Ordered(b) ==> Ordered(r)
    ensures !b.isValid ==> Ordered(r)
  {
    if b.isValid then
      Box2D(Vec2(Min(b.min.x, p.x), Min(b.min.y, p.y)), Vec2(Max(b.max.x, p.x), Max(b.max.y, p.y)), true)
    else
      Box2D(p, p, true)
  }

  /** FBox2D += FBox2D: two valid boxes give their hull; an invalid operand is ignored. */
  function Union(a: Box2D, b: Box2D): (r: Box2D)
    ensures r.isValid == (a.isValid || b.isValid)
    ensures a.isValid ==> ContainsBox(r, a)
    ensures b.isValid ==> ContainsBox(r, b)
    ensures !a.isValid && !b.isValid ==> r == a
    ensures (a.isValid || b.isValid) && (a.isValid ==> Ordered(a)) && (b.isValid ==> Ordered(b)) ==> Ordered(r)
  {
    if a.isValid && b.isValid then
      Box2D(Vec2(Min(a.min.x, b.min.x), Min(a.min.y, b.min.y)),
            Vec2(Max(a.max.x, b.max.x), Max(a.max.y, b.max.y)), true)
    else if b.isValid then b
    else a
  }

  /** FBox2D::GetArea: width times height, whatever the validity flag says. */
  function Area(b: Box2D): real {
    (b.max.x - b.min.x) * (b.max.y - b.min.y)
  }

  /** The boxes unioned in order onto the zero box (repeated FBox2D += FBox2D). */
  function UnionAll(bs: seq<Box2D>): Box2D {
    if bs == [] then ZeroBox else Union(UnionAll(bs[..|bs| - 1]), bs[|bs| - 1])
  }

  /** A box as Calculate2dAABB returns it: valid and ordered, or the zero box. */
  predicate IsPartBox(b: Box2D) {
    (b.isValid && Ordered(b)) || b == ZeroBox
  }

  /** The union of part boxes is ordered, valid iff some part is, otherwise the zero box. */
  lemma {:induction false} UnionAllValidity(bs: seq<Box2D>)
    requires forall i :: 0 <= i < |bs| ==> IsPartBox(bs[i])
    ensures Ordered(UnionAll(bs))
    ensures UnionAll(bs).isValid <==> exists i :: 0 <= i < |bs| && bs[i].isValid
    ensures !UnionAll(bs).isValid ==> UnionAll(bs) == ZeroBox
  {
    if bs != [] {
      var init := bs[..|bs| - 1];
      assert forall i :: 0 <= i < |init| ==> init[i] == bs[i];
      UnionAllValidity(init);
      if UnionAll(bs).isValid && !bs[|bs| - 1].isValid {
        var i :| 0 <= i < |init| && init[i].isValid;
        assert bs[i].isValid;
      }
    }
  }

  /** The union holds every valid part. */
  lemma {:induction false} UnionAllContains(bs: seq<Box2D>, i: nat)
    requires forall k :: 0 <= k < |bs| ==> IsPartBox(bs[k])
    requires i < |bs| && bs[i].isValid
    ensures ContainsBox(UnionAll(bs), bs[i])
  {
    var init := bs[..|bs| - 1];
    assert forall k :: 0 <= k < |init| ==> init[k] == bs[k];
    if i < |init| {
      UnionAllContains(init, i);
      UnionAllValidity(init);
    }
  }

  /** The union is the smallest box: a box holding every valid operand holds it. */
  lemma UnionSmallest(a: Box2D, b: Box2D, q: Box2D)
    requires a.isValid || b.isValid
    requires a.isValid ==> ContainsBox(q, a)
    requires b.isValid ==> ContainsBox(q, b)
    ensures ContainsBox(q, Union(a, b))
  {
  }

  /** q holds every valid box of bs. */
  predicate HoldsValidParts(q: Box2D, bs: seq<Box2D>) {
    forall k :: 0 <= k < |bs| && bs[k].isValid ==> ContainsBox(q, bs[k])
  }

  /** The union of part boxes is the smallest box holding every valid part. */
  lemma {:induction false} UnionAllSmallest(bs: seq<Box2D>, q: Box2D)
    requires forall k :: 0 <= k < |bs| ==> IsPartBox(bs[k])
    requires exists i :: 0 <= i < |bs| && bs[i].isValid
    requires HoldsValidParts(q, bs)
    ensures ContainsBox(q, UnionAll(bs))
  {
    var init := bs[..|bs| - 1];
    var last := bs[|bs| - 1];
    assert forall k :: 0 <= k < |init| ==> init[k] == bs[k];
    UnionAllValidity(init);
    if exists i :: 0 <= i < |init| && init[i].isValid {
      UnionAllSmallest(init, q);
    }
    UnionSmallest(UnionAll(init), last, q);
  }

  /** A box whose area is not positive is marked invalid; the corners are kept. */
  function InvalidateIfEmpty(b: Box2D): (r: Box2D)
    ensures r.min == b.min && r.max == b.max
    ensures r.isValid <==> b.isValid && Area(b) > 0.0
  {
    if Area(b) <= 0.0 then b.(isValid := false) else b
  }

  /** Once a box that is valid, or the zero box, has been checked, its validity says its area is positive. */
  lemma InvalidateIfEmptyMeansPositiveArea(b: Box2D)
    requires b.isValid || b == ZeroBox
    ensures InvalidateIfEmpty(b).isValid <==> Area(InvalidateIfEmpty(b)) > 0.0
  {
  }

  predicate Ordered(b: Box2D) {
    b.min.x <= b.max.x && b.min.y <= b.max.y
  }

  predicate ContainsPoint(b: Box2D, p: Vec2) {
    b.min.x <= p.x <= b.max.x && b.min.y <= p.y <= b.max.y
  }

  predicate ContainsBox(outer: Box2D, inner: Box2D) {
    outer.min.x <= inner.min.x && inner.max.x <= outer.max.x &&
    outer.min.y <= inner.min.y && inner.max.y <= outer.max.y
  }

  /** Every corner coordinate of b lies in [0, bound]. */
  predicate WithinBounds(b: Box2D, bound: Vec2) {
    0.0 <= b.min.x <= bound.x && 0.0 <= b.max.x <= bound.x &&
    0.0 <= b.min.y <= bound.y && 0.0 <= b.max.y <= bound.y
  }

  lemma OrderedAreaNonNegative(b: Box2D)
    requires Ordered(b)
    ensures Area(b) >= 0.0
  {
    MulNonNegative(b.max.x - b.min.x, b.max.y - b.min.y);
  }

  lemma MulNonNegative(a: real, b: real)
    requires a >= 0.0 && b >= 0.0
    ensures a * b >= 0.0
  {
  }

  /** 0 <= a <= A and 0 <= b <= B give a * b <= A * B. */
  lemma MulMonotone(a: real, b: real, bigA: real, bigB: real)
    requires 0.0 <= a <= bigA && 0.0 <= b <= bigB
    ensures 0.0 <= a * b <= bigA * bigB
  {
    assert a * b <= bigA * b;
    assert bigA * b <= bigA * bigB;
  }
}
