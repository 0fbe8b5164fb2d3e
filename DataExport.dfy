/**
 * The per-object decision rules of the annotation exporter: which actors are
 * exported, how a world point is projected into the image, and the scalar
 * metrics distance_scale, occluded and truncated.
 */
module DataExport {
  import opened Optional
  import opened Geometry
  import opened CapturerUtils
  import opened ExportSettings
  import opened Scene

  // ---------------------------------------------------------------- export filter

  /** IsActorInViewFrustum: a nearly flat bounding box is never in view; otherwise the frustum test decides. */
  function IsActorInViewFrustum(a: Actor): (r: bool)
    ensures r ==> a.intersectsViewFrustum
    ensures Vec3IsNearlyZero(Extent(a.componentsBounds), KindaSmallNumber) ==> !r
    ensures !Vec3IsNearlyZero(Extent(a.componentsBounds), KindaSmallNumber) ==> r == a.intersectsViewFrustum
  {
    if Vec3IsNearlyZero(Extent(a.componentsBounds), KindaSmallNumber) then false
    else a.intersectsViewFrustum
  }

  /** The tag grants export: policy AllTaggedObjects and a tag with bIncludeMe. */
  predicate TagGrantsExport(s: DataExportSettings, a: Actor) {
    s.includeObjectsType == AllTaggedObjects && a.tag.Some? && a.tag.value.includeMe
  }

  /**
   * ShouldExportActor: an exported actor has a reason (visible with the hidden filter off,
   * or a granting tag), a mesh component and a bounding box that is not flat; with the
   * hidden filter on it is also visible and in view.
   */
  function ShouldExportActor(s: DataExportSettings, a: Actor): (r: bool)
    ensures r ==> (!s.ignoreHiddenActor && !a.hidden) || TagGrantsExport(s, a)
    ensures r ==> |a.meshComponents| > 0 && !Vec3IsZero(Extent(a.componentsBounds))
    ensures r && s.ignoreHiddenActor ==> !a.hidden && IsActorInViewFrustum(a)
  {
    if s.ignoreHiddenActor && (a.hidden || !IsActorInViewFrustum(a)) then false
    else
      var bExport := (!s.ignoreHiddenActor && !a.hidden) || TagGrantsExport(s, a);
      if bExport then |a.meshComponents| > 0 && !Vec3IsZero(Extent(a.componentsBounds))
      else false
  }

  /** With the hidden filter on, a hidden or out-of-view actor is never exported. */
  lemma HiddenFilterExcludes(s: DataExportSettings, a: Actor)
    requires s.ignoreHiddenActor
    ensures a.hidden ==> !ShouldExportActor(s, a)
    ensures !IsActorInViewFrustum(a) ==> !ShouldExportActor(s, a)
    ensures Vec3IsNearlyZero(Extent(a.componentsBounds), KindaSmallNumber) ==> !ShouldExportActor(s, a)
  {
  }

  /**
   * Export needs a reason (visible with the hidden filter off, or a granting tag)
   * and geometry (a mesh component and a bounding box that is not flat); with the
   * hidden filter on the actor must also be visible and in view.
   */
  lemma ExportFilterRule(s: DataExportSettings, a: Actor)
    ensures ShouldExportActor(s, a) <==>
            (s.ignoreHiddenActor ==> !a.hidden && IsActorInViewFrustum(a)) &&
            ((!s.ignoreHiddenActor && !a.hidden) || TagGrantsExport(s, a)) &&
            |a.meshComponents| > 0 && !Vec3IsZero(Extent(a.componentsBounds))
  {
  }

  /** MatchesTag never grants export, so together with the hidden filter nothing is exported. */
  lemma MatchesTagWithHiddenFilterExportsNothing(s: DataExportSettings, a: Actor)
    requires s.includeObjectsType == MatchesTag && s.ignoreHiddenActor
    ensures !ShouldExportActor(s, a)
  {
  }

  /** Under the default settings an actor is exported only through a tag with bIncludeMe. */
  lemma DefaultSettingsExportOnlyTagged(a: Actor)
    ensures ShouldExportActor(DefaultDataExportSettings(), a) ==>
            a.tag.Some? && a.tag.value.includeMe && !a.hidden && a.intersectsViewFrustum
  {
  }

  /** The filter reads bIncludeMe, not the tag's validity: an unlabelled tag still grants export. */
  lemma UnlabelledTagGrantsExport(s: DataExportSettings, a: Actor)
    requires s.includeObjectsType == AllTaggedObjects && a.tag == Some(DefaultCapturableActorTag())
    ensures TagGrantsExport(s, a) && !TagIsValid(a.tag.value)
  {
  }

  // ---------------------------------------------------------------- projection

  /** What projection reads from the exporter: the view-projection, the pixel flag and the image size. */
  datatype Projector = Projector(viewProjection: Mat4, inPixel: bool, imageSize: ImageSize)

  /** The homogeneous w used for the divide: a nearly-zero w is replaced by KINDA_SMALL_NUMBER. */
  function SafeW(w: real): (r: real)
    ensures r != 0.0
    ensures IsNearlyZero(w, SmallNumber) ==> r == KindaSmallNumber
    ensures !IsNearlyZero(w, SmallNumber) ==> r == w
  {
    if IsNearlyZero(w, SmallNumber) then KindaSmallNumber else w
  }

  /** The clip-space point of p after the perspective divide; a non-positive w forces z to 0. */
  function PlanePosition(m: Mat4, p: Vec3): Vec3 {
    var q := TransformVector4(m, Vec4(p.x, p.y, p.z, 1.0));
    var w := SafeW(q.w);
    var rhw := 1.0 / w;
    Vec3(q.x * rhw, q.y * rhw, if w <= 0.0 then 0.0 else q.z * rhw)
  }

  /**
   * ProjectWorldPositionToImagePosition: the depth is the divided clip z; in normalized mode
   * the image x and y map back to the divided clip x and y (y flipped).
   */
  function ProjectWorldPositionToImagePosition(pr: Projector, p: Vec3): (r: Vec3)
    ensures r.z == PlanePosition(pr.viewProjection, p).z
    ensures !pr.inPixel ==> 2.0 * r.x - 1.0 == PlanePosition(pr.viewProjection, p).x &&
                            1.0 - 2.0 * r.y == PlanePosition(pr.viewProjection, p).y
  {
    var plane := PlanePosition(pr.viewProjection, p);
    var x := 0.5 * (plane.x + 1.0);
    var y := 0.5 * (-plane.y + 1.0);
    if pr.inPixel then Vec3(x * pr.imageSize.width as real, y * pr.imageSize.height as real, plane.z)
    else Vec3(x, y, plane.z)
  }

  /** The clip-space x and y an image position came from (the inverse of the image mapping). */
  function ImageToPlane(pr: Projector, img: Vec3): Vec2
    requires pr.inPixel ==> pr.imageSize.width > 0 && pr.imageSize.height > 0
  {
    var x := if pr.inPixel then img.x / pr.imageSize.width as real else img.x;
    var y := if pr.inPixel then img.y / pr.imageSize.height as real else img.y;
    Vec2(2.0 * x - 1.0, 1.0 - 2.0 * y)
  }

  /** Projection loses nothing of the divided x and y: mapping the image position back recovers them. */
  lemma ProjectionRoundTrip(pr: Projector, p: Vec3)
    requires pr.inPixel ==> pr.imageSize.width > 0 && pr.imageSize.height > 0
    ensures ImageToPlane(pr, ProjectWorldPositionToImagePosition(pr, p)) ==
            Vec2(PlanePosition(pr.viewProjection, p).x, PlanePosition(pr.viewProjection, p).y)
  {
    var plane := PlanePosition(pr.viewProjection, p);
    var img := ProjectWorldPositionToImagePosition(pr, p);
    if pr.inPixel {
      var w, h := pr.imageSize.width as real, pr.imageSize.height as real;
      var nx, ny := 0.5 * (plane.x + 1.0), 0.5 * (-plane.y + 1.0);
      assert img == Vec3(nx * w, ny * h, plane.z);
      ScaleThenDivide(nx, w);
      ScaleThenDivide(ny, h);
      assert img.x / w == nx && img.y / h == ny;
    }
  }

  lemma ScaleThenDivide(a: real, k: real)
    requires k != 0.0
    ensures a * k / k == a
  {
  }

  /** How w decides the divide and the depth. */
  lemma ProjectionDepth(pr: Projector, p: Vec3)
    ensures var q := TransformVector4(pr.viewProjection, Vec4(p.x, p.y, p.z, 1.0));
            var img := ProjectWorldPositionToImagePosition(pr, p);
            && (q.w < -SmallNumber ==> img.z == 0.0)
            && (IsNearlyZero(q.w, SmallNumber) ==>
                  img.z == q.z / KindaSmallNumber && PlanePosition(pr.viewProjection, p).x == q.x / KindaSmallNumber)
            && (q.w > SmallNumber ==> img.z == q.z / q.w)
  {
  }

  /** In normalized mode the image x is in [0,1] exactly when the clip x is in [-1,1], and likewise y (flipped). */
  lemma NormalizedImageMatchesClipRange(pr: Projector, p: Vec3)
    requires !pr.inPixel
    ensures var plane := PlanePosition(pr.viewProjection, p);
            var img := ProjectWorldPositionToImagePosition(pr, p);
            && (0.0 <= img.x <= 1.0 <==> -1.0 <= plane.x <= 1.0)
            && (0.0 <= img.y <= 1.0 <==> -1.0 <= plane.y <= 1.0)
            && (plane.y == 1.0 ==> img.y == 0.0) && (plane.y == -1.0 ==> img.y == 1.0)
  {
  }

  /** Pixel mode scales the normalized x by the width and y by the height and keeps the depth. */
  lemma PixelModeScalesNormalized(m: Mat4, size: ImageSize, p: Vec3)
    ensures var px := ProjectWorldPositionToImagePosition(Projector(m, true, size), p);
            var nx := ProjectWorldPositionToImagePosition(Projector(m, false, size), p);
            px == Vec3(nx.x * size.width as real, nx.y * size.height as real, nx.z)
  {
  }

  /** With the initial identity view-projection, w is 1 and the point maps affinely. */
  lemma IdentityProjection(size: ImageSize, p: Vec3)
    ensures ProjectWorldPositionToImagePosition(Projector(Identity, false, size), p) ==
            Vec3(0.5 * (p.x + 1.0), 0.5 * (1.0 - p.y), p.z)
  {
    assert TransformVector4(Identity, Vec4(p.x, p.y, p.z, 1.0)) == Vec4(p.x, p.y, p.z, 1.0);
  }

  // ---------------------------------------------------------------- distance_scale

  /** distance_scale: the distance placed on the configured range, not clamped; a void range gives 0 or 1. */
  function DistanceScale(range: FloatInterval, d: real): (s: real)
    ensures Size(range) > 0.0 ==> s * Size(range) + range.min == d
    ensures Size(range) <= 0.0 ==> (s == 1.0 <==> d >= range.max) && (s == 0.0 <==> d < range.max)
  {
    if Size(range) > 0.0 then (d - range.min) / Size(range)
    else if d >= range.max then 1.0 else 0.0
  }

  /** The scale is 0 at the near end and 1 at the far end, and leaves [0,1] outside the range. */
  lemma DistanceScaleEndpoints(range: FloatInterval, d: real)
    requires Size(range) > 0.0
    ensures DistanceScale(range, range.min) == 0.0 && DistanceScale(range, range.max) == 1.0
    ensures d > range.max ==> DistanceScale(range, d) > 1.0
    ensures d < range.min ==> DistanceScale(range, d) < 0.0
  {
    var r := Size(range);
    assert DistanceScale(range, range.max) == r / r;
    ScaleThenDivide(1.0, r);
    if d > range.max {
      DivDifference(d - range.min, r, r);
      assert DistanceScale(range, d) - 1.0 == (d - range.max) / r;
    }
    if d < range.min {
      assert DistanceScale(range, d) == (d - range.min) / r;
    }
  }

  /** A farther object never gets a smaller scale. */
  lemma DistanceScaleMonotone(range: FloatInterval, d1: real, d2: real)
    requires d1 <= d2
    ensures DistanceScale(range, d1) <= DistanceScale(range, d2)
  {
    if Size(range) > 0.0 {
      var r := Size(range);
      DivDifference(d2 - range.min, d1 - range.min, r);
      assert DistanceScale(range, d2) - DistanceScale(range, d1) == (d2 - d1) / r;
    }
  }

  lemma DivDifference(a: real, b: real, r: real)
    requires r != 0.0
    ensures a / r - b / r == (a - b) / r
  {
  }

  /** Under the default range [100,1000] the scale is (d - 100) / 900. */
  lemma DefaultDistanceScale(d: real)
    ensures DistanceScale(DefaultDataExportSettings().distanceScaleRange, d) * 900.0 == d - 100.0
  {
  }

  // ---------------------------------------------------------------- occlusion

  /** The number of vertices whose visibility trace is blocked. */
  function BlockedCount(vs: seq<Vec3>, blocked: set<Vec3>): (n: nat)
    ensures n <= |vs|
  {
    if vs == [] then 0
    else BlockedCount(vs[..|vs| - 1], blocked) + (if vs[|vs| - 1] in blocked then 1 else 0)
  }

  /** No blocked vertex gives 0 and only then; every vertex blocked gives |vs| and only then. */
  lemma {:induction false} BlockedCountExtremes(vs: seq<Vec3>, blocked: set<Vec3>)
    ensures BlockedCount(vs, blocked) == 0 <==> forall i :: 0 <= i < |vs| ==> vs[i] !in blocked
    ensures BlockedCount(vs, blocked) == |vs| <==> forall i :: 0 <= i < |vs| ==> vs[i] in blocked
  {
    if vs != [] {
      var init := vs[..|vs| - 1];
      BlockedCountExtremes(init, blocked);
      assert forall i :: 0 <= i < |init| ==> init[i] == vs[i];
    }
  }

  /** The occlusion class: 0 with no blocked corner, 1 with one to four, 2 with more than four. */
  function OcclusionClass(occludedPts: nat): (c: nat)
    ensures c <= 2
    ensures c == 0 <==> occludedPts == 0
    ensures c == 1 <==> 1 <= occludedPts <= 4
    ensures c == 2 <==> occludedPts > 4
  {
    if occludedPts > 4 then 2 else if occludedPts > 0 then 1 else 0
  }

  /** More blocked corners never give a lower class. */
  lemma OcclusionClassMonotone(a: nat, b: nat)
    requires a <= b
    ensures OcclusionClass(a) <= OcclusionClass(b)
  {
  }

  /** Over a cuboid's 8 corners the count is at most 8; all blocked is class 2, none blocked class 0. */
  lemma CuboidOcclusion(c: Cuboid, blocked: set<Vec3>)
    ensures BlockedCount(c.vertexes, blocked) <= CuboidVertexTypeMax
    ensures (forall t :: GetVertex(c, t) in blocked) ==> OcclusionClass(BlockedCount(c.vertexes, blocked)) == 2
    ensures (forall t :: GetVertex(c, t) !in blocked) ==> OcclusionClass(BlockedCount(c.vertexes, blocked)) == 0
  {
    BlockedCountExtremes(c.vertexes, blocked);
    if forall t :: GetVertex(c, t) in blocked {
      forall i | 0 <= i < |c.vertexes| ensures c.vertexes[i] in blocked {
        EveryCornerIsNamed(c, i);
      }
    }
    if forall t :: GetVertex(c, t) !in blocked {
      forall i | 0 <= i < |c.vertexes| ensures c.vertexes[i] !in blocked {
        EveryCornerIsNamed(c, i);
      }
    }
  }

  // ---------------------------------------------------------------- truncation

  /** The box with each corner coordinate clamped into [0, bound]. */
  function ClampToImage(b: Box2D, bound: Vec2): (r: Box2D)
    requires bound.x >= 0.0 && bound.y >= 0.0
    ensures WithinBounds(r, bound) && r.isValid == b.isValid
  {
    Box2D(Vec2(Clamp(b.min.x, 0.0, bound.x), Clamp(b.min.y, 0.0, bound.y)),
          Vec2(Clamp(b.max.x, 0.0, bound.x), Clamp(b.max.y, 0.0, bound.y)), b.isValid)
  }

  /** 1 - clampedArea/fullArea when the full area is positive, otherwise 1. */
  function TruncationOf(full: Box2D, clamped: Box2D): real {
    var fullArea := Area(full);
    if fullArea > 0.0 then 1.0 - Area(clamped) / fullArea else 1.0
  }

  /**
   * truncated as the exporter computes it: the box is clamped to [0,1] whatever its units.
   * For an ordered box it lies in [0,1]; a box of positive area inside [0,1] gives 0.
   */
  function TruncationAsWritten(bb: Box2D): (r: real)
    ensures Ordered(bb) ==> 0.0 <= r <= 1.0
    ensures WithinBounds(bb, Vec2(1.0, 1.0)) && Area(bb) > 0.0 ==> r == 0.0
  {
    TruncationBounds(bb, Vec2(1.0, 1.0));
    TruncationOf(bb, ClampToImage(bb, Vec2(1.0, 1.0)))
  }

  /** The image's extent in the projector's units: [0,1] normalized, width x height in pixels. */
  function ImageExtent(pr: Projector): (e: Vec2)
    ensures e.x >= 0.0 && e.y >= 0.0
  {
    if pr.inPixel then Vec2(pr.imageSize.width as real, pr.imageSize.height as real) else Vec2(1.0, 1.0)
  }

  /**
   * truncated with the box clamped to the image in the units the box is expressed in. For
   * an ordered box it lies in [0,1]; a box of positive area inside the image gives 0.
   */
  function Truncation(pr: Projector, bb: Box2D): (r: real)
    ensures Ordered(bb) ==> 0.0 <= r <= 1.0
    ensures WithinBounds(bb, ImageExtent(pr)) && Area(bb) > 0.0 ==> r == 0.0
  {
    TruncationBounds(bb, ImageExtent(pr));
    TruncationOf(bb, ClampToImage(bb, ImageExtent(pr)))
  }

  /** The truncation against [0, bound]: in [0,1] for an ordered box, 0 for a box of positive area inside. */
  lemma TruncationBounds(bb: Box2D, bound: Vec2)
    requires bound.x >= 0.0 && bound.y >= 0.0
    ensures Ordered(bb) ==> 0.0 <= TruncationOf(bb, ClampToImage(bb, bound)) <= 1.0
    ensures WithinBounds(bb, bound) && Area(bb) > 0.0 ==> TruncationOf(bb, ClampToImage(bb, bound)) == 0.0
  {
    if Ordered(bb) {
      TruncationInUnitRange(bb, bound);
    }
    if WithinBounds(bb, bound) && Area(bb) > 0.0 {
      TruncationZeroInsideImage(bb, bound);
    }
  }

  /** The clamped box of an ordered box is ordered and no larger. */
  lemma ClampedAreaBounded(b: Box2D, bound: Vec2)
    requires bound.x >= 0.0 && bound.y >= 0.0 && Ordered(b)
    ensures Ordered(ClampToImage(b, bound))
    ensures 0.0 <= Area(ClampToImage(b, bound)) <= Area(b)
  {
    var c := ClampToImage(b, bound);
    ClampShrinks(b.min.x, b.max.x, 0.0, bound.x);
    ClampShrinks(b.min.y, b.max.y, 0.0, bound.y);
    MulMonotone(c.max.x - c.min.x, c.max.y - c.min.y, b.max.x - b.min.x, b.max.y - b.min.y);
  }

  /** For an ordered box the truncation lies in [0,1], in either units. */
  lemma TruncationInUnitRange(bb: Box2D, bound: Vec2)
    requires bound.x >= 0.0 && bound.y >= 0.0 && Ordered(bb)
    ensures 0.0 <= TruncationOf(bb, ClampToImage(bb, bound)) <= 1.0
  {
    var c := ClampToImage(bb, bound);
    ClampedAreaBounded(bb, bound);
    if Area(bb) > 0.0 {
      RatioInUnitRange(Area(c), Area(bb));
    }
  }

  lemma RatioInUnitRange(part: real, whole: real)
    requires 0.0 <= part <= whole && whole > 0.0
    ensures 0.0 <= part / whole <= 1.0
  {
    assert part / whole * whole == part;
  }

  /** A box with positive area inside the image is not truncated at all. */
  lemma TruncationZeroInsideImage(bb: Box2D, bound: Vec2)
    requires bound.x >= 0.0 && bound.y >= 0.0 && WithinBounds(bb, bound) && Area(bb) > 0.0
    ensures TruncationOf(bb, ClampToImage(bb, bound)) == 0.0
  {
    assert ClampToImage(bb, bound) == bb;
  }

  /** A box entirely left of or above the image is fully truncated; so is a box of no area. */
  lemma TruncationOneOutsideImage(bb: Box2D, bound: Vec2)
    requires bound.x >= 0.0 && bound.y >= 0.0 && Ordered(bb)
    requires bb.max.x <= 0.0 || bb.max.y <= 0.0 || Area(bb) <= 0.0
    ensures TruncationOf(bb, ClampToImage(bb, bound)) == 1.0
  {
    var c := ClampToImage(bb, bound);
    if bb.max.x <= 0.0 {
      assert c.min.x == 0.0 && c.max.x == 0.0;
    } else if bb.max.y <= 0.0 {
      assert c.min.y == 0.0 && c.max.y == 0.0;
    }
  }

  /** In normalized mode the corrected rule and the rule as written agree. */
  lemma TruncationNormalizedAgrees(pr: Projector, bb: Box2D)
    requires !pr.inPixel
    ensures Truncation(pr, bb) == TruncationAsWritten(bb)
  {
  }

  /**
   * In pixel mode (the default) the rule as written clamps pixel coordinates to [0,1]:
   * a 20x20 pixel box well inside a 100x100 image is reported fully truncated.
   */
  lemma TruncationAsWrittenInPixelMode()
    ensures var pr := Projector(Identity, true, ImageSize(100, 100));
            var bb := Box2D(Vec2(40.0, 40.0), Vec2(60.0, 60.0), true);
            TruncationAsWritten(bb) == 1.0 && Truncation(pr, bb) == 0.0
  {
    var pr := Projector(Identity, true, ImageSize(100, 100));
    var bb := Box2D(Vec2(40.0, 40.0), Vec2(60.0, 60.0), true);
    assert ClampToImage(bb, Vec2(1.0, 1.0)) == Box2D(Vec2(1.0, 1.0), Vec2(1.0, 1.0), true);
    TruncationZeroInsideImage(bb, ImageExtent(pr));
  }
}
