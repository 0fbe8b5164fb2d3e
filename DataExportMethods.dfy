/**
 * The annotation exporter's loops as it runs them: vertex collection, the 2D box
 * accumulation, the component union, the occlusion count and the field-by-field
 * filling of one actor's record. Each is proved to compute its specification
 * function from the BoundingBoxes, DataExport and ActorRecords modules.
 */
module DataExportMethods {
  import opened Optional
  import opened Geometry
  import opened CapturerUtils
  import opened ExportSettings
  import opened Scene
  import opened DataExport
  import opened BoundingBoxes
  import opened ActorRecords

  // ---------------------------------------------------------------- vertex collection

  /** BoundVertexes.Add over every vertex of every convex element, appended to vs. */
  method AddConvexVertexes(vs: seq<Vec3>, t: Mat4, elems: seq<ConvexElem>) returns (r: seq<Vec3>)
    ensures r == vs + ConvexVertexes(t, elems)
  {
    r := vs;
    var i := 0;
    while i < |elems|
      invariant 0 <= i <= |elems|
      invariant r == vs + ConvexVertexes(t, elems[..i])
    {
      var data := elems[i].vertexData;
      ghost var before := r;
      var j := 0;
      while j < |data|
        invariant 0 <= j <= |data|
        invariant r == before + TransformAll(t, data[..j])
      {
        assert TransformAll(t, data[..j + 1]) == TransformAll(t, data[..j]) + [TransformPosition(t, data[j])];
        r := r + [TransformPosition(t, data[j])];
        j := j + 1;
      }
      assert data[..j] == data;
      assert elems[..i + 1][..i] == elems[..i];
      i := i + 1;
    }
    assert elems[..i] == elems;
  }

  /** The physics asset loop: null body setups are skipped, the others add their convex vertices. */
  method AddPhysicsAssetVertexes(vs: seq<Vec3>, t: Mat4, setups: seq<Option<BodySetup>>) returns (r: seq<Vec3>)
    ensures r == vs + PhysicsAssetVertexes(t, setups)
  {
    r := vs;
    var i := 0;
    while i < |setups|
      invariant 0 <= i <= |setups|
      invariant r == vs + PhysicsAssetVertexes(t, setups[..i])
    {
      assert setups[..i + 1][..i] == setups[..i];
      if setups[i].Some? {
        r := AddConvexVertexes(r, t, setups[i].value.convexElems);
      }
      i := i + 1;
    }
    assert setups[..i] == setups;
  }

  /** The LOD0 position loop. */
  method AddLod0Vertexes(vs: seq<Vec3>, t: Mat4, lod: StaticMeshLod) returns (r: seq<Vec3>)
    ensures r == vs + TransformAll(t, lod.positions)
  {
    r := vs;
    var i := 0;
    while i < |lod.positions|
      invariant 0 <= i <= |lod.positions|
      invariant r == vs + TransformAll(t, lod.positions[..i])
    {
      assert TransformAll(t, lod.positions[..i + 1]) ==
             TransformAll(t, lod.positions[..i]) + [TransformPosition(t, lod.positions[i])];
      r := r + [TransformPosition(t, lod.positions[i])];
      i := i + 1;
    }
    assert lod.positions[..i] == lod.positions;
  }

  /** The vertex gathering of Calculate2dAABB_MeshComplexCollision. */
  method GatherBoundVertexes(comp: MeshComponent) returns (vs: seq<Vec3>)
    ensures vs == BoundVertexes(comp)
  {
    vs := [];
    match comp {
      case StaticMeshComponent(t, mesh) =>
        if mesh.Some? {
          if mesh.value.bodySetup.Some? {
            vs := AddConvexVertexes(vs, t, mesh.value.bodySetup.value.convexElems);
          }
          if vs == [] {
            if mesh.value.renderData.Some? && |mesh.value.renderData.value| > 0 {
              vs := AddLod0Vertexes(vs, t, mesh.value.renderData.value[0]);
            }
          }
        }
      case SkeletalMeshComponent(t, mesh) =>
        if mesh.Some? && mesh.value.physicsAsset.Some? {
          vs := AddPhysicsAssetVertexes(vs, t, mesh.value.physicsAsset.value.skeletalBodySetups);
        }
      case OtherMeshComponent =>
    }
  }

  // ---------------------------------------------------------------- 2D boxes

  /** Calculate2dAABB: the zero box grown by each projected (and optionally clamped) vertex. */
  method Calculate2dAABB(pr: Projector, vs: seq<Vec3>, clampToImage: bool) returns (box: Box2D)
    ensures box == Box2DOfVertexes(pr, clampToImage, vs)
  {
    ghost var pts := ProjectAll(pr, clampToImage, vs);
    box := ZeroBox;
    var i := 0;
    while i < |vs|
      invariant 0 <= i <= |vs|
      invariant box == BoxOfPoints(ZeroBox, pts[..i])
    {
      var p := ProjectWorldPositionToImagePosition(pr, vs[i]);
      var x, y := p.x, p.y;
      if clampToImage {
        x := Clamp(x, 0.0, 1.0);
        y := Clamp(y, 0.0, 1.0);
      }
      assert Vec2(x, y) == pts[i];
      assert pts[..i + 1][..i] == pts[..i];
      box := AddPoint(box, Vec2(x, y));
      i := i + 1;
    }
    assert pts[..i] == pts;
  }

  /** Calculate2dAABB_MeshComplexCollision: the zero box unless the component offers vertices. */
  method Calculate2dAABBMeshComplexCollision(pr: Projector, comp: MeshComponent, clampToImage: bool) returns (box: Box2D)
    ensures box == MeshComponentBox2D(pr, clampToImage, comp)
  {
    box := ZeroBox;
    var vs := GatherBoundVertexes(comp);
    if vs != [] {
      box := Calculate2dAABB(pr, vs, clampToImage);
    }
  }

  /** GetBoundingBox2D: the component boxes unioned into the zero box, invalidated when the area is not positive. */
  method GetBoundingBox2D(pr: Projector, comps: seq<MeshComponent>, clampToImage: bool) returns (box: Box2D)
    ensures box == BoundingBox2D(pr, clampToImage, comps)
  {
    ghost var bs := ComponentBoxes(pr, clampToImage, comps);
    box := ZeroBox;
    var i := 0;
    while i < |comps|
      invariant 0 <= i <= |comps|
      invariant box == UnionAll(bs[..i])
    {
      var part := Calculate2dAABBMeshComplexCollision(pr, comps[i], clampToImage);
      assert bs[..i + 1][..i] == bs[..i];
      box := Union(box, part);
      i := i + 1;
    }
    assert bs[..i] == bs;
    if Area(box) <= 0.0 {
      box := box.(isValid := false);
    }
  }

  // ---------------------------------------------------------------- occlusion

  /** The line-trace loop: the number of corners whose trace is blocked. */
  method CountOccludedPoints(vs: seq<Vec3>, blocked: set<Vec3>) returns (n: nat)
    ensures n == BlockedCount(vs, blocked)
  {
    n := 0;
    var i := 0;
    while i < |vs|
      invariant 0 <= i <= |vs|
      invariant n == BlockedCount(vs[..i], blocked)
    {
      assert vs[..i + 1][..i] == vs[..i];
      if vs[i] in blocked {
        n := n + 1;
      }
      i := i + 1;
    }
    assert vs[..i] == vs;
  }

  // ---------------------------------------------------------------- one actor

  /** A placeholder record for an actor that is skipped; the caller discards it. */
  function EmptyObjectData(): ObjectData {
    ObjectData("", "", Vec3(0.0, 0.0, 0.0), [], [], Vec3(0.0, 0.0, 0.0), Vec2(0.0, 0.0), 0.0,
               ToNVBox2D(ZeroBox), 0, 0.0)
  }

  /**
   * GatherActorData: false without a viewpoint, for an actor the export filter rejects,
   * and for one without a valid mesh component; otherwise true with the actor's record,
   * the cuboid filled corner by corner.
   */
  method GatherActorData(s: DataExportSettings, vp: Option<Viewpoint>, viewProjection: Mat4, a: Actor)
    returns (ok: bool, data: ObjectData)
    ensures ok <==> vp.Some? && Qualifies(s, a)
    ensures ok ==> data == ActorRecord(s, vp.value, viewProjection, a)
  {
    data := EmptyObjectData();
    if vp.None? || !ShouldExportActor(s, a) {
      return false, data;
    }
    var v := vp.value;
    if !a.hasValidMeshComponent {
      return false, data;
    }
    var pr := ActiveProjector(s, v, viewProjection);
    var c := SelectCuboid(s.boundsType, a);

    var cuboid: seq<Vec3> := [];
    var projected: seq<Vec2> := [];
    var i := 0;
    while i < |c.vertexes|
      invariant 0 <= i <= |c.vertexes|
      invariant cuboid == TransformAll(v.worldToCameraCv, c.vertexes[..i])
      invariant projected == ProjectAll(pr, false, c.vertexes[..i])
    {
      var img := ProjectWorldPositionToImagePosition(pr, c.vertexes[i]);
      assert ProjectAll(pr, false, c.vertexes[..i + 1]) ==
             ProjectAll(pr, false, c.vertexes[..i]) + [Vec2(img.x, img.y)];
      assert TransformAll(v.worldToCameraCv, c.vertexes[..i + 1]) ==
             TransformAll(v.worldToCameraCv, c.vertexes[..i]) + [ToCamera(v, c.vertexes[i])];
      projected := projected + [Vec2(img.x, img.y)];
      cuboid := cuboid + [ToCamera(v, c.vertexes[i])];
      i := i + 1;
    }
    assert c.vertexes[..i] == c.vertexes;

    var centerImg := ProjectWorldPositionToImagePosition(pr, c.center);
    var distanceScale := DistanceScale(s.distanceScaleRange, a.distanceToViewpoint);
    var bb := GetBoundingBox2D(pr, a.meshComponents, false);
    var occludedPts := CountOccludedPoints(c.vertexes, a.blockedTargets);
    var truncated := TruncationAsWritten(bb);
    data := ObjectData(
      a.name, ClassName(a), ToCamera(v, a.location), cuboid, projected,
      ToCamera(v, c.center), Vec2(centerImg.x, centerImg.y), distanceScale,
      ToNVBox2D(bb), OcclusionClass(occludedPts), truncated);
    return true, data;
  }
}
