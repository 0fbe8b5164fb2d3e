/**
 * What the annotation code reads from the engine, as values. Engine queries
 * whose bodies are outside this model appear as their results: the frustum
 * intersection test, the line traces from the viewpoint, the cuboid builders,
 * the first-valid-mesh query, the viewpoint's matrices and the distance.
 */
module Scene {
  import opened Optional
  import opened Geometry
  import opened CapturerUtils

  /** FKConvexElem: one convex collision hull, in the mesh's local space. */
  datatype ConvexElem = ConvexElem(vertexData: seq<Vec3>)

  /** UBodySetup: the aggregate collision geometry. */
  datatype BodySetup = BodySetup(convexElems: seq<ConvexElem>)

  /** One render LOD's position vertex buffer. */
  datatype StaticMeshLod = StaticMeshLod(positions: seq<Vec3>)

  /** UStaticMesh: optional collision setup and optional render data (its LOD resources). */
  datatype StaticMesh = StaticMesh(bodySetup: Option<BodySetup>, renderData: Option<seq<StaticMeshLod>>)

  /** UPhysicsAsset: the per-bone body setups, any of which may be null. */
  datatype PhysicsAsset = PhysicsAsset(skeletalBodySetups: seq<Option<BodySetup>>)

  /** USkeletalMesh: its optional physics asset. */
  datatype SkeletalMesh = SkeletalMesh(physicsAsset: Option<PhysicsAsset>)

  /** UMeshComponent, split by the two kinds the 2D box code recognises; transforms are component-to-world. */
  datatype MeshComponent =
    | StaticMeshComponent(transform: Mat4, staticMesh: Option<StaticMesh>)
    | SkeletalMeshComponent(transform: Mat4, skeletalMesh: Option<SkeletalMesh>)
    | OtherMeshComponent

  /** An actor of the scene as the exporter sees it during one capture. */
  datatype Actor = Actor(
    name: string,
    hidden: bool,
    tag: Option<CapturableActorTag>,
    meshComponents: seq<MeshComponent>,
    /** GetComponentsBoundingBox(true). */
    componentsBounds: Box3,
    /** ViewFrustum.IntersectBox(center, extent) for the current view-projection. */
    intersectsViewFrustum: bool,
    /** GetFirstValidMeshComponent(actor) is not null. */
    hasValidMeshComponent: bool,
    location: Vec3,
    /** FVector::Dist(actor location, view location). */
    distanceToViewpoint: real,
    /** The results of GetActorCuboid_AABB, _OOBB_Simple(actor, false) and _OOBB_Complex. */
    cuboidAabb: Cuboid,
    cuboidOobb: Cuboid,
    cuboidTightOobb: Cuboid,
    /** The world points whose visibility trace from the viewpoint, ignoring this actor, hits something. */
    blockedTargets: set<Vec3>)

  /** FNVImageSize. */
  datatype ImageSize = ImageSize(width: nat, height: nat)

  /**
   * The owner viewpoint: its location and field of view, the captured image size,
   * the projection and view-projection matrices the engine builds for it, and the
   * world-to-camera matrix already expressed in the OpenCV convention.
   */
  datatype Viewpoint = Viewpoint(
    location: Vec3,
    fov: real,
    imageSize: ImageSize,
    projectionMatrix: Mat4,
    viewProjectionMatrix: Mat4,
    worldToCameraCv: Mat4)

  /** FCapturedViewpointData, restricted to what the model computes. */
  datatype ViewpointData = ViewpointData(fov: real, location: Vec3, projectionMatrix: Mat4, viewProjectionMatrix: Mat4)

  /** FCapturedObjectData, restricted to what the model computes. */
  datatype ObjectData = ObjectData(
    name: string,
    className: string,
    location: Vec3,
    cuboid: seq<Vec3>,
    projectedCuboid: seq<Vec2>,
    cuboidCentroid: Vec3,
    projectedCuboidCentroid: Vec2,
    distanceScale: real,
    boundingBox: NVBox2D,
    occluded: nat,
    truncated: real)

  /** FCapturedSceneData. */
  datatype SceneData = SceneData(cameraData: ViewpointData, objects: seq<ObjectData>)
}
