/**
 * Shared annotation types: the eight-corner cuboid and its vertex
 * enumeration, the exported 2D box with swapped axes, the capturable-actor
 * tag, the export policy enumerations and the CPU pixel buffer record.
 */
module CapturerUtils {
  import opened Geometry

  // ---------------------------------------------------------------- cuboid vertices

  /** ENVCuboidVertexType, in declaration order (front/rear x top/bottom x right/left). */
  datatype CuboidVertexType =
    | FrontTopRight | FrontTopLeft | FrontBottomLeft | FrontBottomRight
    | RearTopRight | RearTopLeft | RearBottomLeft | RearBottomRight

  /** CuboidVertexType_MAX: the number of cuboid corners. */
  const CuboidVertexTypeMax: nat := 8

  /** The underlying value of a vertex type, which indexes the corner array. */
  function VertexIndex(t: CuboidVertexType): (i: nat)
    ensures i < CuboidVertexTypeMax
  {
    match t
    case FrontTopRight => 0
    case FrontTopLeft => 1
    case FrontBottomLeft => 2
    case FrontBottomRight => 3
    case RearTopRight => 4
    case RearTopLeft => 5
    case RearBottomLeft => 6
    case RearBottomRight => 7
  }

  /** The vertex type whose underlying value is i. */
  function VertexTypeAt(i: nat): (t: CuboidVertexType)
    requires i < CuboidVertexTypeMax
    ensures VertexIndex(t) == i
  {
    if i == 0 then FrontTopRight
    else if i == 1 then FrontTopLeft
    else if i == 2 then FrontBottomLeft
    else if i == 3 then FrontBottomRight
    else if i == 4 then RearTopRight
    else if i == 5 then RearTopLeft
    else if i == 6 then RearBottomLeft
    else RearBottomRight
  }

  /** Distinct vertex types name distinct corners, and every corner has a name. */
  lemma VertexIndexIsBijective()
    ensures forall t, u :: VertexIndex(t) == VertexIndex(u) ==> t == u
    ensures forall i :: 0 <= i < CuboidVertexTypeMax ==> VertexIndex(VertexTypeAt(i)) == i
  {
    forall t, u | VertexIndex(t) == VertexIndex(u) ensures t == u {
      assert VertexTypeAt(VertexIndex(t)) == t by { VertexTypeRoundTrip(t); }
      assert VertexTypeAt(VertexIndex(u)) == u by { VertexTypeRoundTrip(u); }
    }
  }

  lemma VertexTypeRoundTrip(t: CuboidVertexType)
    ensures VertexTypeAt(VertexIndex(t)) == t
  {
  }

  // ---------------------------------------------------------------- cuboid

  /** A corner array of exactly CuboidVertexType_MAX vertices. */
  type CuboidVertexes = s: seq<Vec3> | |s| == CuboidVertexTypeMax
    witness [Vec3(0.0, 0.0, 0.0), Vec3(0.0, 0.0, 0.0), Vec3(0.0, 0.0, 0.0), Vec3(0.0, 0.0, 0.0),
             Vec3(0.0, 0.0, 0.0), Vec3(0.0, 0.0, 0.0), Vec3(0.0, 0.0, 0.0), Vec3(0.0, 0.0, 0.0)]

  /** A rotation quaternion, carried but not interpreted. */
  datatype Quat = Quat(x: real, y: real, z: real, w: real)

  /** FNVCuboidData: the eight world-space corners, the center, the local box and the rotation. */
  datatype Cuboid = Cuboid(vertexes: CuboidVertexes, center: Vec3, localBox: Box3, rotation: Quat)

  /** FNVCuboidData::GetVertex: the corner stored at the type's index. */
  function GetVertex(c: Cuboid, t: CuboidVertexType): (v: Vec3)
    ensures v == c.vertexes[VertexIndex(t)]
    ensures v in c.vertexes
  {
    c.vertexes[VertexIndex(t)]
  }

  /** Every stored corner is reached by exactly one vertex type. */
  lemma EveryCornerIsNamed(c: Cuboid, i: nat)
    requires i < CuboidVertexTypeMax
    ensures GetVertex(c, VertexTypeAt(i)) == c.vertexes[i]
    ensures forall t :: GetVertex(c, t) == c.vertexes[i] && VertexIndex(t) == i ==> t == VertexTypeAt(i)
  {
    VertexIndexIsBijective();
  }

  /** FNVCuboidData::GetExtent: the local box's half size. */
  function GetExtent(c: Cuboid): Vec3 {
    Extent(c.localBox)
  }

  /** FNVCuboidData::GetDimension: the local box's extent times two. */
  function GetDimension(c: Cuboid): Vec3 {
    var e := Extent(c.localBox);
    Vec3(e.x * 2.0, e.y * 2.0, e.z * 2.0)
  }

  /** The dimension is twice the extent, which is the full size of the local box. */
  lemma DimensionIsFullSize(c: Cuboid)
    ensures GetDimension(c) == Vec3(2.0 * GetExtent(c).x, 2.0 * GetExtent(c).y, 2.0 * GetExtent(c).z)
    ensures GetDimension(c) ==
            Vec3(c.localBox.max.x - c.localBox.min.x, c.localBox.max.y - c.localBox.min.y,
                 c.localBox.max.z - c.localBox.min.z)
  {
  }

  /** FNVCuboidData::IsValid: the local box is valid. */
  predicate CuboidIsValid(c: Cuboid) {
    c.localBox.isValid
  }

  /** A cuboid is valid iff its local box is; the corners, center and rotation play no part. */
  lemma CuboidValidity(c: Cuboid, d: Cuboid)
    requires c.localBox == d.localBox
    ensures CuboidIsValid(c) <==> c.localBox.isValid
    ensures CuboidIsValid(c) == CuboidIsValid(d)
  {
  }

  // ---------------------------------------------------------------- exported 2D box

  /** FNVBox2D: the exported box, with x and y swapped (row, column order). */
  datatype NVBox2D = NVBox2D(topLeft: Vec2, bottomRight: Vec2)

  function ToNVBox2D(b: Box2D): (r: NVBox2D)
    ensures r.topLeft.x == b.min.y && r.topLeft.y == b.min.x
    ensures r.bottomRight.x == b.max.y && r.bottomRight.y == b.max.x
  {
    NVBox2D(Vec2(b.min.y, b.min.x), Vec2(b.max.y, b.max.x))
  }

  /** Undo the axis swap; the validity flag is not exported and must be supplied. */
  function FromNVBox2D(nb: NVBox2D, isValid: bool): Box2D {
    Box2D(Vec2(nb.topLeft.y, nb.topLeft.x), Vec2(nb.bottomRight.y, nb.bottomRight.x), isValid)
  }

  /** The export loses nothing but the validity flag. */
  lemma NVBox2DRoundTrip(b: Box2D, nb: NVBox2D)
    ensures FromNVBox2D(ToNVBox2D(b), b.isValid) == b
    ensures ToNVBox2D(FromNVBox2D(nb, true)) == nb
  {
  }

  // ---------------------------------------------------------------- capturable tag

  /** UNVCapturableActorTag: the per-actor class label and export flags. */
  datatype CapturableActorTag = CapturableActorTag(
    tag: string,
    includeMe: bool,
    exportAllMeshSocketInfo: bool,
    socketNameToExportList: seq<string>)

  /** A freshly constructed tag: bIncludeMe set, every other property zero/empty. */
  function DefaultCapturableActorTag(): CapturableActorTag {
    CapturableActorTag("", true, false, [])
  }

  /** UNVCapturableActorTag::IsValid. */
  predicate TagIsValid(t: CapturableActorTag) {
    t.includeMe && |t.tag| > 0
  }

  /** A tag is valid exactly when it is included and labelled; a fresh tag is included but not valid. */
  lemma TagValidity(t: CapturableActorTag)
    ensures TagIsValid(t) <==> t.includeMe && t.tag != ""
    ensures DefaultCapturableActorTag().includeMe && !TagIsValid(DefaultCapturableActorTag())
  {
  }

  // ---------------------------------------------------------------- policies

  /** ENVIncludeObjects. */
  datatype IncludeObjects = AllTaggedObjects | MatchesTag

  /** ENVBoundsGenerationType. */
  datatype BoundsGenerationType = AABB | OOBB | TightOOBB

  /** ENVBoundBox2dGenerationType. */
  datatype BoundBox2dGenerationType = From3dBoundingBox | FromMeshBodyCollision

  const IncludePolicies: set<IncludeObjects> := {AllTaggedObjects, MatchesTag}
  const BoundsPolicies: set<BoundsGenerationType> := {AABB, OOBB, TightOOBB}
  const BoundingBox2dPolicies: set<BoundBox2dGenerationType> := {From3dBoundingBox, FromMeshBodyCollision}

  /** The include policy has exactly two values, the 3D bounds policy three and the 2D box policy two. */
  lemma PolicyEnumerations()
    ensures forall p: IncludeObjects :: p in IncludePolicies
    ensures |IncludePolicies| == 2
    ensures forall p: BoundsGenerationType :: p in BoundsPolicies
    ensures |BoundsPolicies| == 3
    ensures forall p: BoundBox2dGenerationType :: p in BoundingBox2dPolicies
    ensures |BoundingBox2dPolicies| == 2
  {
    forall p: IncludeObjects ensures p in IncludePolicies {
      match p
      case AllTaggedObjects =>
      case MatchesTag =>
    }
    forall p: BoundsGenerationType ensures p in BoundsPolicies {
      match p
      case AABB =>
      case OOBB =>
      case TightOOBB =>
    }
    forall p: BoundBox2dGenerationType ensures p in BoundingBox2dPolicies {
      match p
      case From3dBoundingBox =>
      case FromMeshBodyCollision =>
    }
  }

  // ---------------------------------------------------------------- pixel buffer

  newtype byte = x: int | 0 <= x < 256

  /** The integer points of the engine (FIntPoint). */
  datatype IntPoint = IntPoint(x: int, y: int)

  const ZeroPoint: IntPoint := IntPoint(0, 0)

  /** The engine's pixel formats that the readback code distinguishes, and all the others. */
  datatype PixelFormat = Unknown | R16F | R16Uint | ShadowDepth | R32Float | R32Uint | OtherFormat(id: nat)

  /** FNVTexturePixelData: the CPU copy of a readback, filled in place. */
  class TexturePixelData {
    var pixelData: array<byte>
    var pixelFormat: PixelFormat
    var rowStride: nat
    var pixelSize: IntPoint

    constructor ()
      ensures pixelData.Length == 0 && fresh(pixelData)
    {
      pixelData := new byte[0];
      pixelFormat := Unknown;
      rowStride := 0;
      pixelSize := ZeroPoint;
    }
  }
}
