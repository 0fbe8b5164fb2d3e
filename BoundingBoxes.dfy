/**
 * The 2D bounding box of an actor: which vertices each mesh component offers
 * (convex collision first, then render LOD0, for static meshes only), the box
 * of their projections, and the union over the actor's components.
 */
module BoundingBoxes {
  import opened Optional
  import opened Geometry
  import opened Scene
  import opened DataExport

  // ---------------------------------------------------------------- vertex source

  /** Every vertex mapped to world space by the component transform, in order. */
  function TransformAll(t: Mat4, vs: seq<Vec3>): (r: seq<Vec3>)
    ensures |r| == |vs|
    ensures forall i :: 0 <= i < |vs| ==> r[i] == TransformPosition(t, vs[i])
  {
    seq(|vs|, i requires 0 <= i < |vs| => TransformPosition(t, vs[i]))
  }

  /** The vertices of all convex elements, element after element. */
  function ConvexVertexes(t: Mat4, elems: seq<ConvexElem>): seq<Vec3> {
    if elems == [] then []
    else ConvexVertexes(t, elems[..|elems| - 1]) + TransformAll(t, elems[|elems| - 1].vertexData)
  }

  /** The convex vertices of every non-null body setup of a physics asset, in order. */
  function PhysicsAssetVertexes(t: Mat4, setups: seq<Option<BodySetup>>): seq<Vec3> {
    if setups == [] then []
    else
      PhysicsAssetVertexes(t, setups[..|setups| - 1]) +
      match setups[|setups| - 1]
      case None => []
      case Some(b) => ConvexVertexes(t, b.convexElems)
  }

  /** A static mesh's convex collision vertices (none without a body setup). */
  function StaticCollisionVertexes(t: Mat4, mesh: StaticMesh): seq<Vec3> {
    match mesh.bodySetup
    case None => []
    case Some(b) => ConvexVertexes(t, b.convexElems)
  }

  /** A static mesh's LOD0 render positions (none without render data or LODs). */
  function Lod0Vertexes(t: Mat4, mesh: StaticMesh): seq<Vec3> {
    match mesh.renderData
    case None => []
    case Some(lods) => if |lods| > 0 then TransformAll(t, lods[0].positions) else []
  }

  /**
   * The world-space vertices Calculate2dAABB_MeshComplexCollision bounds for one component;
   * a component with no mesh, a skeletal mesh with no physics asset, or any other kind of
   * component offers none.
   */
  function BoundVertexes(comp: MeshComponent): (vs: seq<Vec3>)
    ensures comp.OtherMeshComponent? ==> vs == []
    ensures comp.StaticMeshComponent? && comp.staticMesh.None? ==> vs == []
    ensures comp.SkeletalMeshComponent? && (comp.skeletalMesh.None? || comp.skeletalMesh.value.physicsAsset.None?) ==> vs == []
  {
    match comp
    case StaticMeshComponent(t, mesh) =>
      if mesh.None? then []
      else
        var collision := StaticCollisionVertexes(t, mesh.value);
        if collision != [] then collision else Lod0Vertexes(t, mesh.value)
    case SkeletalMeshComponent(t, mesh) =>
      if mesh.None? || mesh.value.physicsAsset.None? then []
      else PhysicsAssetVertexes(t, mesh.value.physicsAsset.value.skeletalBodySetups)
    case OtherMeshComponent => []
  }

  /** v is a world-space vertex of one of the convex elements. */
  predicate IsConvexVertex(t: Mat4, elems: seq<ConvexElem>, v: Vec3) {
    exists e, j :: 0 <= e < |elems| && 0 <= j < |elems[e].vertexData| && v == TransformPosition(t, elems[e].vertexData[j])
  }

  /** Some convex element has a vertex. */
  predicate HasConvexVertex(elems: seq<ConvexElem>) {
    exists e :: 0 <= e < |elems| && |elems[e].vertexData| > 0
  }

  /** v is a world-space vertex of a convex element of a non-null body setup. */
  predicate IsPhysicsAssetVertex(t: Mat4, setups: seq<Option<BodySetup>>, v: Vec3) {
    exists k :: 0 <= k < |setups| && setups[k].Some? && IsConvexVertex(t, setups[k].value.convexElems, v)
  }

  /** v is a world-space LOD0 render position. */
  predicate IsLodVertex(t: Mat4, lod: StaticMeshLod, v: Vec3) {
    exists j :: 0 <= j < |lod.positions| && v == TransformPosition(t, lod.positions[j])
  }

  /** The convex vertices collected are exactly the transformed vertices of the elements; there are some iff an element has one. */
  lemma ConvexVertexesMembers(t: Mat4, elems: seq<ConvexElem>)
    ensures forall v :: v in ConvexVertexes(t, elems) <==> IsConvexVertex(t, elems, v)
    ensures ConvexVertexes(t, elems) != [] <==> HasConvexVertex(elems)
  {
    forall v ensures v in ConvexVertexes(t, elems) <==> IsConvexVertex(t, elems, v) {
      ConvexVertexMember(t, elems, v);
    }
    ConvexVertexesNonEmpty(t, elems);
  }

  /** v is collected from the convex elements iff it is the transform of one of their vertices. */
  lemma {:induction false} ConvexVertexMember(t: Mat4, elems: seq<ConvexElem>, v: Vec3)
    ensures v in ConvexVertexes(t, elems) <==> IsConvexVertex(t, elems, v)
  {
    if elems != [] {
      var init := elems[..|elems| - 1];
      var tail := TransformAll(t, elems[|elems| - 1].vertexData);
      assert ConvexVertexes(t, elems) == ConvexVertexes(t, init) + tail;
      ConvexVertexMember(t, init, v);
      ConvexVertexSplit(t, elems, v);
    }
  }

  /** A vertex of the elements is a vertex of all but the last element, or a vertex of the last one. */
  lemma ConvexVertexSplit(t: Mat4, elems: seq<ConvexElem>, v: Vec3)
    requires elems != []
    ensures IsConvexVertex(t, elems, v) <==>
            IsConvexVertex(t, elems[..|elems| - 1], v) || v in TransformAll(t, elems[|elems| - 1].vertexData)
  {
    var init := elems[..|elems| - 1];
    var last := elems[|elems| - 1];
    if IsConvexVertex(t, init, v) {
      var e, j :| 0 <= e < |init| && 0 <= j < |init[e].vertexData| && v == TransformPosition(t, init[e].vertexData[j]);
      assert init[e] == elems[e];
    }
    if v in TransformAll(t, last.vertexData) {
      var j :| 0 <= j < |last.vertexData| && TransformAll(t, last.vertexData)[j] == v;
      assert v == TransformPosition(t, elems[|elems| - 1].vertexData[j]);
    }
    if IsConvexVertex(t, elems, v) {
      var e, j :| 0 <= e < |elems| && 0 <= j < |elems[e].vertexData| && v == TransformPosition(t, elems[e].vertexData[j]);
      if e < |init| {
        assert init[e] == elems[e];
      } else {
        assert TransformAll(t, last.vertexData)[j] == v;
      }
    }
  }

  /** Some vertex is collected iff some convex element has a vertex. */
  lemma {:induction false} ConvexVertexesNonEmpty(t: Mat4, elems: seq<ConvexElem>)
    ensures ConvexVertexes(t, elems) != [] <==> HasConvexVertex(elems)
  {
    if elems != [] {
      var init := elems[..|elems| - 1];
      var last := elems[|elems| - 1];
      ConvexVertexesNonEmpty(t, init);
      if HasConvexVertex(init) {
        var e :| 0 <= e < |init| && |init[e].vertexData| > 0;
        assert init[e] == elems[e];
      }
      if HasConvexVertex(elems) {
        var e :| 0 <= e < |elems| && |elems[e].vertexData| > 0;
        if e < |init| {
          assert init[e] == elems[e];
          assert HasConvexVertex(init);
        } else {
          assert |TransformAll(t, last.vertexData)| > 0;
        }
      }
      if |last.vertexData| > 0 {
        assert HasConvexVertex(elems);
      }
    }
  }

  /** The physics-asset vertices collected are exactly the convex vertices of its non-null body setups. */
  lemma {:induction false} PhysicsAssetVertexesMembers(t: Mat4, setups: seq<Option<BodySetup>>)
    ensures forall v :: v in PhysicsAssetVertexes(t, setups) <==> IsPhysicsAssetVertex(t, setups, v)
  {
    if setups != [] {
      var init := setups[..|setups| - 1];
      var last := setups[|setups| - 1];
      PhysicsAssetVertexesMembers(t, init);
      assert forall k :: 0 <= k < |init| ==> init[k] == setups[k];
      if last.Some? {
        ConvexVertexesMembers(t, last.value.convexElems);
      }
      forall v ensures v in PhysicsAssetVertexes(t, setups) <==> IsPhysicsAssetVertex(t, setups, v) {
        if IsPhysicsAssetVertex(t, setups, v) {
          var k :| 0 <= k < |setups| && setups[k].Some? && IsConvexVertex(t, setups[k].value.convexElems, v);
          if k < |init| {
            assert IsPhysicsAssetVertex(t, init, v);
          }
        }
        if last.Some? && v in ConvexVertexes(t, last.value.convexElems) {
          assert setups[|setups| - 1].Some?;
        }
      }
    }
  }

  /**
   * The vertices a component offers: a static mesh with a collision vertex offers exactly its
   * collision vertices; one without any offers exactly its LOD0 positions (none without render
   * data or LODs); a skeletal mesh offers exactly the vertices of its physics asset's non-null
   * body setups; any other component, a missing mesh or a missing physics asset offers none.
   */
  lemma VertexSourceChoice(comp: MeshComponent)
    ensures comp.StaticMeshComponent? && comp.staticMesh.Some? && comp.staticMesh.value.bodySetup.Some? &&
            HasConvexVertex(comp.staticMesh.value.bodySetup.value.convexElems) ==>
            forall v :: v in BoundVertexes(comp) <==>
                        IsConvexVertex(comp.transform, comp.staticMesh.value.bodySetup.value.convexElems, v)
    ensures comp.StaticMeshComponent? && comp.staticMesh.Some? &&
            (comp.staticMesh.value.bodySetup.None? || !HasConvexVertex(comp.staticMesh.value.bodySetup.value.convexElems)) ==>
            var rd := comp.staticMesh.value.renderData;
            if rd.Some? && |rd.value| > 0 then forall v :: v in BoundVertexes(comp) <==> IsLodVertex(comp.transform, rd.value[0], v)
            else BoundVertexes(comp) == []
    ensures comp.SkeletalMeshComponent? && comp.skeletalMesh.Some? && comp.skeletalMesh.value.physicsAsset.Some? ==>
            forall v :: v in BoundVertexes(comp) <==>
                        IsPhysicsAssetVertex(comp.transform, comp.skeletalMesh.value.physicsAsset.value.skeletalBodySetups, v)
    ensures comp.OtherMeshComponent? || (comp.StaticMeshComponent? && comp.staticMesh.None?) ||
            (comp.SkeletalMeshComponent? && (comp.skeletalMesh.None? || comp.skeletalMesh.value.physicsAsset.None?)) ==>
            BoundVertexes(comp) == []
  {
    match comp
    case StaticMeshComponent(t, mesh) =>
      if mesh.Some? {
        if mesh.value.bodySetup.Some? {
          ConvexVertexesMembers(t, mesh.value.bodySetup.value.convexElems);
        }
        var rd := mesh.value.renderData;
        if rd.Some? && |rd.value| > 0 {
          forall v ensures v in TransformAll(t, rd.value[0].positions) <==> IsLodVertex(t, rd.value[0], v) {
            if IsLodVertex(t, rd.value[0], v) {
              var j :| 0 <= j < |rd.value[0].positions| && v == TransformPosition(t, rd.value[0].positions[j]);
              assert TransformAll(t, rd.value[0].positions)[j] == v;
            }
          }
        }
      }
    case SkeletalMeshComponent(t, mesh) =>
      if mesh.Some? && mesh.value.physicsAsset.Some? {
        PhysicsAssetVertexesMembers(t, mesh.value.physicsAsset.value.skeletalBodySetups);
      }
    case OtherMeshComponent =>
  }

  /** The number of collision vertices is the total over the convex elements. */
  function VertexCount(elems: seq<ConvexElem>): nat {
    if elems == [] then 0 else VertexCount(elems[..|elems| - 1]) + |elems[|elems| - 1].vertexData|
  }

  lemma {:induction false} ConvexVertexesCount(t: Mat4, elems: seq<ConvexElem>)
    ensures |ConvexVertexes(t, elems)| == VertexCount(elems)
  {
    if elems != [] {
      ConvexVertexesCount(t, elems[..|elems| - 1]);
    }
  }

  /** A static mesh with any collision vertex never reads its render data. */
  lemma CollisionIgnoresRenderData(t: Mat4, b: BodySetup, rd1: Option<seq<StaticMeshLod>>, rd2: Option<seq<StaticMeshLod>>)
    requires VertexCount(b.convexElems) > 0
    ensures BoundVertexes(StaticMeshComponent(t, Some(StaticMesh(Some(b), rd1)))) ==
            BoundVertexes(StaticMeshComponent(t, Some(StaticMesh(Some(b), rd2))))
  {
    ConvexVertexesCount(t, b.convexElems);
  }

  // ---------------------------------------------------------------- projected boxes

  /** A projected vertex as a 2D point, clamped into [0,1] when asked. */
  function ProjectToPoint(pr: Projector, clampToImage: bool, v: Vec3): (p: Vec2)
    ensures clampToImage ==> 0.0 <= p.x <= 1.0 && 0.0 <= p.y <= 1.0
  {
    var img := ProjectWorldPositionToImagePosition(pr, v);
    if clampToImage then Vec2(Clamp(img.x, 0.0, 1.0), Clamp(img.y, 0.0, 1.0)) else Vec2(img.x, img.y)
  }

  /** Every vertex projected, in order. */
  function ProjectAll(pr: Projector, clampToImage: bool, vs: seq<Vec3>): (ps: seq<Vec2>)
    ensures |ps| == |vs|
    ensures forall i :: 0 <= i < |vs| ==> ps[i] == ProjectToPoint(pr, clampToImage, vs[i])
  {
    seq(|vs|, i requires 0 <= i < |vs| => ProjectToPoint(pr, clampToImage, vs[i]))
  }

  /** The box b grown by each point in turn (FBox2D += FVector2D). */
  function BoxOfPoints(b: Box2D, pts: seq<Vec2>): Box2D {
    if pts == [] then b else AddPoint(BoxOfPoints(b, pts[..|pts| - 1]), pts[|pts| - 1])
  }

  /** The grown box is valid once any point is added, contains every point and the start box, and stays ordered. */
  lemma {:induction false} BoxOfPointsContains(b: Box2D, pts: seq<Vec2>)
    requires b.isValid ==> Ordered(b)
    ensures BoxOfPoints(b, pts).isValid == (b.isValid || pts != [])
    ensures BoxOfPoints(b, pts).isValid ==> Ordered(BoxOfPoints(b, pts))
    ensures pts == [] ==> BoxOfPoints(b, pts) == b
    ensures b.isValid ==> ContainsBox(BoxOfPoints(b, pts), b)
    ensures forall i :: 0 <= i < |pts| ==> ContainsPoint(BoxOfPoints(b, pts), pts[i])
  {
    if pts != [] {
      var init := pts[..|pts| - 1];
      BoxOfPointsContains(b, init);
      var r := BoxOfPoints(b, pts);
      assert r == AddPoint(BoxOfPoints(b, init), pts[|pts| - 1]);
      forall i | 0 <= i < |pts| ensures ContainsPoint(r, pts[i]) {
        if i < |init| {
          assert init[i] == pts[i];
        }
      }
    }
  }

  /** The grown box is the smallest: any valid box holding the start box and every point holds it. */
  lemma {:induction false} BoxOfPointsSmallest(b: Box2D, pts: seq<Vec2>, q: Box2D)
    requires b.isValid || pts != []
    requires b.isValid ==> ContainsBox(q, b)
    requires forall i :: 0 <= i < |pts| ==> ContainsPoint(q, pts[i])
    ensures ContainsBox(q, BoxOfPoints(b, pts))
  {
    if pts != [] {
      var init := pts[..|pts| - 1];
      forall i | 0 <= i < |init| ensures ContainsPoint(q, init[i]) {
        assert init[i] == pts[i];
      }
      if b.isValid || init != [] {
        BoxOfPointsSmallest(b, init, q);
      }
    }
  }

  /** Points inside [0,bound] give a box inside [0,bound]. */
  lemma {:induction false} BoxOfPointsWithinBounds(b: Box2D, pts: seq<Vec2>, bound: Vec2)
    requires b.isValid ==> WithinBounds(b, bound)
    requires !b.isValid ==> pts != []
    requires forall i :: 0 <= i < |pts| ==> 0.0 <= pts[i].x <= bound.x && 0.0 <= pts[i].y <= bound.y
    ensures WithinBounds(BoxOfPoints(b, pts), bound)
  {
    if pts != [] {
      var init := pts[..|pts| - 1];
      forall i | 0 <= i < |init| ensures 0.0 <= init[i].x <= bound.x && 0.0 <= init[i].y <= bound.y {
        assert init[i] == pts[i];
      }
      if b.isValid || init != [] {
        BoxOfPointsWithinBounds(b, init, bound);
      }
    }
  }

  /**
   * Calculate2dAABB's result: the zero box grown by every projected vertex; the zero box
   * without vertices, a valid ordered box otherwise.
   */
  function Box2DOfVertexes(pr: Projector, clampToImage: bool, vs: seq<Vec3>): (b: Box2D)
    ensures vs == [] ==> b == ZeroBox
    ensures vs != [] ==> b.isValid && Ordered(b)
  {
    BoxOfPointsContains(ZeroBox, ProjectAll(pr, clampToImage, vs));
    BoxOfPoints(ZeroBox, ProjectAll(pr, clampToImage, vs))
  }

  /** q contains the projection of every vertex. */
  predicate HoldsProjections(q: Box2D, pr: Projector, clampToImage: bool, vs: seq<Vec3>) {
    forall i :: 0 <= i < |vs| ==> ContainsPoint(q, ProjectToPoint(pr, clampToImage, vs[i]))
  }

  /**
   * Calculate2dAABB: no vertices give the zero (invalid) box; otherwise a valid ordered
   * box that contains every projected vertex, is the smallest such box, and lies in
   * [0,1] x [0,1] when clamping.
   */
  lemma Box2DOfVertexesSpec(pr: Projector, clampToImage: bool, vs: seq<Vec3>)
    ensures vs == [] ==> Box2DOfVertexes(pr, clampToImage, vs) == ZeroBox
    ensures vs != [] ==> Box2DOfVertexes(pr, clampToImage, vs).isValid && Ordered(Box2DOfVertexes(pr, clampToImage, vs))
    ensures forall i :: 0 <= i < |vs| ==>
              ContainsPoint(Box2DOfVertexes(pr, clampToImage, vs), ProjectToPoint(pr, clampToImage, vs[i]))
    ensures forall q: Box2D :: q.isValid && vs != [] && HoldsProjections(q, pr, clampToImage, vs) ==>
              ContainsBox(q, Box2DOfVertexes(pr, clampToImage, vs))
    ensures clampToImage && vs != [] ==> WithinBounds(Box2DOfVertexes(pr, clampToImage, vs), Vec2(1.0, 1.0))
  {
    var pts := ProjectAll(pr, clampToImage, vs);
    BoxOfPointsContains(ZeroBox, pts);
    forall q: Box2D | q.isValid && vs != [] && HoldsProjections(q, pr, clampToImage, vs)
      ensures ContainsBox(q, Box2DOfVertexes(pr, clampToImage, vs))
    {
      BoxOfPointsSmallest(ZeroBox, pts, q);
    }
    if clampToImage && vs != [] {
      BoxOfPointsWithinBounds(ZeroBox, pts, Vec2(1.0, 1.0));
    }
  }

  /** Calculate2dAABB_MeshComplexCollision: the box of the component's bound vertices, the zero box without any. */
  function MeshComponentBox2D(pr: Projector, clampToImage: bool, comp: MeshComponent): Box2D {
    var vs := BoundVertexes(comp);
    if vs != [] then Box2DOfVertexes(pr, clampToImage, vs) else ZeroBox
  }

  /** A component's box is the zero box exactly when it offers no vertex; otherwise it is valid and ordered. */
  lemma MeshComponentBox2DSpec(pr: Projector, clampToImage: bool, comp: MeshComponent)
    ensures BoundVertexes(comp) == [] <==> MeshComponentBox2D(pr, clampToImage, comp) == ZeroBox
    ensures BoundVertexes(comp) != [] ==>
            MeshComponentBox2D(pr, clampToImage, comp).isValid && Ordered(MeshComponentBox2D(pr, clampToImage, comp))
  {
    Box2DOfVertexesSpec(pr, clampToImage, BoundVertexes(comp));
  }

  /** The box of each component, in component order. */
  function ComponentBoxes(pr: Projector, clampToImage: bool, comps: seq<MeshComponent>): (bs: seq<Box2D>)
    ensures |bs| == |comps|
    ensures forall i :: 0 <= i < |comps| ==> bs[i] == MeshComponentBox2D(pr, clampToImage, comps[i])
  {
    seq(|comps|, i requires 0 <= i < |comps| => MeshComponentBox2D(pr, clampToImage, comps[i]))
  }

  /**
   * GetBoundingBox2D: the union of the component boxes, marked invalid when its area is not
   * positive; it is ordered, and valid exactly when its area is positive.
   */
  function BoundingBox2D(pr: Projector, clampToImage: bool, comps: seq<MeshComponent>): (b: Box2D)
    ensures Ordered(b)
    ensures b.isValid <==> Area(b) > 0.0
  {
    var bs := ComponentBoxes(pr, clampToImage, comps);
    ComponentBoxesAreParts(pr, clampToImage, comps);
    UnionAllValidity(bs);
    InvalidateIfEmptyMeansPositiveArea(UnionAll(bs));
    InvalidateIfEmpty(UnionAll(bs))
  }

  /** Some component of comps offers a vertex. */
  predicate AnyVertexes(comps: seq<MeshComponent>) {
    exists i :: 0 <= i < |comps| && BoundVertexes(comps[i]) != []
  }

  /** Every component box is a part box, valid exactly when its component offers a vertex. */
  lemma ComponentBoxesAreParts(pr: Projector, clampToImage: bool, comps: seq<MeshComponent>)
    ensures forall i :: 0 <= i < |comps| ==> IsPartBox(ComponentBoxes(pr, clampToImage, comps)[i])
    ensures forall i :: 0 <= i < |comps| ==>
              (ComponentBoxes(pr, clampToImage, comps)[i].isValid <==> BoundVertexes(comps[i]) != [])
  {
    forall i | 0 <= i < |comps|
      ensures IsPartBox(ComponentBoxes(pr, clampToImage, comps)[i])
      ensures ComponentBoxes(pr, clampToImage, comps)[i].isValid <==> BoundVertexes(comps[i]) != []
    {
      MeshComponentBox2DSpec(pr, clampToImage, comps[i]);
    }
  }

  /** q holds the box of every component that offers a vertex. */
  predicate HoldsComponentBoxes(q: Box2D, pr: Projector, clampToImage: bool, comps: seq<MeshComponent>) {
    forall i :: 0 <= i < |comps| && BoundVertexes(comps[i]) != [] ==> ContainsBox(q, MeshComponentBox2D(pr, clampToImage, comps[i]))
  }

  /**
   * GetBoundingBox2D: the result holds every component's box and is the smallest such box, is ordered, and is valid
   * exactly when its area is positive; an actor none of whose components offers a
   * vertex gets the zero box.
   */
  lemma BoundingBox2DSpec(pr: Projector, clampToImage: bool, comps: seq<MeshComponent>)
    ensures Ordered(BoundingBox2D(pr, clampToImage, comps))
    ensures BoundingBox2D(pr, clampToImage, comps).isValid <==> Area(BoundingBox2D(pr, clampToImage, comps)) > 0.0
    ensures forall i :: 0 <= i < |comps| && BoundVertexes(comps[i]) != [] ==>
              ContainsBox(BoundingBox2D(pr, clampToImage, comps), MeshComponentBox2D(pr, clampToImage, comps[i]))
    ensures !AnyVertexes(comps) ==> BoundingBox2D(pr, clampToImage, comps) == ZeroBox
    ensures forall q: Box2D :: AnyVertexes(comps) && HoldsComponentBoxes(q, pr, clampToImage, comps) ==>
              ContainsBox(q, BoundingBox2D(pr, clampToImage, comps))
  {
    var bs := ComponentBoxes(pr, clampToImage, comps);
    ComponentBoxesAreParts(pr, clampToImage, comps);
    UnionAllValidity(bs);
    InvalidateIfEmptyMeansPositiveArea(UnionAll(bs));
    forall i | 0 <= i < |comps| && BoundVertexes(comps[i]) != []
      ensures ContainsBox(UnionAll(bs), bs[i])
    {
      UnionAllContains(bs, i);
    }
    forall q: Box2D | AnyVertexes(comps) && HoldsComponentBoxes(q, pr, clampToImage, comps)
      ensures ContainsBox(q, BoundingBox2D(pr, clampToImage, comps))
    {
      BoundingBox2DSmallest(pr, clampToImage, comps, q);
    }
  }

  /** A box holding every component's box holds the actor's box. */
  lemma BoundingBox2DSmallest(pr: Projector, clampToImage: bool, comps: seq<MeshComponent>, q: Box2D)
    requires AnyVertexes(comps) && HoldsComponentBoxes(q, pr, clampToImage, comps)
    ensures ContainsBox(q, BoundingBox2D(pr, clampToImage, comps))
  {
    var bs := ComponentBoxes(pr, clampToImage, comps);
    ComponentBoxesAreParts(pr, clampToImage, comps);
    var i :| 0 <= i < |comps| && BoundVertexes(comps[i]) != [];
    assert bs[i].isValid;
    UnionAllSmallest(bs, q);
  }
}
