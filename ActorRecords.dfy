/**
 * The record GatherActorData fills for one actor, and the list of records one
 * capture collects over the actors of the world, as functions of the settings,
 * the owner viewpoint and the current view-projection matrix.
 */
module ActorRecords {
  import opened Optional
  import opened Geometry
  import opened CapturerUtils
  import opened ExportSettings
  import opened Scene
  import opened DataExport
  import opened BoundingBoxes

  /** The cuboid the bounds type asks for: the tight OOBB, the AABB, or (by default) the simple OOBB. */
  function SelectCuboid(t: BoundsGenerationType, a: Actor): (c: Cuboid)
    ensures t == TightOOBB ==> c == a.cuboidTightOobb
    ensures t == AABB ==> c == a.cuboidAabb
    ensures t == OOBB ==> c == a.cuboidOobb
  {
    match t
    case TightOOBB => a.cuboidTightOobb
    case AABB => a.cuboidAabb
    case OOBB => a.cuboidOobb
  }

  /** The projection in force: the extractor's view-projection, the pixel setting, the viewpoint's image size. */
  function ActiveProjector(s: DataExportSettings, vp: Viewpoint, viewProjection: Mat4): Projector {
    Projector(viewProjection, s.exportImageCoordinateInPixel, vp.imageSize)
  }

  /** The class label: the tag's label when the actor carries a tag, otherwise the actor's name. */
  function ClassName(a: Actor): string {
    if a.tag.Some? then a.tag.value.tag else a.name
  }

  /** GatherActorData succeeds: the actor passes the export filter and has a valid mesh component. */
  predicate Qualifies(s: DataExportSettings, a: Actor) {
    ShouldExportActor(s, a) && a.hasValidMeshComponent
  }

  /** The camera-space point the world-to-camera (OpenCV) matrix gives. */
  function ToCamera(vp: Viewpoint, p: Vec3): Vec3 {
    TransformPosition(vp.worldToCameraCv, p)
  }

  /**
   * The record GatherActorData fills for a qualifying actor: it is named after the actor,
   * lists eight corners both in camera space and projected, and has an occlusion class of at most 2.
   */
  function ActorRecord(s: DataExportSettings, vp: Viewpoint, viewProjection: Mat4, a: Actor): (r: ObjectData)
    ensures r.name == a.name
    ensures |r.cuboid| == CuboidVertexTypeMax && |r.projectedCuboid| == CuboidVertexTypeMax
    ensures r.occluded <= 2
  {
    var pr := ActiveProjector(s, vp, viewProjection);
    var c := SelectCuboid(s.boundsType, a);
    var bb := BoundingBox2D(pr, false, a.meshComponents);
    ObjectData(
      a.name,
      ClassName(a),
      ToCamera(vp, a.location),
      TransformAll(vp.worldToCameraCv, c.vertexes),
      ProjectAll(pr, false, c.vertexes),
      ToCamera(vp, c.center),
      ProjectToPoint(pr, false, c.center),
      DistanceScale(s.distanceScaleRange, a.distanceToViewpoint),
      ToNVBox2D(bb),
      OcclusionClass(BlockedCount(c.vertexes, a.blockedTargets)),
      TruncationAsWritten(bb))
  }

  /** The records of the qualifying actors, in world iteration order: at most one per actor. */
  function CapturedObjects(s: DataExportSettings, vp: Viewpoint, viewProjection: Mat4, actors: seq<Actor>): (r: seq<ObjectData>)
    ensures |r| <= |actors|
  {
    if actors == [] then []
    else
      var a := actors[|actors| - 1];
      CapturedObjects(s, vp, viewProjection, actors[..|actors| - 1]) +
      (if Qualifies(s, a) then [ActorRecord(s, vp, viewProjection, a)] else [])
  }

  /**
   * The record names the actor, takes its class from the tag, and lists the selected
   * cuboid's eight corners in vertex-type order: in camera space and projected (unclamped).
   */
  lemma ActorRecordShape(s: DataExportSettings, vp: Viewpoint, viewProjection: Mat4, a: Actor)
    ensures var r := ActorRecord(s, vp, viewProjection, a);
            r.name == a.name &&
            (a.tag.Some? ==> r.className == a.tag.value.tag) &&
            (a.tag.None? ==> r.className == a.name) &&
            |r.cuboid| == CuboidVertexTypeMax && |r.projectedCuboid| == CuboidVertexTypeMax
    ensures var r := ActorRecord(s, vp, viewProjection, a);
            var c := SelectCuboid(s.boundsType, a);
            forall t :: r.cuboid[VertexIndex(t)] == ToCamera(vp, GetVertex(c, t)) &&
                        r.projectedCuboid[VertexIndex(t)] ==
                        ProjectToPoint(ActiveProjector(s, vp, viewProjection), false, GetVertex(c, t))
  {
  }

  /**
   * The metrics of a record: occluded is 0, 1 or 2; truncated is the exporter's rule on the
   * actor's 2D box, lies in [0,1], is 1 when no component offers a vertex, and agrees with the
   * image-clamped rule when coordinates are normalized.
   */
  lemma ActorRecordMetrics(s: DataExportSettings, vp: Viewpoint, viewProjection: Mat4, a: Actor)
    ensures ActorRecord(s, vp, viewProjection, a).occluded <= 2
    ensures ActorRecord(s, vp, viewProjection, a).truncated ==
            TruncationAsWritten(BoundingBox2D(ActiveProjector(s, vp, viewProjection), false, a.meshComponents))
    ensures 0.0 <= ActorRecord(s, vp, viewProjection, a).truncated <= 1.0
    ensures !AnyVertexes(a.meshComponents) ==> ActorRecord(s, vp, viewProjection, a).truncated == 1.0
    ensures !s.exportImageCoordinateInPixel ==>
              ActorRecord(s, vp, viewProjection, a).truncated ==
              Truncation(ActiveProjector(s, vp, viewProjection), BoundingBox2D(ActiveProjector(s, vp, viewProjection), false, a.meshComponents))
  {
    var pr := ActiveProjector(s, vp, viewProjection);
    var bb := BoundingBox2D(pr, false, a.meshComponents);
    BoundingBox2DSpec(pr, false, a.meshComponents);
    TruncationInUnitRange(bb, Vec2(1.0, 1.0));
    if !AnyVertexes(a.meshComponents) {
      TruncationOneOutsideImage(bb, Vec2(1.0, 1.0));
    }
    if !s.exportImageCoordinateInPixel {
      TruncationNormalizedAgrees(pr, bb);
    }
  }

  /** Capturing the concatenation of two actor lists collects the records of the first, then those of the second. */
  lemma {:induction false} CapturedObjectsAppend(s: DataExportSettings, vp: Viewpoint, m: Mat4, xs: seq<Actor>, ys: seq<Actor>)
    ensures CapturedObjects(s, vp, m, xs + ys) == CapturedObjects(s, vp, m, xs) + CapturedObjects(s, vp, m, ys)
  {
    if ys == [] {
      assert xs + ys == xs;
    } else {
      var init := ys[..|ys| - 1];
      CapturedObjectsAppend(s, vp, m, xs, init);
      assert (xs + ys)[..|xs + ys| - 1] == xs + init;
    }
  }

  /** One more actor adds its record when it qualifies, and nothing otherwise. */
  lemma CapturedObjectsStep(s: DataExportSettings, vp: Viewpoint, m: Mat4, actors: seq<Actor>, i: nat)
    requires i < |actors|
    ensures CapturedObjects(s, vp, m, actors[..i + 1]) ==
            CapturedObjects(s, vp, m, actors[..i]) + (if Qualifies(s, actors[i]) then [ActorRecord(s, vp, m, actors[i])] else [])
  {
    assert actors[..i + 1][..i] == actors[..i];
  }

  /** Soundness: every collected record is the record of some qualifying actor. */
  lemma {:induction false} CapturedObjectsSound(s: DataExportSettings, vp: Viewpoint, m: Mat4, actors: seq<Actor>, o: ObjectData)
    requires o in CapturedObjects(s, vp, m, actors)
    ensures exists i :: 0 <= i < |actors| && Qualifies(s, actors[i]) && o == ActorRecord(s, vp, m, actors[i])
  {
    var init := actors[..|actors| - 1];
    var a := actors[|actors| - 1];
    if o in CapturedObjects(s, vp, m, init) {
      CapturedObjectsSound(s, vp, m, init, o);
      var i :| 0 <= i < |init| && Qualifies(s, init[i]) && o == ActorRecord(s, vp, m, init[i]);
      assert actors[i] == init[i];
    } else {
      assert Qualifies(s, a) && o == ActorRecord(s, vp, m, a);
    }
  }

  /** Completeness: the record of every qualifying actor is collected. */
  lemma {:induction false} CapturedObjectsComplete(s: DataExportSettings, vp: Viewpoint, m: Mat4, actors: seq<Actor>, i: nat)
    requires i < |actors| && Qualifies(s, actors[i])
    ensures ActorRecord(s, vp, m, actors[i]) in CapturedObjects(s, vp, m, actors)
  {
    var init := actors[..|actors| - 1];
    if i < |init| {
      assert actors[i] == init[i];
      CapturedObjectsComplete(s, vp, m, init, i);
    }
  }

  /** With MatchesTag and the hidden-actor filter on, a capture collects no object at all. */
  lemma {:induction false} MatchesTagCapturesNothing(s: DataExportSettings, vp: Viewpoint, m: Mat4, actors: seq<Actor>)
    requires s.includeObjectsType == MatchesTag && s.ignoreHiddenActor
    ensures CapturedObjects(s, vp, m, actors) == []
  {
    if actors != [] {
      MatchesTagCapturesNothing(s, vp, m, actors[..|actors| - 1]);
      MatchesTagWithHiddenFilterExportsNothing(s, actors[|actors| - 1]);
    }
  }

  /** The 2D box generation type and the output-even-if-empty flag change nothing that is collected. */
  lemma {:induction false} CapturedObjectsIgnoreUnusedSettings(
    s: DataExportSettings, t: BoundBox2dGenerationType, even: bool, vp: Viewpoint, m: Mat4, actors: seq<Actor>)
    ensures CapturedObjects(s.(boundingBox2dType := t, outputEvenIfNoObjectsAreInView := even), vp, m, actors) ==
            CapturedObjects(s, vp, m, actors)
  {
    var s' := s.(boundingBox2dType := t, outputEvenIfNoObjectsAreInView := even);
    if actors != [] {
      CapturedObjectsIgnoreUnusedSettings(s, t, even, vp, m, actors[..|actors| - 1]);
      var a := actors[|actors| - 1];
      assert Qualifies(s', a) == Qualifies(s, a);
      assert ActorRecord(s', vp, m, a) == ActorRecord(s, vp, m, a);
    }
  }
}
