/**
 * UNVSceneFeatureExtractor_AnnotationData: the editable export settings, the runtime
 * copy a capture reads, the projection matrices and the owner viewpoint, and the
 * capture that walks the world's actors and collects one record per qualifying actor.
 */
module AnnotationExtractor {
  import opened Optional
  import opened Geometry
  import opened ExportSettings
  import opened Scene
  import opened ActorRecords
  import opened DataExportMethods

  /** The camera part of a capture. */
  function CameraData(vp: Viewpoint): ViewpointData {
    ViewpointData(vp.fov, vp.location, vp.projectionMatrix, vp.viewProjectionMatrix)
  }

  /** The actors a capture visits: the world's, in iteration order, or none without a world. */
  function WorldActors(world: Option<seq<Actor>>): seq<Actor> {
    if world.Some? then world.value else []
  }

  /** The scene data one capture produces with runtime settings s from viewpoint vp. */
  function CaptureResult(s: DataExportSettings, vp: Viewpoint, world: Option<seq<Actor>>): (d: SceneData)
    ensures d.cameraData.fov == vp.fov && d.cameraData.location == vp.location
    ensures d.cameraData.viewProjectionMatrix == vp.viewProjectionMatrix
    ensures |d.objects| <= |WorldActors(world)|
    ensures world.None? ==> d.objects == []
  {
    SceneData(CameraData(vp), CapturedObjects(s, vp, vp.viewProjectionMatrix, WorldActors(world)))
  }

  class AnnotationExtractor {
    /** DataExportSettings: what the editor changes. */
    var dataExportSettings: DataExportSettings
    /** ProtectedDataExportSettings: the copy a capture reads, refreshed by StartCapturing. */
    var protectedDataExportSettings: DataExportSettings
    var viewProjectionMatrix: Mat4
    var projectionMatrix: Mat4
    /** OwnerViewpoint, set by the owning capturer. */
    var ownerViewpoint: Option<Viewpoint>

    /** A new extractor: default settings in both copies, identity matrices. */
    constructor(owner: Option<Viewpoint>)
      ensures dataExportSettings == DefaultDataExportSettings()
      ensures protectedDataExportSettings == DefaultDataExportSettings()
      ensures viewProjectionMatrix == Identity && projectionMatrix == Identity
      ensures ownerViewpoint == owner
    {
      dataExportSettings := DefaultDataExportSettings();
      protectedDataExportSettings := DefaultDataExportSettings();
      viewProjectionMatrix := Identity;
      projectionMatrix := Identity;
      ownerViewpoint := owner;
    }

    /** StartCapturing: the runtime copy takes the current editable settings. */
    method StartCapturing()
      modifies this
      ensures protectedDataExportSettings == dataExportSettings
      ensures dataExportSettings == old(dataExportSettings)
      ensures viewProjectionMatrix == old(viewProjectionMatrix) && projectionMatrix == old(projectionMatrix)
      ensures ownerViewpoint == old(ownerViewpoint)
    {
      protectedDataExportSettings := dataExportSettings;
    }

    /** An edit of DataExportSettings: the runtime copy a capture reads is left as it was. */
    method SetDataExportSettings(settings: DataExportSettings)
      modifies this
      ensures dataExportSettings == settings
      ensures protectedDataExportSettings == old(protectedDataExportSettings)
      ensures viewProjectionMatrix == old(viewProjectionMatrix) && projectionMatrix == old(projectionMatrix)
      ensures ownerViewpoint == old(ownerViewpoint)
    {
      dataExportSettings := settings;
    }

    /** UpdateProjectionMatrix: the matrices the engine builds for the owner viewpoint; nothing without one. */
    method UpdateProjectionMatrix()
      modifies this
      ensures ownerViewpoint.None? ==>
                viewProjectionMatrix == old(viewProjectionMatrix) && projectionMatrix == old(projectionMatrix)
      ensures ownerViewpoint.Some? ==>
                viewProjectionMatrix == ownerViewpoint.value.viewProjectionMatrix &&
                projectionMatrix == ownerViewpoint.value.projectionMatrix
      ensures dataExportSettings == old(dataExportSettings)
      ensures protectedDataExportSettings == old(protectedDataExportSettings)
      ensures ownerViewpoint == old(ownerViewpoint)
    {
      if ownerViewpoint.Some? {
        projectionMatrix := ownerViewpoint.value.projectionMatrix;
        viewProjectionMatrix := ownerViewpoint.value.viewProjectionMatrix;
      }
    }

    /**
     * CaptureSceneAnnotationData_Internal: nothing without an owner viewpoint; otherwise
     * the matrices are refreshed and the scene data holds, in iteration order, the record
     * of exactly the actors that qualify under the runtime settings.
     */
    method CaptureSceneAnnotationDataInternal(world: Option<seq<Actor>>) returns (r: Option<SceneData>)
      modifies this
      ensures ownerViewpoint == old(ownerViewpoint)
      ensures dataExportSettings == old(dataExportSettings)
      ensures protectedDataExportSettings == old(protectedDataExportSettings)
      ensures ownerViewpoint.None? ==>
                r.None? && viewProjectionMatrix == old(viewProjectionMatrix) && projectionMatrix == old(projectionMatrix)
      ensures ownerViewpoint.Some? ==>
                viewProjectionMatrix == ownerViewpoint.value.viewProjectionMatrix &&
                projectionMatrix == ownerViewpoint.value.projectionMatrix &&
                r == Some(CaptureResult(protectedDataExportSettings, ownerViewpoint.value, world))
    {
      if ownerViewpoint.None? {
        return None;
      }
      var vp := ownerViewpoint.value;
      UpdateProjectionMatrix();
      var settings, viewProjection := protectedDataExportSettings, viewProjectionMatrix;
      var camera := ViewpointData(vp.fov, vp.location, projectionMatrix, viewProjection);
      var objects: seq<ObjectData> := [];
      if world.Some? {
        var actors := world.value;
        var i := 0;
        while i < |actors|
          invariant 0 <= i <= |actors|
          invariant objects == CapturedObjects(settings, vp, viewProjection, actors[..i])
          invariant protectedDataExportSettings == settings && viewProjectionMatrix == viewProjection
          invariant projectionMatrix == vp.projectionMatrix && ownerViewpoint == Some(vp)
          invariant dataExportSettings == old(dataExportSettings)
        {
          CapturedObjectsStep(settings, vp, viewProjection, actors, i);
          var ok, data := GatherActorData(settings, Some(vp), viewProjection, actors[i]);
          if ok {
            objects := objects + [data];
          }
          i := i + 1;
        }
        assert actors[..i] == actors;
      }
      assert camera == CameraData(vp);
      r := Some(SceneData(camera, objects));
    }

    /**
     * CaptureSceneAnnotationData: with a callback, captures and hands the data to it,
     * returning true when there was data; without a callback, does nothing and returns false.
     */
    method CaptureSceneAnnotationData(hasCallback: bool, world: Option<seq<Actor>>) returns (ok: bool, delivered: Option<SceneData>)
      modifies this
      ensures ok <==> hasCallback && ownerViewpoint.Some?
      ensures ok ==> delivered == Some(CaptureResult(protectedDataExportSettings, ownerViewpoint.value, world))
      ensures !ok ==> delivered.None?
      ensures !hasCallback ==> unchanged(this)
      ensures ownerViewpoint == old(ownerViewpoint)
      ensures dataExportSettings == old(dataExportSettings)
      ensures protectedDataExportSettings == old(protectedDataExportSettings)
      ensures hasCallback && ownerViewpoint.Some? ==>
                viewProjectionMatrix == ownerViewpoint.value.viewProjectionMatrix &&
                projectionMatrix == ownerViewpoint.value.projectionMatrix
      ensures !(hasCallback && ownerViewpoint.Some?) ==>
                viewProjectionMatrix == old(viewProjectionMatrix) && projectionMatrix == old(projectionMatrix)
    {
      if hasCallback {
        var data := CaptureSceneAnnotationDataInternal(world);
        if data.Some? {
          return true, data;
        }
      }
      return false, None;
    }
  }
}
