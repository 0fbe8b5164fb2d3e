/** FNVDataExportSettings: what the annotation exporter includes and how it measures it. */
module ExportSettings {
  import opened CapturerUtils

  /** FFloatInterval. */
  datatype FloatInterval = FloatInterval(min: real, max: real)

  /** FFloatInterval::Size. */
  function Size(i: FloatInterval): real {
    i.max - i.min
  }

  datatype DataExportSettings = DataExportSettings(
    includeObjectsType: IncludeObjects,
    ignoreHiddenActor: bool,
    boundsType: BoundsGenerationType,
    boundingBox2dType: BoundBox2dGenerationType,
    outputEvenIfNoObjectsAreInView: bool,
    distanceScaleRange: FloatInterval,
    exportImageCoordinateInPixel: bool)

  /**
   * The settings a new record holds. The in-class initialisers of the header and
   * the body of the default constructor assign the same values.
   */
  function DefaultDataExportSettings(): DataExportSettings {
    DataExportSettings(
      AllTaggedObjects, true, OOBB, FromMeshBodyCollision, true,
      FloatInterval(100.0, 1000.0), true)
  }

  /**
   * The defaults: every tagged object, hidden actors ignored, the simple OOBB, the 2D box
   * from mesh collision, output even when nothing is in view, pixel coordinates, and a
   * positive distance range of 900 units starting at 100.
   */
  lemma DefaultSettingsValues()
    ensures var d := DefaultDataExportSettings();
            d.includeObjectsType == AllTaggedObjects && d.ignoreHiddenActor &&
            d.boundsType == OOBB && d.boundingBox2dType == FromMeshBodyCollision &&
            d.outputEvenIfNoObjectsAreInView && d.exportImageCoordinateInPixel
    ensures DefaultDataExportSettings().distanceScaleRange.min == 100.0
    ensures Size(DefaultDataExportSettings().distanceScaleRange) == 900.0
  {
  }
}
