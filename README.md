# Annotation export and texture readback of the NVIDIA scene capturer, in Dafny

This project models two parts of the NVSceneCapturer Unreal plugin.

**The scene annotation exporter** (`UNVSceneFeatureExtractor_AnnotationData`) writes one ground-truth record per object. Once per capture it:

- walks the actors of the world;
- decides which ones to export (the hidden-actor filter, the view-frustum guard, the include policy and the capturable tag);
- projects each exported actor's bounding cuboid into the image;
- builds the actor's 2D bounding box from its mesh collision or render vertices;
- classifies occlusion by counting blocked corners, and computes truncation from the clamped box area and `distance_scale` from the configured distance range.

The export settings have defaults. A capture reads a protected runtime copy of them, taken when capturing starts.

**The texture reader** (`FNVTextureReader`) keeps four settings: a source texture, a source rectangle, a readback format and a readback size.

- `SetSourceTexture` fills defaulted arguments from the texture, and remaps formats the RHI cannot read back.
- `ReadPixelsRaw` checks its arguments and plans a copy of the source region into a CPU-readable texture.
- `BuildPixelData` grows a byte buffer and copies the mapped surface into it row by row, at a packed row stride.

The model is split by concern:

- **Pure rules** are functions with lemmas: `Geometry`, `CapturerUtils`, `ExportSettings`, `Scene`, `DataExport`, `BoundingBoxes` and `ActorRecords`.
- **The exporter's loops** are methods in `DataExportMethods`. Each is proved to compute its function.
- **Objects whose fields the source updates** are classes: `AnnotationExtractor.AnnotationExtractor`, `TextureReader.TextureReader` and `CapturerUtils.TexturePixelData`.
- **The pixel buffer** is an `array<byte>` that `TextureReader.BuildPixelData` replaces with a grown one and fills row by row with `TextureReader.Memcpy`.

Engine services whose code is not part of the model become inputs:

- The view-frustum intersection is a flag on the actor.
- The visibility line traces are the set of corner points whose trace is blocked.
- The three cuboid builders' results are fields of the actor.
- The "first valid mesh component" query is a flag.
- The actor-to-viewpoint distance is a number.
- The viewpoint's projection, view-projection and world-to-camera (OpenCV) matrices are given.
- The RHI is its name, or none.
- The mapped staging surface is a byte sequence with its size.
- The per-format pixel byte size (`GetPixelByteSize`) is a parameter.

Geometry is over `real`; integers are unbounded.

Four behaviours of the code worth noting:

- `distance_scale` is not clamped to [0,1].
- A nearly-zero w is replaced by a small positive constant, and z is not forced to 0 in that case. Only a non-positive w forces z to 0, and after the substitution w can no longer be zero.
- The `MatchesTag` include policy never grants export.
- Truncation clamps the box to [0,1] even in pixel mode, and the exported records carry that value (`DataExport.TruncationAsWritten`). `DataExport.Truncation` is the rule clamped to the image in the box's own units: see Findings.

## Model

| member | source | states |
|---|---|---|
| CapturerUtils.VertexIndex | Source/Plugins/NVSceneCapturer/Source/NVSceneCapturer/Public/NVSceneCapturerUtils.h:92-104 | every cuboid vertex type has an index below CuboidVertexType_MAX = 8 |
| CapturerUtils.VertexIndexIsBijective | Source/Plugins/NVSceneCapturer/Source/NVSceneCapturer/Public/NVSceneCapturerUtils.h:92-104 | the eight vertex types and the indices 0..7 correspond one to one, FrontTopRight = 0 … RearBottomRight = 7 |
| CapturerUtils.GetVertex | Source/Plugins/NVSceneCapturer/Source/NVSceneCapturer/Public/NVSceneCapturerUtils.h:126 | GetVertex returns the corner stored at the vertex type's index, one of the cuboid's eight stored corners |
| CapturerUtils.EveryCornerIsNamed | Source/Plugins/NVSceneCapturer/Source/NVSceneCapturer/Public/NVSceneCapturerUtils.h:113-126 | every stored corner is returned by exactly one vertex type |
| CapturerUtils.DimensionIsFullSize | Source/Plugins/NVSceneCapturer/Source/NVSceneCapturer/Public/NVSceneCapturerUtils.h:127-128 | GetDimension is twice GetExtent, i.e. the full size of the local box |
| CapturerUtils.CuboidValidity | Source/Plugins/NVSceneCapturer/Source/NVSceneCapturer/Public/NVSceneCapturerUtils.h:131 | a cuboid is valid iff its local box is valid; corners, center and rotation do not affect it |
| CapturerUtils.ToNVBox2D | Source/Plugins/NVSceneCapturer/Source/NVSceneCapturer/Public/NVSceneCapturerUtils.h:149-153 | the exported box swaps the axes: top_left = (Min.Y, Min.X), bottom_right = (Max.Y, Max.X) |
| CapturerUtils.NVBox2DRoundTrip | Source/Plugins/NVSceneCapturer/Source/NVSceneCapturer/Public/NVSceneCapturerUtils.h:149-153 | the swap loses nothing: swapping back recovers the box, in both directions |
| CapturerUtils.TagValidity | Source/Plugins/NVSceneCapturer/Source/NVSceneCapturer/Public/NVSceneCapturerUtils.h:318-320 | a tag is valid iff bIncludeMe holds and its label is non-empty; a fresh tag has bIncludeMe but is not valid |
| CapturerUtils.PolicyEnumerations | Source/Plugins/NVSceneCapturer/Source/NVSceneCapturer/Public/NVSceneCapturerUtils.h:336-356 | the include policy has exactly two values, the 3D bounds policy three and the 2D box policy two |
| CapturerUtils.TexturePixelData.constructor | Source/Plugins/NVSceneCapturer/Source/NVSceneCapturer/Public/NVSceneCapturerUtils.h:60-76 | a new pixel record holds an empty, freshly allocated byte buffer |
| ExportSettings.DefaultSettingsValues | Source/Plugins/NVSceneCapturer/Source/NVSceneCapturer/Public/NVSceneFeatureExtractor_DataExport.h:25-47 | the defaults: AllTaggedObjects, hidden actors ignored, the OOBB cuboid, the 2D box from mesh collision, output even with nothing in view, pixel coordinates, and a distance range starting at 100 and 900 wide |
| DataExport.IsActorInViewFrustum | Source/Plugins/NVSceneCapturer/Source/NVSceneCapturer/Private/NVSceneFeatureExtractor_DataExport.cpp:370-381 | an actor whose bounds extent is nearly zero is never in view; otherwise the frustum test decides |
| DataExport.ShouldExportActor | Source/Plugins/NVSceneCapturer/Source/NVSceneCapturer/Private/NVSceneFeatureExtractor_DataExport.cpp:332-365 | an exported actor has a reason (visible with the hidden filter off, or AllTaggedObjects and a tag with bIncludeMe), a mesh component and a bounds extent that is not zero; with bIgnoreHiddenActor it is also visible and in view (the converse is ExportFilterRule) |
| DataExport.HiddenFilterExcludes | Source/Plugins/NVSceneCapturer/Source/NVSceneCapturer/Private/NVSceneFeatureExtractor_DataExport.cpp:337-343 | with bIgnoreHiddenActor, a hidden, out-of-view or flat actor is never exported |
| DataExport.ExportFilterRule | Source/Plugins/NVSceneCapturer/Source/NVSceneCapturer/Private/NVSceneFeatureExtractor_DataExport.cpp:332-365 | export holds iff the hidden filter passes, a reason holds (visible with the filter off, or AllTaggedObjects and a tag with bIncludeMe), there is a mesh component and the bounds extent is not zero |
| DataExport.MatchesTagWithHiddenFilterExportsNothing | Source/Plugins/NVSceneCapturer/Source/NVSceneCapturer/Private/NVSceneFeatureExtractor_DataExport.cpp:345-352 | MatchesTag together with bIgnoreHiddenActor exports no actor |
| DataExport.DefaultSettingsExportOnlyTagged | Source/Plugins/NVSceneCapturer/Source/NVSceneCapturer/Private/NVSceneFeatureExtractor_DataExport.cpp:337-352 | under the default settings only visible, in-view actors with a bIncludeMe tag are exported |
| DataExport.UnlabelledTagGrantsExport | Source/Plugins/NVSceneCapturer/Source/NVSceneCapturer/Private/NVSceneFeatureExtractor_DataExport.cpp:345-352 | the filter reads bIncludeMe, not tag validity: a fresh, unlabelled tag grants export |
| DataExport.SafeW | Source/Plugins/NVSceneCapturer/Source/NVSceneCapturer/Private/NVSceneFeatureExtractor_DataExport.cpp:388-390 | a nearly-zero w is replaced by KINDA_SMALL_NUMBER; the divisor is never zero |
| DataExport.ProjectWorldPositionToImagePosition | Source/Plugins/NVSceneCapturer/Source/NVSceneCapturer/Private/NVSceneFeatureExtractor_DataExport.cpp:386-409 | the depth is the divided clip z; in normalized mode 2x-1 and 1-2y give back the divided clip x and y |
| DataExport.ProjectionRoundTrip | Source/Plugins/NVSceneCapturer/Source/NVSceneCapturer/Private/NVSceneFeatureExtractor_DataExport.cpp:386-409 | the image mapping is invertible: from the image position one recovers the divided clip x and y (y flipped) |
| DataExport.ProjectionDepth | Source/Plugins/NVSceneCapturer/Source/NVSceneCapturer/Private/NVSceneFeatureExtractor_DataExport.cpp:388-401 | a clip w below -SMALL_NUMBER forces the depth to 0; a nearly-zero w divides x and z by KINDA_SMALL_NUMBER, so the depth is not forced to 0; a w above SMALL_NUMBER gives depth z/w |
| DataExport.NormalizedImageMatchesClipRange | Source/Plugins/NVSceneCapturer/Source/NVSceneCapturer/Private/NVSceneFeatureExtractor_DataExport.cpp:398-400 | in normalized mode clip x and y in [-1,1] map to image x and y in [0,1] |
| DataExport.PixelModeScalesNormalized | Source/Plugins/NVSceneCapturer/Source/NVSceneCapturer/Private/NVSceneFeatureExtractor_DataExport.cpp:403-408 | pixel mode is the normalized position scaled by width and height, z unchanged |
| DataExport.IdentityProjection | Source/Plugins/NVSceneCapturer/Source/NVSceneCapturer/Private/NVSceneFeatureExtractor_DataExport.cpp:386-409 | with the initial identity view-projection, normalized mode maps (x, y, z) to ((x+1)/2, (1-y)/2, z) |
| DataExport.DistanceScale | Source/Plugins/NVSceneCapturer/Source/NVSceneCapturer/Private/NVSceneFeatureExtractor_DataExport.cpp:259-263 | with a positive range, scale · size + Min is the distance (the scale is the distance placed on the range); with a void range the result is 1 iff the distance is at least Max and 0 otherwise |
| DataExport.DistanceScaleEndpoints | Source/Plugins/NVSceneCapturer/Source/NVSceneCapturer/Private/NVSceneFeatureExtractor_DataExport.cpp:259-263 | with a positive range, the scale is 0 at Min and 1 at Max, and below 0 or above 1 outside the range (no clamping) |
| DataExport.DistanceScaleMonotone | Source/Plugins/NVSceneCapturer/Source/NVSceneCapturer/Private/NVSceneFeatureExtractor_DataExport.cpp:259-263 | a farther actor never gets a smaller scale |
| DataExport.DefaultDistanceScale | Source/Plugins/NVSceneCapturer/Source/NVSceneCapturer/Private/NVSceneFeatureExtractor_DataExport.cpp:259-263 | under the default range the scale is (d - 100) / 900 |
| DataExport.BlockedCount | Source/Plugins/NVSceneCapturer/Source/NVSceneCapturer/Private/NVSceneFeatureExtractor_DataExport.cpp:274-284 | the number of blocked corners never exceeds the number of corners |
| DataExport.BlockedCountExtremes | Source/Plugins/NVSceneCapturer/Source/NVSceneCapturer/Private/NVSceneFeatureExtractor_DataExport.cpp:274-284 | the count is 0 iff no corner is blocked and the number of corners iff all are |
| DataExport.OcclusionClass | Source/Plugins/NVSceneCapturer/Source/NVSceneCapturer/Private/NVSceneFeatureExtractor_DataExport.cpp:286 | class 0 iff none blocked, 1 iff 1 to 4, 2 iff more than 4 |
| DataExport.OcclusionClassMonotone | Source/Plugins/NVSceneCapturer/Source/NVSceneCapturer/Private/NVSceneFeatureExtractor_DataExport.cpp:286 | more blocked corners never give a lower class |
| DataExport.CuboidOcclusion | Source/Plugins/NVSceneCapturer/Source/NVSceneCapturer/Private/NVSceneFeatureExtractor_DataExport.cpp:274-286 | over a cuboid at most 8 corners are blocked; all blocked is class 2 and none blocked class 0 |
| DataExport.ClampToImage | Source/Plugins/NVSceneCapturer/Source/NVSceneCapturer/Private/NVSceneFeatureExtractor_DataExport.cpp:266-270 | every clamped coordinate lies inside [0, bound]; validity is kept |
| DataExport.ClampedAreaBounded | Source/Plugins/NVSceneCapturer/Source/NVSceneCapturer/Private/NVSceneFeatureExtractor_DataExport.cpp:266-292 | clamping an ordered box keeps it ordered, and the clamped area is between 0 and the full area |
| DataExport.TruncationAsWritten | Source/Plugins/NVSceneCapturer/Source/NVSceneCapturer/Private/NVSceneFeatureExtractor_DataExport.cpp:264-293 | the exporter's truncation, clamping to [0,1] in any units: in [0,1] for an ordered box, and 0 for a box of positive area inside [0,1]² |
| DataExport.Truncation | Source/Plugins/NVSceneCapturer/Source/NVSceneCapturer/Private/NVSceneFeatureExtractor_DataExport.cpp:264-293 | the truncation clamped to the image in the box's units: in [0,1] for an ordered box, and 0 for a box of positive area inside the image |
| DataExport.TruncationBounds | Source/Plugins/NVSceneCapturer/Source/NVSceneCapturer/Private/NVSceneFeatureExtractor_DataExport.cpp:266-293 | against any non-negative bound the truncation of an ordered box lies in [0,1], and a box of positive area inside the bound has truncation 0 |
| DataExport.TruncationInUnitRange | Source/Plugins/NVSceneCapturer/Source/NVSceneCapturer/Private/NVSceneFeatureExtractor_DataExport.cpp:291-293 | for an ordered box the truncation lies in [0,1] |
| DataExport.TruncationZeroInsideImage | Source/Plugins/NVSceneCapturer/Source/NVSceneCapturer/Private/NVSceneFeatureExtractor_DataExport.cpp:291-293 | a box with positive area wholly inside the image has truncation 0 |
| DataExport.TruncationOneOutsideImage | Source/Plugins/NVSceneCapturer/Source/NVSceneCapturer/Private/NVSceneFeatureExtractor_DataExport.cpp:291-293 | a box of no area, or wholly left of or above the image, has truncation 1 |
| DataExport.TruncationNormalizedAgrees | Source/Plugins/NVSceneCapturer/Source/NVSceneCapturer/Private/NVSceneFeatureExtractor_DataExport.cpp:266-293 | in normalized mode the corrected truncation equals the one as written |
| DataExport.TruncationAsWrittenInPixelMode | Source/Plugins/NVSceneCapturer/Source/NVSceneCapturer/Private/NVSceneFeatureExtractor_DataExport.cpp:266-293 | in pixel mode the rule as written reports a box well inside a 100x100 image as fully truncated, while the corrected rule gives 0 |
| BoundingBoxes.VertexSourceChoice | Source/Plugins/NVSceneCapturer/Source/NVSceneCapturer/Private/NVSceneFeatureExtractor_DataExport.cpp:457-512 | a static mesh with a convex collision vertex offers exactly its transformed convex vertices; one without offers exactly its LOD0 render positions, or nothing without LODs; a skeletal mesh with a physics asset offers exactly the convex vertices of its non-null body setups; a missing mesh or asset, or another component, offers nothing |
| BoundingBoxes.BoundVertexes | Source/Plugins/NVSceneCapturer/Source/NVSceneCapturer/Private/NVSceneFeatureExtractor_DataExport.cpp:451-512 | a component with no mesh, a skeletal mesh with no physics asset, or another kind of component offers no vertex (the full choice is VertexSourceChoice) |
| BoundingBoxes.ConvexVertexesMembers | Source/Plugins/NVSceneCapturer/Source/NVSceneCapturer/Private/NVSceneFeatureExtractor_DataExport.cpp:465-471 | the collected convex vertices are exactly the transformed vertices of the elements, and there are some iff an element has a vertex |
| BoundingBoxes.PhysicsAssetVertexesMembers | Source/Plugins/NVSceneCapturer/Source/NVSceneCapturer/Private/NVSceneFeatureExtractor_DataExport.cpp:500-509 | the collected physics-asset vertices are exactly the convex vertices of the non-null body setups |
| BoundingBoxes.ConvexVertexesCount | Source/Plugins/NVSceneCapturer/Source/NVSceneCapturer/Private/NVSceneFeatureExtractor_DataExport.cpp:465-471 | one vertex is collected per convex-element vertex |
| BoundingBoxes.CollisionIgnoresRenderData | Source/Plugins/NVSceneCapturer/Source/NVSceneCapturer/Private/NVSceneFeatureExtractor_DataExport.cpp:463-490 | a static mesh with any collision vertex gives the same vertices whatever its render data |
| BoundingBoxes.ProjectToPoint | Source/Plugins/NVSceneCapturer/Source/NVSceneCapturer/Private/NVSceneFeatureExtractor_DataExport.cpp:440-446 | with the clamp flag, both coordinates of a projected vertex lie in [0,1] |
| BoundingBoxes.BoxOfPointsContains | Source/Plugins/NVSceneCapturer/Source/NVSceneCapturer/Private/NVSceneFeatureExtractor_DataExport.cpp:437-448 | growing a box by points makes it valid iff it was valid or a point was added; it stays ordered and holds every point |
| BoundingBoxes.BoxOfPointsSmallest | Source/Plugins/NVSceneCapturer/Source/NVSceneCapturer/Private/NVSceneFeatureExtractor_DataExport.cpp:437-448 | the grown box is the smallest holding the start box and every point |
| BoundingBoxes.BoxOfPointsWithinBounds | Source/Plugins/NVSceneCapturer/Source/NVSceneCapturer/Private/NVSceneFeatureExtractor_DataExport.cpp:437-448 | points inside [0, bound] give a box inside [0, bound] |
| BoundingBoxes.Box2DOfVertexes | Source/Plugins/NVSceneCapturer/Source/NVSceneCapturer/Private/NVSceneFeatureExtractor_DataExport.cpp:434-449 | no vertex gives the zero box; otherwise the box is valid and ordered |
| BoundingBoxes.Box2DOfVertexesSpec | Source/Plugins/NVSceneCapturer/Source/NVSceneCapturer/Private/NVSceneFeatureExtractor_DataExport.cpp:434-449 | Calculate2dAABB gives the zero invalid box for no vertex; otherwise it gives a valid, ordered, smallest box holding every projected vertex, inside [0,1]² with the clamp flag |
| BoundingBoxes.MeshComponentBox2DSpec | Source/Plugins/NVSceneCapturer/Source/NVSceneCapturer/Private/NVSceneFeatureExtractor_DataExport.cpp:514-517 | a component's box is the zero box iff it offers no vertex, and valid and ordered otherwise |
| BoundingBoxes.ComponentBoxesAreParts | Source/Plugins/NVSceneCapturer/Source/NVSceneCapturer/Private/NVSceneFeatureExtractor_DataExport.cpp:420-426 | every component box is valid and ordered, or the zero box, and it is valid iff its component offers a vertex |
| BoundingBoxes.BoundingBox2D | Source/Plugins/NVSceneCapturer/Source/NVSceneCapturer/Private/NVSceneFeatureExtractor_DataExport.cpp:414-432 | the actor's 2D box is ordered and valid iff its area is positive |
| BoundingBoxes.BoundingBox2DSpec | Source/Plugins/NVSceneCapturer/Source/NVSceneCapturer/Private/NVSceneFeatureExtractor_DataExport.cpp:414-432 | GetBoundingBox2D holds every component box and is the smallest box that does (when some component offers a vertex), is ordered and valid iff its area is positive, and is the zero box when no component offers a vertex |
| Geometry.UnionAllValidity | Source/Plugins/NVSceneCapturer/Source/NVSceneCapturer/Private/NVSceneFeatureExtractor_DataExport.cpp:416-426 | the union of component boxes is ordered, valid iff some part is valid, and otherwise the zero box |
| Geometry.UnionAllContains | Source/Plugins/NVSceneCapturer/Source/NVSceneCapturer/Private/NVSceneFeatureExtractor_DataExport.cpp:416-426 | the union holds every valid part |
| Geometry.InvalidateIfEmpty | Source/Plugins/NVSceneCapturer/Source/NVSceneCapturer/Private/NVSceneFeatureExtractor_DataExport.cpp:428-429 | a box of non-positive area is marked invalid; its corners are kept |
| Geometry.AddPoint | Source/Plugins/NVSceneCapturer/Source/NVSceneCapturer/Private/NVSceneFeatureExtractor_DataExport.cpp:446 | FBox2D += point: the result is valid and holds the point and the old valid box, and stays ordered |
| Geometry.Union | Source/Plugins/NVSceneCapturer/Source/NVSceneCapturer/Private/NVSceneFeatureExtractor_DataExport.cpp:425 | FBox2D += box: valid iff either operand is, holds each valid operand, stays ordered, and two invalid operands leave the first |
| Geometry.UnionSmallest | Source/Plugins/NVSceneCapturer/Source/NVSceneCapturer/Private/NVSceneFeatureExtractor_DataExport.cpp:425 | a box holding each valid operand holds their union |
| Geometry.UnionAllSmallest | Source/Plugins/NVSceneCapturer/Source/NVSceneCapturer/Private/NVSceneFeatureExtractor_DataExport.cpp:416-426 | a box holding every valid part holds the union of the parts, when some part is valid |
| ActorRecords.ActorRecordShape | Source/Plugins/NVSceneCapturer/Source/NVSceneCapturer/Private/NVSceneFeatureExtractor_DataExport.cpp:187-238 | the record names the actor, takes its class from the tag or else the name, and lists the selected cuboid's 8 corners in vertex order, in camera space and projected |
| ActorRecords.SelectCuboid | Source/Plugins/NVSceneCapturer/Source/NVSceneCapturer/Private/NVSceneFeatureExtractor_DataExport.cpp:220-231 | VE_TightOOBB selects the complex OOBB, VE_AABB the AABB and the default case the simple OOBB |
| ActorRecords.ActorRecord | Source/Plugins/NVSceneCapturer/Source/NVSceneCapturer/Private/NVSceneFeatureExtractor_DataExport.cpp:161-327 | a record is named after its actor, has eight camera-space and eight projected corners, and an occlusion class of at most 2 |
| ActorRecords.ActorRecordMetrics | Source/Plugins/NVSceneCapturer/Source/NVSceneCapturer/Private/NVSceneFeatureExtractor_DataExport.cpp:264-293 | occluded is 0, 1 or 2; truncated is the exporter's as-written rule on the actor's 2D box, lies in [0,1], is 1 for an actor without vertices, and equals the image-clamped rule in normalized mode |
| ActorRecords.CapturedObjectsAppend | Source/Plugins/NVSceneCapturer/Source/NVSceneCapturer/Private/NVSceneFeatureExtractor_DataExport.cpp:96-106 | capturing two actor lists in turn collects the first one's records, then the second one's |
| ActorRecords.CapturedObjects | Source/Plugins/NVSceneCapturer/Source/NVSceneCapturer/Private/NVSceneFeatureExtractor_DataExport.cpp:96-106 | the records of the qualifying actors in world order: at most one record per actor |
| ActorRecords.CapturedObjectsStep | Source/Plugins/NVSceneCapturer/Source/NVSceneCapturer/Private/NVSceneFeatureExtractor_DataExport.cpp:96-106 | visiting one more actor appends its record when it qualifies and nothing otherwise |
| ActorRecords.CapturedObjectsSound | Source/Plugins/NVSceneCapturer/Source/NVSceneCapturer/Private/NVSceneFeatureExtractor_DataExport.cpp:96-106 | every collected record is the record of some actor that passes the filter and has a valid mesh component |
| ActorRecords.CapturedObjectsComplete | Source/Plugins/NVSceneCapturer/Source/NVSceneCapturer/Private/NVSceneFeatureExtractor_DataExport.cpp:96-106 | the record of every qualifying actor is collected |
| ActorRecords.MatchesTagCapturesNothing | Source/Plugins/NVSceneCapturer/Source/NVSceneCapturer/Private/NVSceneFeatureExtractor_DataExport.cpp:345-352 | with MatchesTag and the hidden filter, a capture collects no object |
| ActorRecords.CapturedObjectsIgnoreUnusedSettings | Source/Plugins/NVSceneCapturer/Source/NVSceneCapturer/Private/NVSceneFeatureExtractor_DataExport.cpp:161-326 | BoundingBox2dType and bOutputEvenIfNoObjectsAreInView change nothing that is collected |
| DataExportMethods.AddConvexVertexes | Source/Plugins/NVSceneCapturer/Source/NVSceneCapturer/Private/NVSceneFeatureExtractor_DataExport.cpp:465-471 | the nested Add loop appends the transformed vertices of every convex element, in order |
| DataExportMethods.AddPhysicsAssetVertexes | Source/Plugins/NVSceneCapturer/Source/NVSceneCapturer/Private/NVSceneFeatureExtractor_DataExport.cpp:500-509 | the body-setup loop skips null setups and appends the others' convex vertices |
| DataExportMethods.AddLod0Vertexes | Source/Plugins/NVSceneCapturer/Source/NVSceneCapturer/Private/NVSceneFeatureExtractor_DataExport.cpp:479-486 | the LOD0 loop appends every transformed render position |
| DataExportMethods.GatherBoundVertexes | Source/Plugins/NVSceneCapturer/Source/NVSceneCapturer/Private/NVSceneFeatureExtractor_DataExport.cpp:454-512 | the vertex gathering yields exactly the vertices of the source choice |
| DataExportMethods.Calculate2dAABB | Source/Plugins/NVSceneCapturer/Source/NVSceneCapturer/Private/NVSceneFeatureExtractor_DataExport.cpp:434-449 | the accumulation loop computes the box of the projected, optionally clamped, vertices |
| DataExportMethods.Calculate2dAABBMeshComplexCollision | Source/Plugins/NVSceneCapturer/Source/NVSceneCapturer/Private/NVSceneFeatureExtractor_DataExport.cpp:451-518 | the component's box, or the zero box when it offers no vertex |
| DataExportMethods.GetBoundingBox2D | Source/Plugins/NVSceneCapturer/Source/NVSceneCapturer/Private/NVSceneFeatureExtractor_DataExport.cpp:414-432 | the union loop and invalidation compute the actor's 2D box |
| DataExportMethods.CountOccludedPoints | Source/Plugins/NVSceneCapturer/Source/NVSceneCapturer/Private/NVSceneFeatureExtractor_DataExport.cpp:274-284 | the trace loop counts exactly the blocked corners |
| DataExportMethods.GatherActorData | Source/Plugins/NVSceneCapturer/Source/NVSceneCapturer/Private/NVSceneFeatureExtractor_DataExport.cpp:161-327 | true iff there is a viewpoint, the filter passes and a valid mesh component exists; then the record is filled corner by corner |
| AnnotationExtractor.CaptureResult | Source/Plugins/NVSceneCapturer/Source/NVSceneCapturer/Private/NVSceneFeatureExtractor_DataExport.cpp:79-107 | the scene data carries the viewpoint's fov, location and view-projection, and at most one object per actor; without a world, no object |
| AnnotationExtractor.AnnotationExtractor.constructor | Source/Plugins/NVSceneCapturer/Source/NVSceneCapturer/Public/NVSceneFeatureExtractor_DataExport.h:99-109 | both settings copies start at the defaults and both matrices at identity |
| AnnotationExtractor.AnnotationExtractor.StartCapturing | Source/Plugins/NVSceneCapturer/Source/NVSceneCapturer/Private/NVSceneFeatureExtractor_DataExport.cpp:46-50 | the runtime copy takes the current settings; nothing else changes |
| AnnotationExtractor.AnnotationExtractor.SetDataExportSettings | Source/Plugins/NVSceneCapturer/Source/NVSceneCapturer/Public/NVSceneFeatureExtractor_DataExport.h:99-109 | editing the settings leaves the runtime copy a capture reads untouched |
| AnnotationExtractor.AnnotationExtractor.UpdateProjectionMatrix | Source/Plugins/NVSceneCapturer/Source/NVSceneCapturer/Private/NVSceneFeatureExtractor_DataExport.cpp:132-156 | without a viewpoint, nothing; otherwise the matrices become the viewpoint's |
| AnnotationExtractor.AnnotationExtractor.CaptureSceneAnnotationDataInternal | Source/Plugins/NVSceneCapturer/Source/NVSceneCapturer/Private/NVSceneFeatureExtractor_DataExport.cpp:73-107 | no result without a viewpoint; otherwise, in iteration order, the records of exactly the actors that qualify under the runtime settings |
| AnnotationExtractor.AnnotationExtractor.CaptureSceneAnnotationData | Source/Plugins/NVSceneCapturer/Source/NVSceneCapturer/Private/NVSceneFeatureExtractor_DataExport.cpp:55-68 | true iff there is a callback and an owner viewpoint; then the capture result goes to the callback and the matrices become the viewpoint's; otherwise the matrices are unchanged; both settings copies and the owner are always kept, and without a callback nothing changes |
| TextureReader.TextureReader.constructor | Source/Plugins/NVSceneCapturer/Source/NVSceneCapturer/Private/NVTextureReader.cpp:24-27 | a new reader has no source texture |
| TextureReader.TextureReader.Assign | Source/Plugins/NVSceneCapturer/Source/NVSceneCapturer/Private/NVTextureReader.cpp:34-42 | assignment copies texture, rectangle, format and size |
| TextureReader.TextureReader.SetSourceTexture | Source/Plugins/NVSceneCapturer/Source/NVSceneCapturer/Private/NVTextureReader.cpp:44-90 | the settings become the resolved settings of the arguments |
| TextureReader.SetSourceTextureResult | Source/Plugins/NVSceneCapturer/Source/NVSceneCapturer/Private/NVTextureReader.cpp:44-90 | the texture is always stored; an explicit format and a non-zero size are kept; with a texture and an RHI a format taken from the texture is never R32_FLOAT |
| TextureReader.RemapForRhi | Source/Plugins/NVSceneCapturer/Source/NVSceneCapturer/Private/NVTextureReader.cpp:66-83 | without an RHI the format is kept; with one it is never R32_FLOAT; formats other than R16F, R16_UINT and R32_FLOAT are kept |
| TextureReader.NullTextureStoredVerbatim | Source/Plugins/NVSceneCapturer/Source/NVSceneCapturer/Private/NVTextureReader.cpp:49-56 | without a texture the four arguments are stored as given |
| TextureReader.DefaultsResolvedFromTexture | Source/Plugins/NVSceneCapturer/Source/NVSceneCapturer/Private/NVTextureReader.cpp:56-88 | a zero size becomes the texture size and an empty rectangle the whole texture; other values and explicit formats are kept |
| TextureReader.FormatTakenFromTexture | Source/Plugins/NVSceneCapturer/Source/NVSceneCapturer/Private/NVTextureReader.cpp:62-84 | an unknown format becomes the texture's, then on an RHI whose name contains "D3D11" in any letter case R16F and R16_UINT become ShadowDepth, and on any RHI R32_FLOAT becomes R32_UINT |
| TextureReader.NoFloatReadbackWithRhi | Source/Plugins/NVSceneCapturer/Source/NVSceneCapturer/Private/NVTextureReader.cpp:66-83 | with an RHI, a format taken from the texture never reads back as R32_FLOAT |
| TextureReader.SetSourceTextureIdempotent | Source/Plugins/NVSceneCapturer/Source/NVSceneCapturer/Private/NVTextureReader.cpp:44-90 | setting the resolved settings again changes nothing |
| TextureReader.D3D11NameIsRecognised | Source/Plugins/NVSceneCapturer/Source/NVSceneCapturer/Private/NVTextureReader.cpp:68-70 | an RHI name holding "D3D11" in any letter case is recognised, and then a texture format R16F reads back as ShadowDepth |
| TextureReader.LowerCaseD3D11IsRecognised | Source/Plugins/NVSceneCapturer/Source/NVSceneCapturer/Private/NVTextureReader.cpp:68-70 | the name "d3d11" is recognised: FString::Contains ignores case |
| TextureReader.CopyTexture2d | Source/Plugins/NVSceneCapturer/Source/NVSceneCapturer/Private/NVTextureReader.cpp:257-273 | no copy if either texture is null; otherwise from the source rectangle's corner to the target rectangle's corner, target width x height x 1 |
| TextureReader.ReadPixelsRaw | Source/Plugins/NVSceneCapturer/Source/NVSceneCapturer/Private/NVTextureReader.cpp:194-255 | work is planned iff the arguments are valid; the readback texture then has the target size and format, and a copy is planned |
| TextureReader.ReadPixelsRawSpec | Source/Plugins/NVSceneCapturer/Source/NVSceneCapturer/Private/NVTextureReader.cpp:194-255 | work is enqueued iff texture, non-zero area, non-zero target size and callback; then from the rectangle's corner to the origin of a target-size readback texture |
| TextureReader.ReadPixelsRawIgnoresAlphaFlag | Source/Plugins/NVSceneCapturer/Source/NVSceneCapturer/Private/NVTextureReader.cpp:233-235 | the alpha flag does not change the planned work |
| TextureReader.TextureReader.ReadPixelsData | Source/Plugins/NVSceneCapturer/Source/NVSceneCapturer/Private/NVTextureReader.cpp:94-143 | true iff a source texture is set; a mapped surface is then built into the record at the readback format and size: the buffer grows at its front by the readback buffer size with the old bytes behind, the row stride is packed and every row is copied |
| TextureReader.TextureReader.ReadPixelsDataWith | Source/Plugins/NVSceneCapturer/Source/NVSceneCapturer/Private/NVTextureReader.cpp:147-156 | the settings are set first; the result is true iff the new texture exists; then a mapped surface is built at the new readback format and size: the buffer grows at its front by the readback buffer size with the old bytes behind, the row stride is packed and every row is copied |
| TextureReader.TextureReader.ReadPixelsDataAsync | Source/Plugins/NVSceneCapturer/Source/NVSceneCapturer/Private/NVTextureReader.cpp:158-180 | true iff a callback and a texture exist and the raw read accepts the reader's settings |
| TextureReader.TextureReader.ReadPixelsDataAsyncWith | Source/Plugins/NVSceneCapturer/Source/NVSceneCapturer/Private/NVTextureReader.cpp:182-192 | the settings are set first; the plan is the raw read of the new settings when there is a callback and a texture; true iff a callback, a texture, a non-zero rectangle area and a non-zero readback size |
| TextureReader.Memcpy | Source/Plugins/NVSceneCapturer/Source/NVSceneCapturer/Private/NVTextureReader.cpp:313 | the n bytes at the destination offset become the source bytes; every other byte is kept |
| TextureReader.CopyRows | Source/Plugins/NVSceneCapturer/Source/NVSceneCapturer/Private/NVTextureReader.cpp:302-317 | after the loop, packed row r holds source row r's first bytes, and nothing at or past the limit changes |
| TextureReader.BuildPixelData | Source/Plugins/NVSceneCapturer/Source/NVSceneCapturer/Private/NVTextureReader.cpp:283-319 | with no raw buffer nothing changes. Otherwise: size and format are set; the buffer grows at its front by byteSize·TargetX·TargetY; RowStride = min(TargetX, ImageX)·byteSize; all copied rows fit in the new bytes; each of min(TargetY, ImageY) rows holds its image row |
| TextureReader.BuildNewPixelData | Source/Plugins/NVSceneCapturer/Source/NVSceneCapturer/Private/NVTextureReader.cpp:275-281 | the by-value overload gives a fresh record holding exactly the new bytes |

## Left out

- Render-thread work: `ENQUEUE_RENDER_COMMAND`, `FlushRenderingCommands`, readback-texture creation, staging-surface mapping and unmapping. The mapped surface is an input, and `ReadbackPlan` describes what is enqueued.
- JSON serialisation (`UStructToJsonObject`) and the merge of per-object custom data.
- Socket export: it needs engine socket lookups.
- Inputs computed by the engine rather than by this model:
  - rotations, quaternions, azimuth/altitude, forward directions, dimensions and the world-space copies of locations;
  - the instance id, and the actor-to-camera and actor-to-world matrices.

  The OpenCV basis matrix and quaternion conversion are not shown. The record holds only the world-to-camera transform of the location, the cuboid and the centroid, and the image-space fields.
- Engine queries as abstract inputs:
  - `GetViewFrustumBounds`/`IntersectBox` as the actor's in-frustum flag;
  - `LineTraceSingleByChannel` as the set of blocked corners;
  - `GetActorCuboid_*`, whose source is only declared, as three cuboids per actor;
  - `GetFirstValidMeshComponent` as a flag;
  - `BuildViewProjectionMatrix` and the intrinsics path as the viewpoint's given matrices;
  - `FVector::Dist` as the given distance.
- Null actors and null mesh components: the model's actors and components are values, so the source's null checks have no counterpart. A world that is null yields a capture with no object.
- `Super::StartCapturing` and the base extractor's set-up of the owner viewpoint. The owner is a constructor argument.
- IEEE float behaviour: geometry is over `real`, division exact. `IsNearlyZero` uses the engine tolerances as constants.
- `TextureReader.BuildPixelData`: does not model 32-bit arithmetic or negative sizes. Sizes are required non-negative and products do not wrap. The uninitialised bytes beyond the copied rows are left unspecified. The raw buffer is required to hold a full image of its stated size.
- TextureReader.BuildPixelData: a zero-byte buffer into an empty record is not treated as an error. In the source, a target size such as (0,5) passes the size check of ReadPixelsRaw (NVTextureReader.cpp:204). The by-value overload then inserts no bytes into a fresh, empty array and takes the address of its element 0 (NVTextureReader.cpp:300-303), which trips the array range check in checked builds. The model returns an empty buffer instead.
- `TextureReader.TextureReader.constructor`: states only that the texture is null. The other fields' initial values come from the reader's header, which is not part of this model.
- DataExportMethods.GatherActorData: does not model a null world, for which the source returns true with an unfilled record. The capture loop only calls it with a world.
- DataExportMethods.GatherActorData: the record is built once the checks pass. The source fills some fields before its mesh-component check, but the caller discards the record in that case.
- TextureReader.TextureReader.ReadPixelsData: requires a non-negative readback size, because BuildPixelData's size arithmetic is modelled for non-negative sizes only.
- TextureReader.TextureReader.ReadPixelsDataWith: requires non-negative sizes for the same reason.
- TextureReader.IsD3D11: folds only the ASCII letters a-z. How the engine's case-insensitive search treats other characters is not modelled.
- CapturerUtils.TexturePixelData.constructor: states only the empty buffer. FNVTexturePixelData gives its format, stride and size no initial values; the model starts them at Unknown, 0 and (0,0).
- The synchronous ReadPixelsData copies the whole source texture into a staging texture on the render thread; that copy is not part of the model, only its mapped result.
- The header NVTextureReader.h is not part of this model: the reader's fields are taken from their uses in NVTextureReader.cpp.

## Findings

| source | as written | input that shows it | evidently intended | confidence | as-written member | corrected member |
|---|---|---|---|---|---|---|
| Source/Plugins/NVSceneCapturer/Source/NVSceneCapturer/Private/NVSceneFeatureExtractor_DataExport.cpp:264-293 | truncation clamps the 2D box to [0,1] × [0,1], but the box is in pixels when bExportImageCoordinateInPixel is set (the default); ActorRecord and GatherActorData export this value | pixel mode, 100x100 image, box (40,40)-(60,60) wholly inside: as written truncated = 1 | clamp to the image in the box's own units (width × height in pixel mode), giving 0 for that box | medium, not executed | DataExport.TruncationAsWrittenInPixelMode | DataExport.Truncation |
