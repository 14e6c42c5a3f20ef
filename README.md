# Layered rendering of origami figures, in Dafny

This project models the rendering core of an origami application. The
application turns a folded figure into one-sided polygons for a display
library.

A figure is a list of bundles: stacks of flat faces that share a plane. The
core renders each bundle in **layers**:

- **Layers.** `LayerMaker` sorts a bundle's faces into rounds. A face joins a
  round once every face below it has been placed.
- **Sides.** Each face is tagged with the side or sides from which it can be
  seen (`TOP`, `BOTTOM`, `BOTH`, `NONE`).
- **Offsets.** Layer i gets an offset from the bundle's plane
  (`calculateDistances`). Each side of a face is drawn as a `OneSidedPolygon`
  pushed half a layer separation towards that side (`pushPolygon`, `push`).
- **Figure.** The figure-level renderer gathers the polygons of all bundles
  into one set. It also gathers a map from each original face to its
  polygons.

The three-dimensional variant draws a face through the **face tweaker**. For
a face on the outside of its bundle, the tweaker can:

- pull out one **openable corner**: a corner between two free edges that are
  flanked by connecting edges;
- bend one **convexable edge**: a free edge between two connecting edges.

The tweaker then reorders the boundary. Its comments want the one
non-coplanar point second on both sides. As written, that holds on the front
side for every convex edge and for a corner at index 0 or 1 of the face. On
the back side it holds only when the boundary has four points. "## Findings"
lists both gaps. The model renders as written and proves the intended
ordering of a separate, corrected tweaker.

`VisibleBundle` renders a bundle differently: it keeps only the parts of
each face that are not covered from above, or from below.

Modules, one per source file or concept:

| module | file | models |
|---|---|---|
| `Geometry` | geometry.dfy | points, vectors and colours as reals; translation, scaling, midpoints |
| `Seqs` | seqs.dfy | list helpers: `indexOf`, `reversed`, rotation, replacement |
| `OrderedMaps` | ordered_maps.dfy | Kotlin's insertion-ordered maps (`mutableMapOf`, `toMap`, `+`, `putAll`) as entry lists |
| `Figures` | figures.dfy | vertices, edges, creases, faces, bundles, figures, and the geometry library as function values |
| `CyclicEdges` | cyclic_edges.dfy | the scan over a face's edge list written twice |
| `OneSidedPolygons` | one_sided_polygon.dfy | `OneSidedPolygon` and its factory functions |
| `Layers` | layer.dfy | `Layer`, `SideToRender`, `LayeredRendering` |
| `LayerMaker` | layer_maker.dfy | `BundleLayeredRenderer.LayerMaker` |
| `FigureRendering` | figure_rendering.dfy | `push`, `makeDisplayableFigure` |
| `FaceTweaker` | face_tweaker.dfy | `FaceTweaker` |
| `BundleLayeredRenderer` | bundle_layered_renderer.dfy | distances, pushing, and collecting one bundle's polygons |
| `FigureLayerRenderer` | figure_layer_renderer.dfy | the figure-level loop and its flat and three-dimensional hooks |
| `OpenableCorners` | openable_corners.dfy | `OpenableCornerPositionCalculator` |
| `ConvexEdges` | convex_edges.dfy | `ConvexEdgeCalculator` |
| `VisibleBundles` | visible_bundle.dfy | `VisibleBundle` |

Where the source loops and mutates collections, the model does too:

- `findFacesOfNewLayer`, `updateCollections`, `layeredRendering` and
  `makePolygons`;
- the scans in `findOpenableCorners` and `findConvexableEdges`, and the
  per-side map filling;
- `visiblePolygonsFromTop` and `visiblePolygonsFromBottom`.

Each of these is a `method` with a loop, proved equal to a specification
function. Lemmas then state the source's promises about that function. The
recursive layer maker, the distances, the tweaker and the polygon factories
are pure functions.

The geometry library and the figure's own queries are parameters; see
"Left out" for the list. A `GeometryLibrary` value carries:

- `normalize`, `distance`, `facingSameWay`, `isHiddenBy`, `difference`,
  `segmentDifference` and `isShowingFront`;
- the constant `CORNER_OPEN_UP_ANGLE`.

A figure carries its free-edge and connecting-edge predicates. A bundle
carries its plane, its faces, its top and bottom faces, and the faces above
and below each face.

Paths below are relative to the repository root. `L/` stands for
`src/main/kotlin/com/whitebeluga/origami/rendering/layeredrendering/`; the
table writes paths out in full.

## Model

| member | source | states |
|---|---|---|
| Layers.NewLayer | src/main/kotlin/com/whitebeluga/origami/rendering/layeredrendering/Layer.kt:32-37 | The constructor's assertion (no face tagged NONE) is a precondition. The layer's faces are exactly the keys of its map, each with its given side. |
| Layers.EmptyLayer | src/main/kotlin/com/whitebeluga/origami/rendering/layeredrendering/Layer.kt:38-40 | The empty layer is valid and has no faces. |
| OneSidedPolygons.CreasePointLists | src/main/kotlin/com/whitebeluga/origami/rendering/OneSidedPolygon.kt:57-60 | Every crease becomes the two-point list of its ends. Every list in the result comes from a crease. |
| OneSidedPolygons.MakeFrontFaceFrom | src/main/kotlin/com/whitebeluga/origami/rendering/OneSidedPolygon.kt:57-60 | The front side keeps the vertex order and the front colour, and carries the given creases as point lists. |
| OneSidedPolygons.MakeBackFaceFrom | src/main/kotlin/com/whitebeluga/origami/rendering/OneSidedPolygon.kt:63-66 | The back side has the same length with point i equal to vertex n-1-i, the back colour, and the creases as point lists. |
| OneSidedPolygons.FrontAndBackAreOpposite | src/main/kotlin/com/whitebeluga/origami/rendering/OneSidedPolygon.kt:55-66 | The back boundary is the reverse of the front boundary, and the other way round. |
| OneSidedPolygons.MakeFrontFaceFromCreased | src/main/kotlin/com/whitebeluga/origami/rendering/OneSidedPolygon.kt:55-56 | A creased polygon's front side carries its own creases. |
| OneSidedPolygons.MakeBackFaceFromCreased | src/main/kotlin/com/whitebeluga/origami/rendering/OneSidedPolygon.kt:61-62 | A creased polygon's back side is reversed, in the back colour, and carries its own creases. |
| OneSidedPolygons.MakeFrontFaceWithCreasesFromFace | src/main/kotlin/com/whitebeluga/origami/rendering/OneSidedPolygon.kt:51 | The face's vertex positions in order, the front colour, and the face's creases. |
| OneSidedPolygons.MakeBackFaceWithCreasesFromFace | src/main/kotlin/com/whitebeluga/origami/rendering/OneSidedPolygon.kt:52 | The face's vertex positions reversed, the back colour, and the face's creases. |
| OneSidedPolygons.MakeFrontFaceNoCreasesFromFace | src/main/kotlin/com/whitebeluga/origami/rendering/OneSidedPolygon.kt:53 | The front side without creases. |
| OneSidedPolygons.MakeBackFaceNoCreasesFromFace | src/main/kotlin/com/whitebeluga/origami/rendering/OneSidedPolygon.kt:54 | The back side without creases. |
| OneSidedPolygons.From | src/main/kotlin/com/whitebeluga/origami/rendering/OneSidedPolygon.kt:46-50 | A deformable face gives (front, back): the same vertices, reversed for the back, in their colours, with no creases. |
| FigureRendering.MakeDisplayableFigure | src/main/kotlin/com/whitebeluga/origami/rendering/FigureRendering.kt:70-73 | The polygon set and the face map are passed on unchanged. |
| FigureRendering.TranslateAll | src/main/kotlin/com/whitebeluga/origami/rendering/FigureRendering.kt:76 | Same length, and point i is the input's point i translated. |
| FigureRendering.Push | src/main/kotlin/com/whitebeluga/origami/rendering/FigureRendering.kt:74-82 | The boundary keeps its length and order, and every point moves by the unit direction times `pushDistance`. The colour is kept. Every crease, and only the given creases, moves point by point by the unit direction times `pushDistance + layerSeparation`, keeping its length. |
| FigureRendering.CreasesPushedFurther | src/main/kotlin/com/whitebeluga/origami/rendering/FigureRendering.kt:75-80 | A crease point moves as a boundary point does, then `layerSeparation` further along the unit direction. |
| LayerMaker.Classify | src/main/kotlin/com/whitebeluga/origami/rendering/layeredrendering/BundleLayeredRenderer.kt:177-189 | Four if-and-only-ifs. BOTH iff the face is a top or bottom face, or is hidden from neither side. NONE iff it is neither and hidden from both sides. BOTTOM iff hidden from above only. TOP iff hidden from below only. |
| LayerMaker.FindFacesOfNewLayer | src/main/kotlin/com/whitebeluga/origami/rendering/layeredrendering/BundleLayeredRenderer.kt:170-194 | The keys are exactly the faces not yet added whose faces below are absent or all added. Each is mapped to its classification. |
| LayerMaker.Visible | src/main/kotlin/com/whitebeluga/origami/rendering/layeredrendering/BundleLayeredRenderer.kt:157 | `filterValues { it != NONE }`: exactly the entries not tagged NONE, unchanged. |
| LayerMaker.LayerOf | src/main/kotlin/com/whitebeluga/origami/rendering/layeredrendering/BundleLayeredRenderer.kt:157-159 | The new layer is valid and holds exactly the entries not tagged NONE. |
| LayerMaker.NextRoundNotEmpty | src/main/kotlin/com/whitebeluga/origami/rendering/layeredrendering/BundleLayeredRenderer.kt:152-163 | In an acyclic bundle, while faces remain, some face can be added. |
| LayerMaker.RoundProgress | src/main/kotlin/com/whitebeluga/origami/rendering/layeredrendering/BundleLayeredRenderer.kt:152-162 | Each recursive call strictly shrinks the set of faces still to add, so the recursion ends. |
| LayerMaker.MakeBottomToTopLayersRec | src/main/kotlin/com/whitebeluga/origami/rendering/layeredrendering/BundleLayeredRenderer.kt:152-163 | The result extends the layers accumulated so far, by at least one layer while faces remain, and keeps every layer valid. |
| LayerMaker.MakeBottomToTopLayers | src/main/kotlin/com/whitebeluga/origami/rendering/layeredrendering/BundleLayeredRenderer.kt:146-151 | There are layers iff the bundle has faces, and every layer is valid (no face tagged NONE). |
| LayerMaker.RoundsStep | src/main/kotlin/com/whitebeluga/origami/rendering/layeredrendering/BundleLayeredRenderer.kt:152-162 | One step: the next round is the non-empty set of new eligible faces, followed by the rounds of the faces left. |
| LayerMaker.RoundsAreNewFaces | src/main/kotlin/com/whitebeluga/origami/rendering/layeredrendering/BundleLayeredRenderer.kt:152-163 | Every round is non-empty and contains only faces not yet added. |
| LayerMaker.RoundsAreDisjoint | src/main/kotlin/com/whitebeluga/origami/rendering/layeredrendering/BundleLayeredRenderer.kt:152-163 | No face is in two rounds. |
| LayerMaker.RoundsCoverFaces | src/main/kotlin/com/whitebeluga/origami/rendering/layeredrendering/BundleLayeredRenderer.kt:152-163 | Every face not yet added is in some round. Together with disjointness, every face lands in exactly one round. |
| LayerMaker.RoundsRespectBelow | src/main/kotlin/com/whitebeluga/origami/rendering/layeredrendering/BundleLayeredRenderer.kt:172-176 | A face is placed only after every face below it. |
| LayerMaker.RoundsAreGreedy | src/main/kotlin/com/whitebeluga/origami/rendering/layeredrendering/BundleLayeredRenderer.kt:170-176 | Every face of a round rests on some face of the round before it, so no face is placed later than it could be. |
| LayerMaker.LayersFollowRounds | src/main/kotlin/com/whitebeluga/origami/rendering/layeredrendering/BundleLayeredRenderer.kt:146-163 | The recursion appends exactly one layer per round, in order. |
| LayerMaker.LayerOfRound | src/main/kotlin/com/whitebeluga/origami/rendering/layeredrendering/BundleLayeredRenderer.kt:157-161 | A round's layer is valid. It holds exactly the round's faces not classified NONE, each with its classification. |
| LayerMaker.BottomToTopLayersAreRounds | src/main/kotlin/com/whitebeluga/origami/rendering/layeredrendering/BundleLayeredRenderer.kt:146-163 | There are as many layers as rounds; a round of hidden faces still gives an empty layer. Layer i is the round's visible faces with their sides. |
| BundleLayeredRenderer.CalculateDistances | src/main/kotlin/com/whitebeluga/origami/rendering/layeredrendering/BundleLayeredRenderer.kt:57-68 | Exactly one offset per layer. |
| BundleLayeredRenderer.OddDistanceAt | src/main/kotlin/com/whitebeluga/origami/rendering/layeredrendering/BundleLayeredRenderer.kt:69-74 | For an odd count n, offset i is (i - (n-1)/2)·S, i.e. -k·S … 0 … k·S. |
| BundleLayeredRenderer.EvenDistanceAt | src/main/kotlin/com/whitebeluga/origami/rendering/layeredrendering/BundleLayeredRenderer.kt:75-80 | For an even count n, offset i is (i - (n-1)/2)·S, i.e. the i·S ± S/2 halves. |
| BundleLayeredRenderer.DistancesClosedForm | src/main/kotlin/com/whitebeluga/origami/rendering/layeredrendering/BundleLayeredRenderer.kt:57-80 | For every count, the special cases 1, 2 and 3 included, offset i is (i - (n-1)/2)·S. |
| BundleLayeredRenderer.SmallLayerCounts | src/main/kotlin/com/whitebeluga/origami/rendering/layeredrendering/BundleLayeredRenderer.kt:57-63 | [0], [-S/2, S/2], [-S, 0, S], and [-1.5, -0.5, 0.5, 1.5] for four layers at S = 1. |
| BundleLayeredRenderer.OddDistances | src/main/kotlin/com/whitebeluga/origami/rendering/layeredrendering/BundleLayeredRenderer.kt:69-74 | One offset per layer for an odd count. The values are stated by `OddDistanceAt`. |
| BundleLayeredRenderer.EvenDistances | src/main/kotlin/com/whitebeluga/origami/rendering/layeredrendering/BundleLayeredRenderer.kt:75-80 | One offset per layer for an even count. The values are stated by `EvenDistanceAt`. |
| BundleLayeredRenderer.DistancesIncrease | src/main/kotlin/com/whitebeluga/origami/rendering/layeredrendering/BundleLayeredRenderer.kt:57-80 | Offsets j and i differ by exactly (j - i)·S, so they strictly increase for S > 0. |
| BundleLayeredRenderer.DistancesAntisymmetric | src/main/kotlin/com/whitebeluga/origami/rendering/layeredrendering/BundleLayeredRenderer.kt:57-80 | d[i] = -d[n-1-i]. |
| BundleLayeredRenderer.DistancesContainZeroIffOdd | src/main/kotlin/com/whitebeluga/origami/rendering/layeredrendering/BundleLayeredRenderer.kt:57-80 | For S ≠ 0, 0 is an offset iff the layer count is odd. |
| BundleLayeredRenderer.DistancesAwayFromPlane | src/main/kotlin/com/whitebeluga/origami/rendering/layeredrendering/BundleLayeredRenderer.kt:57-80 | Every offset is 0 or at least S/2 away from the plane. |
| BundleLayeredRenderer.AdjustDistance | src/main/kotlin/com/whitebeluga/origami/rendering/layeredrendering/BundleLayeredRenderer.kt:134-138 | The adjusted offset is half a separation from the layer's: below it for BOTTOM, above it for TOP and BOTH. |
| BundleLayeredRenderer.AdjacentLayersMeet | src/main/kotlin/com/whitebeluga/origami/rendering/layeredrendering/BundleLayeredRenderer.kt:57-80 | With the adjustment of lines 134-138, the top side of layer i is level with the bottom side of layer i+1. |
| BundleLayeredRenderer.StackSpan | src/main/kotlin/com/whitebeluga/origami/rendering/layeredrendering/BundleLayeredRenderer.kt:57-80 | The bottom side of the lowest layer is at -n·S/2 and the top side of the highest at n·S/2. |
| BundleLayeredRenderer.PushPolygon | src/main/kotlin/com/whitebeluga/origami/rendering/layeredrendering/BundleLayeredRenderer.kt:116-130 | The pushed polygon keeps its length and colour. |
| BundleLayeredRenderer.PushedToAdjustedOffset | src/main/kotlin/com/whitebeluga/origami/rendering/layeredrendering/BundleLayeredRenderer.kt:116-138 | When down is the opposite of up, each boundary point moves along the unit up vector by exactly the adjusted offset, d - S/2 for BOTTOM and d + S/2 for TOP. This holds for every offset that is 0 or at least S/2 from the plane: the direction choice and the absolute value agree. |
| BundleLayeredRenderer.LayerPolygonsAtAdjustedOffset | src/main/kotlin/com/whitebeluga/origami/rendering/layeredrendering/BundleLayeredRenderer.kt:41-51 | The same holds for every layer offset the renderer computes. |
| BundleLayeredRenderer.MakeFlatPolygon | src/main/kotlin/com/whitebeluga/origami/rendering/layeredrendering/BundleLayeredRenderer.kt:103-115 | The front is drawn iff (facing the bundle's way) = (side is TOP), with the matching colour and order. Creases are included. |
| BundleLayeredRenderer.ThreeDPolygonMaker | src/main/kotlin/com/whitebeluga/origami/rendering/layeredrendering/threedforbabylonjs/BundleThreeDimensionalLayeredRenderer.kt:94-103 | The face tweaker with the bundle's open corners and the face's convex edge, if any. It never draws creases. A face without a convex edge keeps its vertex count. |
| BundleLayeredRenderer.SidePolygon | src/main/kotlin/com/whitebeluga/origami/rendering/layeredrendering/BundleLayeredRenderer.kt:99-102 | One side of a face: the hook's polygon, pushed, with its length and colour. |
| BundleLayeredRenderer.AddToEntry | src/main/kotlin/com/whitebeluga/origami/rendering/layeredrendering/BundleLayeredRenderer.kt:97 | `addNewValueToEntryOfMap`: the face gains an entry and other entries are untouched. |
| BundleLayeredRenderer.UpdateCollectionsOfSide | src/main/kotlin/com/whitebeluga/origami/rendering/layeredrendering/BundleLayeredRenderer.kt:92-98 | One pushed polygon is added to the set and to the face's entry. The set stays the union of the entries. |
| BundleLayeredRenderer.UpdateCollectionsOfFace | src/main/kotlin/com/whitebeluga/origami/rendering/layeredrendering/BundleLayeredRenderer.kt:84-90 | A BOTH face adds its TOP and BOTTOM polygons; any other face adds the polygon of its side. The set stays the union of the entries. |
| BundleLayeredRenderer.UpdateCollections | src/main/kotlin/com/whitebeluga/origami/rendering/layeredrendering/BundleLayeredRenderer.kt:81-91 | After the loop, the set gains exactly the layer's polygons and the map gains exactly the layer's entries. The set stays the union of the entries. |
| BundleLayeredRenderer.MakeLayeredRendering | src/main/kotlin/com/whitebeluga/origami/rendering/layeredrendering/BundleLayeredRenderer.kt:41-51 | The loop over the layers computes the bundle's rendering. The polygon set is the union of the face map's entries. |
| BundleLayeredRenderer.RenderedFaceMapKeys | src/main/kotlin/com/whitebeluga/origami/rendering/layeredrendering/BundleLayeredRenderer.kt:41-51 | The face map's keys are exactly the faces of the layers. |
| BundleLayeredRenderer.FaceOfOneLayer | src/main/kotlin/com/whitebeluga/origami/rendering/layeredrendering/BundleLayeredRenderer.kt:41-51 | A face of exactly one layer is mapped to that layer's polygons of it. |
| BundleLayeredRenderer.FaceMapOfRounds | src/main/kotlin/com/whitebeluga/origami/rendering/layeredrendering/BundleLayeredRenderer.kt:41-51 | With layers made from disjoint rounds: a face is mapped iff it is in a round and not NONE, and to the polygons of its side at its round's offset. |
| BundleLayeredRenderer.RenderingOfEachFace | src/main/kotlin/com/whitebeluga/origami/rendering/layeredrendering/BundleLayeredRenderer.kt:41-51 | A face appears in the rendering iff it is a face of the bundle not classified NONE. It is mapped to the polygons of its side, pushed to its round's offset. |
| BundleLayeredRenderer.RenderedWithoutCreases | src/main/kotlin/com/whitebeluga/origami/rendering/layeredrendering/BundleLayeredRenderer.kt:41-51 | When `makePolygon` draws no creases, no rendered polygon carries any. |
| BundleLayeredRenderer.SingleFaceRounds | src/main/kotlin/com/whitebeluga/origami/rendering/layeredrendering/BundleLayeredRenderer.kt:152-163 | A bundle of one face is acyclic and has the single round {face}. |
| BundleLayeredRenderer.SingleFaceBundle | src/test/kotlin/com/whitebeluga/origami/rendering/layeredrendering/BundleLayerRendererTest.kt:64-72 | The rendering of a one-face bundle maps the face, and only it, to its TOP and BOTTOM polygons at offset 0. |
| FaceTweaker.BackSideVerticesAsWritten | src/main/kotlin/com/whitebeluga/origami/rendering/layeredrendering/threedforbabylonjs/FaceTweaker.kt:91-95 | As written: the reversed list rotated left by one. Point i is vertex n-2-i, and the last stays last. |
| FaceTweaker.BackSideAsWrittenKeepsSecondOnlyForFour | src/main/kotlin/com/whitebeluga/origami/rendering/layeredrendering/threedforbabylonjs/FaceTweaker.kt:91-95 | For distinct vertices, as written, the second vertex stays second iff there are exactly four. |
| FaceTweaker.BackSideAsWrittenMovesSecondOfPentagon | src/main/kotlin/com/whitebeluga/origami/rendering/layeredrendering/threedforbabylonjs/FaceTweaker.kt:91-95 | As written, [0,1,2,3,4] becomes [3,2,1,0,4]: the second vertex moves to third. |
| FaceTweaker.BackSideVertices | src/main/kotlin/com/whitebeluga/origami/rendering/layeredrendering/threedforbabylonjs/FaceTweaker.kt:88-96 | Corrected back side: the reversed cycle, with the second vertex kept second for every length of at least 3. |
| FaceTweaker.BackSideAgreesOnFour | src/main/kotlin/com/whitebeluga/origami/rendering/layeredrendering/threedforbabylonjs/FaceTweaker.kt:91-95 | On four vertices the corrected and the as-written back sides are equal. |
| FaceTweaker.MakeVerticesWithOneOpenCornerAsWritten | src/main/kotlin/com/whitebeluga/origami/rendering/layeredrendering/threedforbabylonjs/FaceTweaker.kt:111-122 | As written: the result has as many vertices as the face. Which vertices those are is stated by `FaceTweaker.OpenCornerAsWrittenDropsTweak`. |
| FaceTweaker.OpenCornerAsWrittenDropsTweak | src/main/kotlin/com/whitebeluga/origami/rendering/layeredrendering/threedforbabylonjs/FaceTweaker.kt:120-121 | For a corner at index 2 or more, the as-written result is the original list rotated. The original vertex is second and the new vertex is missing. |
| FaceTweaker.MakeVerticesWithOneOpenCorner | src/main/kotlin/com/whitebeluga/origami/rendering/layeredrendering/threedforbabylonjs/FaceTweaker.kt:111-122 | Corrected: the vertex is replaced by the new one and the cycle is rotated so that the new vertex is second. |
| FaceTweaker.OpenCornerAgreesBelowTwo | src/main/kotlin/com/whitebeluga/origami/rendering/layeredrendering/threedforbabylonjs/FaceTweaker.kt:111-119 | For a corner at index 0 or 1, the corrected and as-written versions agree. |
| FaceTweaker.FirstOpenCorner | src/main/kotlin/com/whitebeluga/origami/rendering/layeredrendering/threedforbabylonjs/FaceTweaker.kt:104-109 | `firstOrNull`: None iff no key is a vertex of the face. Otherwise the entry at the first index whose key is a vertex of the face. |
| FaceTweaker.MakeVerticesWithOpenCorners | src/main/kotlin/com/whitebeluga/origami/rendering/layeredrendering/threedforbabylonjs/FaceTweaker.kt:100-110 | As written: the vertices are unchanged when no key is a vertex of the face. Otherwise only the first matching entry, in map order, is applied, by `MakeVerticesWithOneOpenCornerAsWritten`. |
| FaceTweaker.MakeVerticesWithOpenCornersIntended | src/main/kotlin/com/whitebeluga/origami/rendering/layeredrendering/threedforbabylonjs/FaceTweaker.kt:100-122 | Intended (Finding 1): the same first matching entry, applied with the corrected `MakeVerticesWithOneOpenCorner`. |
| FaceTweaker.MakeVerticesOfFaceWithOneConvexEdge | src/main/kotlin/com/whitebeluga/origami/rendering/layeredrendering/threedforbabylonjs/FaceTweaker.kt:135-145 | Length n+1: the preceding vertex first, the inserted vertex second. Deleting index 1 gives the input rotated left by i. |
| FaceTweaker.MakeVerticesOfFaceWithConvexEdge | src/main/kotlin/com/whitebeluga/origami/rendering/layeredrendering/threedforbabylonjs/FaceTweaker.kt:123-131 | The list is unchanged when the vertex is absent. Otherwise the insertion is as above at its index. |
| FaceTweaker.ConvexPointBetweenItsNeighbours | src/main/kotlin/com/whitebeluga/origami/rendering/layeredrendering/threedforbabylonjs/FaceTweaker.kt:132-145 | The inserted point lies between vertex i and its cyclic successor. |
| FaceTweaker.MakePolygon | src/main/kotlin/com/whitebeluga/origami/rendering/layeredrendering/threedforbabylonjs/FaceTweaker.kt:70-99 | As written: no creases. Front colour iff (same direction and TOP) or (opposite and BOTTOM). The front boundary is the tweaked list. The back boundary is the as-written back ordering of it (`BackSideVerticesAsWritten`). The length is the face's n, or n+1 with a convex edge. |
| FaceTweaker.UntweakedFaceKeepsItsVertices | src/main/kotlin/com/whitebeluga/origami/rendering/layeredrendering/threedforbabylonjs/FaceTweaker.kt:78-96 | As written, without a matching corner or a convex edge, the face's own vertices are drawn: unchanged for the front, in the as-written back ordering otherwise. |
| FaceTweaker.ConvexPointPositionAsWritten | src/main/kotlin/com/whitebeluga/origami/rendering/layeredrendering/threedforbabylonjs/FaceTweaker.kt:80-96 | As written, with a convex edge the boundary has n+1 points. The inserted point is second on the front side. On the back side the point at index n-2 of the tweaked list is second, which is the inserted point for a triangle. |
| FaceTweaker.OpenCornerPositionAsWritten | src/main/kotlin/com/whitebeluga/origami/rendering/layeredrendering/threedforbabylonjs/FaceTweaker.kt:79-96 | As written, a first matching corner at index 0 or 1 of the face is opened and second on the front side, and on the back side when the face has four vertices. |
| FaceTweaker.MakePolygonIntended | src/main/kotlin/com/whitebeluga/origami/rendering/layeredrendering/threedforbabylonjs/FaceTweaker.kt:70-99 | Intended (Findings 1 and 2): the same side, colour and no creases, built from the corrected corner opening and the corrected back ordering `BackSideVertices`. |
| FaceTweaker.ConvexPointIsSecond | src/main/kotlin/com/whitebeluga/origami/rendering/layeredrendering/threedforbabylonjs/FaceTweaker.kt:88-96 | Intended (Finding 2), of `MakePolygonIntended`: the inserted convex point is the second boundary point on both sides. As written this holds on the back side only for four points (`ConvexPointPositionAsWritten`). |
| FaceTweaker.OpenCornerIsSecond | src/main/kotlin/com/whitebeluga/origami/rendering/layeredrendering/threedforbabylonjs/FaceTweaker.kt:111-121 | Intended (Findings 1 and 2), of `MakePolygonIntended`: the opened corner is the second boundary point on both sides, wherever it is in the face. As written see `OpenCornerPositionAsWritten` and `OpenCornerAsWrittenDropsTweak`. |
| FaceTweaker.ReplacedOnlyWhereItWas | src/main/kotlin/com/whitebeluga/origami/rendering/layeredrendering/threedforbabylonjs/FaceTweaker.kt:113-114 | In a face of distinct figure vertices, the replaced list holds a new vertex exactly at the index of the replaced corner. |
| FaceTweaker.OpenCornerOnlyPointOutOfPlane | src/main/kotlin/com/whitebeluga/origami/rendering/layeredrendering/threedforbabylonjs/FaceTweaker.kt:56-61 | Intended opening of a corner leaves at most one new vertex. With two vertices or more it is the second, as the class comment requires of the display. |
| FaceTweaker.OpenCornerAsWrittenOnlyPointOutOfPlane | src/main/kotlin/com/whitebeluga/origami/rendering/layeredrendering/threedforbabylonjs/FaceTweaker.kt:111-121 | As written, opening a corner also leaves at most one new vertex, the second with two vertices or more. From index 2 on there is none. |
| FaceTweaker.OneCornerLeavesOnePointOutOfPlane | src/main/kotlin/com/whitebeluga/origami/rendering/layeredrendering/threedforbabylonjs/FaceTweaker.kt:61 | Class promise, without a convex edge: for distinct figure vertices the tweaked list has at most one point out of plane, second with two vertices or more. Holds as written and as intended. |
| FaceTweaker.ConvexEdgeLeavesOnePointOutOfPlane | src/main/kotlin/com/whitebeluga/origami/rendering/layeredrendering/threedforbabylonjs/FaceTweaker.kt:61 | Class promise, with a convex edge and no matching corner: the only new vertex is the second. Both versions give the same list. |
| FaceTweaker.SecondCornerOfHexagon | src/main/kotlin/com/whitebeluga/origami/rendering/layeredrendering/threedforbabylonjs/FaceTweaker.kt:111-122 | Opening the second corner of a hexagon replaces it in place, as written and as intended. |
| FaceTweaker.CornerAndConvexEdgeLeaveTwoPointsOutOfPlane | src/main/kotlin/com/whitebeluga/origami/rendering/layeredrendering/threedforbabylonjs/FaceTweaker.kt:61 | Where the promise fails: a hexagon with corner 1 opened and a point inserted after vertex 3 gives [v3, new(q), v4, v5, v0, new(p), v2]. That is two points out of plane, as written and as intended. |
| FaceTweaker.CornerAndConvexEdgeDrawnOutOfPlane | src/main/kotlin/com/whitebeluga/origami/rendering/layeredrendering/threedforbabylonjs/FaceTweaker.kt:79-96 | On the front side that hexagon is drawn as written with q second and p sixth. |
| CyclicEdges.ScanReachesEveryPosition | src/main/kotlin/com/whitebeluga/origami/rendering/layeredrendering/threedforbabylonjs/OpenableCornerPositionCalculator.kt:72-82 | For m ≥ 3, every cyclic edge position is examined by an index in 1..2m-3 of the doubled list; position 0 is reached at index m. |
| CyclicEdges.DoubledEdgeAt | src/main/kotlin/com/whitebeluga/origami/rendering/layeredrendering/threedforbabylonjs/OpenableCornerPositionCalculator.kt:69-70 | Entry i of the doubled list is cyclic edge i mod m. |
| OpenableCorners.IsAnOpenableCorner | src/main/kotlin/com/whitebeluga/origami/rendering/layeredrendering/threedforbabylonjs/OpenableCornerPositionCalculator.kt:84-98 | A vertex is returned iff both edges are free and their neighbours are connecting. The vertex is on both edges. |
| OpenableCorners.FindOpenableCorners | src/main/kotlin/com/whitebeluga/origami/rendering/layeredrendering/threedforbabylonjs/OpenableCornerPositionCalculator.kt:68-83 | The loop over indices 1..2m-3 collects exactly the scan's corners, in order. |
| OpenableCorners.FoundIff | src/main/kotlin/com/whitebeluga/origami/rendering/layeredrendering/threedforbabylonjs/OpenableCornerPositionCalculator.kt:68-83 | A vertex is collected iff some scanned index yields it. |
| OpenableCorners.FoundAreDistinctVertices | src/main/kotlin/com/whitebeluga/origami/rendering/layeredrendering/threedforbabylonjs/OpenableCornerPositionCalculator.kt:71-80 | The result is a set: no vertex twice, and all are vertices of the face. |
| OpenableCorners.CornerAtIsCyclic | src/main/kotlin/com/whitebeluga/origami/rendering/layeredrendering/threedforbabylonjs/OpenableCornerPositionCalculator.kt:74-97 | What index i of the doubled list yields depends only on the cyclic position i mod m. |
| OpenableCorners.FoundAreOpenableCorners | src/main/kotlin/com/whitebeluga/origami/rendering/layeredrendering/threedforbabylonjs/OpenableCornerPositionCalculator.kt:68-98 | A vertex is reported iff it is the common vertex of free edges e_k and e_k+1 whose neighbours e_k-1 and e_k+2 are connecting. |
| OpenableCorners.CornerVertexIsNext | src/main/kotlin/com/whitebeluga/origami/rendering/layeredrendering/threedforbabylonjs/OpenableCornerPositionCalculator.kt:93 | For distinct vertices, the common vertex of e_k and e_k+1 is vertex k+1 mod m. |
| OpenableCorners.OppositeIndex | src/main/kotlin/com/whitebeluga/origami/rendering/layeredrendering/threedforbabylonjs/OpenableCornerPositionCalculator.kt:100-103 | The opposite index is within 0..n-1 and differs from i when n ≥ 2. |
| OpenableCorners.OppositeIndexIsModular | src/main/kotlin/com/whitebeluga/origami/rendering/layeredrendering/threedforbabylonjs/OpenableCornerPositionCalculator.kt:103 | It equals (i + n/2) mod n. |
| OpenableCorners.CalculateOpeningDistance | src/main/kotlin/com/whitebeluga/origami/rendering/layeredrendering/threedforbabylonjs/OpenableCornerPositionCalculator.kt:99-108 | The distance to the opposite vertex times the open-up angle. For distinct vertices, that is the distance to some other vertex. |
| OpenableCorners.OpenedCorner | src/main/kotlin/com/whitebeluga/origami/rendering/layeredrendering/threedforbabylonjs/OpenableCornerPositionCalculator.kt:59-66 | The corner moves along the side's normal by the opening distance. |
| OpenableCorners.CornerEntries | src/main/kotlin/com/whitebeluga/origami/rendering/layeredrendering/threedforbabylonjs/OpenableCornerPositionCalculator.kt:60-66 | One entry per corner, in order, each mapped to its opened position. |
| OpenableCorners.FaceOpenCorners | src/main/kotlin/com/whitebeluga/origami/rendering/layeredrendering/threedforbabylonjs/OpenableCornerPositionCalculator.kt:51-67 | Empty for a triangle. Otherwise the keys are exactly the found corners, each mapped to its opened position. |
| OpenableCorners.CalculateOpenCornersOfFace | src/main/kotlin/com/whitebeluga/origami/rendering/layeredrendering/threedforbabylonjs/OpenableCornerPositionCalculator.kt:51-67 | The method computes the face's open corners. |
| OpenableCorners.TriangleHasNoOpenCorners | src/main/kotlin/com/whitebeluga/origami/rendering/layeredrendering/threedforbabylonjs/OpenableCornerPositionCalculator.kt:56-57 | No vertex of a triangle is opened. |
| OpenableCorners.FaceOpenCornersAreOpenable | src/main/kotlin/com/whitebeluga/origami/rendering/layeredrendering/threedforbabylonjs/OpenableCornerPositionCalculator.kt:51-98 | For four or more vertices, a vertex is a key iff it is an openable corner of the face. |
| OpenableCorners.CalculateOpenCornersOfSide | src/main/kotlin/com/whitebeluga/origami/rendering/layeredrendering/threedforbabylonjs/OpenableCornerPositionCalculator.kt:43-50 | The `forEach`/`putAll` loop computes the side's ordered map. |
| OpenableCorners.SideOpenCornersFromFaces | src/main/kotlin/com/whitebeluga/origami/rendering/layeredrendering/threedforbabylonjs/OpenableCornerPositionCalculator.kt:43-50 | A vertex is a key iff some face of the side opens it. It keeps the position from the last such face. |
| OpenableCorners.SideOfOneFace | src/main/kotlin/com/whitebeluga/origami/rendering/layeredrendering/threedforbabylonjs/OpenableCornerPositionCalculator.kt:43-50 | A side of one face gives that face's open corners. |
| OpenableCorners.CalculateOpenCorners | src/main/kotlin/com/whitebeluga/origami/rendering/layeredrendering/threedforbabylonjs/OpenableCornerPositionCalculator.kt:36-42 | The top side's map merged with the bottom side's. |
| OpenableCorners.BottomSideWins | src/main/kotlin/com/whitebeluga/origami/rendering/layeredrendering/threedforbabylonjs/OpenableCornerPositionCalculator.kt:41 | A vertex opened on both sides takes the bottom side's position. |
| OpenableCorners.SquareOpensTopRight | src/test/kotlin/com/whitebeluga/origami/rendering/layeredrendering/threedforbabylonjs/OpenableCornerPositionCalculatorTest.kt:48-64 | In the test's figure, the square's only openable corner is its top-right vertex. |
| OpenableCorners.KiteOpensItsTip | src/test/kotlin/com/whitebeluga/origami/rendering/layeredrendering/threedforbabylonjs/OpenableCornerPositionCalculatorTest.kt:48-64 | The other quadrilateral's only openable corner is its tip. |
| OpenableCorners.TwoQuadrilateralsOpenTwoCorners | src/test/kotlin/com/whitebeluga/origami/rendering/layeredrendering/threedforbabylonjs/OpenableCornerPositionCalculatorTest.kt:48-64 | Exactly two corners are opened: the tip, then the top-right vertex. |
| ConvexEdges.IsAConvexableEdge | src/main/kotlin/com/whitebeluga/origami/rendering/layeredrendering/threedforbabylonjs/ConvexEdgeCalculator.kt:93-104 | The edge is returned iff it is free and both neighbours are connecting. |
| ConvexEdges.FindConvexableEdges | src/main/kotlin/com/whitebeluga/origami/rendering/layeredrendering/threedforbabylonjs/ConvexEdgeCalculator.kt:77-92 | The loop over indices 1..2m-3 collects exactly the scan's edges, in order. |
| ConvexEdges.FoundEdgesIff | src/main/kotlin/com/whitebeluga/origami/rendering/layeredrendering/threedforbabylonjs/ConvexEdgeCalculator.kt:77-92 | An edge is collected iff some scanned index yields it. |
| ConvexEdges.FoundEdgesAreDistinct | src/main/kotlin/com/whitebeluga/origami/rendering/layeredrendering/threedforbabylonjs/ConvexEdgeCalculator.kt:80-90 | The result is a set: no edge twice. |
| ConvexEdges.FirstFound | src/main/kotlin/com/whitebeluga/origami/rendering/layeredrendering/threedforbabylonjs/ConvexEdgeCalculator.kt:74 | `firstOrNull` is the edge of the first scanned index that yields one. |
| ConvexEdges.EdgeFoundAtIsCyclic | src/main/kotlin/com/whitebeluga/origami/rendering/layeredrendering/threedforbabylonjs/ConvexEdgeCalculator.kt:83-104 | What index i yields depends only on the cyclic position i mod m. |
| ConvexEdges.NoEdgeFoundIffNoneConvexable | src/main/kotlin/com/whitebeluga/origami/rendering/layeredrendering/threedforbabylonjs/ConvexEdgeCalculator.kt:73-104 | Nothing is found iff no cyclic edge is free between two connecting edges. |
| ConvexEdges.FirstConvexableEdge | src/main/kotlin/com/whitebeluga/origami/rendering/layeredrendering/threedforbabylonjs/ConvexEdgeCalculator.kt:73-92 | The edge used is the first convexable one in scan order: positions 1..m-1, then 0. |
| ConvexEdges.ConvexPoint | src/main/kotlin/com/whitebeluga/origami/rendering/layeredrendering/threedforbabylonjs/ConvexEdgeCalculator.kt:119-123 | The edge's midpoint moved along the side's normal by the edge length times the angle over 4. |
| ConvexEdges.CalculateConvexEdgeAsWritten | src/main/kotlin/com/whitebeluga/origami/rendering/layeredrendering/threedforbabylonjs/ConvexEdgeCalculator.kt:114-124 | As written: the returned vertex is the edge end with the smaller index in the face. |
| ConvexEdges.AsWrittenAgreesBeforeTheClosingEdge | src/main/kotlin/com/whitebeluga/origami/rendering/layeredrendering/threedforbabylonjs/ConvexEdgeCalculator.kt:114-118 | For every edge but the closing one, as-written and corrected agree. |
| ConvexEdges.AsWrittenMisplacesTheClosingEdge | src/main/kotlin/com/whitebeluga/origami/rendering/layeredrendering/threedforbabylonjs/ConvexEdgeCalculator.kt:117-118 | For the closing edge (v_m-1, v_0), as written, the point is inserted after v_0, between v_0 and v_1, which is not on that edge. |
| ConvexEdges.CalculateConvexEdge | src/main/kotlin/com/whitebeluga/origami/rendering/layeredrendering/threedforbabylonjs/ConvexEdgeCalculator.kt:105-124 | Corrected: the returned vertex is an end of the edge, paired with the edge's convex point. Which end it is is stated by `ConvexEdges.ConvexPointGoesBetweenTheEdgeEnds`. |
| ConvexEdges.ConvexPointGoesBetweenTheEdgeEnds | src/main/kotlin/com/whitebeluga/origami/rendering/layeredrendering/threedforbabylonjs/ConvexEdgeCalculator.kt:105-124 | For every edge k, the closing one included, the tweaker inserts the convex point between v_k and v_k+1 mod m. |
| ConvexEdges.FaceConvexEdge | src/main/kotlin/com/whitebeluga/origami/rendering/layeredrendering/threedforbabylonjs/ConvexEdgeCalculator.kt:73-76 | None iff no edge is found. Otherwise the as-written convex edge (`CalculateConvexEdgeAsWritten`) of the first edge found. |
| ConvexEdges.CalculateConvexEdgeOfFace | src/main/kotlin/com/whitebeluga/origami/rendering/layeredrendering/threedforbabylonjs/ConvexEdgeCalculator.kt:73-76 | The method computes the face's convex edge as written. |
| ConvexEdges.SideConvexEdges | src/main/kotlin/com/whitebeluga/origami/rendering/layeredrendering/threedforbabylonjs/ConvexEdgeCalculator.kt:64-72 | A face of the side is a key iff it has a convex edge, and it is mapped to that edge. |
| ConvexEdges.CalculateConvexEdgesOfSide | src/main/kotlin/com/whitebeluga/origami/rendering/layeredrendering/threedforbabylonjs/ConvexEdgeCalculator.kt:64-72 | The loop computes the side's map. |
| ConvexEdges.CalculateConvexEdges | src/main/kotlin/com/whitebeluga/origami/rendering/layeredrendering/threedforbabylonjs/ConvexEdgeCalculator.kt:57-63 | The top side's map merged with the bottom side's. |
| ConvexEdges.ConvexEdgesOfTopAndBottom | src/main/kotlin/com/whitebeluga/origami/rendering/layeredrendering/threedforbabylonjs/ConvexEdgeCalculator.kt:57-63 | Only top and bottom faces get an entry. For a face that is both, the bottom side's entry wins. |
| OrderedMaps.PutAll | src/main/kotlin/com/whitebeluga/origami/rendering/layeredrendering/threedforbabylonjs/OpenableCornerPositionCalculator.kt:41 | Map `+`: the keys are those of either map, and the first map's keys keep their positions. |
| OrderedMaps.PutAllGet | src/main/kotlin/com/whitebeluga/origami/rendering/layeredrendering/threedforbabylonjs/OpenableCornerPositionCalculator.kt:41 | A key of the second map takes its value from it; any other key keeps its old value. |
| OrderedMaps.LaterItemWins | src/main/kotlin/com/whitebeluga/origami/rendering/layeredrendering/threedforbabylonjs/OpenableCornerPositionCalculator.kt:45-48 | Over a `putAll` loop, a key takes its value from the last item that has it. |
| OrderedMaps.FirstEntryWhere | src/main/kotlin/com/whitebeluga/origami/rendering/layeredrendering/threedforbabylonjs/FaceTweaker.kt:105 | `entries.firstOrNull`: None iff no entry is wanted. Otherwise the entry at the first index whose key is wanted. |
| VisibleBundles.VisibleParts | src/main/kotlin/com/whitebeluga/origami/rendering/VisibleBundle.kt:70-84 | One polygon per piece of the difference, in the face's colours. The pieces after the first come first, without creases. The first piece comes last, with all the surviving crease segments. |
| VisibleBundles.CreasedFromFace | src/main/kotlin/com/whitebeluga/origami/rendering/VisibleBundle.kt:57 | `CreasedPolygon.fromFace`: the face's positions in order, both colours and its creases. |
| VisibleBundles.VisiblePartsAreTheDifference | src/main/kotlin/com/whitebeluga/origami/rendering/VisibleBundle.kt:70-84 | The outlines are exactly the pieces. The creases drawn are exactly the surviving segments, and only when some piece survives. |
| VisibleBundles.TopOneMore | src/main/kotlin/com/whitebeluga/origami/rendering/VisibleBundle.kt:54-62 | Visiting one more face adds exactly its pieces seen from the top. |
| VisibleBundles.BottomOneMore | src/main/kotlin/com/whitebeluga/origami/rendering/VisibleBundle.kt:92-100 | Visiting one more face adds exactly its pieces seen from the bottom. |
| VisibleBundles.VisiblePolygonsFromTop | src/main/kotlin/com/whitebeluga/origami/rendering/VisibleBundle.kt:52-65 | The loop collects every face's pieces seen from the top. |
| VisibleBundles.VisiblePolygonsFromBottom | src/main/kotlin/com/whitebeluga/origami/rendering/VisibleBundle.kt:90-102 | The loop collects every face's pieces seen from the bottom. |
| VisibleBundles.TopOneSided | src/main/kotlin/com/whitebeluga/origami/rendering/VisibleBundle.kt:48-51 | Seen from the top, a piece shows its front iff it is showing its front towards "down". Otherwise it is reversed, in the back colour. Its creases are kept. |
| VisibleBundles.BottomOneSided | src/main/kotlin/com/whitebeluga/origami/rendering/VisibleBundle.kt:85-89 | Seen from the bottom, the test is towards "up", and no creases are carried. |
| VisibleBundles.VisibleOneSidedFromBottom | src/main/kotlin/com/whitebeluga/origami/rendering/VisibleBundle.kt:85-101 | No polygon seen from the bottom carries creases. |
| VisibleBundles.VisibleOneSidedPolygonsFromTop | src/main/kotlin/com/whitebeluga/origami/rendering/VisibleBundle.kt:48-51 | The method converts every piece seen from the top. |
| VisibleBundles.VisibleOneSidedPolygonsFromBottom | src/main/kotlin/com/whitebeluga/origami/rendering/VisibleBundle.kt:85-89 | The method converts every piece seen from the bottom. |
| VisibleBundles.MakeVisibleBundle | src/main/kotlin/com/whitebeluga/origami/rendering/VisibleBundle.kt:37-46 | The two sets of the visible bundle are the polygons seen from the top and from the bottom. |
| VisibleBundles.WholeFaceSeenFromTop | src/main/kotlin/com/whitebeluga/origami/rendering/VisibleBundle.kt:55-58 | A face with nothing above is seen whole from the top, with its creases, front or back as it faces. |
| VisibleBundles.WholeFaceSeenFromBottom | src/main/kotlin/com/whitebeluga/origami/rendering/VisibleBundle.kt:93-95 | A face with nothing below is seen whole from the bottom, without creases. |
| VisibleBundles.CoveredFaceUnseenFromTop | src/main/kotlin/com/whitebeluga/origami/rendering/VisibleBundle.kt:71-73 | A face whose difference with the faces above is empty contributes nothing from the top. |
| VisibleBundles.CoveredFaceUnseenFromBottom | src/main/kotlin/com/whitebeluga/origami/rendering/VisibleBundle.kt:71-73 | The same from the bottom. |
| VisibleBundles.UncoveredFacesKeepTheirVertices | src/test/kotlin/com/whitebeluga/origami/rendering/VisibleBundleTest.kt:113-126 | When no face covers another, every boundary point of a visible polygon is the position of some vertex of some face. |
| VisibleBundles.SingleFaceViews | src/test/kotlin/com/whitebeluga/origami/rendering/VisibleBundleTest.kt:99-107 | A one-face bundle is seen from the top as the whole face with its creases, and from the bottom as the whole face without them. |
| VisibleBundles.SingleFaceShowsTwoPolygons | src/test/kotlin/com/whitebeluga/origami/rendering/VisibleBundleTest.kt:99-107 | A one-face bundle shows two polygons, each with the face's vertex count. |
| FigureLayerRenderer.RenderingOfBundle | src/main/kotlin/com/whitebeluga/origami/rendering/layeredrendering/FigureLayerRenderer.kt:83-89 | Rendering i is the hook's rendering of bundle i. |
| FigureLayerRenderer.AddPolygonsOfBundle | src/main/kotlin/com/whitebeluga/origami/rendering/layeredrendering/FigureLayerRenderer.kt:87-94 | The set gains the bundle's polygons, and the map is overwritten with the bundle's entries. |
| FigureLayerRenderer.MakePolygons | src/main/kotlin/com/whitebeluga/origami/rendering/layeredrendering/FigureLayerRenderer.kt:80-86 | The loop over the bundles gives the union of their polygons and the `putAll` merge of their face maps. |
| FigureLayerRenderer.PolygonsOfBundles | src/main/kotlin/com/whitebeluga/origami/rendering/layeredrendering/FigureLayerRenderer.kt:80-91 | A polygon is in the figure's set iff some bundle's rendering has it. |
| FigureLayerRenderer.LastBundleWins | src/main/kotlin/com/whitebeluga/origami/rendering/layeredrendering/FigureLayerRenderer.kt:92-93 | A face is mapped iff some bundle maps it, and it keeps the polygons of the last bundle that maps it. |
| FigureLayerRenderer.Renderer | src/main/kotlin/com/whitebeluga/origami/rendering/layeredrendering/FigureLayerRenderer.kt:95-98 | The bundle hook accepts every well-formed acyclic bundle. |
| FigureLayerRenderer.MakePolygonsOfBundle | src/main/kotlin/com/whitebeluga/origami/rendering/layeredrendering/FigureLayerRenderer.kt:95-98 | One bundle is rendered by the bundle renderer, on its own. The polygon set is the union of the face map's entries. |
| FigureLayerRenderer.LayeredRenderingOfFigure | src/main/kotlin/com/whitebeluga/origami/rendering/layeredrendering/FigureLayerRenderer.kt:79 | `layeredRendering()` with the flat hook: the union and merge over all bundles. |
| FigureLayerRenderer.LayeredRenderingForDisplay | src/main/kotlin/com/whitebeluga/origami/rendering/FigureRendering.kt:62-73 | The figure's flat layered rendering, handed to the display unchanged. |
| FigureLayerRenderer.MakePolygonsOfBundleThreeD | src/main/kotlin/com/whitebeluga/origami/rendering/layeredrendering/threedforbabylonjs/FigureThreeDimensionalLayerRenderer.kt:47-50 | The overriding hook computes the bundle's open corners and convex edges, then renders with the face tweaker as written. |
| FigureLayerRenderer.ThreeDLayeredRenderingOfFigure | src/main/kotlin/com/whitebeluga/origami/rendering/layeredrendering/threedforbabylonjs/FigureThreeDimensionalLayerRenderer.kt:45-50 | `layeredRendering()` with the three-dimensional hook, as written: the union and merge over all bundles. |
| FigureLayerRenderer.ThreeDMakerOf | src/main/kotlin/com/whitebeluga/origami/rendering/layeredrendering/threedforbabylonjs/BundleThreeDimensionalLayeredRenderer.kt:65-70 | Every bundle's `makePolygon` is the face tweaker with that bundle's corners and edges. None of its polygons carries creases. |
| FigureLayerRenderer.ThreeDRenderingHasNoCreases | src/main/kotlin/com/whitebeluga/origami/rendering/layeredrendering/threedforbabylonjs/FaceTweaker.kt:43-44 | No polygon of a figure's three-dimensional rendering carries creases. |
| FigureLayerRenderer.FaceOfOneBundle | src/main/kotlin/com/whitebeluga/origami/rendering/layeredrendering/FigureLayerRenderer.kt:92-93 | When bundles hold different faces, the merge loses nothing: a face keeps its own bundle's polygons. |
| FigureLayerRenderer.OneBundle | src/main/kotlin/com/whitebeluga/origami/rendering/layeredrendering/FigureLayerRenderer.kt:80-86 | A figure of one bundle renders as that bundle. |
| FigureLayerRenderer.SingleFaceFigure | src/test/kotlin/com/whitebeluga/origami/rendering/layeredrendering/FigureLayerRendererTest.kt:67-83 | A figure of one face maps that face to exactly its TOP and BOTTOM polygons at offset 0. |
| FigureLayerRenderer.SingleFaceSidesFaceOutwards | src/test/kotlin/com/whitebeluga/origami/rendering/layeredrendering/FigureLayerRendererTest.kt:88-120 | The lone face's top polygon is S/2 above the plane and its bottom polygon S/2 below. Each has the colour of the face side that looks that way. |

## Left out

- Geometry: the library's plane, polygon and segment operations are
  function values, constrained only where the source relies on them. These
  are `normalize`, `distance`, `approximatelyFacingTheSameWay`, `isHiddenBy`,
  `difference`, `lineSegmentDifferenceWithPolygons`, `isShowingFront` and
  `withLength`'s normalisation. So are the figure's queries `isAFreeEdge` and
  `isAConnectingEdge`.
- Floating point: coordinates and offsets are reals, and `almostZero(d)` is
  `d == 0`. Epsilon comparisons in the tests become exact equalities.
- Object identity: Kotlin's `OneSidedPolygon` has no `equals`, so its sets
  never merge two polygons. The model's sets of values do merge equal
  polygons. Faces carry an `id`, so distinct faces stay distinct.
- `CreasedPolygon` equality is value equality here. A face's pieces are
  collected in a set of values, so two equal pieces count once.
- Edge equality: a Kotlin `Edge` equals its reverse. Edges here are the
  ordered pairs of `edgeList`, which is enough for the cyclic scans.
- `Crease.creaseFromPoints` on a surviving segment: the segments come from
  the geometry library as creases already.
- Bundle acyclicity: the source does not check that "below" is acyclic, and
  its recursion would not end otherwise. The model requires it of every
  bundle it renders.
- The face map after `putAll` when two bundles share a face: modelled (the
  last wins), but the source's comment that there are no clashes is stated
  only as a hypothesis of `FigureLayerRenderer.FaceOfOneBundle`.
- `FigureRendering.threeDRendering`: it loosens the figure first with the
  foreign `loosen`, which is not part of this model. The three-dimensional
  renderer is modelled from the loosened figure on.
- Frames.kt and FoldStepData.kt: animation frames that call the fold
  engine and interpolate angles.
- Layer maker iteration order: Kotlin iterates `bundle.faces` as a hash
  set. The layer contents do not depend on that order, so faces are a set.
- FaceTweaker.MakePolygon: for a face without vertices the model draws an
  empty back side. The source's `reversed.first()` (FaceTweaker.kt:95) throws
  there instead; exceptions are not modelled.
- FaceTweaker.MakePolygon: the class comment (FaceTweaker.kt:61) promises at
  most one point out of plane. The code applies one open corner and one
  convex edge independently, so a face with both gets two, as written and as
  intended (`CornerAndConvexEdgeLeaveTwoPointsOutOfPlane`). The promise is
  proved only for a face with one of the two tweaks:
  `OneCornerLeavesOnePointOutOfPlane` and `ConvexEdgeLeavesOnePointOutOfPlane`.
- `FaceTweaker.MakePolygon` and `VisibleBundles`: the order in which faces
  are visited (`forEach` over top and bottom faces) is the order of the
  sequences `topFaces` and `bottomFaces`.
- The two-opposing-faces examples of FigureLayerRendererTest.kt:131-179 (four
  polygons): the count depends on the pushed polygons being pairwise
  different values, which depends on the geometry library. Their layer
  structure is covered by `LayerMaker.BottomToTopLayersAreRounds`.
- VisibleBundles.SingleFaceShowsTwoPolygons: also requires the face's
  positions to be distinct and the face to show its front towards exactly one
  of "up" and "down". This is geometry the library guarantees and the model
  does not.
- VisibleBundles.UncoveredFacesKeepTheirVertices: stated for bundles where no
  face covers another. That is the test's situation, with exact equality for
  the test's epsilon comparison.
- FigureLayerRenderer.SingleFaceSidesFaceOutwards: assumes "down" normalises
  to the opposite of "up", as a bundle's plane guarantees.

## Findings

The three-dimensional renderer (`ThreeDPolygonMaker`, `ThreeDMakerOf` and
the 3-D entry points) uses the as-written members, as the program does. The
corrected members stand beside them with their intended properties proved:
`MakePolygonIntended` for the tweaker, `CalculateConvexEdge` for the convex
edge.

| source | as written | input that shows it | evidently intended | confidence | as-written member | corrected member |
|---|---|---|---|---|---|---|
| src/main/kotlin/com/whitebeluga/origami/rendering/layeredrendering/threedforbabylonjs/FaceTweaker.kt:120-121 | For an opened corner at index 2 or more, the result is built from `vertices`, not `newVertices`. | Vertices [a, b, c, d] with corner c: the result is [b, c, d, a], which still holds c and not the opened corner. | The replaced list rotated so that the opened corner is second, as for indices 0 and 1. | not executed | FaceTweaker.OpenCornerAsWrittenDropsTweak | FaceTweaker.OpenCornerIsSecond |
| src/main/kotlin/com/whitebeluga/origami/rendering/layeredrendering/threedforbabylonjs/FaceTweaker.kt:91-95 | The back side is the reversed list with its first element moved to the end, which keeps the second vertex second only for four vertices. | [0, 1, 2, 3, 4] becomes [3, 2, 1, 0, 4]: the non-coplanar vertex 1 is third. | The reversed cycle with the second vertex still second, whatever the length. | not executed | FaceTweaker.BackSideAsWrittenMovesSecondOfPentagon | FaceTweaker.ConvexPointIsSecond |
| src/main/kotlin/com/whitebeluga/origami/rendering/layeredrendering/threedforbabylonjs/ConvexEdgeCalculator.kt:117-118 | The vertex before the convex point is the edge end with the smaller index in the face. | The closing edge (v_m-1, v_0) returns v_0, so the point goes between v_0 and v_1, off the edge. | The edge end the other end follows in the face, so that the point goes between the edge's own ends. | not executed | ConvexEdges.AsWrittenMisplacesTheClosingEdge | ConvexEdges.ConvexPointGoesBetweenTheEdgeEnds |
