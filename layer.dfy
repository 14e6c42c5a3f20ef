/**
 * A layer: faces of one bundle that do not overlap, each tagged with the
 * side (relative to the bundle) to render. A layer never holds a face that
 * is not to be rendered at all.
 */
module Layers {
  import opened Figures
  import opened OneSidedPolygons

  datatype SideToRender = TOP | BOTTOM | BOTH | NONE

  datatype Layer = Layer(faceToSideToRender: map<Face, SideToRender>)
  {
    /** `faces`: the faces of the layer. */
    function Faces(): set<Face>
    {
      faceToSideToRender.Keys
    }

    /** The constructor's assertion: no face of the layer is tagged NONE. */
    predicate Valid()
    {
      forall f :: f in faceToSideToRender ==> faceToSideToRender[f] != NONE
    }
  }

  /** `Layer(faceToSideToRender)`: the constructor asserts that no face is tagged NONE. */
  function NewLayer(faceToSideToRender: map<Face, SideToRender>): (l: Layer)
    requires forall f :: f in faceToSideToRender ==> faceToSideToRender[f] != NONE
    ensures l.Valid()
    ensures l.Faces() == faceToSideToRender.Keys
    ensures forall f :: f in l.Faces() ==> l.faceToSideToRender[f] == faceToSideToRender[f]
  {
    Layer(faceToSideToRender)
  }

  /** `emptyLayer()`: a layer without faces. */
  function EmptyLayer(): (l: Layer)
    ensures l.Valid() && l.Faces() == {}
  {
    NewLayer(map[])
  }

  /** The result of rendering: every polygon, and the polygons made from each original face. */
  datatype LayeredRendering = LayeredRendering(
    polygons: set<OneSidedPolygon>,
    originalFaceToPolygons: map<Face, set<OneSidedPolygon>>)
}
