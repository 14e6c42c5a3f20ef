/**
 * The entry points of rendering a figure for display, and `push`, which
 * moves a polygon off the plane of its bundle.
 */
module FigureRendering {
  import opened Geometry
  import opened Figures
  import opened OneSidedPolygons
  import opened Layers

  /** What is handed to the display: the polygons and the polygons of each face. */
  datatype JSDisplayableFigure = JSDisplayableFigure(
    polygons: set<OneSidedPolygon>,
    originalFaceToPolygons: map<Face, set<OneSidedPolygon>>)

  /** `makeDisplayableFigure`: the layered rendering passed on unchanged. */
  function MakeDisplayableFigure(rendering: LayeredRendering): (r: JSDisplayableFigure)
    ensures r.polygons == rendering.polygons
    ensures r.originalFaceToPolygons == rendering.originalFaceToPolygons
  {
    JSDisplayableFigure(rendering.polygons, rendering.originalFaceToPolygons)
  }

  /** `points.map { it.translate(v) }`. */
  function TranslateAll(points: seq<Point>, v: Vector): (r: seq<Point>)
    ensures |r| == |points|
    ensures forall i :: 0 <= i < |points| ==> r[i] == Translate(points[i], v)
  {
    seq(|points|, i requires 0 <= i < |points| => Translate(points[i], v))
  }

  /**
   * `push`: every boundary point moves by the same vector, `pushDistance`
   * along `direction`; every crease point moves `layerSeparation` further,
   * so creases are never drawn inside the polygon's own surface. The colour
   * is kept.
   */
  function Push(lib: GeometryLibrary, pol: OneSidedPolygon, direction: Vector,
                pushDistance: real, layerSeparation: real): (r: OneSidedPolygon)
    ensures |r.boundary| == |pol.boundary|
    ensures forall i :: 0 <= i < |pol.boundary| ==>
              Displacement(pol.boundary[i], r.boundary[i]) == Scale(lib.normalize(direction), pushDistance)
    ensures r.color == pol.color
    ensures forall c :: c in pol.creases ==>
              TranslateAll(c, Scale(lib.normalize(direction), pushDistance + layerSeparation)) in r.creases
    ensures forall c' :: c' in r.creases ==>
              (exists c :: c in pol.creases && |c'| == |c| &&
                 forall j :: 0 <= j < |c| ==>
                   Displacement(c[j], c'[j]) == Scale(lib.normalize(direction), pushDistance + layerSeparation))
  {
    var pushingVector := Scale(lib.normalize(direction), pushDistance);
    var pushedPoints := TranslateAll(pol.boundary, pushingVector);
    var creasePushingVector := Scale(lib.normalize(direction), pushDistance + layerSeparation);
    var pushedCreases := set c | c in pol.creases :: TranslateAll(c, creasePushingVector);
    OneSidedPolygon(pushedPoints, pol.color, pushedCreases)
  }

  /**
   * A crease point of a pushed polygon lies `layerSeparation` further along
   * the push direction than a boundary point would: moving it by the crease
   * vector is moving it by the boundary's vector and then by
   * `layerSeparation` along the unit direction.
   */
  lemma CreasesPushedFurther(lib: GeometryLibrary, direction: Vector, pushDistance: real,
                             layerSeparation: real, p: Point)
    ensures var n := lib.normalize(direction);
            Translate(p, Scale(n, pushDistance + layerSeparation))
              == Translate(Translate(p, Scale(n, pushDistance)), Scale(n, layerSeparation))
  {
    var n := lib.normalize(direction);
    ScaleSum(n, pushDistance, layerSeparation);
    TranslateTwice(p, Scale(n, pushDistance), Scale(n, layerSeparation));
  }
}
