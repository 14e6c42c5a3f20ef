/**
 * `FigureLayerRenderer`: the layered rendering of a whole figure, bundle
 * after bundle. Every bundle is rendered on its own; the polygons are
 * gathered in one set and the faces' polygons in one map.
 *
 * How one bundle is rendered is the overridable `makePolygonsOfBundle`: the
 * flat renderer hands the bundle to the bundle layered renderer, the
 * three-dimensional renderer to the same renderer with the face tweaker as
 * its `makePolygon`. The figure-level loop is therefore modelled over that
 * hook, a function value, and the hooks themselves are stated below it.
 */
module FigureLayerRenderer {
  import opened Geometry
  import opened Figures
  import opened OneSidedPolygons
  import opened Layers
  import opened LayerMaker
  import opened BundleLayeredRenderer
  import OpenableCorners
  import FigureRendering
  import ConvexEdges

  /** The hook `makePolygonsOfBundle`: the layered rendering of one bundle. */
  type BundleRenderer = Bundle --> LayeredRendering

  /** The hook can render every bundle of the figure. */
  ghost predicate RendersAll(render: BundleRenderer, fig: Figure)
  {
    forall i :: 0 <= i < |fig.bundles| ==> render.requires(fig.bundles[i])
  }

  /** The renderings of the first k bundles, in order. */
  function Renderings(render: BundleRenderer, bundles: seq<Bundle>, k: nat): (rs: seq<LayeredRendering>)
    requires k <= |bundles|
    requires forall i :: 0 <= i < k ==> render.requires(bundles[i])
    ensures |rs| == k
  {
    if k == 0 then [] else Renderings(render, bundles, k - 1) + [render(bundles[k - 1])]
  }

  /** The i-th rendering is the hook's rendering of the i-th bundle. */
  lemma {:induction false} RenderingOfBundle(render: BundleRenderer, bundles: seq<Bundle>, k: nat, i: nat)
    requires i < k <= |bundles|
    requires forall j :: 0 <= j < k ==> render.requires(bundles[j])
    ensures Renderings(render, bundles, k)[i] == render(bundles[i])
  {
    if i < k - 1 {
      RenderingOfBundle(render, bundles, k - 1, i);
    }
  }

  /** The polygons of the first k renderings. */
  function PolygonsOf(rs: seq<LayeredRendering>, k: nat): set<OneSidedPolygon>
    requires k <= |rs|
  {
    if k == 0 then {} else PolygonsOf(rs, k - 1) + rs[k - 1].polygons
  }

  /** The faces' polygons of the first k renderings, merged with `putAll`: a later entry wins. */
  function FaceMapOf(rs: seq<LayeredRendering>, k: nat): map<Face, set<OneSidedPolygon>>
    requires k <= |rs|
  {
    if k == 0 then map[] else FaceMapOf(rs, k - 1) + rs[k - 1].originalFaceToPolygons
  }

  /** `addPolygonsOfBundle`: add a bundle's polygons and its faces' entries. */
  method AddPolygonsOfBundle(render: BundleRenderer, bundle: Bundle, polygons: set<OneSidedPolygon>,
                             originalFaceToPolygons: map<Face, set<OneSidedPolygon>>)
    returns (polygons': set<OneSidedPolygon>, originalFaceToPolygons': map<Face, set<OneSidedPolygon>>)
    requires render.requires(bundle)
    ensures polygons' == polygons + render(bundle).polygons
    ensures originalFaceToPolygons' == originalFaceToPolygons + render(bundle).originalFaceToPolygons
  {
    var layeredRendering := render(bundle);
    var bundlePolygons := layeredRendering.polygons;
    polygons' := polygons + bundlePolygons;
    originalFaceToPolygons' := originalFaceToPolygons + layeredRendering.originalFaceToPolygons;
  }

  /** `makePolygons` (`layeredRendering()`): every bundle in turn. */
  method MakePolygons(render: BundleRenderer, fig: Figure) returns (r: LayeredRendering)
    requires RendersAll(render, fig)
    ensures var rs := Renderings(render, fig.bundles, |fig.bundles|);
            r.polygons == PolygonsOf(rs, |rs|) && r.originalFaceToPolygons == FaceMapOf(rs, |rs|)
  {
    ghost var rs := Renderings(render, fig.bundles, |fig.bundles|);
    var polygons: set<OneSidedPolygon> := {};
    var originalFaceToPolygons: map<Face, set<OneSidedPolygon>> := map[];
    for i := 0 to |fig.bundles|
      invariant polygons == PolygonsOf(rs, i)
      invariant originalFaceToPolygons == FaceMapOf(rs, i)
    {
      var bundle := fig.bundles[i];
      RenderingOfBundle(render, fig.bundles, |fig.bundles|, i);
      polygons, originalFaceToPolygons := AddPolygonsOfBundle(render, bundle, polygons, originalFaceToPolygons);
    }
    r := LayeredRendering(polygons, originalFaceToPolygons);
  }

  /** The figure's polygons are exactly the polygons of its bundles. */
  lemma {:induction false} PolygonsOfBundles(rs: seq<LayeredRendering>, k: nat, p: OneSidedPolygon)
    requires k <= |rs|
    ensures p in PolygonsOf(rs, k) <==> exists i :: 0 <= i < k && p in rs[i].polygons
  {
    if k > 0 {
      PolygonsOfBundles(rs, k - 1, p);
    }
  }

  /**
   * A face is listed iff some bundle lists it, and it keeps the polygons of
   * the last bundle that lists it.
   */
  lemma {:induction false} LastBundleWins(rs: seq<LayeredRendering>, k: nat, f: Face)
    requires k <= |rs|
    ensures var m := FaceMapOf(rs, k);
            (f in m <==> exists i :: 0 <= i < k && f in rs[i].originalFaceToPolygons) &&
            forall j :: 0 <= j < k && f in rs[j].originalFaceToPolygons &&
                        (forall i :: j < i < k ==> f !in rs[i].originalFaceToPolygons) ==>
              f in m && m[f] == rs[j].originalFaceToPolygons[f]
  {
    if k > 0 {
      LastBundleWins(rs, k - 1, f);
    }
  }

  // ---- the hooks -----------------------------------------------------------

  /** What the bundle renderer needs of every bundle of the figure. */
  predicate Renderable(fig: Figure)
  {
    forall i :: 0 <= i < |fig.bundles| ==> WellFormed(fig.bundles[i]) && Acyclic(fig.bundles[i])
  }

  /**
   * The bundle layered renderer as the hook, with `makerOf` giving each
   * bundle's `makePolygon`.
   */
  function Renderer(makerOf: Bundle -> PolygonMaker, lib: GeometryLibrary, layerSeparation: real)
    : (render: BundleRenderer)
    ensures forall b :: WellFormed(b) && Acyclic(b) ==> render.requires(b)
  {
    b requires WellFormed(b) && Acyclic(b) => BundleRendering(makerOf(b), lib, b, layerSeparation)
  }

  /** `makePolygonsOfBundle` of `FigureLayerRenderer`: the bundle layered renderer's rendering. */
  method MakePolygonsOfBundle(makerOf: Bundle -> PolygonMaker, lib: GeometryLibrary, bundle: Bundle,
                              layerSeparation: real) returns (r: LayeredRendering)
    requires WellFormed(bundle) && Acyclic(bundle)
    ensures r == Renderer(makerOf, lib, layerSeparation)(bundle)
    ensures Consistent(r.polygons, r.originalFaceToPolygons)
  {
    r := MakeLayeredRendering(makerOf(bundle), lib, bundle, layerSeparation);
  }

  /** `FigureLayerRenderer` proper: every side of a face drawn flat, as the face is. */
  function FlatMakerOf(lib: GeometryLibrary): Bundle -> PolygonMaker
  {
    b => FlatPolygonMaker(lib, b)
  }

  /** `FigureLayerRenderer.layeredRendering()`: the flat hook over every bundle. */
  method LayeredRenderingOfFigure(lib: GeometryLibrary, fig: Figure, layerSeparation: real) returns (r: LayeredRendering)
    requires Renderable(fig)
    ensures var rs := Renderings(Renderer(FlatMakerOf(lib), lib, layerSeparation), fig.bundles, |fig.bundles|);
            r.polygons == PolygonsOf(rs, |rs|) && r.originalFaceToPolygons == FaceMapOf(rs, |rs|)
  {
    r := MakePolygons(Renderer(FlatMakerOf(lib), lib, layerSeparation), fig);
  }

  /**
   * `FigureRendering.layeredRendering(figure, pushLayersApart)`: the flat
   * layered rendering of the figure, handed to the display.
   */
  method LayeredRenderingForDisplay(lib: GeometryLibrary, fig: Figure, pushLayersApart: real)
    returns (r: FigureRendering.JSDisplayableFigure)
    requires Renderable(fig)
    ensures var rs := Renderings(Renderer(FlatMakerOf(lib), lib, pushLayersApart), fig.bundles, |fig.bundles|);
            r.polygons == PolygonsOf(rs, |rs|) && r.originalFaceToPolygons == FaceMapOf(rs, |rs|)
  {
    var polygons := LayeredRenderingOfFigure(lib, fig, pushLayersApart);
    r := FigureRendering.MakeDisplayableFigure(polygons);
  }

  /**
   * `FigureThreeDimensionalLayerRenderer`: each bundle's faces drawn by the
   * face tweaker with the open corners and convex edges of that bundle.
   */
  function ThreeDMakerOf(lib: GeometryLibrary, fig: Figure): (r: Bundle -> PolygonMaker)
    ensures forall b, face, sideToRender :: r(b)(face, sideToRender).creases == {}
  {
    b => ThreeDPolygonMaker(lib, b, OpenableCorners.OpenCorners(lib, fig, b), ConvexEdges.ConvexEdges(lib, fig, b))
  }

  /**
   * The overriding `makePolygonsOfBundle`: the corners and edges are
   * calculated first, then the bundle is rendered with the face tweaker.
   */
  method MakePolygonsOfBundleThreeD(lib: GeometryLibrary, fig: Figure, bundle: Bundle, layerSeparation: real)
    returns (r: LayeredRendering)
    requires WellFormed(bundle) && Acyclic(bundle)
    ensures r == Renderer(ThreeDMakerOf(lib, fig), lib, layerSeparation)(bundle)
    ensures Consistent(r.polygons, r.originalFaceToPolygons)
  {
    var vertexToOpenCorner := OpenableCorners.CalculateOpenCorners(lib, fig, bundle);
    var vertexToNextVerticesInConvexEdge := ConvexEdges.CalculateConvexEdges(lib, fig, bundle);
    var makePolygon := ThreeDPolygonMaker(lib, bundle, vertexToOpenCorner, vertexToNextVerticesInConvexEdge);
    r := MakeLayeredRendering(makePolygon, lib, bundle, layerSeparation);
  }

  /** `FigureThreeDimensionalLayerRenderer.layeredRendering()`: the three-dimensional hook over every bundle. */
  method ThreeDLayeredRenderingOfFigure(lib: GeometryLibrary, fig: Figure, layerSeparation: real)
    returns (r: LayeredRendering)
    requires Renderable(fig)
    ensures var rs := Renderings(Renderer(ThreeDMakerOf(lib, fig), lib, layerSeparation), fig.bundles, |fig.bundles|);
            r.polygons == PolygonsOf(rs, |rs|) && r.originalFaceToPolygons == FaceMapOf(rs, |rs|)
  {
    r := MakePolygons(Renderer(ThreeDMakerOf(lib, fig), lib, layerSeparation), fig);
  }

  /**
   * The three-dimensional rendering of a figure carries no creases: the
   * face tweaker draws none, and pushing a polygon adds none.
   */
  lemma ThreeDRenderingHasNoCreases(lib: GeometryLibrary, fig: Figure, layerSeparation: real)
    requires Renderable(fig)
    ensures var rs := Renderings(Renderer(ThreeDMakerOf(lib, fig), lib, layerSeparation), fig.bundles, |fig.bundles|);
            forall p :: p in PolygonsOf(rs, |rs|) ==> p.creases == {}
  {
    var makerOf := ThreeDMakerOf(lib, fig);
    var render := Renderer(makerOf, lib, layerSeparation);
    var rs := Renderings(render, fig.bundles, |fig.bundles|);
    forall p | p in PolygonsOf(rs, |rs|)
      ensures p.creases == {}
    {
      PolygonsOfBundles(rs, |rs|, p);
      var i :| 0 <= i < |rs| && p in rs[i].polygons;
      var b := fig.bundles[i];
      RenderingOfBundle(render, fig.bundles, |rs|, i);
      var layers := MakeBottomToTopLayers(lib, b);
      RenderedWithoutCreases(makerOf(b), lib, b, layers, CalculateDistances(|layers|, layerSeparation),
                             layerSeparation, |layers|);
    }
  }

  /**
   * Bundles hold different faces, so merging never loses an entry: a face
   * of one bundle is listed with the polygons that bundle made for it.
   */
  lemma FaceOfOneBundle(makerOf: Bundle -> PolygonMaker, lib: GeometryLibrary, fig: Figure, layerSeparation: real,
                        j: nat, f: Face)
    requires Renderable(fig) && j < |fig.bundles|
    requires forall i :: 0 <= i < |fig.bundles| && i != j ==> f !in fig.bundles[i].faces
    ensures var rs := Renderings(Renderer(makerOf, lib, layerSeparation), fig.bundles, |fig.bundles|);
            var m := FaceMapOf(rs, |rs|);
            f in rs[j].originalFaceToPolygons ==> f in m && m[f] == rs[j].originalFaceToPolygons[f]
  {
    var render := Renderer(makerOf, lib, layerSeparation);
    var rs := Renderings(render, fig.bundles, |fig.bundles|);
    forall i | j < i < |rs| ensures f !in rs[i].originalFaceToPolygons {
      var b := fig.bundles[i];
      RenderingOfBundle(render, fig.bundles, |rs|, i);
      RenderingOfEachFace(makerOf(b), lib, b, layerSeparation, f);
    }
    LastBundleWins(rs, |rs|, f);
  }

  /** A figure of one bundle: the faces' polygons are the ones of that bundle's rendering. */
  lemma OneBundle(render: BundleRenderer, bundles: seq<Bundle>)
    requires |bundles| == 1 && render.requires(bundles[0])
    ensures FaceMapOf(Renderings(render, bundles, 1), 1) == render(bundles[0]).originalFaceToPolygons
    ensures PolygonsOf(Renderings(render, bundles, 1), 1) == render(bundles[0]).polygons
  {
    assert Renderings(render, bundles, 1) == [render(bundles[0])];
  }

  /**
   * A figure of one face: the face is drawn from both sides, at half a
   * layer separation above and below its plane.
   */
  lemma SingleFaceFigure(lib: GeometryLibrary, fig: Figure, layerSeparation: real, f: Face)
    requires |fig.bundles| == 1
    requires var b := fig.bundles[0];
             b.faces == {f} && b.facesToFacesBelow == map[] && f in b.topFaces
    ensures Renderable(fig)
    ensures var b := fig.bundles[0];
            var maker := FlatPolygonMaker(lib, b);
            var rs := Renderings(Renderer(FlatMakerOf(lib), lib, layerSeparation), fig.bundles, 1);
            FaceMapOf(rs, 1)
              == map[f := {SidePolygon(maker, lib, b, f, TOP, 0.0, layerSeparation),
                           SidePolygon(maker, lib, b, f, BOTTOM, 0.0, layerSeparation)}]
  {
    var b := fig.bundles[0];
    var maker := FlatPolygonMaker(lib, b);
    var render := Renderer(FlatMakerOf(lib), lib, layerSeparation);
    SingleFaceBundle(maker, lib, b, layerSeparation, f);
    assert Renderable(fig) by {
      forall i | 0 <= i < |fig.bundles| ensures WellFormed(fig.bundles[i]) && Acyclic(fig.bundles[i]) {
        assert i == 0;
      }
    }
    assert FlatMakerOf(lib)(b) == maker;
    assert render(b) == BundleRendering(maker, lib, b, layerSeparation);
    OneBundle(render, fig.bundles);
  }

  /**
   * The two polygons of a lone face: the one seen from the top lies half a
   * separation above the plane, the one seen from the bottom half a
   * separation below, each in the colour of the face's side that looks that
   * way.
   */
  lemma SingleFaceSidesFaceOutwards(lib: GeometryLibrary, b: Bundle, f: Face, layerSeparation: real, i: nat)
    requires layerSeparation >= 0.0
    requires lib.normalize(b.downwards) == Negate(lib.normalize(b.upwards))
    requires i < |f.vertices|
    ensures var maker := FlatPolygonMaker(lib, b);
            var up := lib.normalize(b.upwards);
            var front := lib.facingSameWay(f, b.plane);
            var top := SidePolygon(maker, lib, b, f, TOP, 0.0, layerSeparation);
            var bottom := SidePolygon(maker, lib, b, f, BOTTOM, 0.0, layerSeparation);
            top.color == (if front then f.frontColor else f.backColor) &&
            bottom.color == (if front then f.backColor else f.frontColor) &&
            Displacement(MakeFlatPolygon(lib, b, f, TOP).boundary[i], top.boundary[i])
              == Scale(up, layerSeparation / 2.0) &&
            Displacement(MakeFlatPolygon(lib, b, f, BOTTOM).boundary[i], bottom.boundary[i])
              == Scale(up, -(layerSeparation / 2.0))
  {
    PushedToAdjustedOffset(lib, b, MakeFlatPolygon(lib, b, f, TOP), TOP, 0.0, layerSeparation, i);
    PushedToAdjustedOffset(lib, b, MakeFlatPolygon(lib, b, f, BOTTOM), BOTTOM, 0.0, layerSeparation, i);
  }
}
