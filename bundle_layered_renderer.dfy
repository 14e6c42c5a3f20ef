/**
 * The layered renderer of one bundle: its faces are sorted into layers
 * (see `LayerMaker`), layer i is given an offset from the bundle's plane,
 * and every face is drawn as one polygon per side to render, pushed off the
 * plane by its layer's offset adjusted half a layer towards its side.
 *
 * The three-dimensional variant differs only in how a face becomes a
 * polygon, the overridable `makePolygon`: every operation below takes it as
 * a `PolygonMaker`; `ThreeDPolygonMaker` is the face tweaker given the open
 * corners and convex edges computed for the bundle.
 */
module BundleLayeredRenderer {
  import opened Geometry
  import opened Seqs
  import opened OrderedMaps
  import opened Figures
  import opened OneSidedPolygons
  import opened Layers
  import opened LayerMaker
  import opened FigureRendering
  import FaceTweaker

  // ---- layer offsets -----------------------------------------------------

  function OddDistances(layerCount: nat, layerSeparation: real): (d: seq<real>)
    requires layerCount % 2 == 1
    ensures |d| == layerCount
  {
    var half := (layerCount - 1) / 2;
    var negHalf := seq(half, j => (j - half) as real * layerSeparation);
    var posHalf := seq(half, j => (j + 1) as real * layerSeparation);
    negHalf + [0.0] + posHalf
  }

  function EvenDistances(layerCount: nat, layerSeparation: real): (d: seq<real>)
    requires layerCount % 2 == 0
    ensures |d| == layerCount
  {
    var half := layerCount / 2;
    var halfLayerSeparation := layerSeparation / 2.0;
    var negHalf := seq(half, j => (j - half) as real * layerSeparation + halfLayerSeparation);
    var posHalf := seq(half, j => (j + 1) as real * layerSeparation - halfLayerSeparation);
    negHalf + posHalf
  }

  /**
   * `calculateDistances`: the offset of the middle of each layer from the
   * bundle's plane, bottom layer first, the layers `layerSeparation` apart
   * and centred on the plane.
   */
  function CalculateDistances(layerCount: nat, layerSeparation: real): (d: seq<real>)
    ensures |d| == layerCount
  {
    var halfLayerSeparation := layerSeparation / 2.0;
    if layerCount == 1 then [0.0]
    else if layerCount == 2 then [-halfLayerSeparation, halfLayerSeparation]
    else if layerCount == 3 then [-layerSeparation, 0.0, layerSeparation]
    else if layerCount % 2 == 0 then EvenDistances(layerCount, layerSeparation)
    else OddDistances(layerCount, layerSeparation)
  }

  /** Factoring out a common layer separation, for the offset arithmetic below. */
  lemma MulSub(a: real, b: real, s: real)
    ensures a * s - b * s == (a - b) * s
  {
  }

  /** A positive number of positive separations is positive. */
  lemma MulPositive(a: real, s: real)
    requires a > 0.0 && s > 0.0
    ensures a * s > 0.0
  {
  }

  /** A nonnegative number of nonnegative separations is nonnegative. */
  lemma MulNonnegative(a: real, s: real)
    requires a >= 0.0 && s >= 0.0
    ensures a * s >= 0.0
  {
  }

  /** A nonzero separation is a multiple of zero only zero times. */
  lemma MulZero(a: real, s: real)
    requires a * s == 0.0 && s != 0.0
    ensures a == 0.0
  {
  }

  lemma EvenDistanceAt(layerCount: nat, layerSeparation: real, i: nat)
    requires layerCount % 2 == 0 && i < layerCount
    ensures EvenDistances(layerCount, layerSeparation)[i]
            == (i as real - (layerCount - 1) as real / 2.0) * layerSeparation
  {
    var half := layerCount / 2;
    var s := layerSeparation;
    var d := EvenDistances(layerCount, s);
    assert (layerCount - 1) as real / 2.0 == half as real - 0.5;
    if i < half {
      assert d[i] == (i - half) as real * s + s / 2.0;
      MulSub((i - half) as real, -0.5, s);
    } else {
      assert d[i] == ((i - half) + 1) as real * s - s / 2.0;
      MulSub(((i - half) + 1) as real, 0.5, s);
    }
  }

  lemma OddDistanceAt(layerCount: nat, layerSeparation: real, i: nat)
    requires layerCount % 2 == 1 && i < layerCount
    ensures OddDistances(layerCount, layerSeparation)[i]
            == (i as real - (layerCount - 1) as real / 2.0) * layerSeparation
  {
    var half := (layerCount - 1) / 2;
    var s := layerSeparation;
    var d := OddDistances(layerCount, s);
    assert (layerCount - 1) as real / 2.0 == half as real;
    if i < half {
      assert d[i] == (i - half) as real * s;
    } else if i == half {
      assert d[i] == 0.0;
    } else {
      assert d[i] == ((i - half - 1) + 1) as real * s;
    }
  }

  /** The closed form of the offset of layer i of n. */
  function Offset(layerCount: nat, layerSeparation: real, i: nat): real
  {
    (i as real - (layerCount - 1) as real / 2.0) * layerSeparation
  }

  /** The offset of layer i of n is (i - (n - 1) / 2) layer separations. */
  lemma DistancesClosedForm(layerCount: nat, layerSeparation: real, i: nat)
    requires i < layerCount
    ensures CalculateDistances(layerCount, layerSeparation)[i] == Offset(layerCount, layerSeparation, i)
  {
    if layerCount > 3 {
      if layerCount % 2 == 0 {
        EvenDistanceAt(layerCount, layerSeparation, i);
      } else {
        OddDistanceAt(layerCount, layerSeparation, i);
      }
    } else if layerCount == 2 {
      assert (layerCount - 1) as real / 2.0 == 0.5;
      MulSub(i as real, 0.5, layerSeparation);
    } else if layerCount == 3 {
      assert (layerCount - 1) as real / 2.0 == 1.0;
      MulSub(i as real, 1.0, layerSeparation);
    }
  }

  /** One, two and three layers, and four layers one unit apart. */
  lemma SmallLayerCounts(s: real)
    ensures CalculateDistances(1, s) == [0.0]
    ensures CalculateDistances(2, s) == [-s / 2.0, s / 2.0]
    ensures CalculateDistances(3, s) == [-s, 0.0, s]
    ensures CalculateDistances(4, 1.0) == [-1.5, -0.5, 0.5, 1.5]
  {
    DistancesClosedForm(4, 1.0, 0);
    DistancesClosedForm(4, 1.0, 1);
    DistancesClosedForm(4, 1.0, 2);
    DistancesClosedForm(4, 1.0, 3);
  }

  lemma OffsetGap(layerCount: nat, layerSeparation: real, i: nat, j: nat)
    requires i < j
    ensures Offset(layerCount, layerSeparation, j) - Offset(layerCount, layerSeparation, i)
            == (j - i) as real * layerSeparation
  {
    var c := (layerCount - 1) as real / 2.0;
    MulSub(j as real - c, i as real - c, layerSeparation);
    assert (j as real - c) - (i as real - c) == (j - i) as real;
  }

  /** Consecutive layers are exactly one separation apart, so offsets increase for a positive separation. */
  lemma DistancesIncrease(layerCount: nat, layerSeparation: real, i: nat, j: nat)
    requires i < j < layerCount
    ensures var d := CalculateDistances(layerCount, layerSeparation);
            d[j] - d[i] == (j - i) as real * layerSeparation &&
            (layerSeparation > 0.0 ==> d[i] < d[j])
  {
    DistancesClosedForm(layerCount, layerSeparation, i);
    DistancesClosedForm(layerCount, layerSeparation, j);
    OffsetGap(layerCount, layerSeparation, i, j);
    if layerSeparation > 0.0 {
      MulPositive((j - i) as real, layerSeparation);
    }
  }

  lemma OffsetAntisymmetric(layerCount: nat, layerSeparation: real, i: nat)
    requires i < layerCount
    ensures Offset(layerCount, layerSeparation, i) == -Offset(layerCount, layerSeparation, layerCount - 1 - i)
  {
    var c := (layerCount - 1) as real / 2.0;
    assert ((layerCount - 1 - i) as real - c) == 0.0 - (i as real - c);
    MulSub(0.0, i as real - c, layerSeparation);
  }

  /** The offsets are symmetric about the bundle's plane. */
  lemma DistancesAntisymmetric(layerCount: nat, layerSeparation: real, i: nat)
    requires i < layerCount
    ensures var d := CalculateDistances(layerCount, layerSeparation);
            d[i] == -d[layerCount - 1 - i]
  {
    DistancesClosedForm(layerCount, layerSeparation, i);
    DistancesClosedForm(layerCount, layerSeparation, layerCount - 1 - i);
    OffsetAntisymmetric(layerCount, layerSeparation, i);
  }

  lemma OffsetZero(layerCount: nat, layerSeparation: real, i: nat)
    requires layerSeparation != 0.0
    ensures Offset(layerCount, layerSeparation, i) == 0.0 <==> 2 * i + 1 == layerCount
  {
    var c := (layerCount - 1) as real / 2.0;
    if Offset(layerCount, layerSeparation, i) == 0.0 {
      MulZero(i as real - c, layerSeparation);
      assert (2 * i + 1) as real == layerCount as real;
    }
  }

  /** Some layer lies in the bundle's plane exactly when the number of layers is odd. */
  lemma DistancesContainZeroIffOdd(layerCount: nat, layerSeparation: real)
    requires layerSeparation != 0.0
    ensures (0.0 in CalculateDistances(layerCount, layerSeparation)) <==> layerCount % 2 == 1
  {
    var d := CalculateDistances(layerCount, layerSeparation);
    if layerCount % 2 == 1 {
      var mid := (layerCount - 1) / 2;
      DistancesClosedForm(layerCount, layerSeparation, mid);
      OffsetZero(layerCount, layerSeparation, mid);
      assert d[mid] == 0.0;
    } else if 0.0 in d {
      var i :| 0 <= i < |d| && d[i] == 0.0;
      DistancesClosedForm(layerCount, layerSeparation, i);
      OffsetZero(layerCount, layerSeparation, i);
      assert false;
    }
  }

  /** An offset is zero or at least half a separation away from the plane. */
  lemma DistancesAwayFromPlane(layerCount: nat, layerSeparation: real, i: nat)
    requires i < layerCount && layerSeparation >= 0.0
    ensures var d := CalculateDistances(layerCount, layerSeparation)[i];
            d == 0.0 || d >= layerSeparation / 2.0 || d <= -layerSeparation / 2.0
  {
    DistancesClosedForm(layerCount, layerSeparation, i);
    var s := layerSeparation;
    var k := i as real - (layerCount - 1) as real / 2.0;
    var twice := 2 * i - (layerCount - 1);
    assert 2.0 * k == twice as real;
    if twice == 0 {
      assert k == 0.0;
    } else if twice > 0 {
      assert k >= 0.5;
      MulNonnegative(k - 0.5, s);
      MulSub(k, 0.5, s);
    } else {
      assert k <= -0.5;
      MulNonnegative(-0.5 - k, s);
      MulSub(-0.5, k, s);
    }
  }

  // ---- pushing a polygon off the plane ------------------------------------

  /** `adjustDistance`: half a layer down for the bottom side, half a layer up otherwise. */
  function AdjustDistance(sideToRender: SideToRender, distance: real, layerSeparation: real): (r: real)
    ensures 2.0 * (r - distance) == if sideToRender == BOTTOM then -layerSeparation else layerSeparation
    ensures layerSeparation > 0.0 ==> (r < distance <==> sideToRender == BOTTOM)
  {
    var halfLayerSeparation := layerSeparation / 2.0;
    if sideToRender == BOTTOM then distance - halfLayerSeparation else distance + halfLayerSeparation
  }

  /** The top side of layer i is level with the bottom side of layer i + 1. */
  lemma AdjacentLayersMeet(layerCount: nat, layerSeparation: real, i: nat)
    requires i + 1 < layerCount
    ensures var d := CalculateDistances(layerCount, layerSeparation);
            AdjustDistance(TOP, d[i], layerSeparation) == AdjustDistance(BOTTOM, d[i + 1], layerSeparation)
  {
    DistancesIncrease(layerCount, layerSeparation, i, i + 1);
  }

  /** The stack of n layers spans n separations, from -n S/2 to n S/2. */
  lemma StackSpan(layerCount: nat, layerSeparation: real)
    requires layerCount > 0
    ensures var d := CalculateDistances(layerCount, layerSeparation);
            AdjustDistance(BOTTOM, d[0], layerSeparation) == -(layerCount as real) * layerSeparation / 2.0 &&
            AdjustDistance(TOP, d[layerCount - 1], layerSeparation) == (layerCount as real) * layerSeparation / 2.0
  {
    DistancesClosedForm(layerCount, layerSeparation, 0);
    DistancesClosedForm(layerCount, layerSeparation, layerCount - 1);
    StackEnds(layerCount, layerSeparation);
  }

  /** The outer offsets of an n-layer stack, half a separation beyond its end layers. */
  lemma StackEnds(layerCount: nat, s: real)
    requires layerCount > 0
    ensures Offset(layerCount, s, 0) - s / 2.0 == -(layerCount as real) * s / 2.0
    ensures Offset(layerCount, s, layerCount - 1) + s / 2.0 == (layerCount as real) * s / 2.0
  {
    var c := (layerCount - 1) as real / 2.0;
    assert Offset(layerCount, s, 0) == (0.0 - c) * s;
    MulSub(0.0, c, s);
    assert Offset(layerCount, s, layerCount - 1) == ((layerCount - 1) as real - c) * s;
    assert (layerCount - 1) as real - c == c;
    MulSub(c, -0.5, s);
    assert c + 0.5 == layerCount as real / 2.0;
  }

  /** The direction of the push: towards the layer, or towards the side when the layer is in the plane. */
  function PushingVector(b: Bundle, sideToRender: SideToRender, distance: real): Vector
  {
    if distance == 0.0 then (if sideToRender == TOP then b.upwards else b.downwards)
    else if distance > 0.0 then b.upwards else b.downwards
  }

  function Abs(x: real): real { if x < 0.0 then -x else x }

  /** `pushPolygon`: the polygon pushed by the absolute adjusted offset. */
  function PushPolygon(lib: GeometryLibrary, b: Bundle, polygon: OneSidedPolygon, sideToRender: SideToRender,
                       distance: real, layerSeparation: real): (r: OneSidedPolygon)
    ensures |r.boundary| == |polygon.boundary| && r.color == polygon.color
  {
    var pushingVector := PushingVector(b, sideToRender, distance);
    var adjustedDistance := AdjustDistance(sideToRender, distance, layerSeparation);
    Push(lib, polygon, pushingVector, Abs(adjustedDistance), layerSeparation)
  }

  /**
   * When "down" is the opposite of "up", a side of a face in a layer at
   * offset d ends up at the signed offset d +/- half a separation along
   * "up": the choice of direction and the absolute value never disagree for
   * the offsets the renderer uses.
   */
  lemma PushedToAdjustedOffset(lib: GeometryLibrary, b: Bundle, polygon: OneSidedPolygon,
                               sideToRender: SideToRender, distance: real, layerSeparation: real, i: nat)
    requires sideToRender == TOP || sideToRender == BOTTOM
    requires layerSeparation >= 0.0
    requires distance == 0.0 || distance >= layerSeparation / 2.0 || distance <= -layerSeparation / 2.0
    requires lib.normalize(b.downwards) == Negate(lib.normalize(b.upwards))
    requires i < |polygon.boundary|
    ensures Displacement(polygon.boundary[i],
                         PushPolygon(lib, b, polygon, sideToRender, distance, layerSeparation).boundary[i])
            == Scale(lib.normalize(b.upwards), AdjustDistance(sideToRender, distance, layerSeparation))
  {
    var up := lib.normalize(b.upwards);
    var adjusted := AdjustDistance(sideToRender, distance, layerSeparation);
    var r := PushPolygon(lib, b, polygon, sideToRender, distance, layerSeparation);
    var goesUp := (distance == 0.0 && sideToRender == TOP) || distance > 0.0;
    var direction := PushingVector(b, sideToRender, distance);
    assert Displacement(polygon.boundary[i], r.boundary[i]) == Scale(lib.normalize(direction), Abs(adjusted));
    if goesUp {
      assert direction == b.upwards;
      assert adjusted >= 0.0;
    } else {
      assert direction == b.downwards;
      assert adjusted <= 0.0;
      ScaleNegate(up, Abs(adjusted));
    }
  }

  /**
   * The polygons of the layers the renderer makes sit where intended: side
   * TOP half a separation above its layer's offset, side BOTTOM half a
   * separation below.
   */
  lemma LayerPolygonsAtAdjustedOffset(lib: GeometryLibrary, b: Bundle, polygon: OneSidedPolygon,
                                      sideToRender: SideToRender, layerCount: nat, layerSeparation: real,
                                      layer: nat, i: nat)
    requires sideToRender == TOP || sideToRender == BOTTOM
    requires layerSeparation >= 0.0 && layer < layerCount
    requires lib.normalize(b.downwards) == Negate(lib.normalize(b.upwards))
    requires i < |polygon.boundary|
    ensures var d := CalculateDistances(layerCount, layerSeparation)[layer];
            Displacement(polygon.boundary[i],
                         PushPolygon(lib, b, polygon, sideToRender, d, layerSeparation).boundary[i])
            == Scale(lib.normalize(b.upwards), AdjustDistance(sideToRender, d, layerSeparation))
  {
    DistancesAwayFromPlane(layerCount, layerSeparation, layer);
    var d := CalculateDistances(layerCount, layerSeparation)[layer];
    PushedToAdjustedOffset(lib, b, polygon, sideToRender, d, layerSeparation, i);
  }

  // ---- faces to polygons -------------------------------------------------

  /**
   * `makePolygon(face, sideToRender)`, which the three-dimensional renderer
   * overrides: how one side of a face becomes a polygon before it is pushed.
   */
  type PolygonMaker = (Face, SideToRender) -> OneSidedPolygon

  /**
   * The flat renderer's `makePolygon`: the front of the face when the side
   * looked at is the one its front faces, the back otherwise, creases
   * included.
   */
  function MakeFlatPolygon(lib: GeometryLibrary, b: Bundle, face: Face, sideToRender: SideToRender)
    : (r: OneSidedPolygon)
    ensures var front := lib.facingSameWay(face, b.plane) == (sideToRender == TOP);
            r.color == (if front then face.frontColor else face.backColor) &&
            r.boundary == (if front then Positions(face.vertices) else Reverse(Positions(face.vertices))) &&
            r.creases == CreasePointLists(face.creases)
  {
    var polygonAndBundleFaceTheSameDirection := lib.facingSameWay(face, b.plane);
    if polygonAndBundleFaceTheSameDirection then
      if sideToRender == TOP then MakeFrontFaceWithCreasesFromFace(face) else MakeBackFaceWithCreasesFromFace(face)
    else
      if sideToRender == TOP then MakeBackFaceWithCreasesFromFace(face) else MakeFrontFaceWithCreasesFromFace(face)
  }

  function FlatPolygonMaker(lib: GeometryLibrary, b: Bundle): PolygonMaker
  {
    (face, sideToRender) => MakeFlatPolygon(lib, b, face, sideToRender)
  }

  /**
   * The three-dimensional renderer's `makePolygon`: the face tweaker, given
   * the bundle's open corners (in map order) and the face's convex edge if it
   * has one.
   */
  function ThreeDPolygonMaker(lib: GeometryLibrary, b: Bundle, vertexToOpenCorner: Entries<Vertex, Point>,
                              faceToConvexEdge: map<Face, (Vertex, Point)>): (r: PolygonMaker)
    ensures forall face, sideToRender :: r(face, sideToRender).creases == {}
    ensures forall face, sideToRender :: face !in faceToConvexEdge ==>
              |r(face, sideToRender).boundary| == |face.vertices|
  {
    (face, sideToRender) =>
      FaceTweaker.MakePolygon(lib, face, sideToRender, vertexToOpenCorner,
                              if face in faceToConvexEdge then Some(faceToConvexEdge[face]) else None, b.plane)
  }

  /** `makePolygon(face, sideToRender, distance)`: the polygon of one side, pushed into place. */
  function SidePolygon(makePolygon: PolygonMaker, lib: GeometryLibrary, b: Bundle, face: Face, sideToRender: SideToRender,
                       distance: real, layerSeparation: real): (r: OneSidedPolygon)
    ensures |r.boundary| == |makePolygon(face, sideToRender).boundary|
    ensures r.color == makePolygon(face, sideToRender).color
  {
    PushPolygon(lib, b, makePolygon(face, sideToRender), sideToRender, distance, layerSeparation)
  }

  /** The polygons of a face in a layer: both sides for BOTH, the one side otherwise. */
  function FacePolygons(makePolygon: PolygonMaker, lib: GeometryLibrary, b: Bundle, face: Face, sideToRender: SideToRender,
                        distance: real, layerSeparation: real): set<OneSidedPolygon>
  {
    if sideToRender == BOTH then
      {SidePolygon(makePolygon, lib, b, face, TOP, distance, layerSeparation),
       SidePolygon(makePolygon, lib, b, face, BOTTOM, distance, layerSeparation)}
    else {SidePolygon(makePolygon, lib, b, face, sideToRender, distance, layerSeparation)}
  }

  // ---- collecting the polygons -------------------------------------------

  /** The polygon set is exactly the polygons listed under the faces. */
  ghost predicate Consistent(polygons: set<OneSidedPolygon>, faceToPolygons: map<Face, set<OneSidedPolygon>>)
  {
    forall p :: p in polygons <==> exists f :: f in faceToPolygons && p in faceToPolygons[f]
  }

  /** The polygons of a whole layer. */
  function LayerPolygons(makePolygon: PolygonMaker, lib: GeometryLibrary, b: Bundle, faceToSideToRender: map<Face, SideToRender>,
                         distance: real, layerSeparation: real): set<OneSidedPolygon>
  {
    set f, p | f in faceToSideToRender &&
               p in FacePolygons(makePolygon, lib, b, f, faceToSideToRender[f], distance, layerSeparation) :: p
  }

  /** `addNewValueToEntryOfMap` for several values: the polygons added to the face's entry. */
  function AddToEntry(faceToPolygons: map<Face, set<OneSidedPolygon>>, face: Face, ps: set<OneSidedPolygon>)
    : (r: map<Face, set<OneSidedPolygon>>)
    ensures r.Keys == faceToPolygons.Keys + {face}
    ensures forall f :: f in faceToPolygons && f != face ==> r[f] == faceToPolygons[f]
  {
    faceToPolygons[face := (if face in faceToPolygons then faceToPolygons[face] else {}) + ps]
  }

  /** The face map with a layer's polygons added under their faces. */
  function AddLayer(makePolygon: PolygonMaker, lib: GeometryLibrary, b: Bundle, faceToPolygons: map<Face, set<OneSidedPolygon>>,
                    faceToSideToRender: map<Face, SideToRender>, distance: real, layerSeparation: real)
    : map<Face, set<OneSidedPolygon>>
  {
    map f | f in faceToPolygons.Keys + faceToSideToRender.Keys ::
      (if f in faceToPolygons then faceToPolygons[f] else {}) +
      (if f in faceToSideToRender
       then FacePolygons(makePolygon, lib, b, f, faceToSideToRender[f], distance, layerSeparation) else {})
  }

  lemma AddLayerOfNothing(makePolygon: PolygonMaker, lib: GeometryLibrary, b: Bundle, faceToPolygons: map<Face, set<OneSidedPolygon>>,
                          distance: real, layerSeparation: real)
    ensures AddLayer(makePolygon, lib, b, faceToPolygons, map[], distance, layerSeparation) == faceToPolygons
    ensures LayerPolygons(makePolygon, lib, b, map[], distance, layerSeparation) == {}
  {
    var m := AddLayer(makePolygon, lib, b, faceToPolygons, map[], distance, layerSeparation);
    assert m.Keys == faceToPolygons.Keys;
    forall f | f in m ensures m[f] == faceToPolygons[f] {
      assert m[f] == faceToPolygons[f] + {};
    }
  }

  /** Adding one more face of the layer adds its polygons to the set and to its entry. */
  lemma AddLayerOneMore(makePolygon: PolygonMaker, lib: GeometryLibrary, b: Bundle, faceToPolygons: map<Face, set<OneSidedPolygon>>,
                        done: map<Face, SideToRender>, face: Face, side: SideToRender,
                        distance: real, layerSeparation: real)
    requires face !in done
    ensures var ps := FacePolygons(makePolygon, lib, b, face, side, distance, layerSeparation);
            AddLayer(makePolygon, lib, b, faceToPolygons, done[face := side], distance, layerSeparation)
            == AddToEntry(AddLayer(makePolygon, lib, b, faceToPolygons, done, distance, layerSeparation), face, ps)
  {
    var ps := FacePolygons(makePolygon, lib, b, face, side, distance, layerSeparation);
    var before := AddLayer(makePolygon, lib, b, faceToPolygons, done, distance, layerSeparation);
    var after := AddLayer(makePolygon, lib, b, faceToPolygons, done[face := side], distance, layerSeparation);
    var expected := AddToEntry(before, face, ps);
    var done' := done[face := side];
    assert after.Keys == expected.Keys;
    forall f | f in after ensures after[f] == expected[f] {
      var base := if f in faceToPolygons then faceToPolygons[f] else {};
      if f == face {
        assert after[f] == base + ps;
        if f in before {
          assert before[f] == base + {};
        }
      } else {
        assert (f in done') == (f in done);
        if f in done {
          assert done'[f] == done[f];
        }
        assert after[f] == before[f];
      }
    }
  }

  lemma LayerPolygonsOneMore(makePolygon: PolygonMaker, lib: GeometryLibrary, b: Bundle, done: map<Face, SideToRender>,
                             face: Face, side: SideToRender, distance: real, layerSeparation: real)
    requires face !in done
    ensures LayerPolygons(makePolygon, lib, b, done[face := side], distance, layerSeparation)
            == LayerPolygons(makePolygon, lib, b, done, distance, layerSeparation)
               + FacePolygons(makePolygon, lib, b, face, side, distance, layerSeparation)
  {
    var ps := FacePolygons(makePolygon, lib, b, face, side, distance, layerSeparation);
    var done' := done[face := side];
    var lp := LayerPolygons(makePolygon, lib, b, done, distance, layerSeparation);
    var lp' := LayerPolygons(makePolygon, lib, b, done', distance, layerSeparation);
    forall p | p in lp' ensures p in lp + ps {
      var f :| f in done' && p in FacePolygons(makePolygon, lib, b, f, done'[f], distance, layerSeparation);
      if f != face {
        assert done'[f] == done[f];
      }
    }
    forall p | p in lp ensures p in lp' {
      var f :| f in done && p in FacePolygons(makePolygon, lib, b, f, done[f], distance, layerSeparation);
      assert f in done' && done'[f] == done[f];
    }
    forall p | p in ps ensures p in lp' {
      assert face in done' && done'[face] == side;
    }
  }

  /**
   * `updateCollections(face, sideToRender, ...)`: the polygon of one side
   * is added to the set and to the face's entry of the map
   * (`addNewValueToEntryOfMap`); the set stays the union of the entries.
   */
  method UpdateCollectionsOfSide(makePolygon: PolygonMaker, lib: GeometryLibrary, b: Bundle, face: Face,
                                 sideToRender: SideToRender, distance: real, layerSeparation: real,
                                 polygons: set<OneSidedPolygon>, faceToPolygons: map<Face, set<OneSidedPolygon>>)
    returns (polygons': set<OneSidedPolygon>, faceToPolygons': map<Face, set<OneSidedPolygon>>)
    ensures var polygon := SidePolygon(makePolygon, lib, b, face, sideToRender, distance, layerSeparation);
            polygons' == polygons + {polygon} &&
            faceToPolygons' == AddToEntry(faceToPolygons, face, {polygon})
    ensures Consistent(polygons, faceToPolygons) ==> Consistent(polygons', faceToPolygons')
  {
    var polygon := SidePolygon(makePolygon, lib, b, face, sideToRender, distance, layerSeparation);
    polygons' := polygons + {polygon};
    var existing := if face in faceToPolygons then faceToPolygons[face] else {};
    faceToPolygons' := faceToPolygons[face := existing + {polygon}];
    if Consistent(polygons, faceToPolygons) {
      forall p ensures p in polygons' <==> exists f :: f in faceToPolygons' && p in faceToPolygons'[f] {
        if p in polygons' {
          if p == polygon {
            assert p in faceToPolygons'[face];
          } else {
            var f :| f in faceToPolygons && p in faceToPolygons[f];
            assert p in faceToPolygons'[f];
          }
        }
      }
    }
  }

  lemma AddToEntryTwice(faceToPolygons: map<Face, set<OneSidedPolygon>>, face: Face, ps: set<OneSidedPolygon>,
                        qs: set<OneSidedPolygon>)
    ensures AddToEntry(AddToEntry(faceToPolygons, face, ps), face, qs) == AddToEntry(faceToPolygons, face, ps + qs)
  {
    var existing := if face in faceToPolygons then faceToPolygons[face] else {};
    assert existing + ps + qs == existing + (ps + qs);
  }

  /** The body of the loop over a layer: the polygons of one face, both sides for BOTH. */
  method UpdateCollectionsOfFace(makePolygon: PolygonMaker, lib: GeometryLibrary, b: Bundle, face: Face,
                                 sideToRender: SideToRender, distance: real, layerSeparation: real,
                                 polygons: set<OneSidedPolygon>, faceToPolygons: map<Face, set<OneSidedPolygon>>)
    returns (polygons': set<OneSidedPolygon>, faceToPolygons': map<Face, set<OneSidedPolygon>>)
    ensures var ps := FacePolygons(makePolygon, lib, b, face, sideToRender, distance, layerSeparation);
            polygons' == polygons + ps && faceToPolygons' == AddToEntry(faceToPolygons, face, ps)
    ensures Consistent(polygons, faceToPolygons) ==> Consistent(polygons', faceToPolygons')
  {
    if sideToRender == BOTH {
      var top := SidePolygon(makePolygon, lib, b, face, TOP, distance, layerSeparation);
      var bottom := SidePolygon(makePolygon, lib, b, face, BOTTOM, distance, layerSeparation);
      AddToEntryTwice(faceToPolygons, face, {top}, {bottom});
      polygons', faceToPolygons' := UpdateCollectionsOfSide(makePolygon, lib, b, face, TOP, distance, layerSeparation,
                                                            polygons, faceToPolygons);
      polygons', faceToPolygons' := UpdateCollectionsOfSide(makePolygon, lib, b, face, BOTTOM, distance, layerSeparation,
                                                            polygons', faceToPolygons');
      assert {top} + {bottom} == {top, bottom};
    } else {
      polygons', faceToPolygons' := UpdateCollectionsOfSide(makePolygon, lib, b, face, sideToRender, distance,
                                                            layerSeparation, polygons, faceToPolygons);
    }
  }

  /** Adding one more face's polygons keeps the collections those of the faces done. */
  lemma OneMoreFace(makePolygon: PolygonMaker, lib: GeometryLibrary, b: Bundle, distance: real, layerSeparation: real,
                    polygons: set<OneSidedPolygon>, faceToPolygons: map<Face, set<OneSidedPolygon>>,
                    done: map<Face, SideToRender>, face: Face, side: SideToRender,
                    polygons0: set<OneSidedPolygon>, faceToPolygons0: map<Face, set<OneSidedPolygon>>,
                    polygons1: set<OneSidedPolygon>, faceToPolygons1: map<Face, set<OneSidedPolygon>>)
    requires face !in done
    requires polygons0 == polygons + LayerPolygons(makePolygon, lib, b, done, distance, layerSeparation)
    requires faceToPolygons0 == AddLayer(makePolygon, lib, b, faceToPolygons, done, distance, layerSeparation)
    requires var ps := FacePolygons(makePolygon, lib, b, face, side, distance, layerSeparation);
             polygons1 == polygons0 + ps && faceToPolygons1 == AddToEntry(faceToPolygons0, face, ps)
    ensures polygons1 == polygons + LayerPolygons(makePolygon, lib, b, done[face := side], distance, layerSeparation)
    ensures faceToPolygons1 == AddLayer(makePolygon, lib, b, faceToPolygons, done[face := side], distance, layerSeparation)
  {
    AddLayerOneMore(makePolygon, lib, b, faceToPolygons, done, face, side, distance, layerSeparation);
    LayerPolygonsOneMore(makePolygon, lib, b, done, face, side, distance, layerSeparation);
    var lp := LayerPolygons(makePolygon, lib, b, done, distance, layerSeparation);
    var ps := FacePolygons(makePolygon, lib, b, face, side, distance, layerSeparation);
    assert polygons + lp + ps == polygons + (lp + ps);
  }

  /** The entries visited so far, one more visited. */
  lemma VisitOne<K, V>(m: map<K, V>, done: map<K, V>, toVisit: set<K>, k: K)
    requires toVisit <= m.Keys && done.Keys == m.Keys - toVisit && k in toVisit
    requires forall f :: f in done ==> done[f] == m[f]
    ensures done[k := m[k]].Keys == m.Keys - (toVisit - {k})
    ensures forall f :: f in done[k := m[k]] ==> done[k := m[k]][f] == m[f]
  {
  }

  /**
   * `updateCollections(faceToSideToRender, ...)`: every face of the layer
   * adds its polygons (two for BOTH, TOP before BOTTOM).
   */
  method UpdateCollections(makePolygon: PolygonMaker, lib: GeometryLibrary, b: Bundle, faceToSideToRender: map<Face, SideToRender>,
                           distance: real, layerSeparation: real,
                           polygons: set<OneSidedPolygon>, faceToPolygons: map<Face, set<OneSidedPolygon>>)
    returns (polygons': set<OneSidedPolygon>, faceToPolygons': map<Face, set<OneSidedPolygon>>)
    ensures polygons' == polygons + LayerPolygons(makePolygon, lib, b, faceToSideToRender, distance, layerSeparation)
    ensures faceToPolygons' == AddLayer(makePolygon, lib, b, faceToPolygons, faceToSideToRender, distance, layerSeparation)
    ensures Consistent(polygons, faceToPolygons) ==> Consistent(polygons', faceToPolygons')
  {
    polygons', faceToPolygons' := polygons, faceToPolygons;
    var toVisit := faceToSideToRender.Keys;
    var done: map<Face, SideToRender> := map[];
    AddLayerOfNothing(makePolygon, lib, b, faceToPolygons, distance, layerSeparation);
    while toVisit != {}
      invariant toVisit <= faceToSideToRender.Keys
      invariant done.Keys == faceToSideToRender.Keys - toVisit
      invariant forall f :: f in done ==> done[f] == faceToSideToRender[f]
      invariant polygons' == polygons + LayerPolygons(makePolygon, lib, b, done, distance, layerSeparation)
      invariant faceToPolygons' == AddLayer(makePolygon, lib, b, faceToPolygons, done, distance, layerSeparation)
      invariant Consistent(polygons, faceToPolygons) ==> Consistent(polygons', faceToPolygons')
      decreases toVisit
    {
      var face :| face in toVisit;
      var sideToRender := faceToSideToRender[face];
      ghost var (polygons0, faceToPolygons0) := (polygons', faceToPolygons');
      polygons', faceToPolygons' := UpdateCollectionsOfFace(makePolygon, lib, b, face, sideToRender, distance,
                                                            layerSeparation, polygons', faceToPolygons');
      OneMoreFace(makePolygon, lib, b, distance, layerSeparation, polygons, faceToPolygons, done, face, sideToRender,
                  polygons0, faceToPolygons0, polygons', faceToPolygons');
      VisitOne(faceToSideToRender, done, toVisit, face);
      done := done[face := sideToRender];
      toVisit := toVisit - {face};
    }
    assert done == faceToSideToRender;
  }

  // ---- the rendering of the bundle ---------------------------------------

  /** The polygons of the first k layers, layer i at offset distances[i]. */
  function RenderedPolygons(makePolygon: PolygonMaker, lib: GeometryLibrary, b: Bundle, layers: seq<Layer>,
                            distances: seq<real>, layerSeparation: real, k: nat): set<OneSidedPolygon>
    requires k <= |layers| <= |distances|
  {
    if k == 0 then {}
    else RenderedPolygons(makePolygon, lib, b, layers, distances, layerSeparation, k - 1) +
         LayerPolygons(makePolygon, lib, b, layers[k - 1].faceToSideToRender, distances[k - 1], layerSeparation)
  }

  /** The polygons of each face in the first k layers. */
  function RenderedFaceMap(makePolygon: PolygonMaker, lib: GeometryLibrary, b: Bundle, layers: seq<Layer>,
                           distances: seq<real>, layerSeparation: real, k: nat): map<Face, set<OneSidedPolygon>>
    requires k <= |layers| <= |distances|
  {
    if k == 0 then map[]
    else AddLayer(makePolygon, lib, b, RenderedFaceMap(makePolygon, lib, b, layers, distances, layerSeparation, k - 1),
                  layers[k - 1].faceToSideToRender, distances[k - 1], layerSeparation)
  }

  /** The rendering of a whole bundle: every layer, at its offset. */
  function BundleRendering(makePolygon: PolygonMaker, lib: GeometryLibrary, b: Bundle, layerSeparation: real)
    : LayeredRendering
    requires WellFormed(b) && Acyclic(b)
  {
    var layers := MakeBottomToTopLayers(lib, b);
    var distances := CalculateDistances(|layers|, layerSeparation);
    LayeredRendering(RenderedPolygons(makePolygon, lib, b, layers, distances, layerSeparation, |layers|),
                     RenderedFaceMap(makePolygon, lib, b, layers, distances, layerSeparation, |layers|))
  }

  /** Pushing a polygon that has no creases gives a polygon that has none. */
  lemma PushedWithoutCreases(lib: GeometryLibrary, b: Bundle, polygon: OneSidedPolygon, sideToRender: SideToRender,
                             distance: real, layerSeparation: real)
    requires polygon.creases == {}
    ensures PushPolygon(lib, b, polygon, sideToRender, distance, layerSeparation).creases == {}
  {
    var r := PushPolygon(lib, b, polygon, sideToRender, distance, layerSeparation);
    assert forall c :: c !in r.creases;
  }

  /** The polygons of one face in a layer carry no creases when `makePolygon` draws none. */
  lemma FacePolygonsWithoutCreases(makePolygon: PolygonMaker, lib: GeometryLibrary, b: Bundle, face: Face,
                                   sideToRender: SideToRender, distance: real, layerSeparation: real)
    requires forall side :: makePolygon(face, side).creases == {}
    ensures forall p :: p in FacePolygons(makePolygon, lib, b, face, sideToRender, distance, layerSeparation) ==>
              p.creases == {}
  {
    PushedWithoutCreases(lib, b, makePolygon(face, TOP), TOP, distance, layerSeparation);
    PushedWithoutCreases(lib, b, makePolygon(face, BOTTOM), BOTTOM, distance, layerSeparation);
    PushedWithoutCreases(lib, b, makePolygon(face, sideToRender), sideToRender, distance, layerSeparation);
  }

  /**
   * When `makePolygon` never draws creases, as the face tweaker does not, no
   * polygon of the first k layers carries creases.
   */
  lemma {:induction false} RenderedWithoutCreases(makePolygon: PolygonMaker, lib: GeometryLibrary, b: Bundle,
                                                  layers: seq<Layer>, distances: seq<real>, layerSeparation: real,
                                                  k: nat)
    requires k <= |layers| <= |distances|
    requires forall face, sideToRender :: makePolygon(face, sideToRender).creases == {}
    ensures forall p :: p in RenderedPolygons(makePolygon, lib, b, layers, distances, layerSeparation, k) ==>
              p.creases == {}
  {
    if k > 0 {
      RenderedWithoutCreases(makePolygon, lib, b, layers, distances, layerSeparation, k - 1);
      var m := layers[k - 1].faceToSideToRender;
      forall p | p in LayerPolygons(makePolygon, lib, b, m, distances[k - 1], layerSeparation)
        ensures p.creases == {}
      {
        var f :| f in m && p in FacePolygons(makePolygon, lib, b, f, m[f], distances[k - 1], layerSeparation);
        FacePolygonsWithoutCreases(makePolygon, lib, b, f, m[f], distances[k - 1], layerSeparation);
      }
    }
  }

  /**
   * `layeredRendering`: the layers, bottom first, each layer's polygons
   * pushed to its offset, gathered in one set and under their faces.
   */
  method MakeLayeredRendering(makePolygon: PolygonMaker, lib: GeometryLibrary, b: Bundle, layerSeparation: real)
    returns (r: LayeredRendering)
    requires WellFormed(b) && Acyclic(b)
    ensures r == BundleRendering(makePolygon, lib, b, layerSeparation)
    ensures Consistent(r.polygons, r.originalFaceToPolygons)
  {
    var layers := MakeBottomToTopLayers(lib, b);
    var distances := CalculateDistances(|layers|, layerSeparation);
    var originalToPolygons: map<Face, set<OneSidedPolygon>> := map[];
    var polygons: set<OneSidedPolygon> := {};
    for index := 0 to |layers|
      invariant polygons == RenderedPolygons(makePolygon, lib, b, layers, distances, layerSeparation, index)
      invariant originalToPolygons == RenderedFaceMap(makePolygon, lib, b, layers, distances, layerSeparation, index)
      invariant Consistent(polygons, originalToPolygons)
    {
      var distance := distances[index];
      polygons, originalToPolygons := UpdateCollections(makePolygon, lib, b, layers[index].faceToSideToRender, distance,
                                                        layerSeparation, polygons, originalToPolygons);
    }
    r := LayeredRendering(polygons, originalToPolygons);
  }

  /** The faces of the first k layers. */
  function LayerFaces(layers: seq<Layer>, k: nat): set<Face>
    requires k <= |layers|
  {
    if k == 0 then {} else LayerFaces(layers, k - 1) + layers[k - 1].Faces()
  }

  /** The faces listed in the face map are the faces of the layers. */
  lemma {:induction false} RenderedFaceMapKeys(makePolygon: PolygonMaker, lib: GeometryLibrary, b: Bundle,
                                               layers: seq<Layer>, distances: seq<real>, layerSeparation: real, k: nat)
    requires k <= |layers| <= |distances|
    ensures RenderedFaceMap(makePolygon, lib, b, layers, distances, layerSeparation, k).Keys == LayerFaces(layers, k)
  {
    if k > 0 {
      RenderedFaceMapKeys(makePolygon, lib, b, layers, distances, layerSeparation, k - 1);
    }
  }

  /**
   * A face in exactly one layer is listed with exactly the polygons made
   * for it in that layer.
   */
  lemma {:induction false} FaceOfOneLayer(makePolygon: PolygonMaker, lib: GeometryLibrary, b: Bundle,
                                          layers: seq<Layer>, distances: seq<real>, layerSeparation: real,
                                          k: nat, i: nat, f: Face)
    requires i < k <= |layers| <= |distances|
    requires f in layers[i].Faces()
    requires forall j :: 0 <= j < k && j != i ==> f !in layers[j].Faces()
    ensures var m := RenderedFaceMap(makePolygon, lib, b, layers, distances, layerSeparation, k);
            f in m &&
            m[f] == FacePolygons(makePolygon, lib, b, f, layers[i].faceToSideToRender[f], distances[i], layerSeparation)
  {
    var prev := RenderedFaceMap(makePolygon, lib, b, layers, distances, layerSeparation, k - 1);
    if k - 1 == i {
      RenderedFaceMapKeys(makePolygon, lib, b, layers, distances, layerSeparation, k - 1);
      NotInLayerFaces(layers, k - 1, f);
      assert f !in prev;
    } else {
      FaceOfOneLayer(makePolygon, lib, b, layers, distances, layerSeparation, k - 1, i, f);
      assert f !in layers[k - 1].Faces();
    }
  }

  lemma {:induction false} NotInLayerFaces(layers: seq<Layer>, k: nat, f: Face)
    requires k <= |layers|
    requires forall j :: 0 <= j < k ==> f !in layers[j].Faces()
    ensures f !in LayerFaces(layers, k)
  {
    if k > 0 {
      NotInLayerFaces(layers, k - 1, f);
    }
  }

  lemma {:induction false} InLayerFaces(layers: seq<Layer>, k: nat, f: Face)
    requires k <= |layers|
    requires f in LayerFaces(layers, k)
    ensures exists j :: 0 <= j < k && f in layers[j].Faces()
  {
    if f !in layers[k - 1].Faces() {
      InLayerFaces(layers, k - 1, f);
    }
  }

  /**
   * Layers built from disjoint rounds: the face map lists the faces of the
   * rounds seen from some side, each with the polygons of the one layer it
   * is in.
   */
  lemma FaceMapOfRounds(makePolygon: PolygonMaker, lib: GeometryLibrary, b: Bundle, layers: seq<Layer>,
                        rounds: seq<set<Face>>, distances: seq<real>, layerSeparation: real, f: Face)
    requires |layers| == |rounds| <= |distances|
    requires forall i :: 0 <= i < |rounds| ==>
               layers[i].Faces() == (set g | g in rounds[i] && Classify(lib, b, g) != NONE) &&
               forall g :: g in layers[i].Faces() ==> layers[i].faceToSideToRender[g] == Classify(lib, b, g)
    requires forall i, j :: 0 <= i < j < |rounds| ==> rounds[i] !! rounds[j]
    ensures var m := RenderedFaceMap(makePolygon, lib, b, layers, distances, layerSeparation, |layers|);
            (f in m <==> Classify(lib, b, f) != NONE && exists i :: 0 <= i < |rounds| && f in rounds[i]) &&
            forall i :: 0 <= i < |rounds| && f in rounds[i] && Classify(lib, b, f) != NONE ==>
              f in m &&
              m[f] == FacePolygons(makePolygon, lib, b, f, Classify(lib, b, f), distances[i], layerSeparation)
  {
    var m := RenderedFaceMap(makePolygon, lib, b, layers, distances, layerSeparation, |layers|);
    RenderedFaceMapKeys(makePolygon, lib, b, layers, distances, layerSeparation, |layers|);
    if f in m {
      InLayerFaces(layers, |layers|, f);
      var j :| 0 <= j < |layers| && f in layers[j].Faces();
      assert f in rounds[j];
    }
    forall i | 0 <= i < |rounds| && f in rounds[i] && Classify(lib, b, f) != NONE
      ensures f in m
      ensures m[f] == FacePolygons(makePolygon, lib, b, f, Classify(lib, b, f), distances[i], layerSeparation)
    {
      assert f in layers[i].Faces();
      forall j | 0 <= j < |layers| && j != i ensures f !in layers[j].Faces() {
        if j < i { assert rounds[j] !! rounds[i]; } else { assert rounds[i] !! rounds[j]; }
      }
      FaceOfOneLayer(makePolygon, lib, b, layers, distances, layerSeparation, |layers|, i, f);
    }
  }

  /**
   * The rendering of a bundle lists exactly the faces seen from some side,
   * and each with exactly the polygons of its sides, pushed to the offset of
   * the one round the face belongs to.
   */
  lemma RenderingOfEachFace(makePolygon: PolygonMaker, lib: GeometryLibrary, b: Bundle, layerSeparation: real,
                            f: Face)
    requires WellFormed(b) && Acyclic(b)
    ensures var layers := MakeBottomToTopLayers(lib, b);
            var distances := CalculateDistances(|layers|, layerSeparation);
            var m := RenderedFaceMap(makePolygon, lib, b, layers, distances, layerSeparation, |layers|);
            var rounds := Rounds(b, {});
            |layers| == |rounds| &&
            (f in m <==> f in b.faces && Classify(lib, b, f) != NONE) &&
            forall i :: 0 <= i < |rounds| && f in rounds[i] && Classify(lib, b, f) != NONE ==>
              f in m && m[f] == FacePolygons(makePolygon, lib, b, f, Classify(lib, b, f), distances[i], layerSeparation)
  {
    var layers := MakeBottomToTopLayers(lib, b);
    var distances := CalculateDistances(|layers|, layerSeparation);
    var rounds := Rounds(b, {});
    BottomToTopLayersAreRounds(lib, b);
    RoundsAreDisjoint(b, {});
    FaceMapOfRounds(makePolygon, lib, b, layers, rounds, distances, layerSeparation, f);
    RoundsAreNewFaces(b, {});
    RoundsCoverFaces(b, {});
    assert f in b.faces ==> f in b.faces - {};
  }

  /** A bundle of one face, with nothing below it, has no cycle. */
  lemma SingleFaceIsAcyclic(b: Bundle, f: Face)
    requires b.faces == {f} && b.facesToFacesBelow == map[]
    ensures WellFormed(b) && Acyclic(b)
  {
    forall s: set<Face> | s <= b.faces && s != {} ensures HasMinimal(b, s) {
      assert f in s;
    }
  }

  /** The faces of a bundle of one face are added in one round. */
  lemma SingleFaceRounds(b: Bundle, f: Face)
    requires b.faces == {f} && b.facesToFacesBelow == map[]
    ensures WellFormed(b) && Acyclic(b)
    ensures Rounds(b, {}) == [{f}]
  {
    SingleFaceIsAcyclic(b, f);
    assert Eligible(b, {}) == {f};
    assert Rounds(b, {f}) == [];
  }

  /**
   * A bundle of one face: one layer, in the bundle's plane, the face drawn
   * from both sides (it is a top face), so it gets two polygons, half a
   * separation above and below the plane.
   */
  lemma SingleFaceBundle(makePolygon: PolygonMaker, lib: GeometryLibrary, b: Bundle, layerSeparation: real, f: Face)
    requires b.faces == {f} && b.facesToFacesBelow == map[] && f in b.topFaces
    ensures WellFormed(b) && Acyclic(b)
    ensures BundleRendering(makePolygon, lib, b, layerSeparation).originalFaceToPolygons
              == map[f := {SidePolygon(makePolygon, lib, b, f, TOP, 0.0, layerSeparation),
                           SidePolygon(makePolygon, lib, b, f, BOTTOM, 0.0, layerSeparation)}]
  {
    SingleFaceRounds(b, f);
    var layers := MakeBottomToTopLayers(lib, b);
    var distances := CalculateDistances(|layers|, layerSeparation);
    var m := RenderedFaceMap(makePolygon, lib, b, layers, distances, layerSeparation, |layers|);
    assert Classify(lib, b, f) == BOTH;
    RenderingOfEachFace(makePolygon, lib, b, layerSeparation, f);
    assert |layers| == 1;
    SmallLayerCounts(layerSeparation);
    assert distances[0] == 0.0;
    assert f in Rounds(b, {})[0];
    forall g | g in m ensures g == f {
      RenderingOfEachFace(makePolygon, lib, b, layerSeparation, g);
    }
    OnlyKey(m, f);
  }

  /** A map whose only key is k. */
  lemma OnlyKey<K, V>(m: map<K, V>, k: K)
    requires k in m && forall j :: j in m ==> j == k
    ensures m == map[k := m[k]]
  {
  }
}
