/**
 * Face tweaking for the three-dimensional look: at most one corner of a
 * face is moved (opened) and at most one point is inserted in a free edge
 * (a convex edge). The display library draws a polygon with one point out
 * of plane correctly only when that point is the second of the boundary,
 * so the vertex list is rotated to put the new point there, on the front
 * side and, reversed, on the back side. Tweaked polygons carry no creases.
 * Each tweak alone leaves one point out of plane; a face with both gets
 * two, since the code applies them independently.
 *
 * Two steps of the source lose that guarantee. `MakePolygon` models the
 * source as written, with the members named `...AsWritten`; lemmas show
 * where the guarantee fails, and `MakePolygonIntended` is the corrected
 * tweaker, built from the corrected members beside them.
 */
module FaceTweaker {
  import opened Geometry
  import opened Seqs
  import opened OrderedMaps
  import opened Figures
  import opened OneSidedPolygons
  import opened Layers

  // ---- the back side ordering -------------------------------------------

  /**
   * The back side as written: the list reversed, then its first element
   * moved to the end (`reversed.drop(1) + reversed.first()`).
   */
  function BackSideVerticesAsWritten<T>(vs: seq<T>): (r: seq<T>)
    requires |vs| > 0
    ensures |r| == |vs|
    ensures forall i :: 0 <= i < |vs| - 1 ==> r[i] == vs[|vs| - 2 - i]
    ensures r[|vs| - 1] == vs[|vs| - 1]
  {
    var reversed := Reverse(vs);
    reversed[1..] + [reversed[0]]
  }

  /**
   * The second vertex stays second in the back side as written only when
   * the face has exactly four vertices (a triangle with one inserted point,
   * or a quadrilateral with an opened corner); for any other length of three
   * or more, another vertex lands there.
   */
  lemma BackSideAsWrittenKeepsSecondOnlyForFour<T>(vs: seq<T>)
    requires |vs| >= 3 && Distinct(vs)
    ensures BackSideVerticesAsWritten(vs)[1] == vs[1] <==> |vs| == 4
  {
    assert BackSideVerticesAsWritten(vs)[1] == vs[|vs| - 3];
  }

  /** A pentagon: the inserted point of a convex edge (index 1) does not stay second. */
  lemma BackSideAsWrittenMovesSecondOfPentagon()
    ensures BackSideVerticesAsWritten([0, 1, 2, 3, 4]) == [3, 2, 1, 0, 4]
  {
    var r := BackSideVerticesAsWritten([0, 1, 2, 3, 4]);
    assert r[0] == 3 && r[1] == 2 && r[2] == 1 && r[3] == 0 && r[4] == 4;
  }

  /**
   * The back side as intended: the boundary in reverse cyclic order with
   * the second vertex kept second (the reversed list rotated left by
   * length - 3; the source rotates by one, which is length - 3 only for
   * four vertices).
   */
  function BackSideVertices<T>(vs: seq<T>): (r: seq<T>)
    ensures |r| == |vs|
    ensures |vs| >= 3 ==> forall i :: 0 <= i < 3 ==> r[i] == vs[2 - i]
    ensures |vs| >= 3 ==> forall i :: 3 <= i < |vs| ==> r[i] == vs[|vs| + 2 - i]
  {
    var reversed := Reverse(vs);
    if |vs| < 3 then reversed else RotateLeft(reversed, |vs| - 3)
  }

  /** On four vertices, where the source's comment expects it, the two orderings agree. */
  lemma BackSideAgreesOnFour<T>(vs: seq<T>)
    requires |vs| == 4
    ensures BackSideVertices(vs) == BackSideVerticesAsWritten(vs)
  {
    var a := BackSideVertices(vs);
    var b := BackSideVerticesAsWritten(vs);
    assert a[0] == vs[2] && a[1] == vs[1] && a[2] == vs[0] && a[3] == vs[3];
    assert b[0] == vs[2] && b[1] == vs[1] && b[2] == vs[0] && b[3] == vs[3];
  }

  // ---- opening one corner -----------------------------------------------

  /**
   * `makeVerticesWithOneOpenCorner` as written: every occurrence of the
   * vertex is replaced by a new vertex at the new position; an index of 0 or
   * 1 then rotates the replaced list, but an index of 2 or more rotates the
   * ORIGINAL list, so the new position is dropped.
   */
  function MakeVerticesWithOneOpenCornerAsWritten(vs: seq<Vertex>, v: Vertex, newPosition: Point): (r: seq<Vertex>)
    requires v in vs
    ensures |r| == |vs|
  {
    var index := IndexOf(vs, v);
    var newVertex := CreatedVertex(newPosition);
    var newVertices := ReplaceAll(vs, v, newVertex);
    if index == 1 then newVertices
    else if index == 0 then [newVertices[|newVertices| - 1]] + newVertices[..|newVertices| - 1]
    else RotateLeft(vs, index - 1)
  }

  /**
   * As written, a corner at index 2 or more is not opened at all: the result
   * is the original list rotated so the unmoved vertex is second, and no new
   * vertex appears in it.
   */
  lemma OpenCornerAsWrittenDropsTweak(vs: seq<Vertex>, v: Vertex, newPosition: Point)
    requires v in vs && IndexOf(vs, v) >= 2 && CreatedVertex(newPosition) !in vs
    ensures MakeVerticesWithOneOpenCornerAsWritten(vs, v, newPosition) == RotateLeft(vs, IndexOf(vs, v) - 1)
    ensures MakeVerticesWithOneOpenCornerAsWritten(vs, v, newPosition)[1] == v
    ensures CreatedVertex(newPosition) !in MakeVerticesWithOneOpenCornerAsWritten(vs, v, newPosition)
  {
    var r := MakeVerticesWithOneOpenCornerAsWritten(vs, v, newPosition);
    var k := IndexOf(vs, v) - 1;
    assert r[1] == vs[1 + k];
    RotateLeftPermutes(vs, k);
    assert CreatedVertex(newPosition) !in multiset(vs);
  }

  /**
   * `makeVerticesWithOneOpenCorner` as intended: the vertex replaced by a
   * new vertex at the new position, and the replaced list rotated so that
   * the new vertex is second.
   */
  function MakeVerticesWithOneOpenCorner(vs: seq<Vertex>, v: Vertex, newPosition: Point): (r: seq<Vertex>)
    requires v in vs
    ensures |r| == |vs|
    ensures r == RotateLeft(ReplaceAll(vs, v, CreatedVertex(newPosition)),
                            if IndexOf(vs, v) == 0 then |vs| - 1 else IndexOf(vs, v) - 1)
    ensures |vs| >= 2 ==> r[1] == CreatedVertex(newPosition)
  {
    var index := IndexOf(vs, v);
    var newVertex := CreatedVertex(newPosition);
    var newVertices := ReplaceAll(vs, v, newVertex);
    var n := |vs|;
    if index == 1 then
      assert newVertices == RotateLeft(newVertices, 0);
      newVertices
    else if index == 0 then
      var r := [newVertices[n - 1]] + newVertices[..n - 1];
      assert r == RotateLeft(newVertices, n - 1);
      r
    else
      RotateLeft(newVertices, index - 1)
  }

  /** The two agree when the corner is the first or second vertex. */
  lemma OpenCornerAgreesBelowTwo(vs: seq<Vertex>, v: Vertex, newPosition: Point)
    requires v in vs && IndexOf(vs, v) < 2
    ensures MakeVerticesWithOneOpenCorner(vs, v, newPosition)
            == MakeVerticesWithOneOpenCornerAsWritten(vs, v, newPosition)
  {
  }

  /**
   * The entry `makeVerticesWithOpenCorners` applies: the first one, in the
   * map's order, whose vertex belongs to the face (`firstOrNull`).
   */
  function FirstOpenCorner(vs: seq<Vertex>, vertexToTweakedPosition: Entries<Vertex, Point>)
    : (r: Option<(Vertex, Point)>)
    ensures r.None? <==> forall i :: 0 <= i < |vertexToTweakedPosition| ==> vertexToTweakedPosition[i].0 !in vs
    ensures r.Some? ==> r.value.0 in vs
    ensures forall i :: 0 <= i < |vertexToTweakedPosition| && vertexToTweakedPosition[i].0 in vs &&
                        (forall j :: 0 <= j < i ==> vertexToTweakedPosition[j].0 !in vs) ==>
              r == Some(vertexToTweakedPosition[i])
  {
    var first := FirstEntryWhere(vertexToTweakedPosition, k => k in vs);
    if first.None? then first
    else
      FirstEntryIsUnique(vertexToTweakedPosition, vs, first.value);
      first
  }

  /**
   * `makeVerticesWithOpenCorners` as written: the first matching entry is
   * applied with `makeVerticesWithOneOpenCorner` as written; when no entry
   * matches, the vertices are unchanged.
   */
  function MakeVerticesWithOpenCorners(vs: seq<Vertex>, vertexToTweakedPosition: Entries<Vertex, Point>): (r: seq<Vertex>)
    ensures |r| == |vs|
    ensures (forall i :: 0 <= i < |vertexToTweakedPosition| ==> vertexToTweakedPosition[i].0 !in vs) ==> r == vs
    ensures forall i :: 0 <= i < |vertexToTweakedPosition| && vertexToTweakedPosition[i].0 in vs &&
                        (forall j :: 0 <= j < i ==> vertexToTweakedPosition[j].0 !in vs) ==>
              r == MakeVerticesWithOneOpenCornerAsWritten(vs, vertexToTweakedPosition[i].0, vertexToTweakedPosition[i].1)
  {
    var first := FirstOpenCorner(vs, vertexToTweakedPosition);
    if first.None? then vs else MakeVerticesWithOneOpenCornerAsWritten(vs, first.value.0, first.value.1)
  }

  /** `makeVerticesWithOpenCorners` as intended: the same entry, applied with the corrected rotation. */
  function MakeVerticesWithOpenCornersIntended(vs: seq<Vertex>, vertexToTweakedPosition: Entries<Vertex, Point>)
    : (r: seq<Vertex>)
    ensures |r| == |vs|
    ensures (forall i :: 0 <= i < |vertexToTweakedPosition| ==> vertexToTweakedPosition[i].0 !in vs) ==> r == vs
    ensures forall i :: 0 <= i < |vertexToTweakedPosition| && vertexToTweakedPosition[i].0 in vs &&
                        (forall j :: 0 <= j < i ==> vertexToTweakedPosition[j].0 !in vs) ==>
              r == MakeVerticesWithOneOpenCorner(vs, vertexToTweakedPosition[i].0, vertexToTweakedPosition[i].1)
  {
    var first := FirstOpenCorner(vs, vertexToTweakedPosition);
    if first.None? then vs else MakeVerticesWithOneOpenCorner(vs, first.value.0, first.value.1)
  }

  /** The first entry with a key in vs is at the one index where such keys start. */
  lemma FirstEntryIsUnique(m: Entries<Vertex, Point>, vs: seq<Vertex>, e: (Vertex, Point))
    requires exists i :: 0 <= i < |m| && m[i] == e && e.0 in vs && forall j :: 0 <= j < i ==> m[j].0 !in vs
    ensures forall i :: 0 <= i < |m| && m[i].0 in vs && (forall j :: 0 <= j < i ==> m[j].0 !in vs) ==> m[i] == e
  {
    var i0 :| 0 <= i0 < |m| && m[i0] == e && e.0 in vs && forall j :: 0 <= j < i0 ==> m[j].0 !in vs;
    forall i | 0 <= i < |m| && m[i].0 in vs && (forall j :: 0 <= j < i ==> m[j].0 !in vs)
      ensures m[i] == e
    {
    }
  }

  // ---- one convex edge ---------------------------------------------------

  /**
   * `makeVerticesOfFaceWithOneConvexEdge`: the list starts with the vertex at
   * index i, then a new vertex at the given position, then the rest of the
   * boundary in cyclic order.
   */
  function MakeVerticesOfFaceWithOneConvexEdge(vs: seq<Vertex>, i: nat, position: Point): (r: seq<Vertex>)
    requires i < |vs|
    ensures |r| == |vs| + 1
    ensures r[0] == vs[i] && r[1] == CreatedVertex(position)
    ensures RemoveAt(r, 1) == RotateLeft(vs, i)
  {
    var newHead := [vs[i], CreatedVertex(position)];
    var r := newHead + (if i == 0 then vs[1..]
                        else if i == |vs| - 1 then vs[..|vs| - 1]
                        else vs[i + 1..] + vs[..i]);
    assert RemoveAt(r, 1) == RotateLeft(vs, i) by {
      assert RemoveAt(r, 1) == [vs[i]] + r[2..];
      assert vs[i..] == [vs[i]] + vs[i + 1..];
    }
    r
  }

  /**
   * `makeVerticesOfFaceWithConvexEdge`: when the preceding vertex is in the
   * list the point is inserted after it; otherwise the list is unchanged.
   */
  function MakeVerticesOfFaceWithConvexEdge(vs: seq<Vertex>, convexEdge: (Vertex, Point)): (r: seq<Vertex>)
    ensures convexEdge.0 !in vs ==> r == vs
    ensures convexEdge.0 in vs ==>
              |r| == |vs| + 1 && r[0] == convexEdge.0 && r[1] == CreatedVertex(convexEdge.1) &&
              RemoveAt(r, 1) == RotateLeft(vs, IndexOf(vs, convexEdge.0))
  {
    var index := IndexOf(vs, convexEdge.0);
    var found := index >= 0;
    if found then MakeVerticesOfFaceWithOneConvexEdge(vs, index, convexEdge.1) else vs
  }

  /**
   * After the insertion, the inserted point sits between the preceding
   * vertex and the vertex that followed it in the face.
   */
  lemma ConvexPointBetweenItsNeighbours(vs: seq<Vertex>, i: nat, position: Point)
    requires i < |vs| && |vs| >= 2
    ensures var r := MakeVerticesOfFaceWithOneConvexEdge(vs, i, position);
            r[0] == vs[i] && r[1] == CreatedVertex(position) && r[2] == vs[(i + 1) % |vs|]
  {
    var r := MakeVerticesOfFaceWithOneConvexEdge(vs, i, position);
    assert r[2] == RemoveAt(r, 1)[1];
    RotateLeftAt(vs, i, 1);
  }

  // ---- the tweaked polygon -----------------------------------------------

  /** Whether the side rendered is the face's front (`isTheFrontFace`). */
  predicate IsTheFrontFace(sameDirection: bool, side: SideToRender)
  {
    (sameDirection && side == TOP) || (!sameDirection && side == BOTTOM)
  }

  /** The vertex list after the open corner (as written) and the convex edge are applied. */
  function TweakedVertices(face: Face, vertexToTweakedPosition: Entries<Vertex, Point>,
                           convexEdge: Option<(Vertex, Point)>): seq<Vertex>
  {
    var openCorners := MakeVerticesWithOpenCorners(face.vertices, vertexToTweakedPosition);
    if convexEdge.None? then openCorners else MakeVerticesOfFaceWithConvexEdge(openCorners, convexEdge.value)
  }

  /** The boundary of the back side as written; a face without vertices has an empty one. */
  function BackSide(vs: seq<Vertex>): seq<Vertex>
  {
    if |vs| == 0 then [] else BackSideVerticesAsWritten(vs)
  }

  /**
   * `FaceTweaker.makePolygon` as written: the tweaked vertex list for the
   * front side, the as-written back ordering for the back side, in the
   * colour of the side shown, without creases.
   */
  function MakePolygon(lib: GeometryLibrary, face: Face, side: SideToRender,
                       vertexToTweakedPosition: Entries<Vertex, Point>,
                       convexEdge: Option<(Vertex, Point)>, bundlePlane: Plane): (r: OneSidedPolygon)
    ensures r.creases == {}
    ensures r.color == if IsTheFrontFace(lib.facingSameWay(face, bundlePlane), side)
                       then face.frontColor else face.backColor
    ensures var vs := TweakedVertices(face, vertexToTweakedPosition, convexEdge);
            if IsTheFrontFace(lib.facingSameWay(face, bundlePlane), side)
            then r.boundary == Positions(vs)
            else |vs| > 0 ==> r.boundary == Positions(BackSideVerticesAsWritten(vs))
    ensures |face.vertices| <= |r.boundary| <= |face.vertices| + 1
  {
    var polygonAndBundleFaceTheSameDirection := lib.facingSameWay(face, bundlePlane);
    var andConvexEdges := TweakedVertices(face, vertexToTweakedPosition, convexEdge);
    var isTheFrontFace := IsTheFrontFace(polygonAndBundleFaceTheSameDirection, side);
    var verticesOfSideOfPolygon := if isTheFrontFace then andConvexEdges else BackSide(andConvexEdges);
    var colorOfSideOfPolygon := if isTheFrontFace then face.frontColor else face.backColor;
    OneSidedPolygon(Positions(verticesOfSideOfPolygon), colorOfSideOfPolygon, {})
  }

  /** Without a matching open corner and without a convex edge the face's own vertices are drawn. */
  lemma UntweakedFaceKeepsItsVertices(lib: GeometryLibrary, face: Face, side: SideToRender,
                                      vertexToTweakedPosition: Entries<Vertex, Point>, bundlePlane: Plane)
    requires forall i :: 0 <= i < |vertexToTweakedPosition| ==> vertexToTweakedPosition[i].0 !in face.vertices
    ensures var r := MakePolygon(lib, face, side, vertexToTweakedPosition, None, bundlePlane);
            if IsTheFrontFace(lib.facingSameWay(face, bundlePlane), side)
            then r.boundary == Positions(face.vertices)
            else |face.vertices| > 0 ==> r.boundary == Positions(BackSideVerticesAsWritten(face.vertices))
  {
  }

  /**
   * As written, the inserted point of a convex edge is second on the front
   * side; on the back side the point at length - 3 is second, which is the
   * inserted point when the boundary has four points (a triangle with its
   * convex edge), as the source's comment expects.
   */
  lemma ConvexPointPositionAsWritten(lib: GeometryLibrary, face: Face, side: SideToRender,
                                     vertexToTweakedPosition: Entries<Vertex, Point>,
                                     convexEdge: (Vertex, Point), bundlePlane: Plane)
    requires |face.vertices| >= 2
    requires convexEdge.0 in MakeVerticesWithOpenCorners(face.vertices, vertexToTweakedPosition)
    ensures var r := MakePolygon(lib, face, side, vertexToTweakedPosition, Some(convexEdge), bundlePlane);
            var vs := TweakedVertices(face, vertexToTweakedPosition, Some(convexEdge));
            |r.boundary| == |face.vertices| + 1 &&
            (IsTheFrontFace(lib.facingSameWay(face, bundlePlane), side) ==> r.boundary[1] == convexEdge.1) &&
            (!IsTheFrontFace(lib.facingSameWay(face, bundlePlane), side) ==> r.boundary[1] == vs[|vs| - 3].pos) &&
            (|face.vertices| == 3 ==> r.boundary[1] == convexEdge.1)
  {
    var vs := TweakedVertices(face, vertexToTweakedPosition, Some(convexEdge));
    assert vs[1] == CreatedVertex(convexEdge.1);
    assert BackSideVerticesAsWritten(vs)[1] == vs[|vs| - 3];
  }

  /**
   * As written, a corner at index 0 or 1 of the face is opened and second
   * on the front side, and on the back side too when the face has four
   * vertices; `OpenCornerAsWrittenDropsTweak` shows what happens from
   * index 2 on.
   */
  lemma OpenCornerPositionAsWritten(lib: GeometryLibrary, face: Face, side: SideToRender,
                                    vertexToTweakedPosition: Entries<Vertex, Point>, i: nat, bundlePlane: Plane)
    requires |face.vertices| >= 3
    requires i < |vertexToTweakedPosition| && vertexToTweakedPosition[i].0 in face.vertices
    requires forall j :: 0 <= j < i ==> vertexToTweakedPosition[j].0 !in face.vertices
    requires IndexOf(face.vertices, vertexToTweakedPosition[i].0) < 2
    ensures var r := MakePolygon(lib, face, side, vertexToTweakedPosition, None, bundlePlane);
            (IsTheFrontFace(lib.facingSameWay(face, bundlePlane), side) || |face.vertices| == 4) ==>
              r.boundary[1] == vertexToTweakedPosition[i].1
  {
    var (v, position) := vertexToTweakedPosition[i];
    var vs := TweakedVertices(face, vertexToTweakedPosition, None);
    assert vs == MakeVerticesWithOneOpenCornerAsWritten(face.vertices, v, position);
    OpenCornerAgreesBelowTwo(face.vertices, v, position);
    assert vs == MakeVerticesWithOneOpenCorner(face.vertices, v, position);
    assert vs[1] == CreatedVertex(position);
    if |face.vertices| == 4 {
      assert BackSideVerticesAsWritten(vs)[1] == vs[1];
    }
  }

  // ---- the tweaked polygon as intended -------------------------------------

  /** The vertex list after the open corner (as intended) and the convex edge are applied. */
  function TweakedVerticesIntended(face: Face, vertexToTweakedPosition: Entries<Vertex, Point>,
                                   convexEdge: Option<(Vertex, Point)>): seq<Vertex>
  {
    var openCorners := MakeVerticesWithOpenCornersIntended(face.vertices, vertexToTweakedPosition);
    if convexEdge.None? then openCorners else MakeVerticesOfFaceWithConvexEdge(openCorners, convexEdge.value)
  }

  /**
   * `makePolygon` as its comments intend it: the corrected opening of the
   * corner and the corrected back ordering, which keep the one point out
   * of plane second on both sides.
   */
  function MakePolygonIntended(lib: GeometryLibrary, face: Face, side: SideToRender,
                               vertexToTweakedPosition: Entries<Vertex, Point>,
                               convexEdge: Option<(Vertex, Point)>, bundlePlane: Plane): (r: OneSidedPolygon)
    ensures r.creases == {}
    ensures r.color == if IsTheFrontFace(lib.facingSameWay(face, bundlePlane), side)
                       then face.frontColor else face.backColor
    ensures var vs := TweakedVerticesIntended(face, vertexToTweakedPosition, convexEdge);
            r.boundary == Positions(if IsTheFrontFace(lib.facingSameWay(face, bundlePlane), side)
                                    then vs else BackSideVertices(vs))
    ensures |face.vertices| <= |r.boundary| <= |face.vertices| + 1
  {
    var isTheFrontFace := IsTheFrontFace(lib.facingSameWay(face, bundlePlane), side);
    var andConvexEdges := TweakedVerticesIntended(face, vertexToTweakedPosition, convexEdge);
    var verticesOfSideOfPolygon := if isTheFrontFace then andConvexEdges else BackSideVertices(andConvexEdges);
    OneSidedPolygon(Positions(verticesOfSideOfPolygon), if isTheFrontFace then face.frontColor else face.backColor, {})
  }

  /**
   * As intended, the inserted point of a convex edge is the second boundary
   * point of the polygon, on the front side and on the back side alike.
   */
  lemma ConvexPointIsSecond(lib: GeometryLibrary, face: Face, side: SideToRender,
                            vertexToTweakedPosition: Entries<Vertex, Point>,
                            convexEdge: (Vertex, Point), bundlePlane: Plane)
    requires |face.vertices| >= 2
    requires convexEdge.0 in MakeVerticesWithOpenCornersIntended(face.vertices, vertexToTweakedPosition)
    ensures MakePolygonIntended(lib, face, side, vertexToTweakedPosition, Some(convexEdge), bundlePlane).boundary[1]
            == convexEdge.1
  {
    var vs := TweakedVerticesIntended(face, vertexToTweakedPosition, Some(convexEdge));
    assert vs[1] == CreatedVertex(convexEdge.1);
    assert BackSideVertices(vs)[1] == vs[1];
  }

  /**
   * As intended, the opened corner is the second boundary point of the
   * polygon, on both sides, wherever it is in the face, when no convex edge
   * follows it.
   */
  lemma OpenCornerIsSecond(lib: GeometryLibrary, face: Face, side: SideToRender,
                           vertexToTweakedPosition: Entries<Vertex, Point>, i: nat, bundlePlane: Plane)
    requires |face.vertices| >= 3
    requires i < |vertexToTweakedPosition| && vertexToTweakedPosition[i].0 in face.vertices
    requires forall j :: 0 <= j < i ==> vertexToTweakedPosition[j].0 !in face.vertices
    ensures MakePolygonIntended(lib, face, side, vertexToTweakedPosition, None, bundlePlane).boundary[1]
            == vertexToTweakedPosition[i].1
  {
    var (v, position) := vertexToTweakedPosition[i];
    var vs := TweakedVerticesIntended(face, vertexToTweakedPosition, None);
    assert vs == MakeVerticesWithOneOpenCorner(face.vertices, v, position);
    assert vs[1] == CreatedVertex(position);
    assert BackSideVertices(vs)[1] == vs[1];
  }

  // ---- points out of plane -------------------------------------------------

  /** Every vertex of the list is one of the figure's own, so in the face's plane. */
  predicate FigureVertices(vs: seq<Vertex>)
  {
    forall i :: 0 <= i < |vs| ==> vs[i].FigureVertex?
  }

  /** At most one point of the list is a new vertex, the only kind that may leave the plane. */
  predicate AtMostOneOutOfPlane(vs: seq<Vertex>)
  {
    forall i, j :: 0 <= i < j < |vs| ==> !(vs[i].CreatedVertex? && vs[j].CreatedVertex?)
  }

  /** No point of the list but the second is a new vertex. */
  predicate OutOfPlaneOnlySecond(vs: seq<Vertex>)
  {
    forall i :: 0 <= i < |vs| && vs[i].CreatedVertex? ==> i == 1
  }

  /** Replacing a vertex of a face's own distinct vertices makes one new vertex, at its index. */
  lemma ReplacedOnlyWhereItWas(vs: seq<Vertex>, v: Vertex, p: Point)
    requires Distinct(vs) && FigureVertices(vs) && v in vs
    ensures forall i :: 0 <= i < |vs| ==>
              (ReplaceAll(vs, v, CreatedVertex(p))[i].CreatedVertex? <==> i == IndexOf(vs, v))
  {
    forall i | 0 <= i < |vs|
      ensures ReplaceAll(vs, v, CreatedVertex(p))[i].CreatedVertex? <==> i == IndexOf(vs, v)
    {
      if vs[i] == v {
        IndexOfDistinct(vs, i);
      }
    }
  }

  /** Rotating left by k a list whose one new vertex is at index t moves it to index t - k, cyclically. */
  lemma RotatedOutOfPlane(nv: seq<Vertex>, k: nat, t: nat)
    requires k <= |nv| && t < |nv|
    requires forall i :: 0 <= i < |nv| ==> (nv[i].CreatedVertex? <==> i == t)
    ensures forall j :: 0 <= j < |nv| && RotateLeft(nv, k)[j].CreatedVertex? ==> j + k == t || j + k == t + |nv|
  {
    var r := RotateLeft(nv, k);
    forall j | 0 <= j < |nv| && r[j].CreatedVertex?
      ensures j + k == t || j + k == t + |nv|
    {
      if j < |nv| - k {
        assert r[j] == nv[j + k];
      } else {
        assert r[j] == nv[j + k - |nv|];
      }
    }
  }

  /** Opening a corner as intended leaves one new vertex, second when there are two vertices or more. */
  lemma OpenCornerOnlyPointOutOfPlane(vs: seq<Vertex>, v: Vertex, p: Point)
    requires Distinct(vs) && FigureVertices(vs) && v in vs
    ensures var r := MakeVerticesWithOneOpenCorner(vs, v, p);
            AtMostOneOutOfPlane(r) && (|vs| >= 2 ==> OutOfPlaneOnlySecond(r))
  {
    var n := |vs|;
    var index := IndexOf(vs, v);
    var nv := ReplaceAll(vs, v, CreatedVertex(p));
    ReplacedOnlyWhereItWas(vs, v, p);
    var k := if index == 0 then n - 1 else index - 1;
    var r := MakeVerticesWithOneOpenCorner(vs, v, p);
    assert r == RotateLeft(nv, k);
    RotatedOutOfPlane(nv, k, index);
    var t := if n == 1 then 0 else 1;
    assert forall j :: 0 <= j < n && r[j].CreatedVertex? ==> j == t;
  }

  /** Opening a corner as written leaves at most one new vertex, second when there are two vertices or more. */
  lemma OpenCornerAsWrittenOnlyPointOutOfPlane(vs: seq<Vertex>, v: Vertex, p: Point)
    requires Distinct(vs) && FigureVertices(vs) && v in vs
    ensures var w := MakeVerticesWithOneOpenCornerAsWritten(vs, v, p);
            AtMostOneOutOfPlane(w) && (|vs| >= 2 ==> OutOfPlaneOnlySecond(w))
  {
    var index := IndexOf(vs, v);
    if index < 2 {
      OpenCornerAgreesBelowTwo(vs, v, p);
      OpenCornerOnlyPointOutOfPlane(vs, v, p);
    } else {
      var w := MakeVerticesWithOneOpenCornerAsWritten(vs, v, p);
      assert w == RotateLeft(vs, index - 1);
      forall j | 0 <= j < |vs|
        ensures w[j].FigureVertex?
      {
        if j < |vs| - (index - 1) {
          assert w[j] == vs[j + index - 1];
        } else {
          assert w[j] == vs[j + index - 1 - |vs|];
        }
      }
    }
  }

  /**
   * Without a convex edge, a face of the figure's own distinct vertices
   * gets at most one point out of plane, the second one when the face has
   * two vertices or more, as written and as intended.
   */
  lemma OneCornerLeavesOnePointOutOfPlane(face: Face, vertexToTweakedPosition: Entries<Vertex, Point>)
    requires Distinct(face.vertices) && FigureVertices(face.vertices)
    ensures var vs := TweakedVertices(face, vertexToTweakedPosition, None);
            AtMostOneOutOfPlane(vs) && (|vs| >= 2 ==> OutOfPlaneOnlySecond(vs))
    ensures var vs := TweakedVerticesIntended(face, vertexToTweakedPosition, None);
            AtMostOneOutOfPlane(vs) && (|vs| >= 2 ==> OutOfPlaneOnlySecond(vs))
  {
    var first := FirstOpenCorner(face.vertices, vertexToTweakedPosition);
    if first.Some? {
      var (v, p) := first.value;
      assert TweakedVertices(face, vertexToTweakedPosition, None)
             == MakeVerticesWithOneOpenCornerAsWritten(face.vertices, v, p);
      assert TweakedVerticesIntended(face, vertexToTweakedPosition, None)
             == MakeVerticesWithOneOpenCorner(face.vertices, v, p);
      OpenCornerOnlyPointOutOfPlane(face.vertices, v, p);
      OpenCornerAsWrittenOnlyPointOutOfPlane(face.vertices, v, p);
    }
  }

  /**
   * A convex edge alone, with no corner of the face to open, gives one
   * point out of plane, the second one, as written and as intended.
   */
  lemma ConvexEdgeLeavesOnePointOutOfPlane(face: Face, vertexToTweakedPosition: Entries<Vertex, Point>,
                                           convexEdge: (Vertex, Point))
    requires FigureVertices(face.vertices)
    requires forall i :: 0 <= i < |vertexToTweakedPosition| ==> vertexToTweakedPosition[i].0 !in face.vertices
    ensures var vs := TweakedVertices(face, vertexToTweakedPosition, Some(convexEdge));
            AtMostOneOutOfPlane(vs) && OutOfPlaneOnlySecond(vs)
    ensures TweakedVerticesIntended(face, vertexToTweakedPosition, Some(convexEdge))
            == TweakedVertices(face, vertexToTweakedPosition, Some(convexEdge))
  {
    var vs := face.vertices;
    var r := TweakedVertices(face, vertexToTweakedPosition, Some(convexEdge));
    assert r == MakeVerticesOfFaceWithConvexEdge(vs, convexEdge);
    if convexEdge.0 in vs {
      var index := IndexOf(vs, convexEdge.0);
      var rest := RemoveAt(r, 1);
      assert rest == RotateLeft(vs, index);
      forall j | 0 <= j < |r| && j != 1
        ensures r[j].FigureVertex?
      {
        var l := if j == 0 then 0 else j - 1;
        assert r[j] == rest[l];
        if l < |vs| - index {
          assert rest[l] == vs[l + index];
        } else {
          assert rest[l] == vs[l + index - |vs|];
        }
      }
    }
  }

  /** Replacing the second vertex of a hexagon of distinct vertices changes only that one. */
  lemma ReplaceSecondOfHexagon(vs: seq<Vertex>, p: Point)
    requires |vs| == 6 && Distinct(vs)
    ensures ReplaceAll(vs, vs[1], CreatedVertex(p)) == [vs[0], CreatedVertex(p), vs[2], vs[3], vs[4], vs[5]]
  {
    var nv := ReplaceAll(vs, vs[1], CreatedVertex(p));
    assert vs[0] != vs[1] && vs[1] != vs[2] && vs[1] != vs[3] && vs[1] != vs[4] && vs[1] != vs[5];
    assert nv[0] == vs[0] && nv[1] == CreatedVertex(p);
    assert nv[2] == vs[2] && nv[3] == vs[3] && nv[4] == vs[4] && nv[5] == vs[5];
  }

  /** Opening the second corner of a hexagon, as written and as intended. */
  lemma SecondCornerOfHexagon(vs: seq<Vertex>, p: Point)
    requires |vs| == 6 && Distinct(vs)
    ensures MakeVerticesWithOpenCorners(vs, [(vs[1], p)]) == [vs[0], CreatedVertex(p), vs[2], vs[3], vs[4], vs[5]]
    ensures MakeVerticesWithOpenCornersIntended(vs, [(vs[1], p)]) == MakeVerticesWithOpenCorners(vs, [(vs[1], p)])
  {
    var m := [(vs[1], p)];
    assert m[0].0 in vs;
    assert FirstOpenCorner(vs, m) == Some(m[0]);
    IndexOfDistinct(vs, 1);
    OpenCornerAgreesBelowTwo(vs, vs[1], p);
    ReplaceSecondOfHexagon(vs, p);
    assert MakeVerticesWithOneOpenCornerAsWritten(vs, vs[1], p) == ReplaceAll(vs, vs[1], CreatedVertex(p));
  }

  /**
   * A corner and a convex edge in the same face leave two points out of
   * plane, as written and as intended: in a hexagon with its second vertex
   * opened and a point inserted after its fourth, the two new vertices are
   * the second and the sixth of the list.
   */
  lemma CornerAndConvexEdgeLeaveTwoPointsOutOfPlane(face: Face, p: Point, q: Point)
    requires |face.vertices| == 6 && Distinct(face.vertices) && FigureVertices(face.vertices)
    ensures var vs := face.vertices;
            var r := TweakedVertices(face, [(vs[1], p)], Some((vs[3], q)));
            r == [vs[3], CreatedVertex(q), vs[4], vs[5], vs[0], CreatedVertex(p), vs[2]] &&
            !AtMostOneOutOfPlane(r) &&
            TweakedVerticesIntended(face, [(vs[1], p)], Some((vs[3], q))) == r
  {
    var vs := face.vertices;
    SecondCornerOfHexagon(vs, p);
    var withCorner := [vs[0], CreatedVertex(p), vs[2], vs[3], vs[4], vs[5]];
    assert IndexOf(withCorner, vs[3]) == 3 by {
      assert withCorner[3] == vs[3];
      assert vs[3] !in withCorner[..3];
    }
    var r := MakeVerticesOfFaceWithOneConvexEdge(withCorner, 3, q);
    assert r == [vs[3], CreatedVertex(q)] + withCorner[4..] + withCorner[..3];
    assert r[1].CreatedVertex? && r[5].CreatedVertex?;
  }

  /**
   * The front side of that hexagon, as written, is drawn with the corner's
   * new position sixth and the convex edge's point second.
   */
  lemma CornerAndConvexEdgeDrawnOutOfPlane(lib: GeometryLibrary, face: Face, side: SideToRender,
                                           p: Point, q: Point, bundlePlane: Plane)
    requires |face.vertices| == 6 && Distinct(face.vertices) && FigureVertices(face.vertices)
    requires IsTheFrontFace(lib.facingSameWay(face, bundlePlane), side)
    ensures var vs := face.vertices;
            MakePolygon(lib, face, side, [(vs[1], p)], Some((vs[3], q)), bundlePlane).boundary
            == [vs[3].pos, q, vs[4].pos, vs[5].pos, vs[0].pos, p, vs[2].pos]
  {
    var vs := face.vertices;
    CornerAndConvexEdgeLeaveTwoPointsOutOfPlane(face, p, q);
    var r := TweakedVertices(face, [(vs[1], p)], Some((vs[3], q)));
    assert MakePolygon(lib, face, side, [(vs[1], p)], Some((vs[3], q)), bundlePlane).boundary == Positions(r);
    PositionsOfSeven(vs[3], CreatedVertex(q), vs[4], vs[5], vs[0], CreatedVertex(p), vs[2]);
  }

  /** The positions of a seven-point boundary, point by point. */
  lemma PositionsOfSeven(a: Vertex, b: Vertex, c: Vertex, d: Vertex, e: Vertex, f: Vertex, g: Vertex)
    ensures Positions([a, b, c, d, e, f, g]) == [a.pos, b.pos, c.pos, d.pos, e.pos, f.pos, g.pos]
  {
    var ps := Positions([a, b, c, d, e, f, g]);
    assert ps[0] == a.pos && ps[1] == b.pos && ps[2] == c.pos && ps[3] == d.pos;
    assert ps[4] == e.pos && ps[5] == f.pos && ps[6] == g.pos;
  }
}
