/**
 * `ConvexEdgeCalculator`: which edge of each top and bottom face of a
 * bundle the three-dimensional renderer bends outwards.
 *
 * An edge is convexable when it is free and both edges next to it are
 * connecting edges. Only the first convexable edge found is used: its
 * midpoint, pushed outwards along the side's normal by a quarter of the
 * edge's length times the corner opening angle, is inserted after one end
 * of the edge. Triangles are not excluded.
 */
module ConvexEdges {
  import opened Geometry
  import opened Seqs
  import opened Figures
  import opened CyclicEdges
  import FaceTweaker

  // ---- one index of the scan ----------------------------------------------

  /** Edge `index` is free and the edges on either side of it are connecting. */
  predicate ConvexableAt(fig: Figure, edges: seq<Edge>, index: int)
    requires 1 <= index && index + 1 < |edges|
  {
    fig.isAFreeEdge(edges[index]) && fig.isAConnectingEdge(edges[index - 1]) && fig.isAConnectingEdge(edges[index + 1])
  }

  /** `isAConvexableEdge(edges, index)`: the edge at index when it is convexable. */
  function IsAConvexableEdge(fig: Figure, edges: seq<Edge>, index: int): (r: Option<Edge>)
    requires 1 <= index && index + 1 < |edges|
    ensures r.Some? <==> ConvexableAt(fig, edges, index)
    ensures r.Some? ==> r.value == edges[index]
  {
    var edge := edges[index];
    var isAFreeEdge := fig.isAFreeEdge(edge);
    if isAFreeEdge then
      var previousEdge := edges[index - 1];
      var nextEdge := edges[index + 1];
      var areTwoAdjacentConnectedEdges := fig.isAConnectingEdge(previousEdge) && fig.isAConnectingEdge(nextEdge);
      if areTwoAdjacentConnectedEdges then Some(edge) else None
    else None
  }

  /** The convexable edge found at a scanned index of the doubled edge list of a face. */
  function EdgeFoundAt(fig: Figure, vs: seq<Vertex>, index: nat): Option<Edge>
    requires InScan(index, |vs|)
  {
    IsAConvexableEdge(fig, DoubledEdges(vs), index)
  }

  // ---- the scan -------------------------------------------------------------

  /**
   * The edges found at the indices below n of the doubled edge list, each
   * once, in the order they were first found.
   */
  function FoundEdges(fig: Figure, vs: seq<Vertex>, n: nat): seq<Edge>
    requires n <= 2 * |vs|
  {
    if n == 0 then []
    else
      var prev := FoundEdges(fig, vs, n - 1);
      var index := n - 1;
      if InScan(index, |vs|) then
        var edge := EdgeFoundAt(fig, vs, index);
        if edge.Some? && edge.value !in prev then prev + [edge.value] else prev
      else prev
  }

  /**
   * `findConvexableEdges`: scan the doubled edge list, skipping the first
   * index and the last two, and collect the convexable edges.
   */
  method FindConvexableEdges(fig: Figure, vs: seq<Vertex>) returns (result: seq<Edge>)
    ensures result == FoundEdges(fig, vs, 2 * |vs|)
  {
    var edges := EdgeList(vs);
    var edgeListTwice := edges + edges;
    result := [];
    var minIndex := 1;
    var maxIndex := |edgeListTwice| - 3;
    for index := 0 to |edgeListTwice|
      invariant result == FoundEdges(fig, vs, index)
    {
      var validIndex := minIndex <= index <= maxIndex;
      if !validIndex {
        continue;
      }
      var edge := IsAConvexableEdge(fig, edgeListTwice, index);
      if edge.Some? && edge.value !in result {
        result := result + [edge.value];
      }
    }
  }

  /** The scan yields edge e at index. */
  predicate FoundAt(fig: Figure, vs: seq<Vertex>, index: nat, e: Edge)
  {
    InScan(index, |vs|) && EdgeFoundAt(fig, vs, index) == Some(e)
  }

  /** An edge is found below n iff some scanned index below n yields it. */
  lemma FoundEdgesIff(fig: Figure, vs: seq<Vertex>, n: nat, e: Edge)
    requires n <= 2 * |vs|
    ensures e in FoundEdges(fig, vs, n) <==> exists index :: 0 <= index < n && FoundAt(fig, vs, index, e)
  {
    if e in FoundEdges(fig, vs, n) {
      var index := FoundEdgesAreFound(fig, vs, n, e);
    }
    if index :| 0 <= index < n && FoundAt(fig, vs, index, e) {
      FoundAtIsKept(fig, vs, n, index, e);
    }
  }

  /** An edge in the scan's result was yielded at some index below n. */
  lemma {:induction false} FoundEdgesAreFound(fig: Figure, vs: seq<Vertex>, n: nat, e: Edge) returns (index: nat)
    requires n <= 2 * |vs| && e in FoundEdges(fig, vs, n)
    ensures index < n && FoundAt(fig, vs, index, e)
  {
    FoundEdgesStep(fig, vs, n, e);
    if e in FoundEdges(fig, vs, n - 1) {
      index := FoundEdgesAreFound(fig, vs, n - 1, e);
    } else {
      index := n - 1;
    }
  }

  /** An edge yielded at an index below n is in the scan's result. */
  lemma {:induction false} FoundAtIsKept(fig: Figure, vs: seq<Vertex>, n: nat, index: nat, e: Edge)
    requires index < n <= 2 * |vs| && FoundAt(fig, vs, index, e)
    ensures e in FoundEdges(fig, vs, n)
  {
    FoundEdgesStep(fig, vs, n, e);
    if index < n - 1 {
      FoundAtIsKept(fig, vs, n - 1, index, e);
    }
  }

  /** One index of the scan adds at most the edge found there. */
  lemma FoundEdgesStep(fig: Figure, vs: seq<Vertex>, n: nat, e: Edge)
    requires 0 < n <= 2 * |vs|
    ensures e in FoundEdges(fig, vs, n) <==> e in FoundEdges(fig, vs, n - 1) || FoundAt(fig, vs, n - 1, e)
  {
  }

  /** The scan lists each edge it finds once. */
  lemma {:induction false} FoundEdgesAreDistinct(fig: Figure, vs: seq<Vertex>, n: nat)
    requires n <= 2 * |vs|
    ensures Distinct(FoundEdges(fig, vs, n))
  {
    if n > 0 {
      var prev := FoundEdges(fig, vs, n - 1);
      FoundEdgesAreDistinct(fig, vs, n - 1);
      if InScan(n - 1, |vs|) {
        var edge := EdgeFoundAt(fig, vs, n - 1);
        if edge.Some? && edge.value !in prev {
          DistinctAppend(prev, edge.value);
        }
      }
    }
  }

  /** Nothing found at the scanned indices below n: the scan found nothing. */
  lemma {:induction false} NothingFoundBelow(fig: Figure, vs: seq<Vertex>, n: nat)
    requires n <= 2 * |vs|
    requires forall index :: 0 <= index < n && InScan(index, |vs|) ==> EdgeFoundAt(fig, vs, index).None?
    ensures FoundEdges(fig, vs, n) == []
  {
    if n > 0 {
      NothingFoundBelow(fig, vs, n - 1);
    }
  }

  /** The first edge found is the one at the least scanned index that yields one. */
  lemma {:induction false} FirstFound(fig: Figure, vs: seq<Vertex>, n: nat, i: nat)
    requires i < n <= 2 * |vs| && InScan(i, |vs|) && EdgeFoundAt(fig, vs, i).Some?
    requires forall index :: 0 <= index < i && InScan(index, |vs|) ==> EdgeFoundAt(fig, vs, index).None?
    ensures |FoundEdges(fig, vs, n)| > 0 && FoundEdges(fig, vs, n)[0] == EdgeFoundAt(fig, vs, i).value
  {
    if n - 1 == i {
      NothingFoundBelow(fig, vs, i);
    } else {
      FirstFound(fig, vs, n - 1, i);
    }
  }

  // ---- the cyclic reading -------------------------------------------------

  /**
   * Edge k of a face's boundary is convexable: it is free and edges k - 1
   * and k + 1, counting cyclically, are connecting.
   */
  predicate ConvexableEdgeAt(fig: Figure, vs: seq<Vertex>, k: nat)
    requires k < |vs|
  {
    var m := |vs|;
    var es := EdgeList(vs);
    fig.isAFreeEdge(es[k]) && fig.isAConnectingEdge(es[Pred(k, m)]) && fig.isAConnectingEdge(es[Succ(k, m)])
  }

  /** A scanned index reads the cyclic position it wraps to. */
  lemma EdgeFoundAtIsCyclic(fig: Figure, vs: seq<Vertex>, index: nat)
    requires InScan(index, |vs|)
    ensures var k := Wrap(index, |vs|);
            EdgeFoundAt(fig, vs, index) == if ConvexableEdgeAt(fig, vs, k) then Some(EdgeList(vs)[k]) else None
  {
    var m := |vs|;
    var k := Wrap(index, m);
    DoubledEdgeAt(vs, index - 1);
    DoubledEdgeAt(vs, index);
    DoubledEdgeAt(vs, index + 1);
    WrapNext(index - 1, m);
    WrapNext(index, m);
    assert Wrap(index - 1, m) == Pred(k, m);
  }

  /**
   * A face of at least three vertices has no convex edge iff none of its
   * boundary edges is convexable.
   */
  lemma NoEdgeFoundIffNoneConvexable(fig: Figure, vs: seq<Vertex>)
    requires |vs| >= 3
    ensures FoundEdges(fig, vs, 2 * |vs|) == [] <==> forall k :: 0 <= k < |vs| ==> !ConvexableEdgeAt(fig, vs, k)
  {
    var m := |vs|;
    if k :| 0 <= k < m && ConvexableEdgeAt(fig, vs, k) {
      ScanReachesEveryPosition(m, k);
      var index := if k == 0 then m else k;
      EdgeFoundAtIsCyclic(fig, vs, index);
      FoundEdgesIff(fig, vs, 2 * m, EdgeList(vs)[k]);
      assert FoundAt(fig, vs, index, EdgeList(vs)[k]);
    } else {
      forall index | 0 <= index < 2 * m && InScan(index, m) ensures EdgeFoundAt(fig, vs, index).None? {
        EdgeFoundAtIsCyclic(fig, vs, index);
      }
      NothingFoundBelow(fig, vs, 2 * m);
    }
  }

  /**
   * Only the first convexable edge in scan order counts: edges 1 to m - 1
   * are examined first, edge 0 (reached at index m) after them.
   */
  lemma FirstConvexableEdge(fig: Figure, vs: seq<Vertex>, k: nat)
    requires |vs| >= 3 && k < |vs| && ConvexableEdgeAt(fig, vs, k)
    requires k >= 1 ==> forall j :: 1 <= j < k ==> !ConvexableEdgeAt(fig, vs, j)
    requires k == 0 ==> forall j :: 1 <= j < |vs| ==> !ConvexableEdgeAt(fig, vs, j)
    ensures |FoundEdges(fig, vs, 2 * |vs|)| > 0 && FoundEdges(fig, vs, 2 * |vs|)[0] == EdgeList(vs)[k]
  {
    var m := |vs|;
    ScanReachesEveryPosition(m, k);
    var i := if k == 0 then m else k;
    EdgeFoundAtIsCyclic(fig, vs, i);
    forall index | 0 <= index < i && InScan(index, m) ensures EdgeFoundAt(fig, vs, index).None? {
      EdgeFoundAtIsCyclic(fig, vs, index);
    }
    FirstFound(fig, vs, 2 * m, i);
  }

  // ---- the point inserted -------------------------------------------------

  /**
   * The convex point of an edge from `first` to `second`: the midpoint,
   * pushed along the side's normal by a quarter of the edge's length times
   * the corner opening angle.
   */
  function ConvexPoint(lib: GeometryLibrary, b: Bundle, side: Side, first: Vertex, second: Vertex): (p: Point)
    ensures Displacement(MidPoint(first.pos, second.pos), p)
            == WithLength(lib, Normal(b, side), lib.distance(first.pos, second.pos) * lib.cornerOpenUpAngle / 4.0)
  {
    var midPoint := MidPoint(first.pos, second.pos);
    var openingDistance := lib.distance(first.pos, second.pos) * lib.cornerOpenUpAngle / 4.0;
    var normal := if side == TopSide then b.upwards else b.downwards;
    var vector := WithLength(lib, normal, openingDistance);
    Translate(midPoint, vector)
  }

  /**
   * `calculateConvexEdge` as written: the vertex returned is the end of the
   * edge that comes first in the face's vertex list (`minBy` keeps the first
   * end on a tie), paired with the convex point of the edge.
   */
  function CalculateConvexEdgeAsWritten(lib: GeometryLibrary, b: Bundle, side: Side, vs: seq<Vertex>, edge: Edge)
    : (r: (Vertex, Point))
    ensures r.0 in edge.Vertices()
    ensures IndexOf(vs, edge.a) < IndexOf(vs, edge.b) ==> r.0 == edge.a
    ensures IndexOf(vs, edge.b) < IndexOf(vs, edge.a) ==> r.0 == edge.b
  {
    var edgeVertices := edge.Vertices();
    var firstVertex := if IndexOf(vs, edgeVertices[0]) <= IndexOf(vs, edgeVertices[1]) then edgeVertices[0]
                       else edgeVertices[1];
    var secondVertex := if edgeVertices[0] == firstVertex then edgeVertices[1] else edgeVertices[0];
    (firstVertex, ConvexPoint(lib, b, side, firstVertex, secondVertex))
  }

  /**
   * The vertex the convex point is meant to follow: the end of the edge
   * that the other end follows on the boundary, so that inserting the point
   * after it puts the point between the edge's ends.
   */
  function CalculateConvexEdge(lib: GeometryLibrary, b: Bundle, side: Side, vs: seq<Vertex>, edge: Edge)
    : (r: (Vertex, Point))
    ensures r.0 in edge.Vertices()
  {
    var i := IndexOf(vs, edge.a);
    var aComesFirst := 0 <= i && edge.b == vs[Succ(i, |vs|)];
    var firstVertex := if aComesFirst then edge.a else edge.b;
    var secondVertex := if aComesFirst then edge.b else edge.a;
    (firstVertex, ConvexPoint(lib, b, side, firstVertex, secondVertex))
  }

  /**
   * For every edge of a face without repeated vertices, the vertex returned
   * is the edge's start, so the face tweaker inserts the convex point right
   * between the edge's two ends.
   */
  lemma ConvexPointGoesBetweenTheEdgeEnds(lib: GeometryLibrary, b: Bundle, side: Side, vs: seq<Vertex>, k: nat)
    requires Distinct(vs) && |vs| >= 2 && k < |vs|
    ensures var edge := EdgeList(vs)[k];
            var convexEdge := CalculateConvexEdge(lib, b, side, vs, edge);
            var r := FaceTweaker.MakeVerticesOfFaceWithConvexEdge(vs, convexEdge);
            convexEdge.0 == vs[k] && convexEdge.1 == ConvexPoint(lib, b, side, vs[k], vs[Succ(k, |vs|)]) &&
            |r| == |vs| + 1 && r[0] == vs[k] && r[1] == CreatedVertex(convexEdge.1) && r[2] == vs[Succ(k, |vs|)]
  {
    EdgeAt(vs, k);
    IndexOfDistinct(vs, k);
    IndexOfDistinct(vs, Succ(k, |vs|));
    FaceTweaker.ConvexPointBetweenItsNeighbours(vs, k, CalculateConvexEdge(lib, b, side, vs, EdgeList(vs)[k]).1);
  }

  /** Both readings agree on every edge but the closing one. */
  lemma AsWrittenAgreesBeforeTheClosingEdge(lib: GeometryLibrary, b: Bundle, side: Side, vs: seq<Vertex>, k: nat)
    requires Distinct(vs) && |vs| >= 2 && k + 1 < |vs|
    ensures CalculateConvexEdgeAsWritten(lib, b, side, vs, EdgeList(vs)[k])
            == CalculateConvexEdge(lib, b, side, vs, EdgeList(vs)[k])
  {
    EdgeAt(vs, k);
    IndexOfDistinct(vs, k);
    IndexOfDistinct(vs, k + 1);
  }

  /**
   * On the closing edge, from the last vertex back to the first, the code
   * as written returns the first vertex: the face tweaker then inserts the
   * midpoint of that edge between the first and the second vertex, on
   * another edge of the face.
   */
  lemma AsWrittenMisplacesTheClosingEdge(lib: GeometryLibrary, b: Bundle, side: Side, vs: seq<Vertex>)
    requires Distinct(vs) && |vs| >= 3
    ensures var edge := EdgeList(vs)[|vs| - 1];
            var convexEdge := CalculateConvexEdgeAsWritten(lib, b, side, vs, edge);
            var r := FaceTweaker.MakeVerticesOfFaceWithConvexEdge(vs, convexEdge);
            edge == Edge(vs[|vs| - 1], vs[0]) &&
            convexEdge.0 == vs[0] && r[0] == vs[0] && r[2] == vs[1] && r[2] !in edge.Vertices()
  {
    var m := |vs|;
    EdgeAt(vs, m - 1);
    IndexOfDistinct(vs, 0);
    IndexOfDistinct(vs, m - 1);
    var convexEdge := CalculateConvexEdgeAsWritten(lib, b, side, vs, EdgeList(vs)[m - 1]);
    FaceTweaker.ConvexPointBetweenItsNeighbours(vs, 0, convexEdge.1);
    assert vs[1] != vs[0] && vs[1] != vs[m - 1];
  }

  // ---- per face, per side, per bundle --------------------------------------

  /**
   * `calculateConvexEdges(face, side)`: the first convexable edge found, if
   * any, with the vertex the convex point follows, chosen as written, and
   * the convex point.
   */
  function FaceConvexEdge(lib: GeometryLibrary, fig: Figure, b: Bundle, face: Face, side: Side)
    : (r: Option<(Vertex, Point)>)
    ensures r.None? <==> FoundEdges(fig, face.vertices, 2 * |face.vertices|) == []
    ensures r.Some? ==>
              r.value == CalculateConvexEdgeAsWritten(lib, b, side, face.vertices,
                                                      FoundEdges(fig, face.vertices, 2 * |face.vertices|)[0])
  {
    var edges := FoundEdges(fig, face.vertices, 2 * |face.vertices|);
    if |edges| == 0 then None else Some(CalculateConvexEdgeAsWritten(lib, b, side, face.vertices, edges[0]))
  }

  /**
   * For a face without repeated vertices whose first convexable edge in
   * scan order is edge k, the face's convex point is that edge's, and the
   * vertex it follows is the edge's start, except for the closing edge,
   * where the code as written returns the first vertex of the face.
   */
  lemma FaceConvexEdgeOfFirstConvexableEdge(lib: GeometryLibrary, fig: Figure, b: Bundle, face: Face, side: Side,
                                            k: nat)
    requires Distinct(face.vertices) && |face.vertices| >= 3 && k < |face.vertices|
    requires ConvexableEdgeAt(fig, face.vertices, k)
    requires k >= 1 ==> forall j :: 1 <= j < k ==> !ConvexableEdgeAt(fig, face.vertices, j)
    requires k == 0 ==> forall j :: 1 <= j < |face.vertices| ==> !ConvexableEdgeAt(fig, face.vertices, j)
    ensures var vs := face.vertices;
            var r := FaceConvexEdge(lib, fig, b, face, side);
            r == Some(if k + 1 < |vs| then (vs[k], ConvexPoint(lib, b, side, vs[k], vs[k + 1]))
                      else (vs[0], ConvexPoint(lib, b, side, vs[0], vs[k])))
  {
    var vs := face.vertices;
    FirstConvexableEdge(fig, vs, k);
    EdgeAt(vs, k);
    IndexOfDistinct(vs, k);
    IndexOfDistinct(vs, Succ(k, |vs|));
  }

  method CalculateConvexEdgeOfFace(lib: GeometryLibrary, fig: Figure, b: Bundle, face: Face, side: Side)
    returns (r: Option<(Vertex, Point)>)
    ensures r == FaceConvexEdge(lib, fig, b, face, side)
  {
    var convexableEdges := FindConvexableEdges(fig, face.vertices);
    if |convexableEdges| == 0 {
      return None;
    }
    var convexableEdge := convexableEdges[0];
    r := Some(CalculateConvexEdgeAsWritten(lib, b, side, face.vertices, convexableEdge));
  }

  /**
   * `calculateConvexEdges(faces, side)`: every face of the list with a
   * convex edge, mapped to it.
   */
  function SideConvexEdges(lib: GeometryLibrary, fig: Figure, b: Bundle, faces: seq<Face>, side: Side)
    : (r: map<Face, (Vertex, Point)>)
    ensures forall face :: face in r <==> face in faces && FaceConvexEdge(lib, fig, b, face, side).Some?
    ensures forall face :: face in r ==> Some(r[face]) == FaceConvexEdge(lib, fig, b, face, side)
  {
    if |faces| == 0 then map[]
    else
      var n := |faces| - 1;
      var prev := SideConvexEdges(lib, fig, b, faces[..n], side);
      var pair := FaceConvexEdge(lib, fig, b, faces[n], side);
      assert forall face :: face in faces <==> face in faces[..n] || face == faces[n] by {
        assert faces == faces[..n] + [faces[n]];
      }
      if pair.Some? then prev[faces[n] := pair.value] else prev
  }

  method CalculateConvexEdgesOfSide(lib: GeometryLibrary, fig: Figure, b: Bundle, faces: seq<Face>, side: Side)
    returns (result: map<Face, (Vertex, Point)>)
    ensures result == SideConvexEdges(lib, fig, b, faces, side)
  {
    result := map[];
    for i := 0 to |faces|
      invariant result == SideConvexEdges(lib, fig, b, faces[..i], side)
    {
      var face := faces[i];
      var pair := CalculateConvexEdgeOfFace(lib, fig, b, face, side);
      assert faces[..i + 1][..i] == faces[..i];
      if pair.Some? {
        result := result[face := pair.value];
      }
    }
    assert faces[..|faces|] == faces;
  }

  /** `calculateConvexEdges()`: the top faces' convex edges, then the bottom faces'. */
  function ConvexEdges(lib: GeometryLibrary, fig: Figure, b: Bundle): map<Face, (Vertex, Point)>
  {
    SideConvexEdges(lib, fig, b, b.topFaces, TopSide) + SideConvexEdges(lib, fig, b, b.bottomFaces, BottomSide)
  }

  method CalculateConvexEdges(lib: GeometryLibrary, fig: Figure, b: Bundle) returns (r: map<Face, (Vertex, Point)>)
    ensures r == ConvexEdges(lib, fig, b)
  {
    var topFaces := b.topFaces;
    var convexEdgePointsOfTopFaces := CalculateConvexEdgesOfSide(lib, fig, b, topFaces, TopSide);
    var bottomFaces := b.bottomFaces;
    var convexEdgePointsOfBottomFaces := CalculateConvexEdgesOfSide(lib, fig, b, bottomFaces, BottomSide);
    r := convexEdgePointsOfTopFaces + convexEdgePointsOfBottomFaces;
  }

  /**
   * Only top and bottom faces get a convex edge; a face that is both is
   * bent towards the bottom, the bottom side's map being merged last.
   */
  lemma ConvexEdgesOfTopAndBottom(lib: GeometryLibrary, fig: Figure, b: Bundle, face: Face)
    ensures var r := ConvexEdges(lib, fig, b);
            var top := FaceConvexEdge(lib, fig, b, face, TopSide);
            var bottom := FaceConvexEdge(lib, fig, b, face, BottomSide);
            (face in r <==> (face in b.topFaces && top.Some?) || (face in b.bottomFaces && bottom.Some?)) &&
            (face in b.bottomFaces && bottom.Some? ==> Some(r[face]) == bottom) &&
            (face !in b.bottomFaces && face in b.topFaces && top.Some? ==> Some(r[face]) == top)
  {
  }
}
