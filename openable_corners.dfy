/**
 * `OpenableCornerPositionCalculator`: which corners of the top and bottom
 * faces of a bundle are pulled outwards by the three-dimensional renderer,
 * and where to.
 *
 * A corner is openable when the two boundary edges meeting at it are free
 * (attached to no other face) and the edges on either side of that pair are
 * connecting edges. Each such corner moves along the outward normal of its
 * side by the distance to the opposite vertex times the corner opening
 * angle. Triangles are never opened.
 */
module OpenableCorners {
  import opened Geometry
  import opened Seqs
  import opened OrderedMaps
  import opened Figures
  import opened CyclicEdges

  // ---- one index of the scan ----------------------------------------------

  /** Edges `index` and `index + 1` are free, and the edges around them are connecting. */
  predicate OpenableAt(fig: Figure, edges: seq<Edge>, index: int)
    requires 1 <= index && index + 2 < |edges|
  {
    fig.isAFreeEdge(edges[index]) && fig.isAFreeEdge(edges[index + 1]) &&
    fig.isAConnectingEdge(edges[index - 1]) && fig.isAConnectingEdge(edges[index + 2])
  }

  /**
   * `isAnOpenableCorner(edges, index)`: the vertex shared by edges `index`
   * and `index + 1` when the pair is an openable corner, no vertex otherwise.
   * The source fails when two such edges share no vertex.
   */
  function IsAnOpenableCorner(fig: Figure, edges: seq<Edge>, index: int): (r: Option<Vertex>)
    requires 1 <= index && index + 2 < |edges|
    requires OpenableAt(fig, edges, index) ==>
               edges[index].a in edges[index + 1].Vertices() || edges[index].b in edges[index + 1].Vertices()
    ensures r.Some? <==> OpenableAt(fig, edges, index)
    ensures r.Some? ==> r.value in edges[index].Vertices() && r.value in edges[index + 1].Vertices()
  {
    var edge := edges[index];
    var nextEdge := edges[index + 1];
    var areTwoAdjacentFreeEdges := fig.isAFreeEdge(edge) && fig.isAFreeEdge(nextEdge);
    if areTwoAdjacentFreeEdges then
      var previous := edges[index - 1];
      var nextOfNext := edges[index + 2];
      var areSurroundedByConnectedEdges := fig.isAConnectingEdge(previous) && fig.isAConnectingEdge(nextOfNext);
      if areSurroundedByConnectedEdges then Some(CommonVertex(edge, nextEdge)) else None
    else None
  }

  /** The corner found at a scanned index of the doubled edge list of a face. */
  function CornerAt(fig: Figure, vs: seq<Vertex>, index: nat): (r: Option<Vertex>)
    requires InScan(index, |vs|)
    ensures r.Some? ==> r.value in vs
  {
    DoubledEdgesChain(vs, index);
    DoubledEdgeEnds(vs, index);
    IsAnOpenableCorner(fig, DoubledEdges(vs), index)
  }

  // ---- the scan -------------------------------------------------------------

  /**
   * The corners found at the indices below n of the doubled edge list, each
   * once, in the order they were first found (a `mutableSetOf` keeps
   * insertion order).
   */
  function Found(fig: Figure, vs: seq<Vertex>, n: nat): seq<Vertex>
    requires n <= 2 * |vs|
  {
    if n == 0 then []
    else
      var prev := Found(fig, vs, n - 1);
      var index := n - 1;
      if InScan(index, |vs|) then
        var corner := CornerAt(fig, vs, index);
        if corner.Some? && corner.value !in prev then prev + [corner.value] else prev
      else prev
  }

  /**
   * `findOpenableCorners`: scan the doubled edge list, skipping the first
   * index and the last two, and collect the corners found.
   */
  method FindOpenableCorners(fig: Figure, vs: seq<Vertex>) returns (corners: seq<Vertex>)
    ensures corners == Found(fig, vs, 2 * |vs|)
  {
    var edges := EdgeList(vs);
    var edgeListTwice := edges + edges;
    corners := [];
    var minIndex := 1;
    var maxIndex := |edgeListTwice| - 3;
    for index := 0 to |edgeListTwice|
      invariant corners == Found(fig, vs, index)
    {
      var validIndex := minIndex <= index <= maxIndex;
      if !validIndex {
        continue;
      }
      DoubledEdgesChain(vs, index);
      var corner := IsAnOpenableCorner(fig, edgeListTwice, index);
      if corner.Some? && corner.value !in corners {
        corners := corners + [corner.value];
      }
    }
  }

  /** The scan yields corner v at index. */
  predicate FoundAt(fig: Figure, vs: seq<Vertex>, index: nat, v: Vertex)
  {
    InScan(index, |vs|) && CornerAt(fig, vs, index) == Some(v)
  }

  /** A vertex is found below n iff some scanned index below n yields it. */
  lemma FoundIff(fig: Figure, vs: seq<Vertex>, n: nat, v: Vertex)
    requires n <= 2 * |vs|
    ensures v in Found(fig, vs, n) <==> exists index :: 0 <= index < n && FoundAt(fig, vs, index, v)
  {
    if v in Found(fig, vs, n) {
      var index := FoundAreFound(fig, vs, n, v);
    }
    if index :| 0 <= index < n && FoundAt(fig, vs, index, v) {
      FoundAtIsKept(fig, vs, n, index, v);
    }
  }

  /** A vertex in the scan's result was yielded at some index below n. */
  lemma {:induction false} FoundAreFound(fig: Figure, vs: seq<Vertex>, n: nat, v: Vertex) returns (index: nat)
    requires n <= 2 * |vs| && v in Found(fig, vs, n)
    ensures index < n && FoundAt(fig, vs, index, v)
  {
    FoundStep(fig, vs, n, v);
    if v in Found(fig, vs, n - 1) {
      index := FoundAreFound(fig, vs, n - 1, v);
    } else {
      index := n - 1;
    }
  }

  /** A vertex yielded at an index below n is in the scan's result. */
  lemma {:induction false} FoundAtIsKept(fig: Figure, vs: seq<Vertex>, n: nat, index: nat, v: Vertex)
    requires index < n <= 2 * |vs| && FoundAt(fig, vs, index, v)
    ensures v in Found(fig, vs, n)
  {
    FoundStep(fig, vs, n, v);
    if index < n - 1 {
      FoundAtIsKept(fig, vs, n - 1, index, v);
    }
  }

  /** One index of the scan adds at most the corner found there. */
  lemma FoundStep(fig: Figure, vs: seq<Vertex>, n: nat, v: Vertex)
    requires 0 < n <= 2 * |vs|
    ensures v in Found(fig, vs, n) <==> v in Found(fig, vs, n - 1) || FoundAt(fig, vs, n - 1, v)
  {
  }

  /** The corners found are vertices of the face, each listed once. */
  lemma {:induction false} FoundAreDistinctVertices(fig: Figure, vs: seq<Vertex>, n: nat)
    requires n <= 2 * |vs|
    ensures Distinct(Found(fig, vs, n)) && forall v :: v in Found(fig, vs, n) ==> v in vs
  {
    if n > 0 {
      var prev := Found(fig, vs, n - 1);
      FoundAreDistinctVertices(fig, vs, n - 1);
      if InScan(n - 1, |vs|) {
        var corner := CornerAt(fig, vs, n - 1);
        if corner.Some? && corner.value !in prev {
          DistinctAppend(prev, corner.value);
        }
      }
    }
  }

  // ---- the cyclic reading -------------------------------------------------

  /**
   * Position k of a face's boundary is an openable corner: edges k and k + 1
   * are free and edges k - 1 and k + 2 are connecting, counting cyclically.
   */
  predicate OpenableCornerAt(fig: Figure, vs: seq<Vertex>, k: nat)
    requires k < |vs|
  {
    var m := |vs|;
    var es := EdgeList(vs);
    fig.isAFreeEdge(es[k]) && fig.isAFreeEdge(es[Succ(k, m)]) &&
    fig.isAConnectingEdge(es[Pred(k, m)]) && fig.isAConnectingEdge(es[Succ(Succ(k, m), m)])
  }

  /** The vertex between edges k and k + 1. */
  function CornerVertex(vs: seq<Vertex>, k: nat): (v: Vertex)
    requires k < |vs|
    ensures v in vs
  {
    var es := EdgeList(vs);
    EdgeAt(vs, k);
    EdgeAt(vs, Succ(k, |vs|));
    CommonVertex(es[k], es[Succ(k, |vs|)])
  }

  /** A scanned index reads the cyclic position it wraps to. */
  lemma CornerAtIsCyclic(fig: Figure, vs: seq<Vertex>, index: nat)
    requires InScan(index, |vs|)
    ensures var k := Wrap(index, |vs|);
            CornerAt(fig, vs, index) == if OpenableCornerAt(fig, vs, k) then Some(CornerVertex(vs, k)) else None
  {
    var m := |vs|;
    var k := Wrap(index, m);
    DoubledEdgeAt(vs, index - 1);
    DoubledEdgeAt(vs, index);
    DoubledEdgeAt(vs, index + 1);
    DoubledEdgeAt(vs, index + 2);
    WrapNext(index - 1, m);
    WrapNext(index, m);
    WrapNext(index + 1, m);
    assert Wrap(index - 1, m) == Pred(k, m);
  }

  /**
   * The corners found in a face of at least three vertices are exactly the
   * vertices between two cyclically consecutive free edges whose outer
   * neighbours are connecting edges.
   */
  lemma FoundAreOpenableCorners(fig: Figure, vs: seq<Vertex>, v: Vertex)
    requires |vs| >= 3
    ensures v in Found(fig, vs, 2 * |vs|) <==>
            exists k :: 0 <= k < |vs| && OpenableCornerAt(fig, vs, k) && v == CornerVertex(vs, k)
  {
    var m := |vs|;
    FoundIff(fig, vs, 2 * m, v);
    if v in Found(fig, vs, 2 * m) {
      var index :| 0 <= index < 2 * m && FoundAt(fig, vs, index, v);
      CornerAtIsCyclic(fig, vs, index);
      var k := Wrap(index, m);
      assert OpenableCornerAt(fig, vs, k) && v == CornerVertex(vs, k);
    }
    if exists k :: 0 <= k < m && OpenableCornerAt(fig, vs, k) && v == CornerVertex(vs, k) {
      var k :| 0 <= k < m && OpenableCornerAt(fig, vs, k) && v == CornerVertex(vs, k);
      ScanReachesEveryPosition(m, k);
      var index := if k == 0 then m else k;
      CornerAtIsCyclic(fig, vs, index);
      assert FoundAt(fig, vs, index, v);
    }
  }

  /** On a face without repeated vertices the corner between edges k and k + 1 is vertex k + 1. */
  lemma CornerVertexIsNext(vs: seq<Vertex>, k: nat)
    requires Distinct(vs) && |vs| >= 3 && k < |vs|
    ensures CornerVertex(vs, k) == vs[Succ(k, |vs|)]
  {
    CommonVertexOfConsecutiveEdges(vs, k);
  }

  // ---- positions of the open corners --------------------------------------

  /**
   * The index of the vertex opposite index i on a boundary of n vertices,
   * half the boundary further on.
   */
  function OppositeIndex(i: nat, n: nat): (r: nat)
    requires i < n
    ensures r < n
    ensures n >= 2 ==> r != i
  {
    var half := n / 2;
    if i + half < n then i + half else i + half - n
  }

  /** `OppositeIndex` is the source's `(index + vertexCount / 2) % vertexCount`. */
  lemma OppositeIndexIsModular(i: nat, n: nat)
    requires i < n
    ensures OppositeIndex(i, n) == (i + n / 2) % n
  {
    var half := n / 2;
    assert half <= n;
    if i + half >= n {
      assert 0 <= i + half - n < n;
      assert i + half == 1 * n + (i + half - n);
    }
  }

  /**
   * `calculateOpeningDistance`: the distance from the corner to the
   * opposite vertex of the face times the corner opening angle (for small
   * angles the sine is close to the angle).
   */
  function CalculateOpeningDistance(lib: GeometryLibrary, vs: seq<Vertex>, vertex: Vertex): (d: real)
    requires vertex in vs
    ensures d == lib.distance(vertex.pos, vs[OppositeIndex(IndexOf(vs, vertex), |vs|)].pos) * lib.cornerOpenUpAngle
    ensures Distinct(vs) && |vs| >= 2 ==>
              exists j :: 0 <= j < |vs| && vs[j] != vertex && d == lib.distance(vertex.pos, vs[j].pos) * lib.cornerOpenUpAngle
  {
    var index := IndexOf(vs, vertex);
    var vertexCount := |vs|;
    var indexOfOppositeVertex := OppositeIndex(index, vertexCount);
    lib.distance(vs[index].pos, vs[indexOfOppositeVertex].pos) * lib.cornerOpenUpAngle
  }

  /** A corner of a face moved outwards along the side's normal by its opening distance. */
  function OpenedCorner(lib: GeometryLibrary, vs: seq<Vertex>, normal: Vector, corner: Vertex): (p: Point)
    requires corner in vs
    ensures Displacement(corner.pos, p) == WithLength(lib, normal, CalculateOpeningDistance(lib, vs, corner))
  {
    Translate(corner.pos, WithLength(lib, normal, CalculateOpeningDistance(lib, vs, corner)))
  }

  /** Each corner, in order, with its opened position. */
  function CornerEntries(lib: GeometryLibrary, vs: seq<Vertex>, normal: Vector, corners: seq<Vertex>)
    : (r: Entries<Vertex, Point>)
    requires forall c :: c in corners ==> c in vs
    ensures Keys(r) == corners
    ensures forall i :: 0 <= i < |r| ==> r[i].1 == OpenedCorner(lib, vs, normal, corners[i])
  {
    var r := seq(|corners|, i requires 0 <= i < |corners| => (corners[i], OpenedCorner(lib, vs, normal, corners[i])));
    assert Keys(r) == corners;
    r
  }

  // ---- per face, per side, per bundle --------------------------------------

  /**
   * `calculateOpenCorners(face, side)`: nothing for a triangle; otherwise
   * every openable corner of the face, in the order found, moved outwards
   * along the normal of the side.
   */
  function FaceOpenCorners(lib: GeometryLibrary, fig: Figure, b: Bundle, face: Face, side: Side)
    : (r: Entries<Vertex, Point>)
    ensures Valid(r)
    ensures face.IsTriangle() ==> r == []
    ensures !face.IsTriangle() ==> Keys(r) == Found(fig, face.vertices, 2 * |face.vertices|)
    ensures forall i :: 0 <= i < |r| ==> r[i].0 in face.vertices
    ensures forall i :: 0 <= i < |r| ==> r[i].1 == OpenedCorner(lib, face.vertices, Normal(b, side), r[i].0)
  {
    if face.IsTriangle() then []
    else
      FoundAreDistinctVertices(fig, face.vertices, 2 * |face.vertices|);
      CornerEntries(lib, face.vertices, Normal(b, side), Found(fig, face.vertices, 2 * |face.vertices|))
  }

  method CalculateOpenCornersOfFace(lib: GeometryLibrary, fig: Figure, b: Bundle, face: Face, side: Side)
    returns (r: Entries<Vertex, Point>)
    ensures r == FaceOpenCorners(lib, fig, b, face, side)
  {
    if face.IsTriangle() {
      return [];
    }
    var openableCorners := FindOpenableCorners(fig, face.vertices);
    FoundAreDistinctVertices(fig, face.vertices, 2 * |face.vertices|);
    var normal := if side == TopSide then b.upwards else b.downwards;
    r := CornerEntries(lib, face.vertices, normal, openableCorners);
  }

  /** The open corners of a triangle: none. */
  lemma TriangleHasNoOpenCorners(lib: GeometryLibrary, fig: Figure, b: Bundle, face: Face, side: Side, v: Vertex)
    requires face.IsTriangle()
    ensures Get(FaceOpenCorners(lib, fig, b, face, side), v) == None
  {
  }

  /**
   * The corners a face of four or more vertices lists are exactly its
   * openable corners.
   */
  lemma FaceOpenCornersAreOpenable(lib: GeometryLibrary, fig: Figure, b: Bundle, face: Face, side: Side, v: Vertex)
    requires |face.vertices| >= 4
    ensures v in Keys(FaceOpenCorners(lib, fig, b, face, side)) <==>
            exists k :: 0 <= k < |face.vertices| && OpenableCornerAt(fig, face.vertices, k) &&
                        v == CornerVertex(face.vertices, k)
  {
    FoundAreOpenableCorners(fig, face.vertices, v);
  }

  /** The faces' maps merged in order with `putAll`. */
  function SideOpenCorners(lib: GeometryLibrary, fig: Figure, b: Bundle, faces: seq<Face>, side: Side)
    : (r: Entries<Vertex, Point>)
    ensures Valid(r)
  {
    PutAllEach(faces, face => FaceOpenCorners(lib, fig, b, face, side))
  }

  /** `calculateOpenCorners(faces, side)`. */
  method CalculateOpenCornersOfSide(lib: GeometryLibrary, fig: Figure, b: Bundle, faces: seq<Face>, side: Side)
    returns (result: Entries<Vertex, Point>)
    ensures result == SideOpenCorners(lib, fig, b, faces, side)
  {
    result := [];
    for i := 0 to |faces|
      invariant result == SideOpenCorners(lib, fig, b, faces[..i], side)
    {
      var faceCorners := CalculateOpenCornersOfFace(lib, fig, b, faces[i], side);
      assert faces[..i + 1][..i] == faces[..i];
      result := PutAll(result, faceCorners);
    }
    assert faces[..|faces|] == faces;
  }

  /**
   * A side's map lists exactly the corners some face of the side lists, each
   * at the position computed for the last face that lists it.
   */
  lemma SideOpenCornersFromFaces(lib: GeometryLibrary, fig: Figure, b: Bundle, faces: seq<Face>, side: Side,
                                 v: Vertex)
    ensures v in Keys(SideOpenCorners(lib, fig, b, faces, side)) <==>
            exists j :: 0 <= j < |faces| && v in Keys(FaceOpenCorners(lib, fig, b, faces[j], side))
    ensures forall j :: 0 <= j < |faces| && v in Keys(FaceOpenCorners(lib, fig, b, faces[j], side)) &&
                        (forall l :: j < l < |faces| ==> v !in Keys(FaceOpenCorners(lib, fig, b, faces[l], side))) ==>
              Get(SideOpenCorners(lib, fig, b, faces, side), v) == Get(FaceOpenCorners(lib, fig, b, faces[j], side), v)
  {
    var f := face => FaceOpenCorners(lib, fig, b, face, side);
    PutAllEachKeys(faces, f, v);
    forall j | 0 <= j < |faces| && v in Keys(f(faces[j])) && (forall l :: j < l < |faces| ==> v !in Keys(f(faces[l])))
      ensures Get(PutAllEach(faces, f), v) == Get(f(faces[j]), v)
    {
      LaterItemWins(faces, f, j, v);
    }
  }

  /** `calculateOpenCorners()`: the top faces' corners, then the bottom faces'. */
  function OpenCorners(lib: GeometryLibrary, fig: Figure, b: Bundle): (r: Entries<Vertex, Point>)
    ensures Valid(r)
  {
    PutAll(SideOpenCorners(lib, fig, b, b.topFaces, TopSide), SideOpenCorners(lib, fig, b, b.bottomFaces, BottomSide))
  }

  method CalculateOpenCorners(lib: GeometryLibrary, fig: Figure, b: Bundle) returns (r: Entries<Vertex, Point>)
    ensures r == OpenCorners(lib, fig, b)
  {
    var topFaces := b.topFaces;
    var topOpenCorners := CalculateOpenCornersOfSide(lib, fig, b, topFaces, TopSide);
    var bottomFaces := b.bottomFaces;
    var bottomOpenCorners := CalculateOpenCornersOfSide(lib, fig, b, bottomFaces, BottomSide);
    r := PutAll(topOpenCorners, bottomOpenCorners);
  }

  /**
   * A corner of both a top and a bottom face is opened towards the bottom:
   * the bottom side's map is merged last.
   */
  lemma BottomSideWins(lib: GeometryLibrary, fig: Figure, b: Bundle, v: Vertex)
    ensures var top := SideOpenCorners(lib, fig, b, b.topFaces, TopSide);
            var bottom := SideOpenCorners(lib, fig, b, b.bottomFaces, BottomSide);
            Get(OpenCorners(lib, fig, b), v) == if v in Keys(bottom) then Get(bottom, v) else Get(top, v)
  {
    PutAllGet(SideOpenCorners(lib, fig, b, b.topFaces, TopSide),
              SideOpenCorners(lib, fig, b, b.bottomFaces, BottomSide), v);
  }

  // ---- an example: two quadrilaterals ------------------------------------

  /** The vertices of the example: a unit square, and a point near its top right corner. */
  const BottomLeft := FigureVertex(0, Point(0.0, 0.0, 0.0))
  const BottomRight := FigureVertex(1, Point(1.0, 0.0, 0.0))
  const TopRight := FigureVertex(2, Point(1.0, 1.0, 0.0))
  const NearTopRight := FigureVertex(3, Point(0.9, 0.9, 0.0))
  const TopLeft := FigureVertex(4, Point(0.0, 1.0, 0.0))

  /** The square, and a quadrilateral sharing its bottom and left edges. */
  const Square := Face(1, [BottomLeft, BottomRight, TopRight, TopLeft], Color(0), Color(0), {})
  const Kite := Face(2, [NearTopRight, BottomRight, BottomLeft, TopLeft], Color(0), Color(0), {})

  /** The two shared edges connect the faces; every other edge is free. */
  predicate SharedEdge(e: Edge)
  {
    {e.a, e.b} == {BottomLeft, BottomRight} || {e.a, e.b} == {BottomLeft, TopLeft}
  }

  const TwoFaceFigure := Figure([], e => !SharedEdge(e), e => SharedEdge(e))

  /** The square opens at its top right corner only. */
  lemma SquareOpensTopRight()
    ensures Found(TwoFaceFigure, Square.vertices, 8) == [TopRight]
  {
    var fig := TwoFaceFigure;
    var sq := Square.vertices;
    assert EdgeList(sq) == [Edge(BottomLeft, BottomRight), Edge(BottomRight, TopRight),
                            Edge(TopRight, TopLeft), Edge(TopLeft, BottomLeft)];
    assert !SharedEdge(Edge(BottomRight, TopRight)) && !SharedEdge(Edge(TopRight, TopLeft));
    assert SharedEdge(Edge(BottomLeft, BottomRight)) && SharedEdge(Edge(TopLeft, BottomLeft));
    forall v | v in Found(fig, sq, 8) ensures v == TopRight {
      FoundAreOpenableCorners(fig, sq, v);
    }
    assert OpenableCornerAt(fig, sq, 1) && CornerVertex(sq, 1) == TopRight;
    FoundAreOpenableCorners(fig, sq, TopRight);
    FoundAreDistinctVertices(fig, sq, 8);
    DistinctSingleton(Found(fig, sq, 8), TopRight);
  }

  /** The kite opens at its tip only. */
  lemma KiteOpensItsTip()
    ensures Found(TwoFaceFigure, Kite.vertices, 8) == [NearTopRight]
  {
    var fig := TwoFaceFigure;
    var kite := Kite.vertices;
    assert EdgeList(kite) == [Edge(NearTopRight, BottomRight), Edge(BottomRight, BottomLeft),
                              Edge(BottomLeft, TopLeft), Edge(TopLeft, NearTopRight)];
    assert !SharedEdge(Edge(NearTopRight, BottomRight)) && !SharedEdge(Edge(TopLeft, NearTopRight));
    assert SharedEdge(Edge(BottomRight, BottomLeft)) && SharedEdge(Edge(BottomLeft, TopLeft));
    forall v | v in Found(fig, kite, 8) ensures v == NearTopRight {
      FoundAreOpenableCorners(fig, kite, v);
    }
    assert OpenableCornerAt(fig, kite, 3) && CornerVertex(kite, 3) == NearTopRight;
    FoundAreOpenableCorners(fig, kite, NearTopRight);
    FoundAreDistinctVertices(fig, kite, 8);
    DistinctSingleton(Found(fig, kite, 8), NearTopRight);
  }

  /** The map of a side with a single face is that face's map. */
  lemma SideOfOneFace(lib: GeometryLibrary, fig: Figure, b: Bundle, face: Face, side: Side)
    ensures SideOpenCorners(lib, fig, b, [face], side) == FaceOpenCorners(lib, fig, b, face, side)
  {
    var faces := [face];
    var f := g => FaceOpenCorners(lib, fig, b, g, side);
    assert faces[..0] == [];
    assert PutAllEach(faces, f) == PutAll(PutAllEach(faces[..0], f), f(face));
    PutAllFresh([], FaceOpenCorners(lib, fig, b, face, side));
  }

  /**
   * The kite lies on the square: the kite is the top face and the square
   * the bottom face. Each has one openable corner (the square at its top
   * right, the kite at its tip), so the bundle opens two corners.
   */
  lemma TwoQuadrilateralsOpenTwoCorners(lib: GeometryLibrary, b: Bundle)
    requires b.topFaces == [Kite] && b.bottomFaces == [Square]
    ensures Keys(OpenCorners(lib, TwoFaceFigure, b)) == [NearTopRight, TopRight]
    ensures |OpenCorners(lib, TwoFaceFigure, b)| == 2
  {
    var fig := TwoFaceFigure;
    SquareOpensTopRight();
    KiteOpensItsTip();
    var top := FaceOpenCorners(lib, fig, b, Kite, TopSide);
    var bottom := FaceOpenCorners(lib, fig, b, Square, BottomSide);
    assert Keys(top) == [NearTopRight];
    assert Keys(bottom) == [TopRight];
    SideOfOneFace(lib, fig, b, Kite, TopSide);
    SideOfOneFace(lib, fig, b, Square, BottomSide);
    PutAllFresh(top, bottom);
    assert Keys(top + bottom) == [NearTopRight, TopRight];
  }
}
