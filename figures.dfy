/**
 * The folded figure as the renderer reads it: vertices, edges, creases,
 * faces, bundles of stacked faces, and the figure's edge queries. All of it
 * is input; the renderer never changes it.
 *
 * The geometry library's predicates and measurements that cannot be written
 * with plain arithmetic are gathered in `GeometryLibrary` and passed in.
 */
module Figures {
  import opened Geometry
  import opened Seqs

  /**
   * A vertex has an identity of its own. The renderer creates new vertices
   * (`Vertex(position)`); such a vertex is a new object, equal to no vertex
   * of the figure.
   */
  datatype Vertex = FigureVertex(id: nat, pos: Point) | CreatedVertex(pos: Point)

  /** A list of vertices read as the list of their positions. */
  function Positions(vs: seq<Vertex>): (ps: seq<Point>)
    ensures |ps| == |vs|
    ensures forall i :: 0 <= i < |vs| ==> ps[i] == vs[i].pos
  {
    seq(|vs|, i requires 0 <= i < |vs| => vs[i].pos)
  }

  /** An edge of a face, its two ends in boundary order. */
  datatype Edge = Edge(a: Vertex, b: Vertex)
  {
    function Vertices(): seq<Vertex> { [a, b] }
  }

  /** A crease: a segment drawn on a face. */
  datatype Crease = Crease(a: Point, b: Point)

  /** A face of the figure; `id` stands for its object identity. */
  datatype Face = Face(id: nat, vertices: seq<Vertex>, frontColor: Color, backColor: Color, creases: set<Crease>)
  {
    predicate IsTriangle() { |vertices| == 3 }
  }

  /** The position after k on a cycle of m positions. */
  function Succ(k: nat, m: nat): (r: nat)
    requires k < m
    ensures r < m
  {
    if k + 1 == m then 0 else k + 1
  }

  /** The position after k is k + 1 modulo m. */
  lemma SuccIsModular(k: nat, m: nat)
    requires k < m
    ensures Succ(k, m) == (k + 1) % m
  {
    if k + 1 < m {
      assert (k + 1) % m == k + 1;
    } else {
      assert (k + 1) % m == 0;
    }
  }

  /**
   * `face.edgeList`: the boundary edges in order, edge k joining vertex k to
   * the next vertex, the last edge closing the boundary.
   */
  function EdgeList(vs: seq<Vertex>): (es: seq<Edge>)
    ensures |es| == |vs|
    ensures forall k :: 0 <= k < |vs| ==> es[k] == Edge(vs[k], vs[Succ(k, |vs|)])
  {
    seq(|vs|, k requires 0 <= k < |vs| => Edge(vs[k], vs[Succ(k, |vs|)]))
  }

  /**
   * `e.vertices.intersect(f.vertices).first()`: the first end of e that is
   * also an end of f. The source throws when the edges share no end.
   */
  function CommonVertex(e: Edge, f: Edge): (v: Vertex)
    requires e.a in f.Vertices() || e.b in f.Vertices()
    ensures v in e.Vertices() && v in f.Vertices()
  {
    if e.a in f.Vertices() then e.a else e.b
  }

  /** Two consecutive boundary edges of a face share exactly the vertex between them. */
  lemma CommonVertexOfConsecutiveEdges(vs: seq<Vertex>, k: nat)
    requires Distinct(vs) && |vs| >= 3 && k < |vs|
    ensures CommonVertex(EdgeList(vs)[k], EdgeList(vs)[Succ(k, |vs|)]) == vs[Succ(k, |vs|)]
  {
    var m := |vs|;
    var k1 := Succ(k, m);
    var k2 := Succ(k1, m);
    assert EdgeList(vs)[k] == Edge(vs[k], vs[k1]);
    assert EdgeList(vs)[k1] == Edge(vs[k1], vs[k2]);
    assert vs[k] != vs[k1] && vs[k] != vs[k2] by {
      if k < k1 { assert vs[k] != vs[k1]; } else { assert vs[k1] != vs[k]; }
      if k < k2 { assert vs[k] != vs[k2]; } else { assert vs[k2] != vs[k]; }
    }
  }

  datatype Plane = Plane(origin: Point, normal: Vector)

  /**
   * A bundle: faces stacked in (almost) one plane. `facesToFacesAbove` and
   * `facesToFacesBelow` give the faces directly above and below a face (no
   * entry when there are none); `facesAbove` and `facesBelow` are the
   * library's queries for every face covering a face on that side.
   * `topFaces` and `bottomFaces` list the extremal faces in the iteration
   * order of the library's sets.
   */
  datatype Bundle = Bundle(
    faces: set<Face>,
    facesToFacesAbove: map<Face, set<Face>>,
    facesToFacesBelow: map<Face, set<Face>>,
    facesAbove: Face -> set<Face>,
    facesBelow: Face -> set<Face>,
    topFaces: seq<Face>,
    bottomFaces: seq<Face>,
    plane: Plane,
    upwards: Vector,
    downwards: Vector)

  /** `Bundle.Side`: the outer side of a bundle a top or bottom face is on. */
  datatype Side = TopSide | BottomSide

  /** The outward direction of a side: `upwards` for the top, `downwards` for the bottom. */
  function Normal(b: Bundle, side: Side): (n: Vector)
    ensures n == (if side == TopSide then b.upwards else b.downwards)
  {
    if side == TopSide then b.upwards else b.downwards
  }

  /** The faces directly below a face are faces of the bundle. */
  predicate WellFormed(b: Bundle)
  {
    forall f :: f in b.facesToFacesBelow ==> b.facesToFacesBelow[f] <= b.faces
  }

  /** Some face of S has no face of S directly below it. */
  predicate HasMinimal(b: Bundle, s: set<Face>)
  {
    exists f :: f in s && (f !in b.facesToFacesBelow || b.facesToFacesBelow[f] !! s)
  }

  /**
   * The below relation has no cycle: every nonempty set of faces has a face
   * with nothing of the set below it. The source does not check this; its
   * callers guarantee it.
   */
  predicate Acyclic(b: Bundle)
  {
    forall s: set<Face> {:trigger HasMinimal(b, s)} :: s <= b.faces && s != {} ==> HasMinimal(b, s)
  }

  /** A figure: its bundles (in iteration order) and its edge queries. */
  datatype Figure = Figure(
    bundles: seq<Bundle>,
    isAFreeEdge: Edge -> bool,
    isAConnectingEdge: Edge -> bool)

  /**
   * The geometry library's operations that the renderer calls and that are
   * not modelled: normalising a vector, the distance of two points, whether a
   * face's plane faces the same way as a plane, whether a face is hidden by a
   * set of faces, the pieces of a face left uncovered by a set of faces (each
   * piece as its list of points), the pieces of a crease left uncovered,
   * whether a polygon shows its front when looked at along a vector, and the
   * corner opening angle constant.
   */
  datatype GeometryLibrary = GeometryLibrary(
    normalize: Vector -> Vector,
    distance: (Point, Point) -> real,
    facingSameWay: (Face, Plane) -> bool,
    isHiddenBy: (Face, set<Face>) -> bool,
    difference: (Face, set<Face>) -> seq<seq<Point>>,
    segmentDifference: (Crease, set<Face>) -> seq<Crease>,
    isShowingFront: (seq<Point>, Vector) -> bool,
    cornerOpenUpAngle: real)

  /** `v.withLength(len)`. */
  function WithLength(lib: GeometryLibrary, v: Vector, len: real): Vector
  {
    Scale(lib.normalize(v), len)
  }
}
