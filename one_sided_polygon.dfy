/**
 * The renderer's output unit: a polygon that can be seen from one side only,
 * with one colour and the creases drawn on it (each crease as its list of
 * points). The order of the boundary decides which side is its front, so
 * the back side of a face is the face's boundary in reverse order.
 */
module OneSidedPolygons {
  import opened Geometry
  import opened Seqs
  import opened Figures

  datatype OneSidedPolygon = OneSidedPolygon(boundary: seq<Point>, color: Color, creases: set<seq<Point>>)

  /** The geometry library's two-coloured polygon. A face is one, read through its vertices' positions. */
  datatype Polygon = Polygon(vertices: seq<Point>, frontColor: Color, backColor: Color)

  /** A polygon that keeps creases, as produced by the visibility computation. */
  datatype CreasedPolygon = CreasedPolygon(vertices: seq<Point>, frontColor: Color, backColor: Color, creases: set<Crease>)

  /** A face whose vertices need not lie in one plane; it never has creases. */
  datatype DeformableFace = DeformableFace(vertices: seq<Point>, frontColor: Color, backColor: Color)

  function FaceAsPolygon(f: Face): Polygon
  {
    Polygon(Positions(f.vertices), f.frontColor, f.backColor)
  }

  function CreasedAsPolygon(p: CreasedPolygon): Polygon
  {
    Polygon(p.vertices, p.frontColor, p.backColor)
  }

  /** `creases.map { it.pointAndVertexList }.toSet()`. */
  function CreasePointLists(creases: set<Crease>): (r: set<seq<Point>>)
    ensures forall c :: c in creases ==> [c.a, c.b] in r
    ensures forall l :: l in r ==> |l| == 2 && Crease(l[0], l[1]) in creases
  {
    set c | c in creases :: [c.a, c.b]
  }

  /** `makeFrontFaceFrom(p, creases)`: the boundary in the polygon's own order, in its front colour. */
  function MakeFrontFaceFrom(p: Polygon, creases: set<Crease>): (r: OneSidedPolygon)
    ensures r.boundary == p.vertices
    ensures r.color == p.frontColor
    ensures r.creases == CreasePointLists(creases)
  {
    OneSidedPolygon(p.vertices, p.frontColor, CreasePointLists(creases))
  }

  /** `makeBackFaceFrom(p, creases)`: the boundary in reverse order, in the back colour. */
  function MakeBackFaceFrom(p: Polygon, creases: set<Crease>): (r: OneSidedPolygon)
    ensures |r.boundary| == |p.vertices|
    ensures forall i :: 0 <= i < |p.vertices| ==> r.boundary[i] == p.vertices[|p.vertices| - 1 - i]
    ensures r.color == p.backColor
    ensures r.creases == CreasePointLists(creases)
  {
    OneSidedPolygon(Reverse(p.vertices), p.backColor, CreasePointLists(creases))
  }

  /** The two sides of a polygon have opposite boundaries: each is the reverse of the other. */
  lemma FrontAndBackAreOpposite(p: Polygon, creases: set<Crease>)
    ensures MakeBackFaceFrom(p, creases).boundary == Reverse(MakeFrontFaceFrom(p, creases).boundary)
    ensures MakeFrontFaceFrom(p, creases).boundary == Reverse(MakeBackFaceFrom(p, creases).boundary)
  {
    ReverseReverse(p.vertices);
  }

  /** `makeFrontFaceFrom(p: CreasedPolygon)`: the front side keeping the polygon's creases. */
  function MakeFrontFaceFromCreased(p: CreasedPolygon): (r: OneSidedPolygon)
    ensures r.boundary == p.vertices && r.color == p.frontColor
    ensures r.creases == CreasePointLists(p.creases)
  {
    MakeFrontFaceFrom(CreasedAsPolygon(p), p.creases)
  }

  /** `makeBackFaceFrom(p: CreasedPolygon)`: the back side keeping the polygon's creases. */
  function MakeBackFaceFromCreased(p: CreasedPolygon): (r: OneSidedPolygon)
    ensures r.boundary == Reverse(p.vertices) && r.color == p.backColor
    ensures r.creases == CreasePointLists(p.creases)
  {
    MakeBackFaceFrom(CreasedAsPolygon(p), p.creases)
  }

  /** `makeFrontFaceWithCreasesFromFace`. */
  function MakeFrontFaceWithCreasesFromFace(f: Face): (r: OneSidedPolygon)
    ensures r.boundary == Positions(f.vertices) && r.color == f.frontColor
    ensures r.creases == CreasePointLists(f.creases)
  {
    MakeFrontFaceFrom(FaceAsPolygon(f), f.creases)
  }

  /** `makeBackFaceWithCreasesFromFace`. */
  function MakeBackFaceWithCreasesFromFace(f: Face): (r: OneSidedPolygon)
    ensures r.boundary == Reverse(Positions(f.vertices)) && r.color == f.backColor
    ensures r.creases == CreasePointLists(f.creases)
  {
    MakeBackFaceFrom(FaceAsPolygon(f), f.creases)
  }

  /** `makeFrontFaceNoCreasesFromFace`. */
  function MakeFrontFaceNoCreasesFromFace(f: Face): (r: OneSidedPolygon)
    ensures r.boundary == Positions(f.vertices) && r.color == f.frontColor && r.creases == {}
  {
    MakeFrontFaceFrom(FaceAsPolygon(f), {})
  }

  /** `makeBackFaceNoCreasesFromFace`. */
  function MakeBackFaceNoCreasesFromFace(f: Face): (r: OneSidedPolygon)
    ensures r.boundary == Reverse(Positions(f.vertices)) && r.color == f.backColor && r.creases == {}
  {
    MakeBackFaceFrom(FaceAsPolygon(f), {})
  }

  /** `from(face: DeformableFace)`: the front and the back side of a face, both without creases. */
  function From(d: DeformableFace): (r: (OneSidedPolygon, OneSidedPolygon))
    ensures r.0.boundary == d.vertices && r.0.color == d.frontColor
    ensures r.1.boundary == Reverse(d.vertices) && r.1.color == d.backColor
    ensures r.0.creases == {} && r.1.creases == {}
  {
    (OneSidedPolygon(d.vertices, d.frontColor, {}), OneSidedPolygon(Reverse(d.vertices), d.backColor, {}))
  }
}
