/**
 * `VisibleBundle`: the polygons of a bundle seen from its top and from its
 * bottom. A face with nothing covering it on a side is seen whole from that
 * side; otherwise what is seen are the pieces of the face that the covering
 * faces leave uncovered, as the geometry library's polygon difference gives
 * them. Each piece becomes a one-sided polygon showing the face's front or
 * back, whichever the side looks at.
 */
module VisibleBundles {
  import opened Geometry
  import opened Seqs
  import opened Figures
  import opened OneSidedPolygons

  // ---- the visible parts of one face ---------------------------------------

  /** `CreasedPolygon.fromFace`: the whole face, with its colours and creases. */
  function CreasedFromFace(face: Face): (r: CreasedPolygon)
    ensures |r.vertices| == |face.vertices|
    ensures forall i :: 0 <= i < |face.vertices| ==> r.vertices[i] == face.vertices[i].pos
    ensures r.frontColor == face.frontColor && r.backColor == face.backColor && r.creases == face.creases
  {
    CreasedPolygon(Positions(face.vertices), face.frontColor, face.backColor, face.creases)
  }

  /** The parts of the face's creases that the covering faces leave uncovered, each made a crease. */
  function CreasesOfDifference(lib: GeometryLibrary, face: Face, coveringFaces: set<Face>): set<Crease>
  {
    set crease, part | crease in face.creases && part in lib.segmentDifference(crease, coveringFaces) :: part
  }

  /**
   * `visiblePartsOfFaceWhenThereAreCoveringFaces`: one polygon per piece of
   * the difference, in the face's colours. The pieces after the first come
   * first, without creases; the first piece comes last and carries every
   * crease part left uncovered.
   */
  function VisibleParts(lib: GeometryLibrary, face: Face, coveringFaces: set<Face>): (r: seq<CreasedPolygon>)
    ensures |r| == |lib.difference(face, coveringFaces)|
    ensures forall i :: 0 <= i < |r| ==> r[i].frontColor == face.frontColor && r[i].backColor == face.backColor
    ensures forall i :: 0 <= i < |r| - 1 ==>
              r[i].vertices == lib.difference(face, coveringFaces)[i + 1] && r[i].creases == {}
    ensures |r| > 0 ==>
              r[|r| - 1].vertices == lib.difference(face, coveringFaces)[0] &&
              r[|r| - 1].creases == CreasesOfDifference(lib, face, coveringFaces)
  {
    var diff := lib.difference(face, coveringFaces);
    if |diff| == 0 then []
    else
      var creasesOfDifference := CreasesOfDifference(lib, face, coveringFaces);
      var creased := CreasedPolygon(diff[0], face.frontColor, face.backColor, creasesOfDifference);
      var notCreased := seq(|diff| - 1, i requires 0 <= i < |diff| - 1 =>
                              CreasedPolygon(diff[i + 1], face.frontColor, face.backColor, {}));
      notCreased + [creased]
  }

  /**
   * Nothing of the face is lost or invented: the outlines of the visible
   * parts are exactly the pieces of the difference, and the creases drawn
   * on them are exactly the uncovered crease parts (none when the face is
   * wholly covered).
   */
  lemma VisiblePartsAreTheDifference(lib: GeometryLibrary, face: Face, coveringFaces: set<Face>)
    ensures var r := VisibleParts(lib, face, coveringFaces);
            var diff := lib.difference(face, coveringFaces);
            (forall piece :: piece in diff <==> exists i :: 0 <= i < |r| && r[i].vertices == piece) &&
            (forall c :: (exists i :: 0 <= i < |r| && c in r[i].creases) <==>
                         |diff| > 0 && c in CreasesOfDifference(lib, face, coveringFaces))
  {
    var r := VisibleParts(lib, face, coveringFaces);
    var diff := lib.difference(face, coveringFaces);
    var n := |r|;
    forall piece | piece in diff ensures exists i :: 0 <= i < n && r[i].vertices == piece {
      var j :| 0 <= j < |diff| && diff[j] == piece;
      if j == 0 {
        assert r[n - 1].vertices == piece;
      } else {
        assert r[j - 1].vertices == piece;
      }
    }
    forall c | exists i :: 0 <= i < n && c in r[i].creases
      ensures |diff| > 0 && c in CreasesOfDifference(lib, face, coveringFaces)
    {
      var i :| 0 <= i < n && c in r[i].creases;
      assert i == n - 1;
    }
    if |diff| > 0 {
      forall c | c in CreasesOfDifference(lib, face, coveringFaces) ensures exists i :: 0 <= i < n && c in r[i].creases {
        assert c in r[n - 1].creases;
      }
    }
  }

  // ---- the two sides -------------------------------------------------------

  /** What one face adds to the view from the top: the whole face, or its uncovered parts. */
  function TopPieces(lib: GeometryLibrary, b: Bundle, face: Face): seq<CreasedPolygon>
  {
    var allFacesAbove := b.facesAbove(face);
    if allFacesAbove == {} then [CreasedFromFace(face)] else VisibleParts(lib, face, allFacesAbove)
  }

  /**
   * What one face adds to the view from the bottom: the face itself, or its
   * uncovered parts, held as plain polygons.
   */
  function BottomPieces(lib: GeometryLibrary, b: Bundle, face: Face): seq<Polygon>
  {
    var allFacesBelow := b.facesBelow(face);
    if allFacesBelow == {} then [FaceAsPolygon(face)]
    else
      var parts := VisibleParts(lib, face, allFacesBelow);
      seq(|parts|, i requires 0 <= i < |parts| => CreasedAsPolygon(parts[i]))
  }

  /** The polygons the given faces show from the top. */
  function VisibleFromTop(lib: GeometryLibrary, b: Bundle, faces: set<Face>): set<CreasedPolygon>
  {
    set face, p | face in faces && p in TopPieces(lib, b, face) :: p
  }

  /** The polygons the given faces show from the bottom. */
  function VisibleFromBottom(lib: GeometryLibrary, b: Bundle, faces: set<Face>): set<Polygon>
  {
    set face, p | face in faces && p in BottomPieces(lib, b, face) :: p
  }

  /** One face more adds its pieces to the view from the top. */
  lemma TopOneMore(lib: GeometryLibrary, b: Bundle, faces: set<Face>, face: Face)
    ensures VisibleFromTop(lib, b, faces + {face}) == VisibleFromTop(lib, b, faces) + ElementsOf(TopPieces(lib, b, face))
  {
    var before := VisibleFromTop(lib, b, faces);
    var after := VisibleFromTop(lib, b, faces + {face});
    var pieces := TopPieces(lib, b, face);
    forall p | p in after ensures p in before + ElementsOf(pieces) {
      var f :| f in faces + {face} && p in TopPieces(lib, b, f);
      if f != face {
        assert p in before;
      }
    }
  }

  /** One face more adds its pieces to the view from the bottom. */
  lemma BottomOneMore(lib: GeometryLibrary, b: Bundle, faces: set<Face>, face: Face)
    ensures VisibleFromBottom(lib, b, faces + {face})
            == VisibleFromBottom(lib, b, faces) + ElementsOf(BottomPieces(lib, b, face))
  {
    var before := VisibleFromBottom(lib, b, faces);
    var after := VisibleFromBottom(lib, b, faces + {face});
    var pieces := BottomPieces(lib, b, face);
    forall p | p in after ensures p in before + ElementsOf(pieces) {
      var f :| f in faces + {face} && p in BottomPieces(lib, b, f);
      if f != face {
        assert p in before;
      }
    }
  }

  /** The faces visited so far, one more visited. */
  lemma VisitOne<T>(all: set<T>, toVisit: set<T>, x: T)
    requires toVisit <= all && x in toVisit
    ensures all - (toVisit - {x}) == (all - toVisit) + {x}
  {
  }

  /** `visiblePolygonsFromTop`: every face of the bundle in turn adds what it shows from the top. */
  method VisiblePolygonsFromTop(lib: GeometryLibrary, b: Bundle) returns (visiblePolygons: set<CreasedPolygon>)
    ensures visiblePolygons == VisibleFromTop(lib, b, b.faces)
  {
    visiblePolygons := {};
    var toVisit := b.faces;
    while toVisit != {}
      invariant toVisit <= b.faces
      invariant visiblePolygons == VisibleFromTop(lib, b, b.faces - toVisit)
      decreases toVisit
    {
      var face :| face in toVisit;
      var allFacesAbove := b.facesAbove(face);
      if allFacesAbove == {} {
        var creasedPolygon := CreasedFromFace(face);
        visiblePolygons := visiblePolygons + {creasedPolygon};
      } else {
        var differencePolygons := VisibleParts(lib, face, allFacesAbove);
        visiblePolygons := visiblePolygons + ElementsOf(differencePolygons);
      }
      TopOneMore(lib, b, b.faces - toVisit, face);
      VisitOne(b.faces, toVisit, face);
      toVisit := toVisit - {face};
    }
  }

  /** `visiblePolygonsFromBottom`: every face of the bundle in turn adds what it shows from the bottom. */
  method VisiblePolygonsFromBottom(lib: GeometryLibrary, b: Bundle) returns (visiblePolygons: set<Polygon>)
    ensures visiblePolygons == VisibleFromBottom(lib, b, b.faces)
  {
    visiblePolygons := {};
    var toVisit := b.faces;
    while toVisit != {}
      invariant toVisit <= b.faces
      invariant visiblePolygons == VisibleFromBottom(lib, b, b.faces - toVisit)
      decreases toVisit
    {
      var face :| face in toVisit;
      var allFacesBelow := b.facesBelow(face);
      if allFacesBelow == {} {
        visiblePolygons := visiblePolygons + {FaceAsPolygon(face)};
      } else {
        var differencePolygons := VisibleParts(lib, face, allFacesBelow);
        var asPolygons := seq(|differencePolygons|, i requires 0 <= i < |differencePolygons| =>
                                CreasedAsPolygon(differencePolygons[i]));
        visiblePolygons := visiblePolygons + ElementsOf(asPolygons);
      }
      BottomOneMore(lib, b, b.faces - toVisit, face);
      VisitOne(b.faces, toVisit, face);
      toVisit := toVisit - {face};
    }
  }

  // ---- one-sided polygons ----------------------------------------------------

  /**
   * A polygon seen from the top, looking along `downwards`: its front, with
   * its creases, when it shows its front that way, its back otherwise.
   */
  function TopOneSided(lib: GeometryLibrary, b: Bundle, p: CreasedPolygon): (r: OneSidedPolygon)
    ensures r.creases == CreasePointLists(p.creases)
    ensures lib.isShowingFront(p.vertices, b.downwards) ==> r.boundary == p.vertices && r.color == p.frontColor
    ensures !lib.isShowingFront(p.vertices, b.downwards) ==> r.boundary == Reverse(p.vertices) && r.color == p.backColor
  {
    if lib.isShowingFront(p.vertices, b.downwards) then MakeFrontFaceFromCreased(p) else MakeBackFaceFromCreased(p)
  }

  /**
   * A polygon seen from the bottom, looking along `upwards`. The polygons
   * of this side are held as plain polygons, so the overload without creases
   * is the one applied: no crease is drawn from the bottom.
   */
  function BottomOneSided(lib: GeometryLibrary, b: Bundle, p: Polygon): (r: OneSidedPolygon)
    ensures r.creases == {}
    ensures lib.isShowingFront(p.vertices, b.upwards) ==> r.boundary == p.vertices && r.color == p.frontColor
    ensures !lib.isShowingFront(p.vertices, b.upwards) ==> r.boundary == Reverse(p.vertices) && r.color == p.backColor
  {
    if lib.isShowingFront(p.vertices, b.upwards) then MakeFrontFaceFrom(p, {}) else MakeBackFaceFrom(p, {})
  }

  /** The one-sided polygons seen from the top. */
  function VisibleOneSidedFromTop(lib: GeometryLibrary, b: Bundle): set<OneSidedPolygon>
  {
    set p | p in VisibleFromTop(lib, b, b.faces) :: TopOneSided(lib, b, p)
  }

  /** The one-sided polygons seen from the bottom: none of them has a crease. */
  function VisibleOneSidedFromBottom(lib: GeometryLibrary, b: Bundle): (r: set<OneSidedPolygon>)
    ensures forall q :: q in r ==> q.creases == {}
  {
    set p | p in VisibleFromBottom(lib, b, b.faces) :: BottomOneSided(lib, b, p)
  }

  /** `visibleOneSidedPolygonsFromTop`. */
  method VisibleOneSidedPolygonsFromTop(lib: GeometryLibrary, b: Bundle) returns (r: set<OneSidedPolygon>)
    ensures r == VisibleOneSidedFromTop(lib, b)
  {
    var visiblePolygons := VisiblePolygonsFromTop(lib, b);
    r := set p | p in visiblePolygons :: TopOneSided(lib, b, p);
  }

  /** `visibleOneSidedPolygonsFromBottom`. */
  method VisibleOneSidedPolygonsFromBottom(lib: GeometryLibrary, b: Bundle) returns (r: set<OneSidedPolygon>)
    ensures r == VisibleOneSidedFromBottom(lib, b)
  {
    var visiblePolygons := VisiblePolygonsFromBottom(lib, b);
    r := set p | p in visiblePolygons :: BottomOneSided(lib, b, p);
  }

  // ---- the visible bundle ----------------------------------------------------

  /** The polygons seen from each side; `visiblePolygons` is both together. */
  datatype VisibleBundle = VisibleBundle(visiblePolygonsFromTop: set<OneSidedPolygon>,
                                         visiblePolygonsFromBottom: set<OneSidedPolygon>)
  {
    function VisiblePolygons(): set<OneSidedPolygon>
    {
      visiblePolygonsFromTop + visiblePolygonsFromBottom
    }
  }

  /** `VisibleBundle(bundle)`: both sides computed from the bundle. */
  method MakeVisibleBundle(lib: GeometryLibrary, b: Bundle) returns (vb: VisibleBundle)
    ensures vb.visiblePolygonsFromTop == VisibleOneSidedFromTop(lib, b)
    ensures vb.visiblePolygonsFromBottom == VisibleOneSidedFromBottom(lib, b)
  {
    var fromTop := VisibleOneSidedPolygonsFromTop(lib, b);
    var fromBottom := VisibleOneSidedPolygonsFromBottom(lib, b);
    vb := VisibleBundle(fromTop, fromBottom);
  }

  // ---- properties --------------------------------------------------------------

  /**
   * A face with nothing above it is seen whole from the top, with its
   * creases: its front when it shows its front looking down, its back
   * otherwise.
   */
  lemma WholeFaceSeenFromTop(lib: GeometryLibrary, b: Bundle, face: Face)
    requires face in b.faces && b.facesAbove(face) == {}
    ensures var q := TopOneSided(lib, b, CreasedFromFace(face));
            var outline := Positions(face.vertices);
            q in VisibleOneSidedFromTop(lib, b) && q.creases == CreasePointLists(face.creases) &&
            (lib.isShowingFront(outline, b.downwards) ==> q.boundary == outline && q.color == face.frontColor) &&
            (!lib.isShowingFront(outline, b.downwards) ==> q.boundary == Reverse(outline) && q.color == face.backColor)
  {
    assert CreasedFromFace(face) in TopPieces(lib, b, face);
    assert CreasedFromFace(face) in VisibleFromTop(lib, b, b.faces);
  }

  /**
   * A face with nothing below it is seen whole from the bottom, without
   * creases: its front when it shows its front looking up, its back
   * otherwise.
   */
  lemma WholeFaceSeenFromBottom(lib: GeometryLibrary, b: Bundle, face: Face)
    requires face in b.faces && b.facesBelow(face) == {}
    ensures var q := BottomOneSided(lib, b, FaceAsPolygon(face));
            var outline := Positions(face.vertices);
            q in VisibleOneSidedFromBottom(lib, b) && q.creases == {} &&
            (lib.isShowingFront(outline, b.upwards) ==> q.boundary == outline && q.color == face.frontColor) &&
            (!lib.isShowingFront(outline, b.upwards) ==> q.boundary == Reverse(outline) && q.color == face.backColor)
  {
    assert FaceAsPolygon(face) in BottomPieces(lib, b, face);
    assert FaceAsPolygon(face) in VisibleFromBottom(lib, b, b.faces);
  }

  /** A face that the faces above it cover completely adds nothing to the view from the top. */
  lemma CoveredFaceUnseenFromTop(lib: GeometryLibrary, b: Bundle, face: Face)
    requires b.facesAbove(face) != {} && lib.difference(face, b.facesAbove(face)) == []
    ensures VisibleFromTop(lib, b, b.faces) == VisibleFromTop(lib, b, b.faces - {face})
  {
    assert TopPieces(lib, b, face) == [];
    forall p | p in VisibleFromTop(lib, b, b.faces) ensures p in VisibleFromTop(lib, b, b.faces - {face}) {
      var f :| f in b.faces && p in TopPieces(lib, b, f);
      assert f != face;
    }
  }

  /** A face that the faces below it cover completely adds nothing to the view from the bottom. */
  lemma CoveredFaceUnseenFromBottom(lib: GeometryLibrary, b: Bundle, face: Face)
    requires b.facesBelow(face) != {} && lib.difference(face, b.facesBelow(face)) == []
    ensures VisibleFromBottom(lib, b, b.faces) == VisibleFromBottom(lib, b, b.faces - {face})
  {
    assert BottomPieces(lib, b, face) == [];
    forall p | p in VisibleFromBottom(lib, b, b.faces) ensures p in VisibleFromBottom(lib, b, b.faces - {face}) {
      var f :| f in b.faces && p in BottomPieces(lib, b, f);
      assert f != face;
    }
  }

  /**
   * When no face covers another, every point of every visible polygon, from
   * either side, is the position of a vertex of some face of the bundle.
   */
  lemma UncoveredFacesKeepTheirVertices(lib: GeometryLibrary, b: Bundle)
    requires forall f :: f in b.faces ==> b.facesAbove(f) == {} && b.facesBelow(f) == {}
    ensures var vb := VisibleBundle(VisibleOneSidedFromTop(lib, b), VisibleOneSidedFromBottom(lib, b));
            forall q, pt :: q in vb.VisiblePolygons() && pt in q.boundary ==>
              exists f, v :: f in b.faces && v in f.vertices && v.pos == pt
  {
    forall q, pt | q in VisibleOneSidedFromTop(lib, b) + VisibleOneSidedFromBottom(lib, b) && pt in q.boundary
      ensures exists f, v :: f in b.faces && v in f.vertices && v.pos == pt
    {
      var f, outline;
      if q in VisibleOneSidedFromTop(lib, b) {
        var p :| p in VisibleFromTop(lib, b, b.faces) && q == TopOneSided(lib, b, p);
        f :| f in b.faces && p in TopPieces(lib, b, f);
        outline := p.vertices;
        assert outline == Positions(f.vertices);
      } else {
        var p :| p in VisibleFromBottom(lib, b, b.faces) && q == BottomOneSided(lib, b, p);
        f :| f in b.faces && p in BottomPieces(lib, b, f);
        outline := p.vertices;
        assert outline == Positions(f.vertices);
      }
      var i := PointOfBoundary(q.boundary, outline, pt);
      assert f.vertices[i] in f.vertices && f.vertices[i].pos == pt;
    }
  }

  /** A point of a boundary that is an outline or its reverse is a point of the outline. */
  lemma PointOfBoundary(boundary: seq<Point>, outline: seq<Point>, pt: Point) returns (i: nat)
    requires boundary == outline || boundary == Reverse(outline)
    requires pt in boundary
    ensures i < |outline| && outline[i] == pt
  {
    var j :| 0 <= j < |boundary| && boundary[j] == pt;
    i := if boundary == outline then j else |outline| - 1 - j;
  }

  /**
   * A bundle of one face, with nothing above or below it, shows two
   * polygons, one from each side, each with as many points as the face has
   * vertices (the face's vertices lie at different positions and the face
   * shows its front along exactly one of the two directions).
   */
  lemma SingleFaceShowsTwoPolygons(lib: GeometryLibrary, b: Bundle, face: Face)
    requires b.faces == {face} && b.facesAbove(face) == {} && b.facesBelow(face) == {}
    requires |face.vertices| >= 2 && Distinct(Positions(face.vertices))
    requires lib.isShowingFront(Positions(face.vertices), b.downwards)
             != lib.isShowingFront(Positions(face.vertices), b.upwards)
    ensures var vb := VisibleBundle(VisibleOneSidedFromTop(lib, b), VisibleOneSidedFromBottom(lib, b));
            |vb.VisiblePolygons()| == 2 &&
            forall q :: q in vb.VisiblePolygons() ==> |q.boundary| == |face.vertices|
  {
    var outline := Positions(face.vertices);
    var top := TopOneSided(lib, b, CreasedFromFace(face));
    var bottom := BottomOneSided(lib, b, FaceAsPolygon(face));
    SingleFaceViews(lib, b, face);
    assert outline[0] != outline[|outline| - 1];
    assert Reverse(outline)[0] == outline[|outline| - 1];
    assert top.boundary != bottom.boundary;
    assert {top} + {bottom} == {top, bottom};
  }

  /** A bundle of one face, with nothing above or below it, shows that face whole from each side. */
  lemma SingleFaceViews(lib: GeometryLibrary, b: Bundle, face: Face)
    requires b.faces == {face} && b.facesAbove(face) == {} && b.facesBelow(face) == {}
    ensures VisibleOneSidedFromTop(lib, b) == {TopOneSided(lib, b, CreasedFromFace(face))}
    ensures VisibleOneSidedFromBottom(lib, b) == {BottomOneSided(lib, b, FaceAsPolygon(face))}
  {
    TopOneMore(lib, b, {}, face);
    BottomOneMore(lib, b, {}, face);
    assert {} + {face} == b.faces;
    assert VisibleFromTop(lib, b, {}) == {};
    assert VisibleFromBottom(lib, b, {}) == {};
    assert ElementsOf(TopPieces(lib, b, face)) == {CreasedFromFace(face)};
    assert ElementsOf(BottomPieces(lib, b, face)) == {FaceAsPolygon(face)};
  }
}
