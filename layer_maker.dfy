/**
 * The layer maker of the layered renderer: the faces of a bundle are sorted
 * into rounds, bottom to top. Each round takes every face not yet taken
 * whose faces directly below have all been taken; every face taken is
 * classified by the side (if any) from which it can be seen, and the faces
 * that can be seen make up the round's layer.
 */
module LayerMaker {
  import opened Figures
  import opened Layers
  import Seqs

  // ---- classification ----------------------------------------------------

  predicate IsTopOrBottom(b: Bundle, face: Face)
  {
    face in b.topFaces || face in b.bottomFaces
  }

  /** The faces directly above cover the face completely. */
  predicate HiddenFromAbove(lib: GeometryLibrary, b: Bundle, face: Face)
  {
    face in b.facesToFacesAbove && lib.isHiddenBy(face, b.facesToFacesAbove[face])
  }

  /** The faces directly below cover the face completely. */
  predicate HiddenFromBelow(lib: GeometryLibrary, b: Bundle, face: Face)
  {
    face in b.facesToFacesBelow && lib.isHiddenBy(face, b.facesToFacesBelow[face])
  }

  /**
   * The side to render of a face joining a layer. Top and bottom faces are
   * always rendered on both sides (they are the ones a 3-D look deforms);
   * otherwise a face is seen from every side on which it is not hidden.
   */
  function Classify(lib: GeometryLibrary, b: Bundle, face: Face): (side: SideToRender)
    ensures side == NONE <==>
              !IsTopOrBottom(b, face) && HiddenFromAbove(lib, b, face) && HiddenFromBelow(lib, b, face)
    ensures side == BOTTOM <==>
              !IsTopOrBottom(b, face) && HiddenFromAbove(lib, b, face) && !HiddenFromBelow(lib, b, face)
    ensures side == TOP <==>
              !IsTopOrBottom(b, face) && !HiddenFromAbove(lib, b, face) && HiddenFromBelow(lib, b, face)
    ensures side == BOTH <==>
              IsTopOrBottom(b, face) || (!HiddenFromAbove(lib, b, face) && !HiddenFromBelow(lib, b, face))
  {
    var hiddenFromAbove := HiddenFromAbove(lib, b, face);
    var hiddenFromBelow := HiddenFromBelow(lib, b, face);
    if face in b.topFaces then BOTH
    else if face in b.bottomFaces then BOTH
    else if hiddenFromAbove && hiddenFromBelow then NONE
    else if hiddenFromAbove then BOTTOM
    else if hiddenFromBelow then TOP
    else BOTH
  }

  // ---- one round ---------------------------------------------------------

  /** A face may join the next layer when every face directly below it is already added. */
  predicate CanBeAdded(b: Bundle, alreadyAdded: set<Face>, face: Face)
  {
    face !in b.facesToFacesBelow || b.facesToFacesBelow[face] <= alreadyAdded
  }

  /** The faces of the next round. */
  function Eligible(b: Bundle, alreadyAdded: set<Face>): set<Face>
  {
    set f | f in b.faces && f !in alreadyAdded && CanBeAdded(b, alreadyAdded, f)
  }

  /** Faces, each with its side to render. */
  function ClassifiedFaces(lib: GeometryLibrary, b: Bundle, faces: set<Face>): map<Face, SideToRender>
  {
    map f | f in faces :: Classify(lib, b, f)
  }

  /** The faces of the next round, each with its side to render. */
  function NewLayerFaces(lib: GeometryLibrary, b: Bundle, alreadyAdded: set<Face>): map<Face, SideToRender>
  {
    ClassifiedFaces(lib, b, Eligible(b, alreadyAdded))
  }

  /**
   * `findFacesOfNewLayer`: every face not yet added whose faces directly
   * below are all added, classified; faces hidden on both sides are kept
   * (tagged NONE) so that they count as added.
   */
  method FindFacesOfNewLayer(lib: GeometryLibrary, b: Bundle, alreadyAdded: set<Face>)
    returns (result: map<Face, SideToRender>)
    ensures result.Keys == Eligible(b, alreadyAdded)
    ensures forall f :: f in result ==> result[f] == Classify(lib, b, f)
    ensures result == NewLayerFaces(lib, b, alreadyAdded)
  {
    result := map[];
    var notYetAdded := b.faces - alreadyAdded;
    var toVisit := notYetAdded;
    while toVisit != {}
      invariant toVisit <= notYetAdded
      invariant result.Keys == set f | f in notYetAdded - toVisit && CanBeAdded(b, alreadyAdded, f)
      invariant forall f :: f in result ==> result[f] == Classify(lib, b, f)
      decreases toVisit
    {
      var face :| face in toVisit;
      var faceCanBeAddedToNewLayer := CanBeAdded(b, alreadyAdded, face);
      if faceCanBeAddedToNewLayer {
        result := result[face := Classify(lib, b, face)];
      }
      toVisit := toVisit - {face};
    }
  }

  /** The visible part of a round: its faces not tagged NONE. */
  function Visible(faces: map<Face, SideToRender>): (r: map<Face, SideToRender>)
    ensures r.Keys <= faces.Keys
    ensures forall f :: f in r ==> r[f] == faces[f] && r[f] != NONE
    ensures forall f :: f in faces && faces[f] != NONE ==> f in r
  {
    map f | f in faces && faces[f] != NONE :: faces[f]
  }

  /** The layer of a round: its visible faces, or the empty layer when none is visible. */
  function LayerOf(facesOfNewLayer: map<Face, SideToRender>): (l: Layer)
    ensures l.Valid()
    ensures l.faceToSideToRender == Visible(facesOfNewLayer)
  {
    var facesOfNewLayerToRender := Visible(facesOfNewLayer);
    var thereIsAtLeastAVisibleFace := |facesOfNewLayerToRender| > 0;
    if thereIsAtLeastAVisibleFace then NewLayer(facesOfNewLayerToRender)
    else
      assert facesOfNewLayerToRender == map[];
      EmptyLayer()
  }

  // ---- all rounds --------------------------------------------------------

  lemma SubsetOfSameSize(a: set<Face>, b: set<Face>)
    requires a <= b && |a| == |b|
    ensures a == b
    decreases a
  {
    if a != {} {
      var x :| x in a;
      SubsetOfSameSize(a - {x}, b - {x});
      assert a == (a - {x}) + {x};
    }
  }

  /** As long as some face is not added, the next round is not empty. */
  lemma NextRoundNotEmpty(b: Bundle, alreadyAdded: set<Face>)
    requires WellFormed(b) && Acyclic(b) && alreadyAdded <= b.faces && alreadyAdded != b.faces
    ensures Eligible(b, alreadyAdded) != {}
  {
    var rest := b.faces - alreadyAdded;
    assert !(b.faces <= alreadyAdded);
    var g :| g in b.faces && g !in alreadyAdded;
    assert g in rest;
    assert HasMinimal(b, rest);
    var f :| f in rest && (f !in b.facesToFacesBelow || b.facesToFacesBelow[f] !! rest);
    assert f in Eligible(b, alreadyAdded);
  }

  /** The next round is made of faces not yet added, and takes at least one of them. */
  lemma RoundProgress(b: Bundle, alreadyAdded: set<Face>)
    requires WellFormed(b) && Acyclic(b) && alreadyAdded <= b.faces && |b.faces| != |alreadyAdded|
    ensures alreadyAdded + Eligible(b, alreadyAdded) <= b.faces
    ensures b.faces - (alreadyAdded + Eligible(b, alreadyAdded)) < b.faces - alreadyAdded
  {
    NextRoundNotEmpty(b, alreadyAdded);
  }

  /** The faces of the next round are the ones the classification is made for. */
  lemma NewLayerFacesKeys(lib: GeometryLibrary, b: Bundle, alreadyAdded: set<Face>)
    ensures NewLayerFaces(lib, b, alreadyAdded).Keys == Eligible(b, alreadyAdded)
  {
  }

  /** The rounds taken from the given faces on. */
  function Rounds(b: Bundle, alreadyAdded: set<Face>): (rounds: seq<set<Face>>)
    requires WellFormed(b) && Acyclic(b) && alreadyAdded <= b.faces
    decreases b.faces - alreadyAdded
  {
    if |b.faces| == |alreadyAdded| then []
    else
      var round := Eligible(b, alreadyAdded);
      RoundProgress(b, alreadyAdded);
      [round] + Rounds(b, alreadyAdded + round)
  }

  /**
   * `makeBottomToTopLayers_Recursive`: one layer per round until every face
   * is added. The source loops forever on a cycle of faces each below the
   * next; acyclicity is required here.
   */
  function MakeBottomToTopLayersRec(lib: GeometryLibrary, b: Bundle, alreadyAdded: set<Face>,
                                    layers: seq<Layer>): (r: seq<Layer>)
    requires WellFormed(b) && Acyclic(b) && alreadyAdded <= b.faces
    ensures |r| >= |layers| && r[..|layers|] == layers
    ensures |b.faces| != |alreadyAdded| ==> |r| > |layers|
    ensures (forall i :: 0 <= i < |layers| ==> layers[i].Valid()) ==> forall i :: 0 <= i < |r| ==> r[i].Valid()
    decreases b.faces - alreadyAdded
  {
    var areAllFacesAlreadyAdded := |b.faces| == |alreadyAdded|;
    if areAllFacesAlreadyAdded then layers
    else
      var facesOfNewLayer := NewLayerFaces(lib, b, alreadyAdded);
      var newLayer := LayerOf(facesOfNewLayer);
      var updatedLayerList := layers + [newLayer];
      assert (forall i :: 0 <= i < |layers| ==> layers[i].Valid()) ==>
             forall i :: 0 <= i < |updatedLayerList| ==> updatedLayerList[i].Valid();
      RoundProgress(b, alreadyAdded);
      NewLayerFacesKeys(lib, b, alreadyAdded);
      var r := MakeBottomToTopLayersRec(lib, b, alreadyAdded + facesOfNewLayer.Keys, updatedLayerList);
      Seqs.PrefixOfExtension(r, layers, newLayer);
      r
  }

  /** `makeBottomToTopLayers`: the layers of the whole bundle, bottom first. */
  function MakeBottomToTopLayers(lib: GeometryLibrary, b: Bundle): (layers: seq<Layer>)
    requires WellFormed(b) && Acyclic(b)
    ensures |layers| > 0 <==> b.faces != {}
    ensures forall i :: 0 <= i < |layers| ==> layers[i].Valid()
  {
    MakeBottomToTopLayersRec(lib, b, {}, [])
  }

  /** The faces of the given rounds together. */
  function UnionOf(rounds: seq<set<Face>>): set<Face>
  {
    if rounds == [] then {} else rounds[0] + UnionOf(rounds[1..])
  }

  lemma UnionOfPrefix(round: set<Face>, rest: seq<set<Face>>, i: nat)
    requires 0 < i <= |rest| + 1
    ensures UnionOf(([round] + rest)[..i]) == round + UnionOf(rest[..i - 1])
  {
    assert ([round] + rest)[..i][1..] == rest[..i - 1];
  }

  // ---- properties of the rounds ------------------------------------------

  /** One step of the rounds: the eligible faces, then the rounds after them. */
  lemma RoundsStep(b: Bundle, alreadyAdded: set<Face>)
    requires WellFormed(b) && Acyclic(b) && alreadyAdded <= b.faces && |b.faces| != |alreadyAdded|
    ensures Eligible(b, alreadyAdded) != {}
    ensures Eligible(b, alreadyAdded) <= b.faces - alreadyAdded
    ensures Rounds(b, alreadyAdded) == [Eligible(b, alreadyAdded)] + Rounds(b, alreadyAdded + Eligible(b, alreadyAdded))
  {
    NextRoundNotEmpty(b, alreadyAdded);
  }

  /** Each round is a nonempty set of faces not added before. */
  lemma {:induction false} RoundsAreNewFaces(b: Bundle, alreadyAdded: set<Face>)
    requires WellFormed(b) && Acyclic(b) && alreadyAdded <= b.faces
    ensures var rounds := Rounds(b, alreadyAdded);
            forall i :: 0 <= i < |rounds| ==> rounds[i] != {} && rounds[i] <= b.faces - alreadyAdded
    decreases b.faces - alreadyAdded
  {
    var rounds := Rounds(b, alreadyAdded);
    if |b.faces| != |alreadyAdded| {
      RoundsStep(b, alreadyAdded);
      var round := Eligible(b, alreadyAdded);
      var rest := Rounds(b, alreadyAdded + round);
      RoundsAreNewFaces(b, alreadyAdded + round);
      forall i | 0 <= i < |rounds| ensures rounds[i] != {} && rounds[i] <= b.faces - alreadyAdded {
        NewFacesAfterNewRound(round, rest, b.faces - alreadyAdded, b.faces - (alreadyAdded + round), i);
      }
    }
  }

  /** Rounds of new faces stay so when a round of new faces is put in front of them. */
  lemma NewFacesAfterNewRound(round: set<Face>, rest: seq<set<Face>>, newFaces: set<Face>, newFaces': set<Face>, i: nat)
    requires round != {} && round <= newFaces && newFaces' <= newFaces
    requires forall k :: 0 <= k < |rest| ==> rest[k] != {} && rest[k] <= newFaces'
    requires i < |rest| + 1
    ensures ([round] + rest)[i] != {} && ([round] + rest)[i] <= newFaces
  {
    if i > 0 {
      assert ([round] + rest)[i] == rest[i - 1];
    }
  }

  /** Rounds stay disjoint when a round of other faces is put in front of them. */
  lemma DisjointAfterNewRound(round: set<Face>, rest: seq<set<Face>>, outside: set<Face>, i: nat, j: nat)
    requires round !! outside
    requires forall k :: 0 <= k < |rest| ==> rest[k] <= outside
    requires forall k, l :: 0 <= k < l < |rest| ==> rest[k] !! rest[l]
    requires i < j < |rest| + 1
    ensures ([round] + rest)[i] !! ([round] + rest)[j]
  {
    assert ([round] + rest)[j] == rest[j - 1];
    if i > 0 {
      assert ([round] + rest)[i] == rest[i - 1];
    }
  }

  /** No two rounds share a face. */
  lemma {:induction false} RoundsAreDisjoint(b: Bundle, alreadyAdded: set<Face>)
    requires WellFormed(b) && Acyclic(b) && alreadyAdded <= b.faces
    ensures var rounds := Rounds(b, alreadyAdded);
            forall i, j :: 0 <= i < j < |rounds| ==> rounds[i] !! rounds[j]
    decreases b.faces - alreadyAdded
  {
    var rounds := Rounds(b, alreadyAdded);
    if |b.faces| != |alreadyAdded| {
      RoundsStep(b, alreadyAdded);
      var round := Eligible(b, alreadyAdded);
      var rest := Rounds(b, alreadyAdded + round);
      RoundsAreDisjoint(b, alreadyAdded + round);
      RoundsAreNewFaces(b, alreadyAdded + round);
      var outside := b.faces - (alreadyAdded + round);
      forall i, j | 0 <= i < j < |rounds| ensures rounds[i] !! rounds[j] {
        DisjointAfterNewRound(round, rest, outside, i, j);
      }
    }
  }

  /** Every face not added before is in some round. */
  lemma {:induction false} RoundsCoverFaces(b: Bundle, alreadyAdded: set<Face>)
    requires WellFormed(b) && Acyclic(b) && alreadyAdded <= b.faces
    ensures var rounds := Rounds(b, alreadyAdded);
            forall f :: f in b.faces - alreadyAdded ==> exists i :: 0 <= i < |rounds| && f in rounds[i]
    decreases b.faces - alreadyAdded
  {
    var rounds := Rounds(b, alreadyAdded);
    if |b.faces| == |alreadyAdded| {
      SubsetOfSameSize(alreadyAdded, b.faces);
    } else {
      RoundsStep(b, alreadyAdded);
      var round := Eligible(b, alreadyAdded);
      var rest := Rounds(b, alreadyAdded + round);
      RoundsCoverFaces(b, alreadyAdded + round);
      forall f | f in b.faces - alreadyAdded ensures exists i :: 0 <= i < |rounds| && f in rounds[i] {
        if f !in round {
          assert f in b.faces - (alreadyAdded + round);
          var i :| 0 <= i < |rest| && f in rest[i];
          assert rounds[i + 1] == rest[i];
        } else {
          assert f in rounds[0];
        }
      }
    }
  }

  /** Every face directly below a face of a round was added before that round. */
  lemma {:induction false} RoundsRespectBelow(b: Bundle, alreadyAdded: set<Face>)
    requires WellFormed(b) && Acyclic(b) && alreadyAdded <= b.faces
    ensures var rounds := Rounds(b, alreadyAdded);
            forall i, f :: 0 <= i < |rounds| && f in rounds[i] && f in b.facesToFacesBelow ==>
              b.facesToFacesBelow[f] <= alreadyAdded + UnionOf(rounds[..i])
    decreases b.faces - alreadyAdded
  {
    var rounds := Rounds(b, alreadyAdded);
    if |b.faces| != |alreadyAdded| {
      RoundsStep(b, alreadyAdded);
      var round := Eligible(b, alreadyAdded);
      var rest := Rounds(b, alreadyAdded + round);
      RoundsRespectBelow(b, alreadyAdded + round);
      forall i, f | 0 <= i < |rounds| && f in rounds[i] && f in b.facesToFacesBelow
        ensures b.facesToFacesBelow[f] <= alreadyAdded + UnionOf(rounds[..i])
      {
        if i > 0 {
          assert rounds[i] == rest[i - 1];
          UnionOfPrefix(round, rest, i);
        } else {
          assert f in round;
        }
      }
    }
  }

  /** Each face of the upper round has a face directly below it in the lower round. */
  predicate RestsOn(b: Bundle, lower: set<Face>, upper: set<Face>)
  {
    forall f :: f in upper ==> f in b.facesToFacesBelow && exists g :: g in b.facesToFacesBelow[f] && g in lower
  }

  /** Each face of the round after the next one rests on a face of the next one. */
  lemma NextRoundRestsOnRound(b: Bundle, alreadyAdded: set<Face>)
    requires WellFormed(b) && Acyclic(b) && alreadyAdded <= b.faces
    ensures var round := Eligible(b, alreadyAdded);
            RestsOn(b, round, Eligible(b, alreadyAdded + round))
  {
    var round := Eligible(b, alreadyAdded);
    forall f | f in Eligible(b, alreadyAdded + round)
      ensures f in b.facesToFacesBelow && exists g :: g in b.facesToFacesBelow[f] && g in round
    {
      assert f in b.faces && f !in alreadyAdded + round;
      assert !CanBeAdded(b, alreadyAdded, f);
      var g :| g in b.facesToFacesBelow[f] && g !in alreadyAdded;
    }
  }

  /** Consecutive rounds still rest on each other when a round is put in front of them that the first of them rests on. */
  lemma GreedyAfterNewRound(b: Bundle, round: set<Face>, rest: seq<set<Face>>, i: nat)
    requires forall k, l :: 0 <= k < l < |rest| && l == k + 1 ==> RestsOn(b, rest[k], rest[l])
    requires 0 < |rest| ==> RestsOn(b, round, rest[0])
    requires i + 1 < |rest| + 1
    ensures RestsOn(b, ([round] + rest)[i], ([round] + rest)[i + 1])
  {
    assert ([round] + rest)[i + 1] == rest[i];
    if i > 0 {
      assert ([round] + rest)[i] == rest[i - 1];
    }
  }

  /**
   * The rounds are greedy: a face of any round after the first has a face
   * directly below it in the round just before, so no face could have been
   * placed lower.
   */
  lemma {:induction false} RoundsAreGreedy(b: Bundle, alreadyAdded: set<Face>)
    requires WellFormed(b) && Acyclic(b) && alreadyAdded <= b.faces
    ensures var rounds := Rounds(b, alreadyAdded);
            forall i, j :: 0 <= i < j < |rounds| && j == i + 1 ==> RestsOn(b, rounds[i], rounds[j])
    decreases b.faces - alreadyAdded
  {
    var rounds := Rounds(b, alreadyAdded);
    if |b.faces| != |alreadyAdded| {
      RoundsStep(b, alreadyAdded);
      var round := Eligible(b, alreadyAdded);
      var rest := Rounds(b, alreadyAdded + round);
      RoundsAreGreedy(b, alreadyAdded + round);
      if 0 < |rest| {
        RoundsStep(b, alreadyAdded + round);
        NextRoundRestsOnRound(b, alreadyAdded);
      }
      forall i, j | 0 <= i < j < |rounds| && j == i + 1 ensures RestsOn(b, rounds[i], rounds[j]) {
        GreedyAfterNewRound(b, round, rest, i);
      }
    }
  }

  /** One step of the layer maker, in terms of the round it takes. */
  lemma LayersStep(lib: GeometryLibrary, b: Bundle, alreadyAdded: set<Face>, layers: seq<Layer>)
    requires WellFormed(b) && Acyclic(b) && alreadyAdded <= b.faces && |b.faces| != |alreadyAdded|
    ensures var round := Eligible(b, alreadyAdded);
            MakeBottomToTopLayersRec(lib, b, alreadyAdded, layers) ==
            MakeBottomToTopLayersRec(lib, b, alreadyAdded + round, layers + [LayerOf(ClassifiedFaces(lib, b, round))])
  {
    assert NewLayerFaces(lib, b, alreadyAdded).Keys == Eligible(b, alreadyAdded);
  }

  lemma AppendAssociates<T>(a: seq<T>, x: T, rest: seq<T>)
    ensures (a + [x]) + rest == a + ([x] + rest)
  {
  }

  /** The layers of the given rounds, in order. */
  function RoundLayers(lib: GeometryLibrary, b: Bundle, rounds: seq<set<Face>>): (layers: seq<Layer>)
    ensures |layers| == |rounds|
  {
    if rounds == [] then []
    else [LayerOf(ClassifiedFaces(lib, b, rounds[0]))] + RoundLayers(lib, b, rounds[1..])
  }

  lemma {:induction false} RoundLayersAt(lib: GeometryLibrary, b: Bundle, rounds: seq<set<Face>>, i: nat)
    requires i < |rounds|
    ensures RoundLayers(lib, b, rounds)[i] == LayerOf(ClassifiedFaces(lib, b, rounds[i]))
  {
    if i > 0 {
      RoundLayersAt(lib, b, rounds[1..], i - 1);
    }
  }

  /**
   * Layer i is the layer of round i: exactly the round's faces that are not
   * hidden on both sides, each with its side; so every layer keeps the
   * Layer invariant, and a round whose faces are all hidden still adds an
   * (empty) layer.
   */
  lemma {:induction false} LayersFollowRounds(lib: GeometryLibrary, b: Bundle, alreadyAdded: set<Face>,
                                              layers: seq<Layer>)
    requires WellFormed(b) && Acyclic(b) && alreadyAdded <= b.faces
    ensures MakeBottomToTopLayersRec(lib, b, alreadyAdded, layers)
            == layers + RoundLayers(lib, b, Rounds(b, alreadyAdded))
    decreases b.faces - alreadyAdded
  {
    if |b.faces| != |alreadyAdded| {
      RoundsStep(b, alreadyAdded);
      LayersStep(lib, b, alreadyAdded, layers);
      var round := Eligible(b, alreadyAdded);
      var first := LayerOf(ClassifiedFaces(lib, b, round));
      LayersFollowRounds(lib, b, alreadyAdded + round, layers + [first]);
      var rest := Rounds(b, alreadyAdded + round);
      assert ([round] + rest)[1..] == rest;
      assert RoundLayers(lib, b, [round] + rest) == [first] + RoundLayers(lib, b, rest);
      AppendAssociates(layers, first, RoundLayers(lib, b, rest));
    } else {
      assert Rounds(b, alreadyAdded) == [];
    }
  }

  /** The layer of a round holds the round's faces that are seen from some side, with their sides. */
  lemma LayerOfRound(lib: GeometryLibrary, b: Bundle, round: set<Face>)
    ensures var l := LayerOf(ClassifiedFaces(lib, b, round));
            l.Valid() &&
            l.Faces() == (set f | f in round && Classify(lib, b, f) != NONE) &&
            forall f :: f in l.Faces() ==> l.faceToSideToRender[f] == Classify(lib, b, f)
  {
    var l := LayerOf(ClassifiedFaces(lib, b, round));
    assert l.Faces() == (set f | f in round && Classify(lib, b, f) != NONE) by {
      forall f | f in round && Classify(lib, b, f) != NONE ensures f in l.Faces() {
        assert ClassifiedFaces(lib, b, round)[f] != NONE;
      }
    }
  }

  /**
   * The layers of a whole bundle: one per round, each valid, each holding
   * the visible faces of its round; faces hidden on both sides are in no
   * layer.
   */
  lemma BottomToTopLayersAreRounds(lib: GeometryLibrary, b: Bundle)
    requires WellFormed(b) && Acyclic(b)
    ensures var layers := MakeBottomToTopLayers(lib, b);
            var rounds := Rounds(b, {});
            |layers| == |rounds| &&
            forall i :: 0 <= i < |rounds| ==>
              layers[i].Valid() &&
              layers[i].Faces() == (set f | f in rounds[i] && Classify(lib, b, f) != NONE) &&
              forall f :: f in layers[i].Faces() ==> layers[i].faceToSideToRender[f] == Classify(lib, b, f)
  {
    var layers := MakeBottomToTopLayers(lib, b);
    var rounds := Rounds(b, {});
    LayersFollowRounds(lib, b, {}, []);
    assert layers == RoundLayers(lib, b, rounds) by {
      assert [] + RoundLayers(lib, b, rounds) == RoundLayers(lib, b, rounds);
    }
    forall i | 0 <= i < |rounds|
      ensures layers[i].Valid()
      ensures layers[i].Faces() == (set f | f in rounds[i] && Classify(lib, b, f) != NONE)
      ensures forall f :: f in layers[i].Faces() ==> layers[i].faceToSideToRender[f] == Classify(lib, b, f)
    {
      RoundLayersAt(lib, b, rounds, i);
      LayerOfRound(lib, b, rounds[i]);
    }
  }
}
