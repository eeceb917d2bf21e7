/** A detection of the shape in an image (Detector/detection.cpp): a
    bounding box and an integer confidence, the raw vote count. `==`
    compares both; `<` compares the confidence alone, which is what lets a
    list of detections be kept in vote order whatever the boxes are. */
module Detections {
  import opened CInt

  /** Qt's QRect as Qt stores it: the left, top, right and bottom
      coordinates, both corners inclusive; two rectangles are equal when
      all four coordinates are. */
  datatype Rect = Rect(x1: int32, y1: int32, x2: int32, y2: int32) {
    function Left(): int { x1 as int }
    function Top(): int { y1 as int }
    function Width(): int { x2 as int - x1 as int + 1 }
    function Height(): int { y2 as int - y1 as int + 1 }

    /** QRect::isNull: width and height both zero. */
    predicate IsNull() {
      Width() == 0 && Height() == 0
    }
  }

  /** What `QRect()` constructs: top-left (0, 0), right and bottom -1. */
  const DefaultRect: Rect := Rect(0, 0, -1, -1)

  /** The value constructor `Detection(box, confidence)` stores exactly its
      two arguments. */
  datatype Detection = Detection(box: Rect, confidence: int32)

  /** `Detection()`: a null box at the origin and no votes. */
  function DefaultDetection(): (d: Detection)
    ensures d.confidence == 0
    ensures d.box.IsNull() && d.box.Left() == 0 && d.box.Top() == 0
  {
    Detection(DefaultRect, 0)
  }

  /** `operator==`: same box and same confidence, which for this value
      type is identity. */
  predicate Equal(a: Detection, b: Detection)
    ensures Equal(a, b) <==> a == b
  {
    b.box == a.box && b.confidence == a.confidence
  }

  /** `operator<`: fewer votes, whatever the boxes; never between a
      detection and itself. */
  predicate Less(a: Detection, b: Detection)
    ensures Less(a, b) ==> a != b
  {
    a.confidence < b.confidence
  }

  /** Neither is less than the other. */
  predicate Incomparable(a: Detection, b: Detection) {
    !Less(a, b) && !Less(b, a)
  }

  ghost predicate EquivalenceRelation(eq: (Detection, Detection) -> bool) {
    && (forall a :: eq(a, a))
    && (forall a, b :: eq(a, b) ==> eq(b, a))
    && (forall a, b, c :: eq(a, b) && eq(b, c) ==> eq(a, c))
  }

  /** A strict weak order: irreflexive, transitive, and with a transitive
      incomparability, which is what sorting and top-K selection need. */
  ghost predicate StrictWeakOrder(lt: (Detection, Detection) -> bool) {
    && (forall a :: !lt(a, a))
    && (forall a, b, c :: lt(a, b) && lt(b, c) ==> lt(a, c))
    && (forall a, b, c :: !lt(a, b) && !lt(b, a) && !lt(b, c) && !lt(c, b) ==> !lt(a, c) && !lt(c, a))
  }

  /** Hence `==` is reflexive, symmetric and transitive. */
  lemma EqualIsEquivalence()
    ensures EquivalenceRelation(Equal)
  {
  }

  /** `<` is a strict weak order on detections. */
  lemma LessIsStrictWeakOrder()
    ensures StrictWeakOrder(Less)
  {
  }

  /** `<` is asymmetric: at most one of `a < b` and `b < a` holds. */
  lemma LessAsymmetric(a: Detection, b: Detection)
    ensures Less(a, b) ==> !Less(b, a)
  {
  }

  /** Replacing either box never changes the outcome of `<`. */
  lemma LessIgnoresBox(a: Detection, b: Detection, boxA: Rect, boxB: Rect)
    ensures Less(a, b) <==> Less(a.(box := boxA), b.(box := boxB))
  {
  }

  /** Two detections are incomparable under `<` exactly when their
      confidences are equal. */
  lemma IncomparableIffSameConfidence(a: Detection, b: Detection)
    ensures Incomparable(a, b) <==> a.confidence == b.confidence
  {
  }

  /** `<` is compatible with `==`: equal detections are incomparable. */
  lemma EqualImpliesIncomparable(a: Detection, b: Detection)
    ensures Equal(a, b) ==> Incomparable(a, b)
  {
  }

  /** The converse fails: two detections with the same confidence and
      different boxes are incomparable without being equal. */
  lemma IncomparableNotEqual()
    ensures exists a: Detection, b: Detection :: Incomparable(a, b) && !Equal(a, b)
  {
    var a := Detection(DefaultRect, 7);
    var b := Detection(Rect(0, 0, 9, 9), 7);
    assert Incomparable(a, b) && !Equal(a, b);
  }
}
