/** Boxes of the flattened (num_rois, num_classes * 4) box table and their
    overlap, in the fixed-point units of the table (1/8 pixel). */
module Geometry {
  import opened Quant

  datatype Box = Box(x1: real, y1: real, x2: real, y2: real)

  /** A raw uint16 coordinate in pixels. */
  function Coord(raw: uint16): real {
    (raw as real) * 0.125
  }

  lemma SlotBounds(numRois: int, numClasses: int, roi: int, cls: int)
    requires 0 <= roi < numRois && 0 <= cls < numClasses
    ensures 0 <= roi * numClasses + cls < numRois * numClasses
  {
    assert roi * numClasses >= 0;
    assert (roi + 1) * numClasses <= numRois * numClasses;
  }

  /** Row-major position of (roi, cls) in a (num_rois, num_classes) table. */
  function Slot(numRois: int, numClasses: int, roi: int, cls: int): (s: nat)
    requires 0 <= roi < numRois && 0 <= cls < numClasses
    ensures s < numRois * numClasses
  {
    SlotBounds(numRois, numClasses, roi, cls);
    roi * numClasses + cls
  }

  /** Distinct (roi, cls) cells occupy distinct slots. */
  lemma {:induction false} SlotInjective(numRois: int, numClasses: int, r1: int, c1: int, r2: int, c2: int)
    requires 0 <= r1 < numRois && 0 <= c1 < numClasses
    requires 0 <= r2 < numRois && 0 <= c2 < numClasses
    ensures Slot(numRois, numClasses, r1, c1) == Slot(numRois, numClasses, r2, c2) <==> r1 == r2 && c1 == c2
  {
    if r1 < r2 {
      assert (r1 + 1) * numClasses <= r2 * numClasses;
    } else if r2 < r1 {
      assert (r2 + 1) * numClasses <= r1 * numClasses;
    }
  }

  /** The box of (roi, cls): coordinates (x1, y1, x2, y2) at (roi * C + cls) * 4. */
  function BoxAt(boxes: seq<uint16>, numRois: int, numClasses: int, roi: int, cls: int): Box
    requires |boxes| == numRois * numClasses * 4
    requires 0 <= roi < numRois && 0 <= cls < numClasses
  {
    var s := Slot(numRois, numClasses, roi, cls);
    Box(Coord(boxes[s * 4]), Coord(boxes[s * 4 + 1]), Coord(boxes[s * 4 + 2]), Coord(boxes[s * 4 + 3]))
  }

  /** A box with positive width and height. */
  predicate Proper(b: Box) {
    b.x1 < b.x2 && b.y1 < b.y2
  }

  /** Every box of a non-background class is proper. */
  predicate ProperBoxes(boxes: seq<uint16>, numRois: int, numClasses: int)
    requires |boxes| == numRois * numClasses * 4
  {
    forall r, c :: 0 <= r < numRois && 1 <= c < numClasses ==> Proper(BoxAt(boxes, numRois, numClasses, r, c))
  }

  function Max(a: real, b: real): real {
    if a < b then b else a
  }

  function Min(a: real, b: real): real {
    if b < a then b else a
  }

  function Area(b: Box): real {
    (b.x2 - b.x1) * (b.y2 - b.y1)
  }

  /** Area of the overlap of p and i, width and height clamped at zero. */
  function Intersection(p: Box, i: Box): real {
    Max(Min(p.x2, i.x2) - Max(p.x1, i.x1), 0.0) * Max(Min(p.y2, i.y2) - Max(p.y1, i.y1), 0.0)
  }

  function Union(p: Box, i: Box): real {
    Area(i) + Area(p) - Intersection(p, i)
  }

  /** The division-free overlap test: candidate i is not suppressed by p. */
  predicate WithinIou(maxIou: real, p: Box, i: Box) {
    Intersection(p, i) <= maxIou * Union(p, i)
  }

  lemma ProductMono(a: real, b: real, c: real, d: real)
    requires 0.0 <= a <= c && 0.0 <= b <= d
    ensures 0.0 <= a * b <= c * d
  {
    assert a * b <= c * b;
    assert c * b <= c * d;
  }

  lemma ProductPos(a: real, b: real)
    requires 0.0 < a && 0.0 < b
    ensures 0.0 < a * b
  {
  }

  lemma AreaPositive(b: Box)
    requires Proper(b)
    ensures Area(b) > 0.0
  {
    ProductPos(b.x2 - b.x1, b.y2 - b.y1);
  }

  /** For proper boxes the overlap lies between zero and each area, so the
      union is positive and at least the overlap. */
  lemma OverlapBounds(p: Box, i: Box)
    requires Proper(p) && Proper(i)
    ensures 0.0 <= Intersection(p, i) <= Area(p)
    ensures Intersection(p, i) <= Area(i)
    ensures 0.0 < Union(p, i) && Intersection(p, i) <= Union(p, i)
  {
    var w := Max(Min(p.x2, i.x2) - Max(p.x1, i.x1), 0.0);
    var h := Max(Min(p.y2, i.y2) - Max(p.y1, i.y1), 0.0);
    ProductMono(w, h, p.x2 - p.x1, p.y2 - p.y1);
    ProductMono(w, h, i.x2 - i.x1, i.y2 - i.y1);
    AreaPositive(i);
  }

  /** Intersection over union, defined where the union is positive. */
  function Iou(p: Box, i: Box): (r: real)
    requires Proper(p) && Proper(i)
    ensures 0.0 <= r <= 1.0
    ensures r * Union(p, i) == Intersection(p, i)
  {
    OverlapBounds(p, i);
    Intersection(p, i) / Union(p, i)
  }

  /** The division-free test is the usual IoU threshold. */
  lemma WithinIouMeansIouBelow(maxIou: real, p: Box, i: Box)
    requires Proper(p) && Proper(i)
    ensures WithinIou(maxIou, p, i) <==> Iou(p, i) <= maxIou
  {
    OverlapBounds(p, i);
    var u := Union(p, i);
    var r := Iou(p, i);
    if r <= maxIou {
      ProductMono(maxIou - r, u, maxIou - r, u);
      assert (maxIou - r) * u >= 0.0;
    } else {
      ProductPos(r - maxIou, u);
      assert (r - maxIou) * u > 0.0;
    }
  }

  /** Overlap does not depend on which box was picked first. */
  lemma OverlapSymmetric(maxIou: real, p: Box, i: Box)
    ensures Intersection(p, i) == Intersection(i, p)
    ensures Union(p, i) == Union(i, p)
    ensures WithinIou(maxIou, p, i) <==> WithinIou(maxIou, i, p)
  {
  }
}
