/** The detections an image appends to the operator's outputs: for every
    foreground class in ascending order, one score, four raw box coordinates
    and the class index per kept RoI. */
module Output {
  import opened Quant
  import opened Geometry
  import opened Selection
  import opened Image

  /** The score, box and class outputs; boxes hold four coordinates per
      detection. */
  datatype Detections = Detections(scores: seq<real>, boxes: seq<uint16>, classes: seq<int>)

  const NoDetections := Detections([], [], [])

  /** One score, one box and one class per detection. */
  predicate Shaped(d: Detections) {
    |d.classes| == |d.scores| && |d.boxes| == 4 * |d.scores|
  }

  function Append(d: Detections, e: Detections): Detections {
    Detections(d.scores + e.scores, d.boxes + e.boxes, d.classes + e.classes)
  }

  /** The four raw coordinates of (roi, cls), copied from the input box table. */
  function BoxRaw(ctx: Ctx, roi: int, cls: int): (r: seq<uint16>)
    requires ValidCtx(ctx) && 0 <= roi < ctx.numRois && 0 <= cls < ctx.numClasses
    ensures |r| == 4
    ensures forall t :: 0 <= t < 4 ==>
      r[t] == ctx.boxes[Slot(ctx.numRois, ctx.numClasses, roi, cls) * 4 + t]
  {
    var s := Slot(ctx.numRois, ctx.numClasses, roi, cls);
    assert s * 4 + 4 <= ctx.numRois * ctx.numClasses * 4;
    ctx.boxes[s * 4..s * 4 + 4]
  }

  /** The detections of one class, in keep-list order. */
  function ClassDetections(ctx: Ctx, buf: seq<uint8>, cls: int, rois: seq<int>): (r: Detections)
    requires ValidCtx(ctx) && Fits(ctx, buf) && Foreground(ctx, cls) && Rows(ctx, rois)
    decreases |rois|
  {
    if rois == [] then NoDetections
    else
      var roi := rois[|rois| - 1];
      Append(ClassDetections(ctx, buf, cls, rois[..|rois| - 1]),
             Detections([ScoreAt(ctx, buf, roi, cls)], BoxRaw(ctx, roi, cls), [cls]))
  }

  /** The detections of classes 1 .. upto-1, class after class. */
  function ImageDetections(ctx: Ctx, buf: seq<uint8>, keeps: seq<seq<int>>, upto: int): (r: Detections)
    requires ValidCtx(ctx) && Fits(ctx, buf) && KeepRows(ctx, keeps) && (upto <= ctx.numClasses || upto <= 1)
    decreases upto
  {
    if upto <= 1 then NoDetections
    else
      assert Rows(ctx, keeps[upto - 1]);
      Append(ImageDetections(ctx, buf, keeps, upto - 1),
             ClassDetections(ctx, buf, upto - 1, keeps[upto - 1]))
  }

  /** A class contributes one detection per kept RoI: the k-th carries the
      dequantized working score of its RoI, its raw input box and the class. */
  lemma {:induction false} ClassDetectionsSpec(ctx: Ctx, buf: seq<uint8>, cls: int, rois: seq<int>)
    requires ValidCtx(ctx) && Fits(ctx, buf) && Foreground(ctx, cls) && Rows(ctx, rois)
    ensures var d := ClassDetections(ctx, buf, cls, rois);
      && Shaped(d) && |d.scores| == |rois|
      && (forall k :: 0 <= k < |rois| ==>
            && d.scores[k] == ScoreAt(ctx, buf, rois[k], cls)
            && d.boxes[4 * k..4 * k + 4] == BoxRaw(ctx, rois[k], cls)
            && d.classes[k] == cls)
    decreases |rois|
  {
    if rois != [] {
      var init := rois[..|rois| - 1];
      var roi := rois[|rois| - 1];
      ClassDetectionsSpec(ctx, buf, cls, init);
      var d0 := ClassDetections(ctx, buf, cls, init);
      var one := Detections([ScoreAt(ctx, buf, roi, cls)], BoxRaw(ctx, roi, cls), [cls]);
      assert one.boxes[0..4] == BoxRaw(ctx, roi, cls);
      forall k | 0 <= k < |rois|
        ensures var d := Append(d0, one);
          && d.scores[k] == ScoreAt(ctx, buf, rois[k], cls)
          && d.boxes[4 * k..4 * k + 4] == BoxRaw(ctx, rois[k], cls)
          && d.classes[k] == cls
      {
        AppendAt(d0, one, k);
      }
    }
  }

  lemma ClassDetectionsCount(ctx: Ctx, buf: seq<uint8>, cls: int, rois: seq<int>)
    requires ValidCtx(ctx) && Fits(ctx, buf) && Foreground(ctx, cls) && Rows(ctx, rois)
    ensures var d := ClassDetections(ctx, buf, cls, rois);
      Shaped(d) && |d.scores| == |rois|
  {
    ClassDetectionsSpec(ctx, buf, cls, rois);
  }

  /** An image contributes exactly as many detections as its classes kept. */
  lemma {:induction false} ImageDetectionsCount(ctx: Ctx, buf: seq<uint8>, keeps: seq<seq<int>>, upto: int)
    requires ValidCtx(ctx) && Fits(ctx, buf) && KeepRows(ctx, keeps) && upto <= ctx.numClasses
    ensures var d := ImageDetections(ctx, buf, keeps, upto);
      Shaped(d) && |d.scores| == Kept(keeps, upto)
    decreases upto
  {
    if upto > 1 {
      ImageDetectionsCount(ctx, buf, keeps, upto - 1);
      assert Rows(ctx, keeps[upto - 1]);
      ClassDetectionsCount(ctx, buf, upto - 1, keeps[upto - 1]);
    }
  }

  /** Appending keeps the detections already there and places the new ones
      right after them. */
  lemma AppendAt(d: Detections, e: Detections, j: int)
    requires Shaped(d) && Shaped(e) && 0 <= j < |d.scores| + |e.scores|
    ensures var a := Append(d, e);
      && Shaped(a)
      && (j < |d.scores| ==>
            a.scores[j] == d.scores[j] && a.classes[j] == d.classes[j]
            && a.boxes[4 * j..4 * j + 4] == d.boxes[4 * j..4 * j + 4])
      && (j >= |d.scores| ==>
            var k := j - |d.scores|;
            a.scores[j] == e.scores[k] && a.classes[j] == e.classes[k]
            && a.boxes[4 * j..4 * j + 4] == e.boxes[4 * k..4 * k + 4])
  {
    var a := Append(d, e);
    if j >= |d.scores| {
      var k := j - |d.scores|;
      assert 4 * j == |d.boxes| + 4 * k;
      assert a.boxes[4 * j..4 * j + 4] == e.boxes[4 * k..4 * k + 4];
    } else {
      assert a.boxes[4 * j..4 * j + 4] == d.boxes[4 * j..4 * j + 4];
    }
  }

  /** The detections of class c start at Kept(keeps, c), the count of the
      classes before it; the k-th carries the k-th kept RoI of c. */
  lemma {:induction false} DetectionAt(ctx: Ctx, buf: seq<uint8>, keeps: seq<seq<int>>, upto: int, c: int, k: int)
    requires ValidCtx(ctx) && Fits(ctx, buf) && KeepRows(ctx, keeps) && upto <= ctx.numClasses
    requires 1 <= c < upto && 0 <= k < |keeps[c]|
    ensures DetectionIs(ctx, buf, keeps, upto, c, k)
    decreases upto
  {
    if c < upto - 1 {
      DetectionAt(ctx, buf, keeps, upto - 1, c, k);
      DetectionKept(ctx, buf, keeps, upto, c, k);
    } else {
      DetectionLast(ctx, buf, keeps, upto, k);
    }
  }

  /** The detection at Kept(keeps, c) + k of classes 1 .. upto-1 is the k-th
      kept RoI of class c. */
  predicate DetectionIs(ctx: Ctx, buf: seq<uint8>, keeps: seq<seq<int>>, upto: int, c: int, k: int)
    requires ValidCtx(ctx) && Fits(ctx, buf) && KeepRows(ctx, keeps) && upto <= ctx.numClasses
    requires 1 <= c < upto && 0 <= k < |keeps[c]|
  {
    var d := ImageDetections(ctx, buf, keeps, upto);
    var j := Kept(keeps, c) + k;
    && Shaped(d) && j < |d.scores|
    && d.scores[j] == ScoreAt(ctx, buf, keeps[c][k], c)
    && d.boxes[4 * j..4 * j + 4] == BoxRaw(ctx, keeps[c][k], c)
    && d.classes[j] == c
  }

  /** Appending class upto-1 keeps the detections of the classes before it. */
  lemma DetectionKept(ctx: Ctx, buf: seq<uint8>, keeps: seq<seq<int>>, upto: int, c: int, k: int)
    requires ValidCtx(ctx) && Fits(ctx, buf) && KeepRows(ctx, keeps) && upto <= ctx.numClasses
    requires 1 <= c < upto - 1 && 0 <= k < |keeps[c]|
    requires DetectionIs(ctx, buf, keeps, upto - 1, c, k)
    ensures DetectionIs(ctx, buf, keeps, upto, c, k)
  {
    var j := Kept(keeps, c) + k;
    ImageDetectionsCount(ctx, buf, keeps, upto - 1);
    KeptMono(keeps, upto - 1, upto);
    AppendDetections(ctx, buf, keeps, upto, j);
  }

  /** The detections of class upto-1 follow those of the classes before it. */
  lemma DetectionLast(ctx: Ctx, buf: seq<uint8>, keeps: seq<seq<int>>, upto: int, k: int)
    requires ValidCtx(ctx) && Fits(ctx, buf) && KeepRows(ctx, keeps) && 1 < upto <= ctx.numClasses
    requires 0 <= k < |keeps[upto - 1]|
    ensures DetectionIs(ctx, buf, keeps, upto, upto - 1, k)
  {
    hide ImageDetections, ScoreAt, BoxRaw;
    var c := upto - 1;
    var j := Kept(keeps, c) + k;
    assert Kept(keeps, upto) == Kept(keeps, c) + |keeps[c]|;
    AppendDetections(ctx, buf, keeps, upto, j);
    ClassDetectionsSpec(ctx, buf, c, keeps[c]);
  }

  /** One step of ImageDetections in terms of AppendAt. */
  lemma AppendDetections(ctx: Ctx, buf: seq<uint8>, keeps: seq<seq<int>>, upto: int, j: int)
    requires ValidCtx(ctx) && Fits(ctx, buf) && KeepRows(ctx, keeps) && 1 < upto <= ctx.numClasses
    requires 0 <= j < Kept(keeps, upto)
    ensures Rows(ctx, keeps[upto - 1])
    ensures var d0 := ImageDetections(ctx, buf, keeps, upto - 1);
      var e := ClassDetections(ctx, buf, upto - 1, keeps[upto - 1]);
      var d := ImageDetections(ctx, buf, keeps, upto);
      && Shaped(d0) && |d0.scores| == Kept(keeps, upto - 1)
      && Shaped(d) && |d.scores| == Kept(keeps, upto)
      && (j < |d0.scores| ==>
            d.scores[j] == d0.scores[j] && d.classes[j] == d0.classes[j]
            && d.boxes[4 * j..4 * j + 4] == d0.boxes[4 * j..4 * j + 4])
      && (j >= |d0.scores| ==>
            var k := j - |d0.scores|;
            d.scores[j] == e.scores[k] && d.classes[j] == e.classes[k]
            && d.boxes[4 * j..4 * j + 4] == e.boxes[4 * k..4 * k + 4])
  {
    hide ClassDetections, ScoreAt, BoxRaw;
    assert Rows(ctx, keeps[upto - 1]);
    var d0 := ImageDetections(ctx, buf, keeps, upto - 1);
    var e := ClassDetections(ctx, buf, upto - 1, keeps[upto - 1]);
    assert ImageDetections(ctx, buf, keeps, upto) == Append(d0, e);
    ImageDetectionsCount(ctx, buf, keeps, upto - 1);
    ClassDetectionsCount(ctx, buf, upto - 1, keeps[upto - 1]);
    AppendAt(d0, e, j);
  }

  /** The count over classes grows with the number of classes counted. */
  lemma {:induction false} KeptMono(keeps: seq<seq<int>>, u: int, v: int)
    requires 1 <= u <= v <= |keeps|
    ensures Kept(keeps, u) <= Kept(keeps, v)
    decreases v - u
  {
    if u < v {
      KeptMono(keeps, u, v - 1);
    }
  }

  /** An image's classes are foreground classes in non-decreasing order. */
  lemma {:induction false} ImageDetectionsClasses(ctx: Ctx, buf: seq<uint8>, keeps: seq<seq<int>>, upto: int)
    requires ValidCtx(ctx) && Fits(ctx, buf) && KeepRows(ctx, keeps) && upto <= ctx.numClasses
    ensures var d := ImageDetections(ctx, buf, keeps, upto);
      && (forall j :: 0 <= j < |d.classes| ==> 1 <= d.classes[j] < upto)
      && (forall i, j :: 0 <= i < j < |d.classes| ==> d.classes[i] <= d.classes[j])
    decreases upto
  {
    if upto > 1 {
      ImageDetectionsClasses(ctx, buf, keeps, upto - 1);
      assert Rows(ctx, keeps[upto - 1]);
      ClassDetectionsSpec(ctx, buf, upto - 1, keeps[upto - 1]);
      ImageDetectionsCount(ctx, buf, keeps, upto - 1);
    }
  }
}
