/** The output writing of one image: the outputs grow by the image's count,
    then the detections are written class by class at their offsets. */
module OutputImpl {
  import opened Quant
  import opened Geometry
  import opened Selection
  import opened Image
  import opened Output

  /** A prefix p + a of s, followed in t by x, makes p + (a + x) a prefix
      of t. */
  lemma Grow<T>(s: seq<T>, t: seq<T>, p: seq<T>, a: seq<T>, x: seq<T>, i: int)
    requires 0 <= i <= |s| && i + |x| <= |t| && s[..i] == p + a && t[..i + |x|] == s[..i] + x
    ensures t[..i + |x|] == p + (a + x)
  {
    assert (p + a) + x == p + (a + x);
  }

  /** One more kept RoI adds its detection at the end. */
  lemma ClassDetectionsNext(ctx: Ctx, buf: seq<uint8>, cls: int, rois: seq<int>, k: int)
    requires ValidCtx(ctx) && Fits(ctx, buf) && Foreground(ctx, cls) && Rows(ctx, rois) && 0 <= k < |rois|
    ensures ClassDetections(ctx, buf, cls, rois[..k + 1])
      == Append(ClassDetections(ctx, buf, cls, rois[..k]),
                Detections([ScoreAt(ctx, buf, rois[k], cls)], BoxRaw(ctx, rois[k], cls), [cls]))
  {
    assert rois[..k + 1][..k] == rois[..k];
  }

  /** Copies the four raw coordinates of (roi, cls) to box output offset o. */
  method WriteBox(ctx: Ctx, roi: int, cls: int, o: int, boxes: seq<uint16>) returns (boxes': seq<uint16>)
    requires ValidCtx(ctx) && 0 <= roi < ctx.numRois && 0 <= cls < ctx.numClasses
    requires 0 <= o && o + 4 <= |boxes|
    ensures |boxes'| == |boxes| && boxes'[..o + 4] == boxes[..o] + BoxRaw(ctx, roi, cls)
  {
    SlotBounds(ctx.numRois, ctx.numClasses, roi, cls);
    var s := roi * ctx.numClasses + cls;
    assert s * 4 + 4 <= |ctx.boxes|;
    boxes' := boxes;
    var t := 0;
    while t < 4
      invariant 0 <= t <= 4 && |boxes'| == |boxes|
      invariant boxes'[..o + t] == boxes[..o] + ctx.boxes[s * 4..s * 4 + t]
    {
      boxes' := boxes'[o + t := ctx.boxes[s * 4 + t]];
      assert boxes'[..o + t + 1] == boxes'[..o + t] + [ctx.boxes[s * 4 + t]];
      assert ctx.boxes[s * 4..s * 4 + t + 1] == ctx.boxes[s * 4..s * 4 + t] + [ctx.boxes[s * 4 + t]];
      t := t + 1;
    }
  }

  /** Writes the score and the box of one kept RoI at detection offset o;
      everything before the offset is left as it was. */
  method WriteDetection(ctx: Ctx, adj: array<uint8>, cls: int, roi: int, o: int, scores: seq<real>, boxes: seq<uint16>)
      returns (scores': seq<real>, boxes': seq<uint16>)
    requires ValidCtx(ctx) && Fits(ctx, adj[..]) && Foreground(ctx, cls) && 0 <= roi < ctx.numRois
    requires 0 <= o < |scores| && |boxes| == 4 * |scores|
    ensures |scores'| == |scores| && |boxes'| == |boxes|
    ensures scores'[..o + 1] == scores[..o] + [ScoreAt(ctx, adj[..], roi, cls)]
    ensures boxes'[..4 * o + 4] == boxes[..4 * o] + BoxRaw(ctx, roi, cls)
  {
    SlotBounds(ctx.numRois, ctx.numClasses, roi, cls);
    var score := (adj[roi * ctx.numClasses + cls] - ctx.zeroPoint) as real * ctx.scale;
    assert score == ScoreAt(ctx, adj[..], roi, cls);
    scores' := scores[o := score];
    assert scores'[..o + 1] == scores[..o] + [score];
    boxes' := WriteBox(ctx, roi, cls, 4 * o, boxes);
  }

  /** Writes the scores and boxes of one class's kept RoIs from detection
      offset at on; everything before the offset is left as it was. */
  method WriteScoresBoxes(ctx: Ctx, adj: array<uint8>, cls: int, rois: seq<int>, at: int,
                          scores: seq<real>, boxes: seq<uint16>)
      returns (scores': seq<real>, boxes': seq<uint16>)
    requires ValidCtx(ctx) && Fits(ctx, adj[..]) && Foreground(ctx, cls) && Rows(ctx, rois)
    requires 0 <= at && at + |rois| <= |scores| && |boxes| == 4 * |scores|
    ensures |scores'| == |scores| && |boxes'| == |boxes|
    ensures var d := ClassDetections(ctx, adj[..], cls, rois);
      && scores'[..at + |rois|] == scores[..at] + d.scores
      && boxes'[..4 * (at + |rois|)] == boxes[..4 * at] + d.boxes
  {
    ghost var buf := adj[..];
    scores', boxes' := scores, boxes;
    var k := 0;
    while k < |rois|
      invariant 0 <= k <= |rois| && |scores'| == |scores| && |boxes'| == |boxes|
      invariant var d := ClassDetections(ctx, buf, cls, rois[..k]);
        && scores'[..at + k] == scores[..at] + d.scores
        && boxes'[..4 * (at + k)] == boxes[..4 * at] + d.boxes
    {
      hide ClassDetections;
      ClassDetectionsNext(ctx, buf, cls, rois, k);
      ghost var d := ClassDetections(ctx, buf, cls, rois[..k]);
      ghost var s0, b0 := scores', boxes';
      scores', boxes' := WriteDetection(ctx, adj, cls, rois[k], at + k, scores', boxes');
      Grow(s0, scores', scores[..at], d.scores, [ScoreAt(ctx, buf, rois[k], cls)], at + k);
      Grow(b0, boxes', boxes[..4 * at], d.boxes, BoxRaw(ctx, rois[k], cls), 4 * (at + k));
      k := k + 1;
    }
    assert rois[..k] == rois;
  }

  /** Writes the class index of one class's kept RoIs from detection offset
      at on; everything before the offset is left as it was. */
  method WriteClasses(ctx: Ctx, adj: array<uint8>, cls: int, rois: seq<int>, at: int, classes: seq<int>)
      returns (classes': seq<int>)
    requires ValidCtx(ctx) && Fits(ctx, adj[..]) && Foreground(ctx, cls) && Rows(ctx, rois)
    requires 0 <= at && at + |rois| <= |classes|
    ensures |classes'| == |classes|
    ensures classes'[..at + |rois|] == classes[..at] + ClassDetections(ctx, adj[..], cls, rois).classes
  {
    classes' := classes;
    var k := 0;
    while k < |rois|
      invariant 0 <= k <= |rois| && |classes'| == |classes|
      invariant classes'[..at + k] == classes[..at] + ClassDetections(ctx, adj[..], cls, rois[..k]).classes
    {
      assert rois[..k + 1][..k] == rois[..k];
      classes' := classes'[at + k := cls];
      assert classes'[..at + k + 1] == classes'[..at + k] + [cls];
      k := k + 1;
    }
    assert rois[..k] == rois;
  }

  /** The outputs hold the old detections followed by those of classes
      1 .. upto-1, from detection offset start on. */
  ghost predicate WrittenUpTo(ctx: Ctx, buf: seq<uint8>, keeps: seq<seq<int>>, upto: int, out: Detections,
                              scores: seq<real>, boxes: seq<uint16>, classes: seq<int>)
    requires ValidCtx(ctx) && Fits(ctx, buf) && KeepRows(ctx, keeps) && (upto <= ctx.numClasses || upto <= 1)
  {
    var d := ImageDetections(ctx, buf, keeps, upto);
    var n := |out.scores| + Kept(keeps, upto);
    && n <= |scores| && |boxes| == 4 * |scores| && |classes| == |scores|
    && scores[..n] == out.scores + d.scores
    && boxes[..4 * n] == out.boxes + d.boxes
    && classes[..n] == out.classes + d.classes
  }

  /** One pass of the class loop: writes class cls right after the classes
      before it. */
  method WriteClass(ctx: Ctx, adj: array<uint8>, keeps: seq<seq<int>>, cls: int, out: Detections,
                    scores: seq<real>, boxes: seq<uint16>, classes: seq<int>)
      returns (scores': seq<real>, boxes': seq<uint16>, classes': seq<int>)
    requires ValidCtx(ctx) && Fits(ctx, adj[..]) && KeepRows(ctx, keeps) && Foreground(ctx, cls)
    requires |scores| == |out.scores| + Kept(keeps, ctx.numClasses)
    requires WrittenUpTo(ctx, adj[..], keeps, cls, out, scores, boxes, classes)
    ensures |scores'| == |scores|
    ensures WrittenUpTo(ctx, adj[..], keeps, cls + 1, out, scores', boxes', classes')
  {
    hide ClassDetections;
    var at := |out.scores| + Kept(keeps, cls);
    KeptMono(keeps, cls + 1, ctx.numClasses);
    assert Kept(keeps, cls + 1) == Kept(keeps, cls) + |keeps[cls]|;
    assert Rows(ctx, keeps[cls]);
    ghost var d := ImageDetections(ctx, adj[..], keeps, cls);
    ghost var e := ClassDetections(ctx, adj[..], cls, keeps[cls]);
    assert ImageDetections(ctx, adj[..], keeps, cls + 1) == Append(d, e);
    ClassDetectionsCount(ctx, adj[..], cls, keeps[cls]);
    ImageDetectionsCount(ctx, adj[..], keeps, cls);
    scores', boxes' := WriteScoresBoxes(ctx, adj, cls, keeps[cls], at, scores, boxes);
    classes' := WriteClasses(ctx, adj, cls, keeps[cls], at, classes);
    Grow(scores, scores', out.scores, d.scores, e.scores, at);
    Grow(classes, classes', out.classes, d.classes, e.classes, at);
    Grow(boxes, boxes', out.boxes, d.boxes, e.boxes, 4 * at);
  }

  /** Once every class is written, the outputs are exactly the old ones
      followed by the image's detections. */
  lemma WrittenAll(ctx: Ctx, buf: seq<uint8>, keeps: seq<seq<int>>, out: Detections,
                   scores: seq<real>, boxes: seq<uint16>, classes: seq<int>)
    requires ValidCtx(ctx) && Fits(ctx, buf) && KeepRows(ctx, keeps)
    requires |scores| == |out.scores| + Kept(keeps, ctx.numClasses)
    requires WrittenUpTo(ctx, buf, keeps, ctx.numClasses, out, scores, boxes, classes)
    ensures Detections(scores, boxes, classes) == Append(out, ImageDetections(ctx, buf, keeps, ctx.numClasses))
  {
    assert scores[..|scores|] == scores && classes[..|scores|] == classes && boxes[..|boxes|] == boxes;
  }

  /** Grows the outputs by the image's count and writes its detections, one
      class after the other from class 1 up; the result is the old outputs
      followed by the image's detections. */
  method AppendImage(ctx: Ctx, adj: array<uint8>, keeps: seq<seq<int>>, total: int, out: Detections)
      returns (out': Detections)
    requires ValidCtx(ctx) && Fits(ctx, adj[..]) && KeepRows(ctx, keeps) && Shaped(out)
    requires total == Kept(keeps, ctx.numClasses)
    ensures out' == Append(out, ImageDetections(ctx, adj[..], keeps, ctx.numClasses))
  {
    var scores := out.scores + seq(total, _ => 0.0);
    var boxes := out.boxes + seq(4 * total, _ => 0);
    var classes := out.classes + seq(total, _ => 0);
    assert scores[..|out.scores|] == out.scores && classes[..|out.scores|] == out.classes;
    assert boxes[..4 * |out.scores|] == out.boxes;
    var cls := 1;
    while cls < ctx.numClasses
      invariant 1 <= cls && (cls <= ctx.numClasses || cls <= 1)
      invariant |scores| == |out.scores| + total
      invariant WrittenUpTo(ctx, adj[..], keeps, cls, out, scores, boxes, classes)
    {
      scores, boxes, classes := WriteClass(ctx, adj, keeps, cls, out, scores, boxes, classes);
      cls := cls + 1;
    }
    if ctx.numClasses > 1 {
      assert cls == ctx.numClasses;
    }
    WrittenAll(ctx, adj[..], keeps, out, scores, boxes, classes);
    out' := Detections(scores, boxes, classes);
  }
}
