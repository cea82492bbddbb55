/** What the operator's outputs look like: which inputs the checks reject and
    with which error, the batch splits against the detections, and the
    failure-free hard-NMS case. */
module OperatorProps {
  import opened Status
  import opened Quant
  import opened NmsConfig
  import opened Selection
  import opened Image
  import opened ImageProps
  import opened Output
  import opened Operator

  /** Each check rejects exactly when it fails and every check before it
      passed; the inputs pass when every check does, and the shape is then
      read off the score table and the splits. */
  lemma ValidateSpec(inp: Inputs)
    ensures var r := Validate(inp);
      var s := inp.scores.t;
      var bx := inp.boxes;
      var sp := inp.splits;
      && (!RankOk(s) ==> r == Err(ScoresRank))
      && (RankOk(s) && s.dtype != UInt8 ==> r == Err(ScoresType))
      && (RankOk(s) && s.dtype == UInt8 && !RankOk(bx) ==> r == Err(BoxesRank))
      && (RankOk(s) && s.dtype == UInt8 && RankOk(bx) && bx.dtype != UInt16 ==> r == Err(BoxesType))
      && (RankOk(s) && s.dtype == UInt8 && RankOk(bx) && bx.dtype == UInt16 ==>
            && (s.dims[0] != bx.dims[0] ==> r == Err(RoiCountMismatch))
            && (s.dims[0] == bx.dims[0] && s.dims[1] * 4 != bx.dims[1] ==> r == Err(BoxWidthMismatch))
            && (s.dims[0] == bx.dims[0] && s.dims[1] * 4 == bx.dims[1] ==>
                  && (|sp.dims| != 1 ==> r == Err(SplitsRank))
                  && (|sp.dims| == 1 && sp.dtype != Int32 ==> r == Err(SplitsType))
                  && (|sp.dims| == 1 && sp.dtype == Int32 ==> r == Ok(Shape(s.dims[0], s.dims[1], sp.dims[0])))))
  {
  }

  /** A 4-D box table never passes: its second dimension is 1, which is not
      four times any class count; a 4-D score table has a single class. */
  lemma FourDimensionalTables(inp: Inputs)
    requires Validate(inp).Ok?
    ensures |inp.boxes.dims| == 2
    ensures |inp.scores.t.dims| == 4 ==> Validate(inp).value.numClasses == 1
  {
  }

  function Sum(s: seq<int>): int {
    if s == [] then 0 else Sum(s[..|s| - 1]) + s[|s| - 1]
  }

  /** After any prefix of the batch: one count per image, the counts add up
      to the number of detections, each count is at most max_objects when
      that is positive, and every detection is of a foreground class. */
  lemma {:induction false} BatchSpec(ctx: Ctx, sort: seq<Entry> -> seq<Entry>, splits: seq<int>, b: int, buf: seq<uint8>)
    requires ValidCtx(ctx) && Fits(ctx, buf) && SortsDescending(sort)
    requires 0 <= b <= |splits| && forall i :: 0 <= i < |splits| ==> splits[i] <= ctx.numRois
    ensures var r := Batch(ctx, sort, splits, b, buf);
      r.Ok? ==>
        && Shaped(r.value.det)
        && Sum(r.value.counts) == |r.value.det.scores|
        && (forall i :: 0 <= i < b ==> 0 <= r.value.counts[i])
        && (ctx.cfg.maxObjects > 0 ==> forall i :: 0 <= i < b ==> r.value.counts[i] <= ctx.cfg.maxObjects)
        && (forall j :: 0 <= j < |r.value.det.classes| ==> 1 <= r.value.det.classes[j] < ctx.numClasses)
    decreases b
  {
    hide ProcessImage, ImageDetections;
    if b > 0 {
      BatchSpec(ctx, sort, splits, b - 1, buf);
      var prev := Batch(ctx, sort, splits, b - 1, buf);
      if prev.Ok? {
        var st := prev.value;
        ProcessImageSpec(ctx, sort, splits[b - 1], st.buf);
        var img := ProcessImage(ctx, sort, splits[b - 1], st.buf);
        if img.Ok? {
          var im := img.value;
          ImageDetectionsCount(ctx, im.buf, im.keeps, ctx.numClasses);
          ImageDetectionsClasses(ctx, im.buf, im.keeps, ctx.numClasses);
          var counts := st.counts + [im.total];
          assert counts[..|counts| - 1] == st.counts;
        }
      }
    }
  }

  /** The operator's outputs: one split per image, the splits add up to the
      number of scores, which is the number of classes and a quarter of the
      number of box coordinates; each split is at most max_objects when that
      is positive; every class is a foreground class. */
  lemma OutputsSpec(cfg: Config, num: Numerics, sort: seq<Entry> -> seq<Entry>, inp: Inputs)
    requires Admissible(cfg, inp) && SortsDescending(sort)
    ensures var r := Int8AabbRoiNms(cfg, num, sort, inp);
      r.Ok? ==>
        var out := r.value;
        var numClasses := Validate(inp).value.numClasses;
        && |out.splits| == Validate(inp).value.batchSize
        && Sum(out.splits) == |out.det.scores| == |out.det.classes|
        && |out.det.boxes| == 4 * |out.det.scores|
        && (forall i :: 0 <= i < |out.splits| ==> 0 <= out.splits[i])
        && (cfg.maxObjects > 0 ==> forall i :: 0 <= i < |out.splits| ==> out.splits[i] <= cfg.maxObjects)
        && (forall j :: 0 <= j < |out.det.classes| ==> 1 <= out.det.classes[j] < numClasses)
  {
    if Validate(inp).Ok? {
      ValidShape(cfg, num, inp);
      var ctx := MakeCtx(cfg, num, inp, Validate(inp).value);
      BatchSpec(ctx, sort, inp.splits.data, |inp.splits.data|, inp.scores.t.data);
    }
  }

  /** Under hard NMS with min_score at least -1 no image fails and the
      working buffer still holds the input scores after every image. */
  lemma {:induction false} BatchNone(ctx: Ctx, sort: seq<Entry> -> seq<Entry>, splits: seq<int>, b: int, buf: seq<uint8>)
    requires ValidCtx(ctx) && Fits(ctx, buf) && SortsDescending(sort)
    requires 0 <= b <= |splits| && forall i :: 0 <= i < |splits| ==> splits[i] <= ctx.numRois
    requires ctx.cfg.softNmsMethod == SoftNmsNone && ctx.cfg.minScore >= -1.0
    ensures var r := Batch(ctx, sort, splits, b, buf);
      r.Ok? && r.value.buf == buf
    decreases b
  {
    if b > 0 {
      BatchNone(ctx, sort, splits, b - 1, buf);
      SelectClassesNone(ctx, splits[b - 1], ctx.numClasses, buf);
    }
  }

  /** Under hard NMS with min_score at least -1, inputs that pass the checks
      always produce outputs. */
  lemma HardNmsSucceeds(cfg: Config, num: Numerics, sort: seq<Entry> -> seq<Entry>, inp: Inputs)
    requires Admissible(cfg, inp) && SortsDescending(sort)
    requires cfg.softNmsMethod == SoftNmsNone && cfg.minScore >= -1.0
    ensures Int8AabbRoiNms(cfg, num, sort, inp).Ok? <==> Validate(inp).Ok?
  {
    if Validate(inp).Ok? {
      ValidShape(cfg, num, inp);
      var ctx := MakeCtx(cfg, num, inp, Validate(inp).value);
      BatchNone(ctx, sort, inp.splits.data, |inp.splits.data|, inp.scores.t.data);
    }
  }
}
