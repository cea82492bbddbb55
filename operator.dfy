/** The whole operator: the shape and type checks on its three inputs, then
    every image of the batch in turn over one shared working score buffer,
    and the per-image detection counts as the output batch splits. */
module Operator {
  import opened Status
  import opened Quant
  import opened Geometry
  import opened NmsConfig
  import opened Selection
  import opened Image
  import opened ImageProps
  import opened Output

  /** The element type a tensor holds at run time. */
  datatype DType = UInt8 | UInt16 | Int32 | Float | OtherType

  /** A tensor: its dimensions, its element type tag and, when the tag is the
      one the operator expects, its elements in row-major order. */
  datatype Tensor<T> = Tensor(dims: seq<int>, dtype: DType, data: seq<T>)

  /** A quantized tensor: raw values with their scale and zero point. */
  datatype QTensor = QTensor(t: Tensor<uint8>, scale: real, zeroPoint: int)

  /** The operator's inputs: batch splits (RoIs per image), the quantized
      score table and the fixed-point box table. */
  datatype Inputs = Inputs(splits: Tensor<int>, scores: QTensor, boxes: Tensor<uint16>)

  /** The operator's outputs: detections per image, and the detections. */
  datatype Outputs = Outputs(splits: seq<int>, det: Detections)

  function Product(dims: seq<int>): int {
    if dims == [] then 1 else Product(dims[..|dims| - 1]) * dims[|dims| - 1]
  }

  /** Dimensions are non-negative and the elements fill them exactly. */
  predicate WellFormed<T>(t: Tensor<T>) {
    && (forall k :: 0 <= k < |t.dims| ==> t.dims[k] >= 0)
    && |t.data| == Product(t.dims)
  }

  /** Either 2-D, or 4-D with the two middle dimensions equal to 1. */
  predicate RankOk<T>(t: Tensor<T>) {
    if |t.dims| == 4 then t.dims[1] == 1 && t.dims[2] == 1 else |t.dims| == 2
  }

  /** What the checks establish: the number of RoIs and classes of the
      tables, and the number of images. */
  datatype Shape = Shape(numRois: int, numClasses: int, batchSize: int)

  /** The checks, in the order the operator makes them; the first that fails
      decides the error. */
  function Validate(inp: Inputs): (r: Result<Shape>)
    ensures r.Ok? ==> RankOk(inp.scores.t) && RankOk(inp.boxes) && |inp.splits.dims| == 1
  {
    var scores := inp.scores.t;
    var boxes := inp.boxes;
    if !RankOk(scores) then Err(ScoresRank)
    else if scores.dtype != UInt8 then Err(ScoresType)
    else if !RankOk(boxes) then Err(BoxesRank)
    else if boxes.dtype != UInt16 then Err(BoxesType)
    else
      var numRois := scores.dims[0];
      var numClasses := scores.dims[1];
      if numRois != boxes.dims[0] then Err(RoiCountMismatch)
      else if numClasses * 4 != boxes.dims[1] then Err(BoxWidthMismatch)
      else if |inp.splits.dims| != 1 then Err(SplitsRank)
      else if inp.splits.dtype != Int32 then Err(SplitsType)
      else Ok(Shape(numRois, numClasses, inp.splits.dims[0]))
  }

  /** The per-call context the checks make available. */
  function MakeCtx(cfg: Config, num: Numerics, inp: Inputs, shape: Shape): Ctx {
    Ctx(cfg, shape.numRois, shape.numClasses, inp.scores.scale, inp.scores.zeroPoint, inp.boxes.data, num)
  }

  /** The state after the first b images: their counts, their detections and
      the working buffer as they left it. */
  datatype BatchState = BatchState(counts: seq<int>, det: Detections, buf: seq<uint8>)

  /** Images 0 .. b-1 in order; image i works on RoIs 0 .. splits[i]-1 of the
      shared tables and of the buffer the previous images left. */
  function Batch(ctx: Ctx, sort: seq<Entry> -> seq<Entry>, splits: seq<int>, b: int, buf: seq<uint8>): (r: Result<BatchState>)
    requires ValidCtx(ctx) && Fits(ctx, buf) && SortsDescending(sort)
    requires 0 <= b <= |splits| && forall i :: 0 <= i < |splits| ==> splits[i] <= ctx.numRois
    ensures r.Ok? ==> Fits(ctx, r.value.buf) && |r.value.counts| == b
    ensures r.Err? ==> r.error == NoBestCandidate
    decreases b
  {
    if b == 0 then Ok(BatchState([], NoDetections, buf))
    else
      var st :- Batch(ctx, sort, splits, b - 1, buf);
      var img :- ProcessImage(ctx, sort, splits[b - 1], st.buf);
      ProcessImageSpec(ctx, sort, splits[b - 1], st.buf);
      Ok(BatchState(st.counts + [img.total],
                    Append(st.det, ImageDetections(ctx, img.buf, img.keeps, ctx.numClasses)),
                    img.buf))
  }

  /** What the operator demands of its inputs without checking it: every
      image's RoI count is within the tables, soft-NMS boxes of foreground
      classes have positive width and height, and a Gaussian sigma is not
      zero. The box demand is deliberately stronger than the code needs: the
      divisions by the union only need a positive union for the pairs that
      are actually compared, and this demand covers every row, candidate or
      not. */
  predicate Admissible(cfg: Config, inp: Inputs) {
    && WellFormed(inp.splits) && WellFormed(inp.scores.t) && WellFormed(inp.boxes)
    && ValidConfig(cfg)
    && (cfg.softNmsMethod == SoftNmsGaussian ==> cfg.softNmsSigma != 0.0)
    && (Validate(inp).Ok? ==>
          var shape := Validate(inp).value;
          && (forall i :: 0 <= i < |inp.splits.data| ==> inp.splits.data[i] <= shape.numRois)
          && (cfg.softNmsMethod != SoftNmsNone ==>
                |inp.boxes.data| == shape.numRois * shape.numClasses * 4
                && ProperBoxes(inp.boxes.data, shape.numRois, shape.numClasses)))
  }

  /** Shape facts that well-formed inputs passing the checks provide. */
  lemma ValidShape(cfg: Config, num: Numerics, inp: Inputs)
    requires Admissible(cfg, inp) && Validate(inp).Ok?
    ensures var shape := Validate(inp).value;
      && shape.numRois >= 0 && shape.numClasses >= 0
      && |inp.splits.data| == shape.batchSize
      && |inp.boxes.data| == shape.numRois * shape.numClasses * 4
      && ValidCtx(MakeCtx(cfg, num, inp, shape))
      && Fits(MakeCtx(cfg, num, inp, shape), inp.scores.t.data)
  {
    var shape := Validate(inp).value;
    var s := inp.scores.t.dims;
    var bx := inp.boxes.dims;
    assert s[0] >= 0 && s[1] >= 0;
    assert Product(inp.splits.dims) == Product(inp.splits.dims[..0]) * inp.splits.dims[0];
    assert |bx| == 2;
    assert Product(bx) == Product(bx[..1]) * bx[1];
    assert Product(bx[..1]) == Product(bx[..1][..0]) * bx[0];
    if shape.numClasses >= 2 {
      assert |s| == 2;
      assert Product(s) == Product(s[..1]) * s[1];
      assert Product(s[..1]) == Product(s[..1][..0]) * s[0];
    }
  }

  /** The operator: the checks, then the batch over a copy of the scores. */
  function Int8AabbRoiNms(cfg: Config, num: Numerics, sort: seq<Entry> -> seq<Entry>, inp: Inputs): (r: Result<Outputs>)
    requires Admissible(cfg, inp) && SortsDescending(sort)
  {
    var shape :- Validate(inp);
    ValidShape(cfg, num, inp);
    var ctx := MakeCtx(cfg, num, inp, shape);
    var st :- Batch(ctx, sort, inp.splits.data, |inp.splits.data|, inp.scores.t.data);
    Ok(Outputs(st.counts, st.det))
  }
}
