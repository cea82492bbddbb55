/** The operator's entry point over arrays: the checks, a private copy of
    the scores as working buffer, the image loop and the output splits,
    proved to compute Operator.Int8AabbRoiNms. */
module OperatorImpl {
  import opened Status
  import opened Quant
  import opened NmsConfig
  import opened Selection
  import opened Image
  import opened ImageProps
  import opened ImageImpl
  import opened Output
  import opened OutputImpl
  import opened Operator

  /** One more image: the batch up to b+1 is the batch up to b followed by
      image b on the buffer it left. */
  lemma BatchStep(ctx: Ctx, sort: seq<Entry> -> seq<Entry>, splits: seq<int>, b: int, buf: seq<uint8>, st: BatchState)
    requires ValidCtx(ctx) && Fits(ctx, buf) && SortsDescending(sort)
    requires 0 <= b < |splits| && forall i :: 0 <= i < |splits| ==> splits[i] <= ctx.numRois
    requires Batch(ctx, sort, splits, b, buf) == Ok(st)
    ensures Fits(ctx, st.buf)
    ensures var img := ProcessImage(ctx, sort, splits[b], st.buf);
      && (img.Err? ==> Batch(ctx, sort, splits, b + 1, buf).Err?)
      && (img.Ok? ==>
            && KeepRows(ctx, img.value.keeps) && img.value.total == Kept(img.value.keeps, ctx.numClasses)
            && Fits(ctx, img.value.buf)
            && Batch(ctx, sort, splits, b + 1, buf)
               == Ok(BatchState(st.counts + [img.value.total],
                                Append(st.det, ImageDetections(ctx, img.value.buf, img.value.keeps, ctx.numClasses)),
                                img.value.buf)))
  {
    ProcessImageSpec(ctx, sort, splits[b], st.buf);
  }

  /** Once an image fails, so does every longer prefix of the batch. */
  lemma {:induction false} BatchErr(ctx: Ctx, sort: seq<Entry> -> seq<Entry>, splits: seq<int>, u: int, v: int, buf: seq<uint8>)
    requires ValidCtx(ctx) && Fits(ctx, buf) && SortsDescending(sort)
    requires 0 <= u <= v <= |splits| && forall i :: 0 <= i < |splits| ==> splits[i] <= ctx.numRois
    requires Batch(ctx, sort, splits, u, buf).Err?
    ensures Batch(ctx, sort, splits, v, buf).Err?
    decreases v - u
  {
    if u < v {
      BatchErr(ctx, sort, splits, u, v - 1, buf);
    }
  }

  /** The image loop: each image on RoIs 0 .. splits[b]-1 of the shared
      tables and of the working buffer, its count recorded in totals[b] and
      its detections appended. */
  method RunBatch(ctx: Ctx, sort: seq<Entry> -> seq<Entry>, splits: seq<int>, adj: array<uint8>, totals: array<int>)
      returns (res: Result<Detections>)
    requires ValidCtx(ctx) && Fits(ctx, adj[..]) && SortsDescending(sort)
    requires totals.Length == |splits| && forall i :: 0 <= i < |splits| ==> splits[i] <= ctx.numRois
    modifies adj, totals
    ensures var spec := Batch(ctx, sort, splits, |splits|, old(adj[..]));
      && (spec.Ok? <==> res.Ok?)
      && (spec.Ok? ==> res.value == spec.value.det && totals[..] == spec.value.counts && adj[..] == spec.value.buf)
      && (spec.Err? ==> res.error == spec.error)
  {
    hide ProcessImage, ImageDetections;
    ghost var buf0 := adj[..];
    var det := NoDetections;
    var b := 0;
    while b < |splits|
      invariant 0 <= b <= |splits| && Fits(ctx, adj[..])
      invariant Batch(ctx, sort, splits, b, buf0) == Ok(BatchState(totals[..b], det, adj[..]))
      invariant Shaped(det)
    {
      BatchStep(ctx, sort, splits, b, buf0, BatchState(totals[..b], det, adj[..]));
      var r := NmsImage(ctx, sort, splits[b], adj);
      if r.Err? {
        BatchErr(ctx, sort, splits, b + 1, |splits|, buf0);
        return Err(NoBestCandidate);
      }
      totals[b] := r.value.total;
      assert totals[..b + 1] == totals[..b] + [r.value.total];
      ImageDetectionsCount(ctx, adj[..], r.value.keeps, ctx.numClasses);
      det := AppendImage(ctx, adj, r.value.keeps, r.value.total, det);
      b := b + 1;
    }
    assert totals[..b] == totals[..];
    return Ok(det);
  }

  /** Runs the operator on its inputs. */
  method RunOnDevice(cfg: Config, num: Numerics, sort: seq<Entry> -> seq<Entry>, inp: Inputs)
      returns (res: Result<Outputs>)
    requires Admissible(cfg, inp) && SortsDescending(sort)
    ensures res == Int8AabbRoiNms(cfg, num, sort, inp)
  {
    hide ProcessImage, ImageDetections;
    var v := Validate(inp);
    if v.Err? {
      return Err(v.error);
    }
    ValidShape(cfg, num, inp);
    var ctx := MakeCtx(cfg, num, inp, v.value);
    var splits := inp.splits.data;
    var scores := inp.scores.t.data;
    var adj := new uint8[|scores|](i requires 0 <= i < |scores| => scores[i]);
    assert adj[..] == scores;
    var totals := new int[|splits|];
    var det := RunBatch(ctx, sort, splits, adj, totals);
    ghost var spec := Batch(ctx, sort, splits, |splits|, scores);
    assert Int8AabbRoiNms(cfg, num, sort, inp) == if spec.Ok? then Ok(Outputs(spec.value.counts, spec.value.det)) else Err(spec.error);
    if det.Err? {
      return Err(det.error);
    }
    ghost var counts := totals[..];
    var splitsOut := new int[|splits|];
    var i := 0;
    while i < |splits|
      invariant 0 <= i <= |splits|
      invariant splitsOut[..i] == totals[..i] && totals[..] == counts
    {
      splitsOut[i] := totals[i];
      i := i + 1;
    }
    assert splitsOut[..] == splitsOut[..i] == totals[..];
    return Ok(Outputs(splitsOut[..], det.value));
  }
}
