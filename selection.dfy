/** Greedy selection for one (image, class) pair, as pure functions that
    follow the operator's loops step by step: candidate collection, one sweep
    over the remaining candidates per round, and the rounds themselves. */
module Selection {
  import opened Status
  import opened Quant
  import opened Geometry
  import opened NmsConfig

  /** What one call works on besides the working score buffer: the
      configuration, the table shape, the score quantization, the box table
      and the numeric collaborators. */
  datatype Ctx = Ctx(
    cfg: Config,
    numRois: int,
    numClasses: int,
    scale: real,
    zeroPoint: int,
    boxes: seq<uint16>,
    num: Numerics)

  // Under soft-NMS every foreground box must be proper, not just the ones
  // that are compared. This is stronger than the divisions by the union need.
  predicate ValidCtx(ctx: Ctx) {
    && 0 <= ctx.numRois && 0 <= ctx.numClasses
    && |ctx.boxes| == ctx.numRois * ctx.numClasses * 4
    && ValidConfig(ctx.cfg)
    && (ctx.cfg.softNmsMethod == SoftNmsGaussian ==> ctx.cfg.softNmsSigma != 0.0)
    && (ctx.cfg.softNmsMethod != SoftNmsNone ==> ProperBoxes(ctx.boxes, ctx.numRois, ctx.numClasses))
  }

  /** The working buffer holds one raw score per (roi, class) whenever there
      is a foreground class to read it for. */
  predicate Fits(ctx: Ctx, buf: seq<uint8>) {
    ctx.numClasses >= 2 ==> |buf| == ctx.numRois * ctx.numClasses
  }

  /** A non-background class. */
  predicate Foreground(ctx: Ctx, cls: int) {
    1 <= cls < ctx.numClasses
  }

  /** Every element is a RoI row of the tables. */
  predicate Rows(ctx: Ctx, s: seq<int>) {
    forall k :: 0 <= k < |s| ==> 0 <= s[k] < ctx.numRois
  }

  predicate Distinct(s: seq<int>) {
    forall i, j :: 0 <= i < j < |s| ==> s[i] != s[j]
  }

  /** The dequantized score of (roi, cls) in the working buffer. */
  function ScoreAt(ctx: Ctx, buf: seq<uint8>, roi: int, cls: int): real
    requires ValidCtx(ctx) && Fits(ctx, buf) && Foreground(ctx, cls)
    requires 0 <= roi < ctx.numRois
  {
    Dequantize(buf[Slot(ctx.numRois, ctx.numClasses, roi, cls)], ctx.scale, ctx.zeroPoint)
  }

  function BoxOf(ctx: Ctx, roi: int, cls: int): Box
    requires ValidCtx(ctx)
    requires 0 <= roi < ctx.numRois && 0 <= cls < ctx.numClasses
  {
    BoxAt(ctx.boxes, ctx.numRois, ctx.numClasses, roi, cls)
  }

  /** The candidate list of a round, the scores it was ranked by, the best
      score seen and its position (the running best starts at -1). */
  datatype Pool = Pool(indices: seq<int>, ranks: seq<real>, bestScore: real, bestPos: int)

  const EmptyPool := Pool([], [], -1.0, -1)

  /** Appends a candidate; it becomes the best only if strictly better. */
  function Push(pool: Pool, idx: int, score: real): Pool {
    if score > pool.bestScore then
      Pool(pool.indices + [idx], pool.ranks + [score], score, |pool.indices|)
    else
      Pool(pool.indices + [idx], pool.ranks + [score], pool.bestScore, pool.bestPos)
  }

  /** bestPos is the first position of the largest rank, when some rank is
      above -1; otherwise it is -1. */
  predicate Ranked(pool: Pool) {
    && |pool.ranks| == |pool.indices|
    && -1 <= pool.bestPos < |pool.indices|
    && (pool.bestPos == -1 <==> forall k :: 0 <= k < |pool.ranks| ==> pool.ranks[k] <= -1.0)
    && (pool.bestPos == -1 ==> pool.bestScore == -1.0)
    && (pool.bestPos >= 0 ==>
          && pool.bestScore == pool.ranks[pool.bestPos]
          && (forall k :: 0 <= k < |pool.ranks| ==> pool.ranks[k] <= pool.bestScore)
          && (forall k :: 0 <= k < pool.bestPos ==> pool.ranks[k] < pool.bestScore))
  }

  /** The candidates of class cls among RoIs 0..k-1: those whose score beats
      the minimum score, in RoI order. */
  function Candidates(ctx: Ctx, cls: int, buf: seq<uint8>, k: nat): (pool: Pool)
    requires ValidCtx(ctx) && Fits(ctx, buf) && Foreground(ctx, cls) && k <= ctx.numRois
    ensures |pool.indices| <= k
    ensures forall j :: 0 <= j < |pool.indices| ==> 0 <= pool.indices[j] < k
    decreases k
  {
    if k == 0 then EmptyPool
    else
      var pool := Candidates(ctx, cls, buf, k - 1);
      var score := ScoreAt(ctx, buf, k - 1, cls);
      if score > ctx.cfg.minScore then Push(pool, k - 1, score) else pool
  }

  /** The state of one sweep: the next round's pool and the working buffer. */
  datatype Sweep = Sweep(pool: Pool, buf: seq<uint8>)

  /** exp(-iou^2 / sigma), the Gaussian soft-NMS decay. */
  function GaussianFactor(ctx: Ctx, p: Box, i: Box): real
    requires ValidCtx(ctx) && ctx.cfg.softNmsMethod == SoftNmsGaussian
    requires Proper(p) && Proper(i)
  {
    var iou := Iou(p, i);
    ctx.num.exp(-1.0 * iou * iou / ctx.cfg.softNmsSigma)
  }

  /** A score decayed by 1 - IoU (linear soft-NMS). */
  function LinearDecay(score: real, p: Box, i: Box): real
    requires Proper(p) && Proper(i)
  {
    score * (1.0 - Iou(p, i))
  }

  /** A score decayed by the Gaussian factor. */
  function GaussianDecay(ctx: Ctx, score: real, p: Box, i: Box): real
    requires ValidCtx(ctx) && ctx.cfg.softNmsMethod == SoftNmsGaussian
    requires Proper(p) && Proper(i)
  {
    score * GaussianFactor(ctx, p, i)
  }

  /** The soft-NMS decay of a score for a candidate beyond the threshold. */
  function Decayed(ctx: Ctx, score: real, p: Box, i: Box): real
    requires ValidCtx(ctx) && ctx.cfg.softNmsMethod != SoftNmsNone
    requires Proper(p) && Proper(i)
  {
    if ctx.cfg.softNmsMethod == SoftNmsLinear then LinearDecay(score, p, i)
    else GaussianDecay(ctx, score, p, i)
  }

  /** A candidate within the IoU threshold of the picked box stays, ranked by
      the score read from the buffer; under Gaussian soft-NMS its decayed score
      is written back all the same. */
  function Spare(ctx: Ctx, cls: int, sw: Sweep, idx: int, pBox: Box, iBox: Box): (r: Sweep)
    requires ValidCtx(ctx) && Foreground(ctx, cls) && Fits(ctx, sw.buf) && 0 <= idx < ctx.numRois
    requires ctx.cfg.softNmsMethod == SoftNmsGaussian ==> Proper(pBox) && Proper(iBox)
    ensures |r.buf| == |sw.buf| && r.pool.indices == sw.pool.indices + [idx]
  {
    var slot := Slot(ctx.numRois, ctx.numClasses, idx, cls);
    var score := Dequantize(sw.buf[slot], ctx.scale, ctx.zeroPoint);
    var pool := Push(sw.pool, idx, score);
    if ctx.cfg.softNmsMethod == SoftNmsGaussian then
      var q: uint8 := ctx.num.quantize(ctx.scale, ctx.zeroPoint, GaussianDecay(ctx, score, pBox, iBox));
      Sweep(pool, sw.buf[slot := q])
    else
      Sweep(pool, sw.buf)
  }

  /** Under soft-NMS, a candidate beyond the IoU threshold has its score
      decayed (by 1 - IoU, or by the Gaussian factor) and written back; it
      stays, ranked by the decayed score, when that is at least the soft-NMS
      minimum score. */
  function Rescore(ctx: Ctx, cls: int, sw: Sweep, idx: int, pBox: Box, iBox: Box): (r: Sweep)
    requires ValidCtx(ctx) && Foreground(ctx, cls) && Fits(ctx, sw.buf) && 0 <= idx < ctx.numRois
    requires ctx.cfg.softNmsMethod != SoftNmsNone && Proper(pBox) && Proper(iBox)
    ensures |r.buf| == |sw.buf|
    ensures r.pool.indices == sw.pool.indices || r.pool.indices == sw.pool.indices + [idx]
  {
    var slot := Slot(ctx.numRois, ctx.numClasses, idx, cls);
    var score := Dequantize(sw.buf[slot], ctx.scale, ctx.zeroPoint);
    var decayed := Decayed(ctx, score, pBox, iBox);
    var q: uint8 := ctx.num.quantize(ctx.scale, ctx.zeroPoint, decayed);
    var buf := sw.buf[slot := q];
    if decayed >= ctx.cfg.softNmsMinScore then Sweep(Push(sw.pool, idx, decayed), buf)
    else Sweep(sw.pool, buf)
  }

  /** Compares candidate idx with the picked RoI p: spared within the IoU
      threshold, rescored beyond it under soft-NMS, dropped beyond it under
      hard NMS. */
  function Visit(ctx: Ctx, cls: int, p: int, sw: Sweep, idx: int): (r: Sweep)
    requires ValidCtx(ctx) && Foreground(ctx, cls) && Fits(ctx, sw.buf)
    requires 0 <= p < ctx.numRois && 0 <= idx < ctx.numRois
    ensures |r.buf| == |sw.buf|
    ensures r.pool.indices == sw.pool.indices || r.pool.indices == sw.pool.indices + [idx]
  {
    var pBox := BoxOf(ctx, p, cls);
    var iBox := BoxOf(ctx, idx, cls);
    if WithinIou(ctx.cfg.maxIou, pBox, iBox) then Spare(ctx, cls, sw, idx, pBox, iBox)
    else if ctx.cfg.softNmsMethod != SoftNmsNone then Rescore(ctx, cls, sw, idx, pBox, iBox)
    else sw
  }

  /** One round's sweep over the candidates after the picked one. */
  function SweepRest(ctx: Ctx, cls: int, p: int, rest: seq<int>, buf: seq<uint8>): (r: Sweep)
    requires ValidCtx(ctx) && Foreground(ctx, cls) && Fits(ctx, buf)
    requires 0 <= p < ctx.numRois && Rows(ctx, rest)
    ensures |r.buf| == |buf|
    ensures |r.pool.indices| <= |rest|
    ensures Rows(ctx, r.pool.indices)
    decreases |rest|
  {
    if rest == [] then Sweep(EmptyPool, buf)
    else
      var sw := SweepRest(ctx, cls, p, rest[..|rest| - 1], buf);
      Visit(ctx, cls, p, sw, rest[|rest| - 1])
  }

  /** Exchanges the first element and the one at j. */
  function Swap(s: seq<int>, j: int): (r: seq<int>)
    requires 0 <= j < |s|
    ensures |r| == |s| && multiset(r) == multiset(s)
    ensures r[0] == s[j] && r[j] == s[0]
    ensures forall k :: 0 <= k < |s| && k != 0 && k != j ==> r[k] == s[k]
  {
    s[0 := s[j]][j := s[0]]
  }

  /** The kept RoIs of one class and the working buffer afterwards. */
  datatype Selection = Selection(keep: seq<int>, buf: seq<uint8>)

  /** The selection rounds: while candidates remain and the keep list is under
      its cap, move the best one to the front, keep it and sweep the rest. A
      round that starts without a best position fails the debug check. */
  function Rounds(ctx: Ctx, cls: int, indices: seq<int>, bestPos: int, buf: seq<uint8>,
                  keep: seq<int>, cap: int): (r: Result<Selection>)
    requires ValidCtx(ctx) && Foreground(ctx, cls) && Fits(ctx, buf) && Rows(ctx, indices)
    ensures r.Ok? ==> |r.value.buf| == |buf|
    ensures r.Err? ==> r.error == NoBestCandidate
    decreases |indices|
  {
    if |indices| == 0 || |keep| >= cap then Ok(Selection(keep, buf))
    else if !(0 <= bestPos < |indices|) then Err(NoBestCandidate)
    else
      var order := Swap(indices, bestPos);
      var p := order[0];
      var sw := SweepRest(ctx, cls, p, order[1..], buf);
      Rounds(ctx, cls, sw.pool.indices, sw.pool.bestPos, sw.buf, keep + [p], cap)
  }

  /** The keep-list cap of one class: max_objects when positive, otherwise the
      image's RoI count. */
  function ClassCap(ctx: Ctx, n: int): int {
    if ctx.cfg.maxObjects > 0 then ctx.cfg.maxObjects else n
  }

  /** Selection for class cls over RoIs 0..n-1 of the working buffer. */
  function SelectClass(ctx: Ctx, cls: int, n: int, buf: seq<uint8>): (r: Result<Selection>)
    requires ValidCtx(ctx) && Foreground(ctx, cls) && Fits(ctx, buf) && n <= ctx.numRois
    ensures r.Ok? ==> |r.value.buf| == |buf|
  {
    var pool := Candidates(ctx, cls, buf, if n < 0 then 0 else n);
    Rounds(ctx, cls, pool.indices, pool.bestPos, buf, [], ClassCap(ctx, n))
  }
}
