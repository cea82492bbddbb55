/** The per-class loops of the operator, working in place on the score
    buffer, each proved to compute its counterpart in Selection. */
module SelectionImpl {
  import opened Status
  import opened Quant
  import opened Geometry
  import opened NmsConfig
  import opened Selection

  /** Collects the RoIs 0..n-1 whose score for cls beats the minimum score,
      tracking the first best one. */
  method CollectCandidates(ctx: Ctx, cls: int, n: int, adj: array<uint8>)
      returns (indices: seq<int>, bestPos: int)
    requires ValidCtx(ctx) && Foreground(ctx, cls) && Fits(ctx, adj[..]) && n <= ctx.numRois
    ensures var pool := Candidates(ctx, cls, adj[..], if n < 0 then 0 else n);
      indices == pool.indices && bestPos == pool.bestPos
  {
    indices, bestPos := [], -1;
    var bestScore := -1.0;
    var i := 0;
    while i < n
      invariant 0 <= i <= (if n < 0 then 0 else n)
      invariant var pool := Candidates(ctx, cls, adj[..], i);
        indices == pool.indices && bestPos == pool.bestPos && bestScore == pool.bestScore
    {
      SlotBounds(ctx.numRois, ctx.numClasses, i, cls);
      var score := Dequantize(adj[i * ctx.numClasses + cls], ctx.scale, ctx.zeroPoint);
      if score > ctx.cfg.minScore {
        if score > bestScore {
          bestScore := score;
          bestPos := |indices|;
        }
        indices := indices + [i];
      }
      i := i + 1;
    }
  }

  /** The within-threshold branch of the sweep loop. */
  method SpareInPlace(ctx: Ctx, cls: int, idx: int, pBox: Box, iBox: Box, adj: array<uint8>,
                      indices: seq<int>, ghost ranks: seq<real>, bestScore: real, bestPos: int)
      returns (indices': seq<int>, ghost ranks': seq<real>, bestScore': real, bestPos': int)
    requires ValidCtx(ctx) && Foreground(ctx, cls) && Fits(ctx, adj[..]) && 0 <= idx < ctx.numRois
    requires ctx.cfg.softNmsMethod == SoftNmsGaussian ==> Proper(pBox) && Proper(iBox)
    modifies adj
    ensures Spare(ctx, cls, Sweep(Pool(indices, ranks, bestScore, bestPos), old(adj[..])), idx, pBox, iBox)
      == Sweep(Pool(indices', ranks', bestScore', bestPos'), adj[..])
  {
    indices', ranks', bestScore', bestPos' := indices, ranks, bestScore, bestPos;
    var slot := Slot(ctx.numRois, ctx.numClasses, idx, cls);
    var score := Dequantize(adj[slot], ctx.scale, ctx.zeroPoint);
    if score > bestScore' {
      bestScore' := score;
      bestPos' := |indices'|;
    }
    indices', ranks' := indices' + [idx], ranks' + [score];
    if ctx.cfg.softNmsMethod == SoftNmsGaussian {
      score := GaussianDecay(ctx, score, pBox, iBox);
      adj[slot] := ctx.num.quantize(ctx.scale, ctx.zeroPoint, score);
    }
  }

  /** The beyond-threshold branch of the sweep loop under soft-NMS. */
  method RescoreInPlace(ctx: Ctx, cls: int, idx: int, pBox: Box, iBox: Box, adj: array<uint8>,
                        indices: seq<int>, ghost ranks: seq<real>, bestScore: real, bestPos: int)
      returns (indices': seq<int>, ghost ranks': seq<real>, bestScore': real, bestPos': int)
    requires ValidCtx(ctx) && Foreground(ctx, cls) && Fits(ctx, adj[..]) && 0 <= idx < ctx.numRois
    requires ctx.cfg.softNmsMethod != SoftNmsNone && Proper(pBox) && Proper(iBox)
    modifies adj
    ensures Rescore(ctx, cls, Sweep(Pool(indices, ranks, bestScore, bestPos), old(adj[..])), idx, pBox, iBox)
      == Sweep(Pool(indices', ranks', bestScore', bestPos'), adj[..])
  {
    indices', ranks', bestScore', bestPos' := indices, ranks, bestScore, bestPos;
    var slot := Slot(ctx.numRois, ctx.numClasses, idx, cls);
    var score := Dequantize(adj[slot], ctx.scale, ctx.zeroPoint);
    if ctx.cfg.softNmsMethod == SoftNmsLinear {
      score := LinearDecay(score, pBox, iBox);
    } else {
      score := GaussianDecay(ctx, score, pBox, iBox);
    }
    adj[slot] := ctx.num.quantize(ctx.scale, ctx.zeroPoint, score);
    if score >= ctx.cfg.softNmsMinScore {
      if score > bestScore' {
        bestScore' := score;
        bestPos' := |indices'|;
      }
      indices', ranks' := indices' + [idx], ranks' + [score];
    }
  }

  /** One pass of the sweep loop: candidate idx against the picked RoI p. */
  method VisitInPlace(ctx: Ctx, cls: int, p: int, pBox: Box, idx: int, adj: array<uint8>,
                      indices: seq<int>, ghost ranks: seq<real>, bestScore: real, bestPos: int)
      returns (indices': seq<int>, ghost ranks': seq<real>, bestScore': real, bestPos': int)
    requires ValidCtx(ctx) && Foreground(ctx, cls) && Fits(ctx, adj[..])
    requires 0 <= p < ctx.numRois && 0 <= idx < ctx.numRois && pBox == BoxOf(ctx, p, cls)
    modifies adj
    ensures Visit(ctx, cls, p, Sweep(Pool(indices, ranks, bestScore, bestPos), old(adj[..])), idx)
      == Sweep(Pool(indices', ranks', bestScore', bestPos'), adj[..])
  {
    indices', ranks', bestScore', bestPos' := indices, ranks, bestScore, bestPos;
    var iBox := BoxOf(ctx, idx, cls);
    if WithinIou(ctx.cfg.maxIou, pBox, iBox) {
      indices', ranks', bestScore', bestPos' :=
        SpareInPlace(ctx, cls, idx, pBox, iBox, adj, indices, ranks, bestScore, bestPos);
    } else if ctx.cfg.softNmsMethod != SoftNmsNone {
      indices', ranks', bestScore', bestPos' :=
        RescoreInPlace(ctx, cls, idx, pBox, iBox, adj, indices, ranks, bestScore, bestPos);
    }
  }

  /** The sweep over one more candidate is the shorter sweep followed by a
      visit of that candidate. */
  lemma SweepRestNext(ctx: Ctx, cls: int, p: int, order: seq<int>, i: int, buf: seq<uint8>)
    requires ValidCtx(ctx) && Foreground(ctx, cls) && Fits(ctx, buf)
    requires 0 <= p < ctx.numRois && Rows(ctx, order) && 1 <= i < |order|
    ensures SweepRest(ctx, cls, p, order[1..i + 1], buf)
      == Visit(ctx, cls, p, SweepRest(ctx, cls, p, order[1..i], buf), order[i])
  {
    assert order[1..i + 1][..i - 1] == order[1..i];
  }

  /** Compares every candidate after the first with the first (the picked
      RoI), rescoring in place and building the next round's list. */
  method SweepRound(ctx: Ctx, cls: int, order: seq<int>, adj: array<uint8>)
      returns (newIndices: seq<int>, bestPos: int)
    requires ValidCtx(ctx) && Foreground(ctx, cls) && Fits(ctx, adj[..])
    requires |order| > 0 && Rows(ctx, order)
    modifies adj
    ensures var sw := SweepRest(ctx, cls, order[0], order[1..], old(adj[..]));
      newIndices == sw.pool.indices && bestPos == sw.pool.bestPos && adj[..] == sw.buf
  {
    var p := order[0];
    var pBox := BoxOf(ctx, p, cls);
    newIndices, bestPos := [], -1;
    ghost var ranks: seq<real> := [];
    ghost var buf0 := adj[..];
    var bestScore := -1.0;
    var i := 1;
    while i < |order|
      invariant 1 <= i <= |order|
      invariant SweepRest(ctx, cls, p, order[1..i], buf0)
        == Sweep(Pool(newIndices, ranks, bestScore, bestPos), adj[..])
    {
      hide SweepRest, Visit;
      SweepRestNext(ctx, cls, p, order, i, buf0);
      newIndices, ranks, bestScore, bestPos := VisitInPlace(ctx, cls, p, pBox, order[i], adj, newIndices, ranks, bestScore, bestPos);
      i := i + 1;
    }
    assert order[1..i] == order[1..];
  }

  /** Greedy selection for class cls over RoIs 0..n-1: the keep list, or the
      failure of the debug check on the best position. */
  method NmsClass(ctx: Ctx, cls: int, n: int, adj: array<uint8>) returns (res: Result<seq<int>>)
    requires ValidCtx(ctx) && Foreground(ctx, cls) && Fits(ctx, adj[..]) && n <= ctx.numRois
    modifies adj
    ensures var spec := SelectClass(ctx, cls, n, old(adj[..]));
      && (spec.Ok? <==> res.Ok?)
      && (spec.Ok? ==> res.value == spec.value.keep && adj[..] == spec.value.buf)
      && (spec.Err? ==> res.error == spec.error)
  {
    ghost var goal := SelectClass(ctx, cls, n, adj[..]);
    var indices, bestPos := CollectCandidates(ctx, cls, n, adj);
    var cap := ClassCap(ctx, n);
    var keep := [];
    while |indices| > 0 && |keep| < cap
      invariant Rows(ctx, indices) && Fits(ctx, adj[..])
      invariant Rounds(ctx, cls, indices, bestPos, adj[..], keep, cap) == goal
      decreases |indices|
    {
      if !(0 <= bestPos < |indices|) {
        return Err(NoBestCandidate);
      }
      indices := Swap(indices, bestPos);
      keep := keep + [indices[0]];
      indices, bestPos := SweepRound(ctx, cls, indices, adj);
    }
    return Ok(keep);
  }
}
