/** What the per-class selection guarantees: which RoIs become candidates,
    how each round picks and prunes, what the rescoring writes, and what the
    keep list of a class looks like in the end. */
module SelectionProps {
  import opened Status
  import opened Quant
  import opened Geometry
  import opened NmsConfig
  import opened Selection

  lemma PushRanked(pool: Pool, idx: int, score: real)
    requires Ranked(pool)
    ensures Ranked(Push(pool, idx, score))
  {
    var r := Push(pool, idx, score);
    if score > pool.bestScore {
      forall k | 0 <= k < |r.ranks| ensures r.ranks[k] <= score {
        if k < |pool.ranks| {
          assert r.ranks[k] == pool.ranks[k];
        }
      }
      if pool.bestPos >= 0 {
        var w :| 0 <= w < |pool.ranks| && pool.ranks[w] > -1.0;
        assert pool.ranks[w] <= pool.bestScore;
      }
      assert r.ranks[|pool.ranks|] == score > -1.0;
    } else if pool.bestPos >= 0 {
      var w :| 0 <= w < |pool.ranks| && pool.ranks[w] > -1.0;
      assert r.ranks[w] == pool.ranks[w];
    } else {
      forall k | 0 <= k < |r.ranks| ensures r.ranks[k] <= -1.0 {
        if k < |pool.ranks| {
          assert r.ranks[k] == pool.ranks[k];
        }
      }
    }
  }

  lemma DistinctAppend(s: seq<int>, x: int)
    requires Distinct(s) && x !in s
    ensures Distinct(s + [x])
  {
  }

  /** Candidate collection marks the first of the best candidates. */
  lemma {:induction false} CandidatesRanked(ctx: Ctx, cls: int, buf: seq<uint8>, k: nat)
    requires ValidCtx(ctx) && Fits(ctx, buf) && Foreground(ctx, cls) && k <= ctx.numRois
    ensures Ranked(Candidates(ctx, cls, buf, k))
    decreases k
  {
    if k > 0 {
      CandidatesRanked(ctx, cls, buf, k - 1);
      var score := ScoreAt(ctx, buf, k - 1, cls);
      if score > ctx.cfg.minScore {
        PushRanked(Candidates(ctx, cls, buf, k - 1), k - 1, score);
      }
    }
  }

  /** Pushing an index above every pooled one appends it and its rank and
      keeps the indices ascending. */
  lemma PushAscending(pool: Pool, idx: int, score: real)
    requires forall j :: 0 <= j < |pool.indices| ==> pool.indices[j] < idx
    requires forall i, j :: 0 <= i < j < |pool.indices| ==> pool.indices[i] < pool.indices[j]
    ensures var r := Push(pool, idx, score);
      && r.indices == pool.indices + [idx] && r.ranks == pool.ranks + [score]
      && (forall i, j :: 0 <= i < j < |r.indices| ==> r.indices[i] < r.indices[j])
  {
    var r := Push(pool, idx, score);
    forall i, j | 0 <= i < j < |r.indices| ensures r.indices[i] < r.indices[j] {
      assert r.indices[i] == pool.indices[i];
      if j < |pool.indices| {
        assert r.indices[j] == pool.indices[j];
      }
    }
  }

  /** Candidate collection keeps RoIs in ascending RoI order and ranks each
      by its score. */
  lemma {:induction false} CandidatesSpec(ctx: Ctx, cls: int, buf: seq<uint8>, k: nat)
    requires ValidCtx(ctx) && Fits(ctx, buf) && Foreground(ctx, cls) && k <= ctx.numRois
    ensures var pool := Candidates(ctx, cls, buf, k);
      && |pool.ranks| == |pool.indices|
      && (forall j :: 0 <= j < |pool.indices| ==> pool.ranks[j] == ScoreAt(ctx, buf, pool.indices[j], cls))
      && (forall i, j :: 0 <= i < j < |pool.indices| ==> pool.indices[i] < pool.indices[j])
    decreases k
  {
    hide ScoreAt;
    if k > 0 {
      CandidatesSpec(ctx, cls, buf, k - 1);
      var pool := Candidates(ctx, cls, buf, k - 1);
      var score := ScoreAt(ctx, buf, k - 1, cls);
      if score > ctx.cfg.minScore {
        var r := Push(pool, k - 1, score);
        PushAscending(pool, k - 1, score);
        forall j | 0 <= j < |r.indices| ensures r.ranks[j] == ScoreAt(ctx, buf, r.indices[j], cls) {
          if j < |pool.indices| {
            assert r.indices[j] == pool.indices[j] && r.ranks[j] == pool.ranks[j];
          }
        }
      }
    }
  }

  /** Candidate collection keeps exactly the RoIs below k whose score beats
      min_score (strictly). */
  lemma {:induction false} CandidatesMembers(ctx: Ctx, cls: int, buf: seq<uint8>, k: nat)
    requires ValidCtx(ctx) && Fits(ctx, buf) && Foreground(ctx, cls) && k <= ctx.numRois
    ensures var pool := Candidates(ctx, cls, buf, k);
      forall r :: 0 <= r < k ==> (r in pool.indices <==> ScoreAt(ctx, buf, r, cls) > ctx.cfg.minScore)
    decreases k
  {
    hide ScoreAt;
    if k > 0 {
      CandidatesMembers(ctx, cls, buf, k - 1);
      var pool := Candidates(ctx, cls, buf, k - 1);
      var score := ScoreAt(ctx, buf, k - 1, cls);
      if score > ctx.cfg.minScore {
        var r := Push(pool, k - 1, score);
        assert r.indices == pool.indices + [k - 1];
        forall x | 0 <= x < k ensures x in r.indices <==> ScoreAt(ctx, buf, x, cls) > ctx.cfg.minScore {
          if x < k - 1 {
            assert x in r.indices <==> x in pool.indices;
          }
        }
      } else {
        assert forall j :: 0 <= j < |pool.indices| ==> pool.indices[j] < k - 1;
      }
    }
  }

  /** Every visit keeps the pool ranked, writes at most the visited
      candidate's slot, and decides membership as follows: a candidate within
      the IoU threshold stays with its buffer score; beyond it, under soft-NMS,
      it stays with its decayed score when that reaches the soft-NMS minimum;
      under hard NMS it is dropped. Hard NMS and linear decay within the
      threshold write nothing; linear decay beyond it and Gaussian decay
      everywhere write the re-quantized decayed score. */
  lemma VisitEffect(ctx: Ctx, cls: int, p: int, sw: Sweep, idx: int)
    requires ValidCtx(ctx) && Foreground(ctx, cls) && Fits(ctx, sw.buf)
    requires 0 <= p < ctx.numRois && 0 <= idx < ctx.numRois
    ensures var r := Visit(ctx, cls, p, sw, idx);
      var slot := Slot(ctx.numRois, ctx.numClasses, idx, cls);
      var score := ScoreAt(ctx, sw.buf, idx, cls);
      var pBox := BoxOf(ctx, p, cls);
      var iBox := BoxOf(ctx, idx, cls);
      var m := ctx.cfg.softNmsMethod;
      var within := WithinIou(ctx.cfg.maxIou, pBox, iBox);
      && (Ranked(sw.pool) ==> Ranked(r.pool))
      && (forall s :: 0 <= s < |sw.buf| && s != slot ==> r.buf[s] == sw.buf[s])
      && (m == SoftNmsNone ==> r.buf == sw.buf)
      && (m == SoftNmsLinear && within ==> r.buf == sw.buf)
      && (m == SoftNmsLinear && !within ==>
            r.buf[slot] == ctx.num.quantize(ctx.scale, ctx.zeroPoint, LinearDecay(score, pBox, iBox)))
      && (m == SoftNmsGaussian ==>
            r.buf[slot] == ctx.num.quantize(ctx.scale, ctx.zeroPoint, GaussianDecay(ctx, score, pBox, iBox)))
      && (within ==> r.pool.indices == sw.pool.indices + [idx] && r.pool.ranks == sw.pool.ranks + [score])
      && (!within && m == SoftNmsNone ==> r.pool == sw.pool)
      && (!within && m != SoftNmsNone ==>
            var d := Decayed(ctx, score, pBox, iBox);
            && (d >= ctx.cfg.softNmsMinScore ==>
                  r.pool.indices == sw.pool.indices + [idx] && r.pool.ranks == sw.pool.ranks + [d])
            && (d < ctx.cfg.softNmsMinScore ==> r.pool == sw.pool))
  {
    var score := ScoreAt(ctx, sw.buf, idx, cls);
    var pBox := BoxOf(ctx, p, cls);
    var iBox := BoxOf(ctx, idx, cls);
    if Ranked(sw.pool) {
      if WithinIou(ctx.cfg.maxIou, pBox, iBox) {
        PushRanked(sw.pool, idx, score);
      } else if ctx.cfg.softNmsMethod != SoftNmsNone {
        PushRanked(sw.pool, idx, Decayed(ctx, score, pBox, iBox));
      }
    }
  }

  /** A sweep's pool is ranked and holds distinct RoIs drawn from the swept
      ones, and the sweep writes only the slots of class cls for the swept
      RoIs: other classes and other RoIs keep their scores. */
  lemma {:induction false} SweepRestSpec(ctx: Ctx, cls: int, p: int, rest: seq<int>, buf: seq<uint8>)
    requires ValidCtx(ctx) && Foreground(ctx, cls) && Fits(ctx, buf)
    requires 0 <= p < ctx.numRois && Rows(ctx, rest) && Distinct(rest)
    ensures var sw := SweepRest(ctx, cls, p, rest, buf);
      && Ranked(sw.pool)
      && Distinct(sw.pool.indices)
      && (forall x :: x in sw.pool.indices ==> x in rest)
      && (forall r, c :: 0 <= r < ctx.numRois && 0 <= c < ctx.numClasses && (c != cls || r !in rest) ==>
            sw.buf[Slot(ctx.numRois, ctx.numClasses, r, c)] == buf[Slot(ctx.numRois, ctx.numClasses, r, c)])
    decreases |rest|
  {
    if rest != [] {
      var front := rest[..|rest| - 1];
      var idx := rest[|rest| - 1];
      assert rest == front + [idx];
      SweepRestSpec(ctx, cls, p, front, buf);
      var sw := SweepRest(ctx, cls, p, front, buf);
      VisitEffect(ctx, cls, p, sw, idx);
      var r := Visit(ctx, cls, p, sw, idx);
      if r.pool.indices != sw.pool.indices {
        DistinctAppend(sw.pool.indices, idx);
      }
      forall rr, c | 0 <= rr < ctx.numRois && 0 <= c < ctx.numClasses && (c != cls || rr !in rest)
        ensures r.buf[Slot(ctx.numRois, ctx.numClasses, rr, c)] == buf[Slot(ctx.numRois, ctx.numClasses, rr, c)]
      {
        SlotInjective(ctx.numRois, ctx.numClasses, rr, c, idx, cls);
      }
    }
  }

  /** Under hard NMS a sweep leaves the buffer as it was and keeps exactly the
      swept RoIs whose overlap with the picked one is within the threshold,
      each ranked by its own score. */
  lemma {:induction false} SweepNone(ctx: Ctx, cls: int, p: int, rest: seq<int>, buf: seq<uint8>)
    requires ValidCtx(ctx) && Foreground(ctx, cls) && Fits(ctx, buf)
    requires 0 <= p < ctx.numRois && Rows(ctx, rest)
    requires ctx.cfg.softNmsMethod == SoftNmsNone
    ensures var sw := SweepRest(ctx, cls, p, rest, buf);
      && sw.buf == buf
      && |sw.pool.ranks| == |sw.pool.indices|
      && (forall j :: 0 <= j < |sw.pool.indices| ==> sw.pool.ranks[j] == ScoreAt(ctx, buf, sw.pool.indices[j], cls))
      && (forall x :: x in sw.pool.indices ==> x in rest)
      && (forall k :: 0 <= k < |rest| ==>
            (rest[k] in sw.pool.indices <==> WithinIou(ctx.cfg.maxIou, BoxOf(ctx, p, cls), BoxOf(ctx, rest[k], cls))))
    decreases |rest|
  {
    if rest != [] {
      var front := rest[..|rest| - 1];
      var idx := rest[|rest| - 1];
      assert rest == front + [idx];
      SweepNone(ctx, cls, p, front, buf);
      var sw := SweepRest(ctx, cls, p, front, buf);
      VisitEffect(ctx, cls, p, sw, idx);
      var r := Visit(ctx, cls, p, sw, idx);
      var within := WithinIou(ctx.cfg.maxIou, BoxOf(ctx, p, cls), BoxOf(ctx, idx, cls));
      forall k | 0 <= k < |rest|
        ensures rest[k] in r.pool.indices <==> WithinIou(ctx.cfg.maxIou, BoxOf(ctx, p, cls), BoxOf(ctx, rest[k], cls))
      {
        if k < |front| {
          assert rest[k] == front[k];
        }
      }
    }
  }

  /** Linear decay scales a score by 1 - IoU, a factor in [0, 1]: a
      non-negative score stays non-negative and does not grow. */
  lemma LinearDecayBounds(score: real, p: Box, i: Box)
    requires Proper(p) && Proper(i) && score >= 0.0
    ensures 0.0 <= LinearDecay(score, p, i) <= score
  {
    var f := 1.0 - Iou(p, i);
    ProductMono(score, f, score, 1.0);
  }

  /** With an exponential that maps non-positive arguments into (0, 1] and a
      positive sigma, the Gaussian factor lies in (0, 1], so a non-negative
      score stays non-negative and does not grow. */
  lemma GaussianDecayBounds(ctx: Ctx, score: real, p: Box, i: Box)
    requires ValidCtx(ctx) && ctx.cfg.softNmsMethod == SoftNmsGaussian
    requires Proper(p) && Proper(i) && score >= 0.0
    requires ExpDecays(ctx.num) && ctx.cfg.softNmsSigma > 0.0
    ensures 0.0 < GaussianFactor(ctx, p, i) <= 1.0
    ensures 0.0 <= GaussianDecay(ctx, score, p, i) <= score
  {
    var iou := Iou(p, i);
    var sq := iou * iou;
    assert sq >= 0.0;
    var arg := -1.0 * sq / ctx.cfg.softNmsSigma;
    assert arg <= 0.0;
    ProductMono(score, GaussianFactor(ctx, p, i), score, 1.0);
  }

  /** Kept RoIs pairwise: every earlier one is within the IoU threshold of
      every later one. */
  predicate Apart(ctx: Ctx, cls: int, keep: seq<int>)
    requires ValidCtx(ctx) && Foreground(ctx, cls) && Rows(ctx, keep)
  {
    forall i, j :: 0 <= i < j < |keep| ==>
      WithinIou(ctx.cfg.maxIou, BoxOf(ctx, keep[i], cls), BoxOf(ctx, keep[j], cls))
  }

  /** The rounds keep distinct RoIs, extend the keep list they start from with
      RoIs of the initial candidate list only, and stop at the cap. */
  lemma {:induction false} RoundsSpec(ctx: Ctx, cls: int, indices: seq<int>, bestPos: int, buf: seq<uint8>,
                                      keep: seq<int>, cap: int)
    requires ValidCtx(ctx) && Foreground(ctx, cls) && Fits(ctx, buf) && Rows(ctx, indices)
    requires Distinct(indices) && Distinct(keep)
    requires forall x :: x in keep ==> x !in indices
    ensures var r := Rounds(ctx, cls, indices, bestPos, buf, keep, cap);
      r.Ok? ==>
        && Distinct(r.value.keep)
        && keep <= r.value.keep
        && |r.value.keep| <= |keep| + |indices|
        && (forall x :: x in r.value.keep ==> x in keep || x in indices)
        && (|keep| <= cap ==> |r.value.keep| <= cap)
        && (|keep| > cap ==> r.value.keep == keep)
    decreases |indices|
  {
    hide SweepRest, Swap, ScoreAt;
    if |indices| == 0 || |keep| >= cap {
    } else if 0 <= bestPos < |indices| {
      var order := Swap(indices, bestPos);
      SwapFacts(ctx, indices, bestPos);
      var p := order[0];
      var rest := order[1..];
      assert order == [p] + rest;
      SweepRestSpec(ctx, cls, p, rest, buf);
      var sw := SweepRest(ctx, cls, p, rest, buf);
      DistinctAppend(keep, p);
      forall x | x in keep + [p] ensures x !in sw.pool.indices {
        if x in keep {
          assert x !in order;
        }
      }
      RoundsSpec(ctx, cls, sw.pool.indices, sw.pool.bestPos, sw.buf, keep + [p], cap);
    }
  }

  /** Moving the best candidate to the front keeps the same RoIs. */
  lemma SwapFacts(ctx: Ctx, indices: seq<int>, bestPos: int)
    requires 0 <= bestPos < |indices| && Rows(ctx, indices) && Distinct(indices)
    ensures var order := Swap(indices, bestPos);
      && (forall x :: x in order <==> x in indices)
      && Distinct(order) && Rows(ctx, order)
      && order[0] !in order[1..]
  {
    var order := Swap(indices, bestPos);
    forall x ensures x in order <==> x in indices {
      assert x in order <==> x in multiset(order);
      assert x in indices <==> x in multiset(indices);
    }
    forall i, j | 0 <= i < j < |order| ensures order[i] != order[j] {
      var oi := if i == 0 then bestPos else if i == bestPos then 0 else i;
      var oj := if j == 0 then bestPos else if j == bestPos then 0 else j;
      assert order[i] == indices[oi] && order[j] == indices[oj];
    }
    forall k | 0 <= k < |order| ensures 0 <= order[k] < ctx.numRois {
      assert order[k] in indices;
    }
  }

  /** Moving the best candidate to the front brings in no new RoI. */
  lemma SwapMembers(indices: seq<int>, bestPos: int)
    requires 0 <= bestPos < |indices|
    ensures forall k :: 0 <= k < |Swap(indices, bestPos)| ==> Swap(indices, bestPos)[k] in indices
  {
  }

  /** Under hard NMS with min_score at least -1 the rounds cannot fail and
      leave the buffer alone, given candidates that all score above min_score
      and a best position among them. */
  lemma {:induction false} RoundsSucceed(ctx: Ctx, cls: int, indices: seq<int>, bestPos: int, buf: seq<uint8>,
                                         keep: seq<int>, cap: int)
    requires ValidCtx(ctx) && Foreground(ctx, cls) && Fits(ctx, buf)
    requires ctx.cfg.softNmsMethod == SoftNmsNone && ctx.cfg.minScore >= -1.0
    requires Rows(ctx, indices)
    requires forall k :: 0 <= k < |indices| ==> ScoreAt(ctx, buf, indices[k], cls) > ctx.cfg.minScore
    requires |indices| > 0 ==> 0 <= bestPos < |indices|
    ensures var r := Rounds(ctx, cls, indices, bestPos, buf, keep, cap);
      r.Ok? && r.value.buf == buf
    decreases |indices|
  {
    hide SweepRest, Swap, BoxOf, WithinIou;
    if |indices| > 0 && |keep| < cap {
      var order := Swap(indices, bestPos);
      var p := order[0];
      var rest := order[1..];
      SwapMembers(indices, bestPos);
      SweepNone(ctx, cls, p, rest, buf);
      var sw := SweepRest(ctx, cls, p, rest, buf);
      var next := sw.pool.indices;
      forall k | 0 <= k < |next| ensures 0 <= next[k] < ctx.numRois && ScoreAt(ctx, buf, next[k], cls) > ctx.cfg.minScore {
        assert next[k] in rest;
        var u :| 0 <= u < |indices| && indices[u] == next[k];
      }
      if |next| > 0 {
        assert ScoreAt(ctx, buf, next[0], cls) > -1.0;
        // The pool is ranked with a rank above -1, so its best position is set.
        SweepRestRanked(ctx, cls, p, rest, buf);
        assert sw.pool.ranks[0] > -1.0;
      }
      RoundsSucceed(ctx, cls, next, sw.pool.bestPos, buf, keep + [p], cap);
    }
  }

  /** Under hard NMS, whatever min_score is, rounds that succeed leave the
      buffer alone and keep RoIs that are pairwise within the IoU threshold,
      given a keep list and candidates that already are. */
  lemma {:induction false} RoundsApart(ctx: Ctx, cls: int, indices: seq<int>, bestPos: int, buf: seq<uint8>,
                                       keep: seq<int>, cap: int)
    requires ValidCtx(ctx) && Foreground(ctx, cls) && Fits(ctx, buf)
    requires ctx.cfg.softNmsMethod == SoftNmsNone
    requires Rows(ctx, indices) && Rows(ctx, keep) && Apart(ctx, cls, keep)
    requires forall i, k :: 0 <= i < |keep| && 0 <= k < |indices| ==>
      WithinIou(ctx.cfg.maxIou, BoxOf(ctx, keep[i], cls), BoxOf(ctx, indices[k], cls))
    ensures var r := Rounds(ctx, cls, indices, bestPos, buf, keep, cap);
      r.Ok? ==> r.value.buf == buf && Rows(ctx, r.value.keep) && Apart(ctx, cls, r.value.keep)
    decreases |indices|
  {
    hide SweepRest, Swap, BoxOf, WithinIou;
    if |indices| > 0 && |keep| < cap && 0 <= bestPos < |indices| {
      var order := Swap(indices, bestPos);
      var p := order[0];
      var rest := order[1..];
      SwapMembers(indices, bestPos);
      SweepNone(ctx, cls, p, rest, buf);
      var sw := SweepRest(ctx, cls, p, rest, buf);
      var next := sw.pool.indices;
      var keep' := keep + [p];
      assert Rows(ctx, next) by {
        forall k | 0 <= k < |next| ensures 0 <= next[k] < ctx.numRois {
          assert next[k] in rest;
        }
      }
      assert Apart(ctx, cls, keep') by {
        forall i, j | 0 <= i < j < |keep'|
          ensures WithinIou(ctx.cfg.maxIou, BoxOf(ctx, keep'[i], cls), BoxOf(ctx, keep'[j], cls))
        {
          if j == |keep| {
            var k :| 0 <= k < |indices| && indices[k] == p;
          }
        }
      }
      forall i, k | 0 <= i < |keep'| && 0 <= k < |next|
        ensures WithinIou(ctx.cfg.maxIou, BoxOf(ctx, keep'[i], cls), BoxOf(ctx, next[k], cls))
      {
        assert next[k] in rest;
        var t :| 0 <= t < |rest| && rest[t] == next[k];
        if i < |keep| {
          var u :| 0 <= u < |indices| && indices[u] == next[k];
        }
      }
      RoundsApart(ctx, cls, next, sw.pool.bestPos, buf, keep', cap);
    }
  }

  lemma {:induction false} SweepRestRanked(ctx: Ctx, cls: int, p: int, rest: seq<int>, buf: seq<uint8>)
    requires ValidCtx(ctx) && Foreground(ctx, cls) && Fits(ctx, buf)
    requires 0 <= p < ctx.numRois && Rows(ctx, rest)
    ensures Ranked(SweepRest(ctx, cls, p, rest, buf).pool)
    decreases |rest|
  {
    if rest != [] {
      var front := rest[..|rest| - 1];
      SweepRestRanked(ctx, cls, p, front, buf);
      VisitEffect(ctx, cls, p, SweepRest(ctx, cls, p, front, buf), rest[|rest| - 1]);
    }
  }

  /** The candidates of a class are distinct RoIs below k, each scoring
      above min_score. */
  lemma CandidateRows(ctx: Ctx, cls: int, buf: seq<uint8>, k: nat)
    requires ValidCtx(ctx) && Fits(ctx, buf) && Foreground(ctx, cls) && k <= ctx.numRois
    ensures var pool := Candidates(ctx, cls, buf, k);
      && Rows(ctx, pool.indices) && Distinct(pool.indices)
      && (forall j :: 0 <= j < |pool.indices| ==> ScoreAt(ctx, buf, pool.indices[j], cls) > ctx.cfg.minScore)
      && (ctx.cfg.minScore >= -1.0 && |pool.indices| > 0 ==> 0 <= pool.bestPos < |pool.indices|)
  {
    CandidatesSpec(ctx, cls, buf, k);
    CandidatesMembers(ctx, cls, buf, k);
    CandidatesRanked(ctx, cls, buf, k);
    var pool := Candidates(ctx, cls, buf, k);
    if ctx.cfg.minScore >= -1.0 && |pool.indices| > 0 {
      assert pool.indices[0] in pool.indices;
      assert pool.ranks[0] > -1.0;
    }
    forall j | 0 <= j < |pool.indices| ensures ScoreAt(ctx, buf, pool.indices[j], cls) > ctx.cfg.minScore {
      assert pool.indices[j] in pool.indices;
    }
  }

  /** The keep list of one class holds distinct RoIs below n, each of which
      scored above min_score in the buffer the class started from; it has at
      most max_objects entries when max_objects is positive and at most n
      otherwise. */
  lemma SelectClassSpec(ctx: Ctx, cls: int, n: int, buf: seq<uint8>)
    requires ValidCtx(ctx) && Foreground(ctx, cls) && Fits(ctx, buf) && n <= ctx.numRois
    ensures var r := SelectClass(ctx, cls, n, buf);
      r.Ok? ==>
        && Distinct(r.value.keep)
        && |r.value.keep| <= (if n < 0 then 0 else n)
        && (ctx.cfg.maxObjects > 0 ==> |r.value.keep| <= ctx.cfg.maxObjects)
        && (forall k :: 0 <= k < |r.value.keep| ==>
              0 <= r.value.keep[k] < n && ScoreAt(ctx, buf, r.value.keep[k], cls) > ctx.cfg.minScore)
  {
    var k: nat := if n < 0 then 0 else n;
    CandidateRows(ctx, cls, buf, k);
    var pool := Candidates(ctx, cls, buf, k);
    var cap := ClassCap(ctx, n);
    RoundsSpec(ctx, cls, pool.indices, pool.bestPos, buf, [], cap);
    var r := Rounds(ctx, cls, pool.indices, pool.bestPos, buf, [], cap);
    assert r == SelectClass(ctx, cls, n, buf);
    if r.Ok? {
      var keep := r.value.keep;
      forall j | 0 <= j < |keep|
        ensures 0 <= keep[j] < n && ScoreAt(ctx, buf, keep[j], cls) > ctx.cfg.minScore
      {
        assert keep[j] in keep;
        var t :| 0 <= t < |pool.indices| && pool.indices[t] == keep[j];
      }
    }
  }

  /** Under hard NMS, whatever min_score is, a class selection that succeeds
      leaves the buffer as it was, and any two kept boxes of the class overlap
      by at most max_iou. */
  lemma SelectClassApart(ctx: Ctx, cls: int, n: int, buf: seq<uint8>)
    requires ValidCtx(ctx) && Foreground(ctx, cls) && Fits(ctx, buf) && n <= ctx.numRois
    requires ctx.cfg.softNmsMethod == SoftNmsNone
    ensures var r := SelectClass(ctx, cls, n, buf);
      r.Ok? ==>
        && r.value.buf == buf
        && Rows(ctx, r.value.keep)
        && (forall i, j :: 0 <= i < |r.value.keep| && 0 <= j < |r.value.keep| && i != j ==>
              WithinIou(ctx.cfg.maxIou, BoxOf(ctx, r.value.keep[i], cls), BoxOf(ctx, r.value.keep[j], cls)))
  {
    var k: nat := if n < 0 then 0 else n;
    CandidateRows(ctx, cls, buf, k);
    var pool := Candidates(ctx, cls, buf, k);
    var cap := ClassCap(ctx, n);
    RoundsApart(ctx, cls, pool.indices, pool.bestPos, buf, [], cap);
    var r := Rounds(ctx, cls, pool.indices, pool.bestPos, buf, [], cap);
    assert r == SelectClass(ctx, cls, n, buf);
    if r.Ok? {
      var keep := r.value.keep;
      forall i, j | 0 <= i < |keep| && 0 <= j < |keep| && i != j
        ensures WithinIou(ctx.cfg.maxIou, BoxOf(ctx, keep[i], cls), BoxOf(ctx, keep[j], cls))
      {
        var a, b := BoxOf(ctx, keep[i], cls), BoxOf(ctx, keep[j], cls);
        if j < i {
          assert WithinIou(ctx.cfg.maxIou, b, a);
          OverlapSymmetric(ctx.cfg.maxIou, b, a);
        }
      }
    }
  }

  /** Under hard NMS with min_score at least -1, selection for a class cannot
      fail, leaves the buffer as it was, and any two kept boxes of the class
      overlap by at most max_iou. */
  lemma SelectClassNone(ctx: Ctx, cls: int, n: int, buf: seq<uint8>)
    requires ValidCtx(ctx) && Foreground(ctx, cls) && Fits(ctx, buf) && n <= ctx.numRois
    requires ctx.cfg.softNmsMethod == SoftNmsNone && ctx.cfg.minScore >= -1.0
    ensures var r := SelectClass(ctx, cls, n, buf);
      && r.Ok? && r.value.buf == buf
      && Rows(ctx, r.value.keep)
      && (forall i, j :: 0 <= i < |r.value.keep| && 0 <= j < |r.value.keep| && i != j ==>
            WithinIou(ctx.cfg.maxIou, BoxOf(ctx, r.value.keep[i], cls), BoxOf(ctx, r.value.keep[j], cls)))
  {
    var k: nat := if n < 0 then 0 else n;
    CandidateRows(ctx, cls, buf, k);
    var pool := Candidates(ctx, cls, buf, k);
    RoundsSucceed(ctx, cls, pool.indices, pool.bestPos, buf, [], ClassCap(ctx, n));
    SelectClassApart(ctx, cls, n, buf);
  }
}
