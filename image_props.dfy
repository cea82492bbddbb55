/** What one image's keep lists look like: per-class guarantees carried over
    from the selection, and the cap's top-K guarantees. */
module ImageProps {
  import opened Status
  import opened Quant
  import opened Geometry
  import opened NmsConfig
  import opened Selection
  import opened SelectionProps
  import opened Image

  /** The keep lists after classes 1 .. upto-1: the background list and the
      lists of classes not yet reached are empty, and each reached class kept
      distinct RoIs below n, at most max_objects of them when max_objects is
      positive and at most n otherwise. */
  lemma {:induction false} SelectClassesSpec(ctx: Ctx, n: int, upto: int, buf: seq<uint8>)
    requires ValidCtx(ctx) && Fits(ctx, buf) && n <= ctx.numRois && upto <= ctx.numClasses
    ensures var r := SelectClasses(ctx, n, upto, buf);
      r.Ok? ==>
        && (forall c :: 0 <= c < |r.value.keeps| && (c == 0 || c >= upto) ==> r.value.keeps[c] == [])
        && (forall c :: 1 <= c < upto ==>
              && Distinct(r.value.keeps[c])
              && |r.value.keeps[c]| <= (if n < 0 then 0 else n)
              && (ctx.cfg.maxObjects > 0 ==> |r.value.keeps[c]| <= ctx.cfg.maxObjects)
              && (forall k :: 0 <= k < |r.value.keeps[c]| ==> r.value.keeps[c][k] < n))
    decreases upto
  {
    if upto > 1 {
      SelectClassesSpec(ctx, n, upto - 1, buf);
      var prev := SelectClasses(ctx, n, upto - 1, buf);
      if prev.Ok? {
        SelectClassSpec(ctx, upto - 1, n, prev.value.buf);
      }
    }
  }

  /** Under hard NMS with min_score at least -1, no class fails, the buffer is
      never written, and any two kept boxes of a class overlap by at most
      max_iou. */
  lemma {:induction false} SelectClassesNone(ctx: Ctx, n: int, upto: int, buf: seq<uint8>)
    requires ValidCtx(ctx) && Fits(ctx, buf) && n <= ctx.numRois && upto <= ctx.numClasses
    requires ctx.cfg.softNmsMethod == SoftNmsNone && ctx.cfg.minScore >= -1.0
    ensures var r := SelectClasses(ctx, n, upto, buf);
      && r.Ok? && r.value.buf == buf
      && (forall c :: 1 <= c < upto ==> Rows(ctx, r.value.keeps[c]))
      && (forall c, i, j :: 1 <= c < upto && 0 <= i < |r.value.keeps[c]| && 0 <= j < |r.value.keeps[c]| && i != j ==>
            WithinIou(ctx.cfg.maxIou, BoxOf(ctx, r.value.keeps[c][i], c), BoxOf(ctx, r.value.keeps[c][j], c)))
    decreases upto
  {
    hide SelectClass;
    if upto > 1 {
      SelectClassesNone(ctx, n, upto - 1, buf);
      SelectClassNone(ctx, upto - 1, n, buf);
    }
  }

  /** Under hard NMS, whatever min_score is, a run over classes 1 .. upto-1
      that succeeds never writes the buffer, and any two kept boxes of a class
      overlap by at most max_iou. */
  lemma {:induction false} SelectClassesApart(ctx: Ctx, n: int, upto: int, buf: seq<uint8>)
    requires ValidCtx(ctx) && Fits(ctx, buf) && n <= ctx.numRois && upto <= ctx.numClasses
    requires ctx.cfg.softNmsMethod == SoftNmsNone
    ensures var r := SelectClasses(ctx, n, upto, buf);
      r.Ok? ==>
        && r.value.buf == buf
        && (forall c :: 1 <= c < upto ==> Rows(ctx, r.value.keeps[c]))
        && (forall c, i, j :: 1 <= c < upto && 0 <= i < |r.value.keeps[c]| && 0 <= j < |r.value.keeps[c]| && i != j ==>
              WithinIou(ctx.cfg.maxIou, BoxOf(ctx, r.value.keeps[c][i], c), BoxOf(ctx, r.value.keeps[c][j], c)))
    decreases upto
  {
    hide SelectClass;
    if upto > 1 {
      SelectClassesApart(ctx, n, upto - 1, buf);
      SelectClassApart(ctx, upto - 1, n, buf);
    }
  }

  /** One more kept RoI in a foreground class below upto adds one to the count. */
  lemma {:induction false} KeptAppend(keeps: seq<seq<int>>, c: int, roi: int, upto: int)
    requires 0 <= c < |keeps| && upto <= |keeps|
    ensures Kept(keeps[c := keeps[c] + [roi]], upto) == Kept(keeps, upto) + (if 1 <= c < upto then 1 else 0)
    decreases upto
  {
    if upto > 1 {
      KeptAppend(keeps, c, roi, upto - 1);
    }
  }

  lemma {:induction false} KeptNone(numClasses: int, upto: int)
    requires upto <= |NoKeeps(numClasses)|
    ensures Kept(NoKeeps(numClasses), upto) == 0
    decreases upto
  {
    if upto > 1 {
      KeptNone(numClasses, upto - 1);
    }
  }

  /** Some entry carries class c and RoI roi. */
  predicate Has(es: seq<Entry>, c: int, roi: int) {
    exists k :: 0 <= k < |es| && es[k].cls == c && es[k].roi == roi
  }

  /** Regrouping entries of foreground classes keeps one RoI per entry, and a
      RoI is in the list of class c exactly when an entry of class c carries it. */
  lemma {:induction false} RegroupSpec(es: seq<Entry>, numClasses: int)
    requires forall k :: 0 <= k < |es| ==> 1 <= es[k].cls < numClasses
    ensures InClasses(es, numClasses)
    ensures Kept(Regroup(es, numClasses), numClasses) == |es|
    ensures numClasses > 0 ==> Regroup(es, numClasses)[0] == []
    ensures forall c, roi :: 0 <= c < numClasses ==> (roi in Regroup(es, numClasses)[c] <==> Has(es, c, roi))
    decreases |es|
  {
    if es == [] {
      KeptNone(numClasses, numClasses);
    } else {
      var front := es[..|es| - 1];
      var e := es[|es| - 1];
      RegroupSpec(front, numClasses);
      var prev := Regroup(front, numClasses);
      KeptAppend(prev, e.cls, e.roi, numClasses);
      forall c, roi | 0 <= c < numClasses ensures roi in Regroup(es, numClasses)[c] <==> Has(es, c, roi) {
        if roi in Regroup(es, numClasses)[c] && !(c == e.cls && roi == e.roi) {
          var k :| 0 <= k < |front| && front[k].cls == c && front[k].roi == roi;
          assert es[k] == front[k];
        }
        if Has(es, c, roi) {
          var k :| 0 <= k < |es| && es[k].cls == c && es[k].roi == roi;
          if k < |front| {
            assert front[k] == es[k];
          }
        }
      }
    }
  }

  /** Entries whose key is the raw working score of their (RoI, class) slot. */
  predicate Keyed(ctx: Ctx, buf: seq<uint8>, es: seq<Entry>)
    requires ValidCtx(ctx) && Fits(ctx, buf)
  {
    forall k :: 0 <= k < |es| ==>
      && Foreground(ctx, es[k].cls) && 0 <= es[k].roi < ctx.numRois
      && es[k].key == buf[Slot(ctx.numRois, ctx.numClasses, es[k].roi, es[k].cls)]
  }

  /** The RoIs of class cls in non-increasing raw score order. */
  predicate ClassDescending(ctx: Ctx, buf: seq<uint8>, cls: int, rois: seq<int>)
    requires ValidCtx(ctx) && Fits(ctx, buf) && Foreground(ctx, cls) && Rows(ctx, rois)
  {
    forall i, j :: 0 <= i < j < |rois| ==>
      buf[Slot(ctx.numRois, ctx.numClasses, rois[i], cls)] >= buf[Slot(ctx.numRois, ctx.numClasses, rois[j], cls)]
  }

  /** Regrouping a descending list of keyed entries gives every class its RoIs
      in non-increasing score order. */
  lemma {:induction false} RegroupDescending(ctx: Ctx, buf: seq<uint8>, es: seq<Entry>, cls: int)
    requires ValidCtx(ctx) && Fits(ctx, buf) && Foreground(ctx, cls)
    requires Keyed(ctx, buf, es) && Descending(es)
    ensures InClasses(es, ctx.numClasses)
    ensures var rois := Regroup(es, ctx.numClasses)[cls];
      Rows(ctx, rois) && ClassDescending(ctx, buf, cls, rois)
    decreases |es|
  {
    RegroupSpec(es, ctx.numClasses);
    var rois := Regroup(es, ctx.numClasses)[cls];
    assert Rows(ctx, rois) by {
      forall i | 0 <= i < |rois| ensures 0 <= rois[i] < ctx.numRois {
        assert rois[i] in rois;
      }
    }
    if es != [] {
      var front := es[..|es| - 1];
      var e := es[|es| - 1];
      RegroupDescending(ctx, buf, front, cls);
      var prev := Regroup(front, ctx.numClasses)[cls];
      if e.cls == cls {
        assert rois == prev + [e.roi];
        RegroupSpec(front, ctx.numClasses);
        forall i | 0 <= i < |prev|
          ensures buf[Slot(ctx.numRois, ctx.numClasses, prev[i], cls)] >= buf[Slot(ctx.numRois, ctx.numClasses, e.roi, cls)]
        {
          assert prev[i] in prev;
          assert Has(front, cls, prev[i]);
          var k :| 0 <= k < |front| && front[k].cls == cls && front[k].roi == prev[i];
          assert es[k] == front[k];
        }
        forall i, j | 0 <= i < j < |rois|
          ensures buf[Slot(ctx.numRois, ctx.numClasses, rois[i], cls)] >= buf[Slot(ctx.numRois, ctx.numClasses, rois[j], cls)]
        {
          assert rois[i] == prev[i];
          if j < |prev| {
            assert rois[j] == prev[j];
          }
        }
      } else {
        assert rois == prev;
      }
    }
  }

  lemma {:induction false} ClassEntriesKeyed(ctx: Ctx, buf: seq<uint8>, cls: int, rois: seq<int>)
    requires ValidCtx(ctx) && Fits(ctx, buf) && Foreground(ctx, cls) && Rows(ctx, rois)
    ensures forall k :: 0 <= k < |rois| ==>
      ClassEntries(ctx, buf, cls, rois)[k] == Entry(cls, rois[k], buf[Slot(ctx.numRois, ctx.numClasses, rois[k], cls)])
    decreases |rois|
  {
    if rois != [] {
      ClassEntriesKeyed(ctx, buf, cls, rois[..|rois| - 1]);
    }
  }

  lemma HasAppend(a: seq<Entry>, b: seq<Entry>, c: int, roi: int)
    ensures Has(a + b, c, roi) <==> Has(a, c, roi) || Has(b, c, roi)
  {
    var ab := a + b;
    if Has(ab, c, roi) {
      var k :| 0 <= k < |ab| && ab[k].cls == c && ab[k].roi == roi;
      if k < |a| {
        assert a[k] == ab[k];
      } else {
        assert b[k - |a|] == ab[k];
      }
    }
    if Has(a, c, roi) {
      var k :| 0 <= k < |a| && a[k].cls == c && a[k].roi == roi;
      assert ab[k] == a[k];
    }
    if Has(b, c, roi) {
      var k :| 0 <= k < |b| && b[k].cls == c && b[k].roi == roi;
      assert ab[|a| + k] == b[k];
    }
  }

  lemma ClassEntriesHas(ctx: Ctx, buf: seq<uint8>, cls: int, rois: seq<int>, c: int, roi: int)
    requires ValidCtx(ctx) && Fits(ctx, buf) && Foreground(ctx, cls) && Rows(ctx, rois)
    ensures Has(ClassEntries(ctx, buf, cls, rois), c, roi) <==> c == cls && roi in rois
  {
    ClassEntriesKeyed(ctx, buf, cls, rois);
    var es := ClassEntries(ctx, buf, cls, rois);
    if c == cls && roi in rois {
      var j :| 0 <= j < |rois| && rois[j] == roi;
      assert es[j].cls == c && es[j].roi == roi;
    }
  }

  /** The flattened entries are keyed, and an entry of class c and RoI roi is
      among them exactly when roi is in the keep list of c. */
  lemma {:induction false} FlattenSpec(ctx: Ctx, buf: seq<uint8>, keeps: seq<seq<int>>, upto: int)
    requires ValidCtx(ctx) && Fits(ctx, buf) && KeepRows(ctx, keeps) && upto <= ctx.numClasses
    ensures Keyed(ctx, buf, Flatten(ctx, buf, keeps, upto))
    ensures forall c, roi :: 1 <= c < upto ==> (roi in keeps[c] <==> Has(Flatten(ctx, buf, keeps, upto), c, roi))
    decreases upto
  {
    if upto > 1 {
      var c0 := upto - 1;
      FlattenSpec(ctx, buf, keeps, c0);
      assert Rows(ctx, keeps[c0]);
      ClassEntriesKeyed(ctx, buf, c0, keeps[c0]);
      var front := Flatten(ctx, buf, keeps, c0);
      var tail := ClassEntries(ctx, buf, c0, keeps[c0]);
      assert Flatten(ctx, buf, keeps, upto) == front + tail;
      FlattenShape(ctx, buf, keeps, c0);
      forall c, roi | 1 <= c < upto ensures roi in keeps[c] <==> Has(front + tail, c, roi) {
        HasAppend(front, tail, c, roi);
        ClassEntriesHas(ctx, buf, c0, keeps[c0], c, roi);
      }
    }
  }

  /** A permutation of keyed entries is keyed, with the same members. */
  lemma PermutedKeyed(ctx: Ctx, buf: seq<uint8>, sorted: seq<Entry>, all: seq<Entry>)
    requires ValidCtx(ctx) && Fits(ctx, buf) && Keyed(ctx, buf, all)
    requires multiset(sorted) == multiset(all)
    ensures Keyed(ctx, buf, sorted)
    ensures forall e :: e in sorted <==> e in all
  {
    forall e ensures e in sorted <==> e in all {
      assert e in sorted <==> e in multiset(sorted);
      assert e in all <==> e in multiset(all);
    }
    forall k | 0 <= k < |sorted|
      ensures && Foreground(ctx, sorted[k].cls) && 0 <= sorted[k].roi < ctx.numRois
              && sorted[k].key == buf[Slot(ctx.numRois, ctx.numClasses, sorted[k].roi, sorted[k].cls)]
    {
      assert sorted[k] in all;
      var j :| 0 <= j < |all| && all[j] == sorted[k];
    }
  }

  /** When the cap fires, the sorted entries are the kept (RoI, class)
      pairs, keyed by raw score, in non-increasing key order. */
  lemma SortedEntries(ctx: Ctx, sort: seq<Entry> -> seq<Entry>, buf: seq<uint8>, keeps: seq<seq<int>>)
    requires ValidCtx(ctx) && Fits(ctx, buf) && KeepRows(ctx, keeps) && SortsDescending(sort)
    ensures var sorted := sort(Flatten(ctx, buf, keeps, ctx.numClasses));
      && |sorted| == Kept(keeps, ctx.numClasses)
      && Keyed(ctx, buf, sorted) && Descending(sorted)
      && (forall c, roi :: 1 <= c < ctx.numClasses ==> (roi in keeps[c] <==> Has(sorted, c, roi)))
  {
    var all := Flatten(ctx, buf, keeps, ctx.numClasses);
    var sorted := sort(all);
    FlattenShape(ctx, buf, keeps, ctx.numClasses);
    FlattenSpec(ctx, buf, keeps, ctx.numClasses);
    PermutedKeyed(ctx, buf, sorted, all);
    assert |sorted| == |all| by {
      assert |multiset(sorted)| == |multiset(all)|;
    }
    forall c, roi | 1 <= c < ctx.numClasses ensures Has(all, c, roi) <==> Has(sorted, c, roi) {
      if Has(all, c, roi) {
        var k :| 0 <= k < |all| && all[k].cls == c && all[k].roi == roi;
        assert all[k] in sorted;
      }
      if Has(sorted, c, roi) {
        var k :| 0 <= k < |sorted| && sorted[k].cls == c && sorted[k].roi == roi;
        assert sorted[k] in all;
      }
    }
  }

  lemma HasPrefix(es: seq<Entry>, m: int, c: int, roi: int)
    requires 0 <= m <= |es| && Has(es[..m], c, roi)
    ensures Has(es, c, roi)
  {
    var k :| 0 <= k < m && es[..m][k].cls == c && es[..m][k].roi == roi;
    assert es[k] == es[..m][k];
  }

  /** No two entries carry the same class and RoI. */
  predicate UniquePairs(es: seq<Entry>) {
    forall i, j :: 0 <= i < j < |es| ==> es[i].cls != es[j].cls || es[i].roi != es[j].roi
  }

  /** Flattening duplicate-free keep lists gives each (class, RoI) pair once. */
  lemma {:induction false} FlattenUnique(ctx: Ctx, buf: seq<uint8>, keeps: seq<seq<int>>, upto: int)
    requires ValidCtx(ctx) && Fits(ctx, buf) && KeepRows(ctx, keeps) && upto <= ctx.numClasses
    requires forall c :: 1 <= c < upto ==> Distinct(keeps[c])
    ensures UniquePairs(Flatten(ctx, buf, keeps, upto))
    decreases upto
  {
    if upto > 1 {
      var c0 := upto - 1;
      FlattenUnique(ctx, buf, keeps, c0);
      FlattenShape(ctx, buf, keeps, c0);
      assert Rows(ctx, keeps[c0]);
      ClassEntriesKeyed(ctx, buf, c0, keeps[c0]);
      var front := Flatten(ctx, buf, keeps, c0);
      var tail := ClassEntries(ctx, buf, c0, keeps[c0]);
      var all := front + tail;
      assert Flatten(ctx, buf, keeps, upto) == all;
      forall i, j | 0 <= i < j < |all| ensures all[i].cls != all[j].cls || all[i].roi != all[j].roi {
        if j < |front| {
          assert all[i] == front[i] && all[j] == front[j];
        } else if i < |front| {
          assert all[i] == front[i] && all[j] == tail[j - |front|];
        } else {
          assert all[i] == tail[i - |front|] && all[j] == tail[j - |front|];
        }
      }
    }
  }

  /** A list without repeated pairs holds each entry at most once. */
  lemma {:induction false} UniqueCounts(es: seq<Entry>)
    requires UniquePairs(es)
    ensures forall e :: multiset(es)[e] <= 1
    decreases |es|
  {
    if es != [] {
      var front := es[..|es| - 1];
      var last := es[|es| - 1];
      assert es == front + [last];
      UniqueCounts(front);
      assert last !in front;
    }
  }

  /** An entry at two positions is counted at least twice. */
  lemma TwoCopies(es: seq<Entry>, i: int, j: int)
    requires 0 <= i < j < |es| && es[i] == es[j]
    ensures multiset(es)[es[i]] >= 2
  {
    assert es == es[..j] + [es[j]] + es[j + 1..];
    assert es[i] == es[..j][i];
  }

  /** A permutation of keyed entries without repeated pairs has none either:
      two entries with the same pair have the same key, so they are one entry
      counted twice. */
  lemma SortedUnique(ctx: Ctx, buf: seq<uint8>, sorted: seq<Entry>, all: seq<Entry>)
    requires ValidCtx(ctx) && Fits(ctx, buf) && Keyed(ctx, buf, all) && UniquePairs(all)
    requires multiset(sorted) == multiset(all)
    ensures UniquePairs(sorted)
  {
    PermutedKeyed(ctx, buf, sorted, all);
    UniqueCounts(all);
    forall i, j | 0 <= i < j < |sorted| ensures sorted[i].cls != sorted[j].cls || sorted[i].roi != sorted[j].roi {
      if sorted[i].cls == sorted[j].cls && sorted[i].roi == sorted[j].roi {
        assert sorted[i] == sorted[j];
        TwoCopies(sorted, i, j);
        assert false;
      }
    }
  }

  /** Regrouping entries without repeated pairs gives duplicate-free lists. */
  lemma {:induction false} RegroupDistinct(es: seq<Entry>, numClasses: int)
    requires forall k :: 0 <= k < |es| ==> 1 <= es[k].cls < numClasses
    requires UniquePairs(es)
    ensures InClasses(es, numClasses)
    ensures forall c :: 0 <= c < numClasses ==> Distinct(Regroup(es, numClasses)[c])
    decreases |es|
  {
    if es != [] {
      var front := es[..|es| - 1];
      var e := es[|es| - 1];
      RegroupDistinct(front, numClasses);
      RegroupSpec(front, numClasses);
      var prev := Regroup(front, numClasses);
      assert e.roi !in prev[e.cls];
      DistinctAppend(prev[e.cls], e.roi);
    }
  }

  /** When the cap fires on duplicate-free keep lists, the lists it rebuilds
      are duplicate-free too. */
  lemma CapDistinct(ctx: Ctx, sort: seq<Entry> -> seq<Entry>, buf: seq<uint8>, keeps: seq<seq<int>>)
    requires ValidCtx(ctx) && Fits(ctx, buf) && KeepRows(ctx, keeps) && SortsDescending(sort)
    requires ctx.cfg.maxObjects > 0 && Kept(keeps, ctx.numClasses) > ctx.cfg.maxObjects
    requires forall c :: 1 <= c < ctx.numClasses ==> Distinct(keeps[c])
    ensures forall c :: 0 <= c < ctx.numClasses ==> Distinct(Cap(ctx, sort, buf, keeps).keeps[c])
  {
    hide Flatten, Regroup;
    var all := Flatten(ctx, buf, keeps, ctx.numClasses);
    FlattenUnique(ctx, buf, keeps, ctx.numClasses);
    FlattenSpec(ctx, buf, keeps, ctx.numClasses);
    FlattenShape(ctx, buf, keeps, ctx.numClasses);
    var sorted := sort(all);
    SortedUnique(ctx, buf, sorted, all);
    SortedClasses(sorted, all, ctx.numClasses);
    assert |sorted| == |all| by {
      assert |multiset(sorted)| == |multiset(all)|;
    }
    var top := sorted[..ctx.cfg.maxObjects];
    assert UniquePairs(top);
    RegroupDistinct(top, ctx.numClasses);
  }

  /** The cap leaves keep lists whose count is the reported total, at most
      max_objects when that is positive, exactly max_objects when the cap
      fires, and unchanged when it does not. Every surviving RoI of a class
      was kept for that class, the background list stays empty, and lists
      without duplicates stay without duplicates. */
  lemma CapCount(ctx: Ctx, sort: seq<Entry> -> seq<Entry>, buf: seq<uint8>, keeps: seq<seq<int>>)
    requires ValidCtx(ctx) && Fits(ctx, buf) && KeepRows(ctx, keeps) && SortsDescending(sort)
    requires ctx.numClasses > 0 ==> keeps[0] == []
    ensures var r := Cap(ctx, sort, buf, keeps);
      var fires := ctx.cfg.maxObjects > 0 && Kept(keeps, ctx.numClasses) > ctx.cfg.maxObjects;
      && KeepRows(ctx, r.keeps)
      && r.total == Kept(r.keeps, ctx.numClasses)
      && (ctx.cfg.maxObjects > 0 ==> r.total <= ctx.cfg.maxObjects)
      && (fires ==> r.total == ctx.cfg.maxObjects)
      && (!fires ==> r.keeps == keeps)
      && (ctx.numClasses > 0 ==> r.keeps[0] == [])
      && (forall c, roi :: 1 <= c < ctx.numClasses && roi in r.keeps[c] ==> roi in keeps[c])
      && ((forall c :: 1 <= c < ctx.numClasses ==> Distinct(keeps[c])) ==>
            forall c :: 1 <= c < ctx.numClasses ==> Distinct(r.keeps[c]))
  {
    if ctx.cfg.maxObjects > 0 && Kept(keeps, ctx.numClasses) > ctx.cfg.maxObjects {
      CapFires(ctx, sort, buf, keeps);
      if forall c :: 1 <= c < ctx.numClasses ==> Distinct(keeps[c]) {
        CapDistinct(ctx, sort, buf, keeps);
      }
    }
  }

  /** The regrouped top max_objects entries, when the cap fires. */
  lemma CapFires(ctx: Ctx, sort: seq<Entry> -> seq<Entry>, buf: seq<uint8>, keeps: seq<seq<int>>)
    requires ValidCtx(ctx) && Fits(ctx, buf) && KeepRows(ctx, keeps) && SortsDescending(sort)
    requires ctx.cfg.maxObjects > 0 && Kept(keeps, ctx.numClasses) > ctx.cfg.maxObjects
    ensures var r := Cap(ctx, sort, buf, keeps).keeps;
      && KeepRows(ctx, r)
      && Kept(r, ctx.numClasses) == ctx.cfg.maxObjects
      && (ctx.numClasses > 0 ==> r[0] == [])
      && (forall c, roi :: 1 <= c < ctx.numClasses && roi in r[c] ==> roi in keeps[c])
  {
    hide Flatten, Regroup;
    SortedEntries(ctx, sort, buf, keeps);
    var sorted := sort(Flatten(ctx, buf, keeps, ctx.numClasses));
    var top := sorted[..ctx.cfg.maxObjects];
    assert Keyed(ctx, buf, top);
    RegroupSpec(top, ctx.numClasses);
    var r := Regroup(top, ctx.numClasses);
    forall c, k | 0 <= c < |r| && 0 <= k < |r[c]| ensures 0 <= r[c][k] < ctx.numRois {
      var roi := r[c][k];
      assert roi in r[c];
      assert Has(top, c, roi);
      var j :| 0 <= j < |top| && top[j].cls == c && top[j].roi == roi;
    }
    forall c, roi | 1 <= c < ctx.numClasses && roi in r[c] ensures roi in keeps[c] {
      assert Has(top, c, roi);
      HasPrefix(sorted, ctx.cfg.maxObjects, c, roi);
    }
  }

  /** When the cap fires, no dropped detection outscores a surviving one: the
      raw score of every surviving (RoI, class) is at least that of every
      (RoI, class) that was kept before the cap and is gone after it. Within
      a class, the survivors are in non-increasing raw score order. */
  lemma CapTopK(ctx: Ctx, sort: seq<Entry> -> seq<Entry>, buf: seq<uint8>, keeps: seq<seq<int>>)
    requires ValidCtx(ctx) && Fits(ctx, buf) && KeepRows(ctx, keeps) && SortsDescending(sort)
    requires ctx.cfg.maxObjects > 0 && Kept(keeps, ctx.numClasses) > ctx.cfg.maxObjects
    ensures var r := Cap(ctx, sort, buf, keeps);
      && (forall c :: 1 <= c < ctx.numClasses ==> Rows(ctx, r.keeps[c]) && ClassDescending(ctx, buf, c, r.keeps[c]))
      && (forall c, c', roi, roi' ::
            && 1 <= c < ctx.numClasses && 1 <= c' < ctx.numClasses
            && roi in r.keeps[c] && roi' in keeps[c'] && roi' !in r.keeps[c']
            ==> buf[Slot(ctx.numRois, ctx.numClasses, roi, c)] >= buf[Slot(ctx.numRois, ctx.numClasses, roi', c')])
  {
    hide Flatten, Regroup;
    SortedEntries(ctx, sort, buf, keeps);
    var sorted := sort(Flatten(ctx, buf, keeps, ctx.numClasses));
    var m := ctx.cfg.maxObjects;
    var top := sorted[..m];
    assert Keyed(ctx, buf, top) && Descending(top);
    RegroupSpec(top, ctx.numClasses);
    var r := Regroup(top, ctx.numClasses);
    forall c | 1 <= c < ctx.numClasses ensures Rows(ctx, r[c]) && ClassDescending(ctx, buf, c, r[c]) {
      RegroupDescending(ctx, buf, top, c);
    }
    forall c, c', roi, roi' |
        && 1 <= c < ctx.numClasses && 1 <= c' < ctx.numClasses
        && roi in r[c] && roi' in keeps[c'] && roi' !in r[c']
      ensures buf[Slot(ctx.numRois, ctx.numClasses, roi, c)] >= buf[Slot(ctx.numRois, ctx.numClasses, roi', c')]
    {
      assert Has(top, c, roi) && Has(sorted, c', roi') && !Has(top, c', roi');
      var i :| 0 <= i < |top| && top[i].cls == c && top[i].roi == roi;
      var j :| 0 <= j < |sorted| && sorted[j].cls == c' && sorted[j].roi == roi';
      assert j >= m;
      assert top[i] == sorted[i];
    }
  }

  /** An image's keep lists: keyed by RoIs below n, without duplicates, the
      background list empty, the total their count, and at most max_objects
      of them when max_objects is positive. */
  lemma ProcessImageSpec(ctx: Ctx, sort: seq<Entry> -> seq<Entry>, n: int, buf: seq<uint8>)
    requires ValidCtx(ctx) && Fits(ctx, buf) && n <= ctx.numRois && SortsDescending(sort)
    ensures var r := ProcessImage(ctx, sort, n, buf);
      r.Ok? ==>
        && KeepRows(ctx, r.value.keeps) && Fits(ctx, r.value.buf)
        && (ctx.numClasses > 0 ==> r.value.keeps[0] == [])
        && r.value.total == Kept(r.value.keeps, ctx.numClasses)
        && (ctx.cfg.maxObjects > 0 ==> r.value.total <= ctx.cfg.maxObjects)
        && (forall c, k :: 1 <= c < ctx.numClasses && 0 <= k < |r.value.keeps[c]| ==> r.value.keeps[c][k] < n)
        && (forall c :: 1 <= c < ctx.numClasses ==> Distinct(r.value.keeps[c]))
  {
    hide SelectClass;
    SelectClassesSpec(ctx, n, ctx.numClasses, buf);
    SelectClassesRows(ctx, n, ctx.numClasses, buf);
    var cl := SelectClasses(ctx, n, ctx.numClasses, buf);
    if cl.Ok? {
      CapCount(ctx, sort, cl.value.buf, cl.value.keeps);
      var capped := Cap(ctx, sort, cl.value.buf, cl.value.keeps);
      forall c, k | 1 <= c < ctx.numClasses && 0 <= k < |capped.keeps[c]| ensures capped.keeps[c][k] < n {
        assert capped.keeps[c][k] in capped.keeps[c];
        var j :| 0 <= j < |cl.value.keeps[c]| && cl.value.keeps[c][j] == capped.keeps[c][k];
      }
    }
  }

  /** Under hard NMS, whatever min_score is, an image that succeeds leaves the
      buffer as it was, and any two boxes a class still holds after the cap
      overlap by at most max_iou. */
  lemma ProcessImageNone(ctx: Ctx, sort: seq<Entry> -> seq<Entry>, n: int, buf: seq<uint8>)
    requires ValidCtx(ctx) && Fits(ctx, buf) && n <= ctx.numRois && SortsDescending(sort)
    requires ctx.cfg.softNmsMethod == SoftNmsNone
    ensures var r := ProcessImage(ctx, sort, n, buf);
      r.Ok? ==>
        && r.value.buf == buf
        && KeepRows(ctx, r.value.keeps)
        && (forall c, i, j ::
              1 <= c < ctx.numClasses && 0 <= i < |r.value.keeps[c]| && 0 <= j < |r.value.keeps[c]| && i != j ==>
              WithinIou(ctx.cfg.maxIou, BoxOf(ctx, r.value.keeps[c][i], c), BoxOf(ctx, r.value.keeps[c][j], c)))
  {
    hide SelectClass, Cap;
    ProcessImageSpec(ctx, sort, n, buf);
    SelectClassesApart(ctx, n, ctx.numClasses, buf);
    SelectClassesSpec(ctx, n, ctx.numClasses, buf);
    SelectClassesRows(ctx, n, ctx.numClasses, buf);
    var cl := SelectClasses(ctx, n, ctx.numClasses, buf);
    if cl.Ok? {
      CapCount(ctx, sort, cl.value.buf, cl.value.keeps);
      var before := cl.value.keeps;
      var after := Cap(ctx, sort, cl.value.buf, before).keeps;
      assert ProcessImage(ctx, sort, n, buf) == Ok(ImageResult(after, Cap(ctx, sort, cl.value.buf, before).total, buf));
      forall c, i, j | 1 <= c < ctx.numClasses && 0 <= i < |after[c]| && 0 <= j < |after[c]| && i != j
        ensures WithinIou(ctx.cfg.maxIou, BoxOf(ctx, after[c][i], c), BoxOf(ctx, after[c][j], c))
      {
        assert after[c][i] in after[c] && after[c][j] in after[c];
        var i' :| 0 <= i' < |before[c]| && before[c][i'] == after[c][i];
        var j' :| 0 <= j' < |before[c]| && before[c][j'] == after[c][j];
        assert i' != j' by {
          if i < j {
            assert after[c][i] != after[c][j];
          } else {
            assert after[c][j] != after[c][i];
          }
        }
      }
    }
  }
}
