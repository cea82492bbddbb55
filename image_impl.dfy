/** One image of the batch, working in place on the score buffer: the class
    loop and the cap, each proved to compute its counterpart in Image. */
module ImageImpl {
  import opened Status
  import opened Quant
  import opened Geometry
  import opened NmsConfig
  import opened Selection
  import opened SelectionImpl
  import opened Image

  /** Once a class fails, so does every longer run of classes. */
  lemma {:induction false} SelectClassesErr(ctx: Ctx, n: int, u: int, v: int, buf: seq<uint8>)
    requires ValidCtx(ctx) && Fits(ctx, buf) && n <= ctx.numRois && u <= v && (v <= ctx.numClasses || v <= 1)
    requires SelectClasses(ctx, n, u, buf).Err?
    ensures SelectClasses(ctx, n, v, buf).Err?
    decreases v - u
  {
    hide SelectClass;
    if u < v {
      SelectClassesErr(ctx, n, u, v - 1, buf);
    }
  }

  /** One more class: the run up to cls+1 is the run up to cls followed by
      the selection for cls on the buffer it left. */
  lemma SelectClassesStep(ctx: Ctx, n: int, cls: int, buf: seq<uint8>, prev: Classes)
    requires ValidCtx(ctx) && Fits(ctx, buf) && n <= ctx.numRois && 1 <= cls < ctx.numClasses
    requires SelectClasses(ctx, n, cls, buf) == Ok(prev)
    ensures Fits(ctx, prev.buf) && |prev.keeps| == ctx.numClasses
    ensures var sel := SelectClass(ctx, cls, n, prev.buf);
      && (sel.Err? ==> SelectClasses(ctx, n, cls + 1, buf).Err?)
      && (sel.Ok? ==> SelectClasses(ctx, n, cls + 1, buf) == Ok(Classes(prev.keeps[cls := sel.value.keep], sel.value.buf)))
  {
  }

  /** The count over classes below upto ignores the lists from upto on. */
  lemma {:induction false} KeptFrame(keeps: seq<seq<int>>, c: int, rois: seq<int>, upto: int)
    requires 0 <= c < |keeps| && upto <= c
    ensures Kept(keeps[c := rois], upto) == Kept(keeps, upto)
    decreases upto
  {
    if upto > 1 {
      KeptFrame(keeps, c, rois, upto - 1);
    }
  }

  /** Collects every class's kept RoIs with their raw scores, class by
      class from class 1 up. */
  method FlattenKeeps(ctx: Ctx, adj: array<uint8>, keeps: seq<seq<int>>) returns (all: seq<Entry>)
    requires ValidCtx(ctx) && Fits(ctx, adj[..]) && KeepRows(ctx, keeps) && ctx.numClasses >= 1
    ensures all == Flatten(ctx, adj[..], keeps, ctx.numClasses)
  {
    all := [];
    var i := 1;
    while i < ctx.numClasses
      invariant 1 <= i <= ctx.numClasses
      invariant all == Flatten(ctx, adj[..], keeps, i)
    {
      assert Rows(ctx, keeps[i]);
      var k := 0;
      while k < |keeps[i]|
        invariant 0 <= k <= |keeps[i]|
        invariant all == Flatten(ctx, adj[..], keeps, i) + ClassEntries(ctx, adj[..], i, keeps[i][..k])
      {
        var roi := keeps[i][k];
        SlotBounds(ctx.numRois, ctx.numClasses, roi, i);
        assert keeps[i][..k + 1][..k] == keeps[i][..k];
        all := all + [Entry(i, roi, adj[roi * ctx.numClasses + i])];
        k := k + 1;
      }
      assert keeps[i][..k] == keeps[i];
      i := i + 1;
    }
  }

  /** Clears every keep list, then hands the first m sorted entries back to
      their classes in sorted order. */
  method RegroupTop(sorted: seq<Entry>, m: int, keeps: seq<seq<int>>) returns (keeps': seq<seq<int>>)
    requires 0 <= m <= |sorted| && InClasses(sorted, |keeps|)
    ensures keeps' == Regroup(sorted[..m], |keeps|)
  {
    keeps' := keeps;
    var c := 0;
    while c < |keeps'|
      invariant 0 <= c <= |keeps'| && |keeps'| == |keeps|
      invariant forall d :: 0 <= d < c ==> keeps'[d] == []
    {
      keeps' := keeps'[c := []];
      c := c + 1;
    }
    assert keeps' == NoKeeps(|keeps|);
    var j := 0;
    while j < m
      invariant 0 <= j <= m
      invariant keeps' == Regroup(sorted[..j], |keeps|)
    {
      var obj := sorted[j];
      assert sorted[..j + 1][..j] == sorted[..j];
      keeps' := keeps'[obj.cls := keeps'[obj.cls] + [obj.roi]];
      j := j + 1;
    }
  }

  /** Merges the keep lists of all classes, sorts them by raw score and keeps
      the first max_objects, regrouped by class, when the classes kept more
      than max_objects in total. */
  method CapKeeps(ctx: Ctx, sort: seq<Entry> -> seq<Entry>, adj: array<uint8>, keeps: seq<seq<int>>, total: int)
      returns (keeps': seq<seq<int>>, total': int)
    requires ValidCtx(ctx) && Fits(ctx, adj[..]) && KeepRows(ctx, keeps) && SortsDescending(sort)
    requires total == Kept(keeps, ctx.numClasses)
    ensures Cap(ctx, sort, adj[..], keeps) == Capped(keeps', total')
  {
    keeps', total' := keeps, total;
    var m := ctx.cfg.maxObjects;
    if m > 0 && total > m {
      hide Flatten, Regroup;
      var all := FlattenKeeps(ctx, adj, keeps);
      var sorted := sort(all);
      FlattenShape(ctx, adj[..], keeps, ctx.numClasses);
      assert |sorted| == |all| by {
        assert |multiset(sorted)| == |multiset(all)|;
      }
      SortedClasses(sorted, all, ctx.numClasses);
      keeps' := RegroupTop(sorted, m, keeps);
      total' := m;
    }
  }

  /** One pass of the class loop: selection for class cls on the buffer the
      classes before it left, its keep list stored and counted; false when
      the class fails. */
  method SelectClassInPlace(ctx: Ctx, n: int, cls: int, adj: array<uint8>, keeps: seq<seq<int>>, total: int,
                            ghost buf0: seq<uint8>)
      returns (ok: bool, keeps': seq<seq<int>>, total': int)
    requires ValidCtx(ctx) && Fits(ctx, buf0) && n <= ctx.numRois && 1 <= cls < ctx.numClasses
    requires SelectClasses(ctx, n, cls, buf0) == Ok(Classes(keeps, adj[..])) && total == Kept(keeps, cls)
    modifies adj
    ensures ok ==> SelectClasses(ctx, n, cls + 1, buf0) == Ok(Classes(keeps', adj[..]))
    ensures ok ==> |keeps'| == ctx.numClasses && total' == Kept(keeps', cls + 1)
    ensures !ok ==> SelectClasses(ctx, n, cls + 1, buf0).Err?
  {
    SelectClassesStep(ctx, n, cls, buf0, Classes(keeps, adj[..]));
    var r := NmsClass(ctx, cls, n, adj);
    if r.Err? {
      return false, keeps, total;
    }
    KeptFrame(keeps, cls, r.value, cls);
    keeps' := keeps[cls := r.value];
    total' := total + |r.value|;
    ok := true;
  }

  /** Selection for every foreground class of one image over RoIs 0 .. n-1,
      in ascending class order; fails when a class fails. */
  method NmsClasses(ctx: Ctx, n: int, adj: array<uint8>) returns (ok: bool, keeps: seq<seq<int>>, total: int)
    requires ValidCtx(ctx) && Fits(ctx, adj[..]) && n <= ctx.numRois
    modifies adj
    ensures ok ==> SelectClasses(ctx, n, ctx.numClasses, old(adj[..])) == Ok(Classes(keeps, adj[..]))
    ensures ok ==> total == Kept(keeps, ctx.numClasses)
    ensures !ok ==> SelectClasses(ctx, n, ctx.numClasses, old(adj[..])).Err?
  {
    hide SelectClass;
    ghost var buf0 := adj[..];
    keeps := NoKeeps(ctx.numClasses);
    total := 0;
    var cls := 1;
    while cls < ctx.numClasses
      invariant 1 <= cls && (cls <= ctx.numClasses || cls <= 1)
      invariant SelectClasses(ctx, n, cls, buf0) == Ok(Classes(keeps, adj[..]))
      invariant total == Kept(keeps, cls)
    {
      ok, keeps, total := SelectClassInPlace(ctx, n, cls, adj, keeps, total, buf0);
      if !ok {
        SelectClassesErr(ctx, n, cls + 1, ctx.numClasses, buf0);
        return;
      }
      cls := cls + 1;
    }
    if ctx.numClasses > 1 {
      assert cls == ctx.numClasses;
    }
    ok := true;
  }

  /** One image over RoIs 0 .. n-1: selection for every foreground class,
      then the cap; fails when a class fails. */
  method NmsImage(ctx: Ctx, sort: seq<Entry> -> seq<Entry>, n: int, adj: array<uint8>)
      returns (res: Result<Capped>)
    requires ValidCtx(ctx) && Fits(ctx, adj[..]) && n <= ctx.numRois && SortsDescending(sort)
    modifies adj
    ensures var spec := ProcessImage(ctx, sort, n, old(adj[..]));
      && (spec.Ok? <==> res.Ok?)
      && (spec.Ok? ==> res.value == Capped(spec.value.keeps, spec.value.total) && adj[..] == spec.value.buf)
      && (spec.Err? ==> res.error == spec.error)
  {
    var ok, keeps, total := NmsClasses(ctx, n, adj);
    if !ok {
      return Err(NoBestCandidate);
    }
    SelectClassesRows(ctx, n, ctx.numClasses, old(adj[..]));
    var keeps', total' := CapKeeps(ctx, sort, adj, keeps, total);
    return Ok(Capped(keeps', total'));
  }
}
