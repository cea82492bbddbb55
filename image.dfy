/** One image of the batch: greedy selection for every foreground class in
    turn, then the cap on the number of detections over all classes. */
module Image {
  import opened Status
  import opened Quant
  import opened Geometry
  import opened NmsConfig
  import opened Selection
  import opened SelectionProps

  /** One keep list per class; the background list (class 0) stays empty. */
  function NoKeeps(numClasses: int): (r: seq<seq<int>>)
    ensures |r| == (if numClasses < 0 then 0 else numClasses)
    ensures forall c :: 0 <= c < |r| ==> r[c] == []
  {
    if numClasses <= 0 then [] else NoKeeps(numClasses - 1) + [[]]
  }

  /** Keep lists of the right count whose entries are RoI rows. */
  predicate KeepRows(ctx: Ctx, keeps: seq<seq<int>>) {
    && |keeps| == (if ctx.numClasses < 0 then 0 else ctx.numClasses)
    && forall c, k :: 0 <= c < |keeps| && 0 <= k < |keeps[c]| ==> 0 <= keeps[c][k] < ctx.numRois
  }

  /** The keep lists after the classes before upto, and the working buffer. */
  datatype Classes = Classes(keeps: seq<seq<int>>, buf: seq<uint8>)

  /** Selection for classes 1 .. upto-1 in ascending order, each class
      reading the buffer as the previous ones left it. */
  function SelectClasses(ctx: Ctx, n: int, upto: int, buf: seq<uint8>): (r: Result<Classes>)
    requires ValidCtx(ctx) && Fits(ctx, buf) && n <= ctx.numRois && (upto <= ctx.numClasses || upto <= 1)
    ensures r.Ok? ==> |r.value.keeps| == |NoKeeps(ctx.numClasses)| && Fits(ctx, r.value.buf)
    ensures r.Err? ==> r.error == NoBestCandidate
    decreases upto
  {
    if upto <= 1 then Ok(Classes(NoKeeps(ctx.numClasses), buf))
    else
      var prev :- SelectClasses(ctx, n, upto - 1, buf);
      var sel :- SelectClass(ctx, upto - 1, n, prev.buf);
      Ok(Classes(prev.keeps[upto - 1 := sel.keep], sel.buf))
  }

  /** The keep lists of a successful run hold RoI rows. */
  lemma {:induction false} SelectClassesRows(ctx: Ctx, n: int, upto: int, buf: seq<uint8>)
    requires ValidCtx(ctx) && Fits(ctx, buf) && n <= ctx.numRois && (upto <= ctx.numClasses || upto <= 1)
    ensures var r := SelectClasses(ctx, n, upto, buf);
      r.Ok? ==> KeepRows(ctx, r.value.keeps)
    decreases upto
  {
    if upto > 1 {
      SelectClassesRows(ctx, n, upto - 1, buf);
      var prev := SelectClasses(ctx, n, upto - 1, buf);
      if prev.Ok? {
        SelectClassSpec(ctx, upto - 1, n, prev.value.buf);
      }
    }
  }

  /** The number of kept RoIs over classes 1 .. upto-1. */
  function Kept(keeps: seq<seq<int>>, upto: int): nat
    requires upto <= |keeps| || upto <= 1
    decreases upto
  {
    if upto <= 1 then 0 else Kept(keeps, upto - 1) + |keeps[upto - 1]|
  }

  /** A kept RoI of a class, with the raw score the cap sorts it by. */
  datatype Entry = Entry(cls: int, roi: int, key: uint8)

  /** The entries of one class, in keep-list order. */
  function ClassEntries(ctx: Ctx, buf: seq<uint8>, cls: int, rois: seq<int>): (r: seq<Entry>)
    requires ValidCtx(ctx) && Fits(ctx, buf) && Foreground(ctx, cls) && Rows(ctx, rois)
    ensures |r| == |rois|
    decreases |rois|
  {
    if rois == [] then []
    else
      var roi := rois[|rois| - 1];
      ClassEntries(ctx, buf, cls, rois[..|rois| - 1])
        + [Entry(cls, roi, buf[Slot(ctx.numRois, ctx.numClasses, roi, cls)])]
  }

  /** All entries of classes 1 .. upto-1, class by class. */
  function Flatten(ctx: Ctx, buf: seq<uint8>, keeps: seq<seq<int>>, upto: int): (r: seq<Entry>)
    requires ValidCtx(ctx) && Fits(ctx, buf) && KeepRows(ctx, keeps) && upto <= ctx.numClasses
    decreases upto
  {
    if upto <= 1 then []
    else
      assert Rows(ctx, keeps[upto - 1]);
      Flatten(ctx, buf, keeps, upto - 1) + ClassEntries(ctx, buf, upto - 1, keeps[upto - 1])
  }

  /** Entries in non-increasing key order. */
  predicate Descending(es: seq<Entry>) {
    forall i, j :: 0 <= i < j < |es| ==> es[i].key >= es[j].key
  }

  /** What the cap's sort promises: the same entries, in non-increasing key
      order; the order among equal keys is left open. */
  ghost predicate SortsDescending(sort: seq<Entry> -> seq<Entry>) {
    forall es :: multiset(sort(es)) == multiset(es) && Descending(sort(es))
  }

  /** Entries with classes in [0, numClasses). */
  predicate InClasses(es: seq<Entry>, numClasses: int) {
    forall k :: 0 <= k < |es| ==> 0 <= es[k].cls < numClasses
  }

  /** Rebuilds per-class keep lists from a list of entries, in list order. */
  function Regroup(es: seq<Entry>, numClasses: int): (r: seq<seq<int>>)
    requires InClasses(es, numClasses)
    ensures |r| == |NoKeeps(numClasses)|
    decreases |es|
  {
    if es == [] then NoKeeps(numClasses)
    else
      var prev := Regroup(es[..|es| - 1], numClasses);
      var e := es[|es| - 1];
      prev[e.cls := prev[e.cls] + [e.roi]]
  }

  /** The keep lists of an image and their total count. */
  datatype Capped = Capped(keeps: seq<seq<int>>, total: int)

  /** The cap over all classes: when max_objects is positive and the classes
      kept more than that in total, the entries are sorted by raw score and
      only the first max_objects, regrouped by class, survive. */
  function Cap(ctx: Ctx, sort: seq<Entry> -> seq<Entry>, buf: seq<uint8>, keeps: seq<seq<int>>): (r: Capped)
    requires ValidCtx(ctx) && Fits(ctx, buf) && KeepRows(ctx, keeps)
    requires SortsDescending(sort)
  {
    var total := Kept(keeps, ctx.numClasses);
    if ctx.cfg.maxObjects > 0 && total > ctx.cfg.maxObjects then
      var all := Flatten(ctx, buf, keeps, ctx.numClasses);
      var sorted := sort(all);
      FlattenShape(ctx, buf, keeps, ctx.numClasses);
      assert |sorted| == |all| by {
        assert |multiset(sorted)| == |multiset(all)|;
      }
      SortedClasses(sorted, all, ctx.numClasses);
      Capped(Regroup(sorted[..ctx.cfg.maxObjects], ctx.numClasses), ctx.cfg.maxObjects)
    else
      Capped(keeps, total)
  }

  /** Flattening yields one entry per kept RoI, each of a foreground class. */
  lemma {:induction false} FlattenShape(ctx: Ctx, buf: seq<uint8>, keeps: seq<seq<int>>, upto: int)
    requires ValidCtx(ctx) && Fits(ctx, buf) && KeepRows(ctx, keeps) && upto <= ctx.numClasses
    ensures |Flatten(ctx, buf, keeps, upto)| == Kept(keeps, upto)
    ensures forall k :: 0 <= k < |Flatten(ctx, buf, keeps, upto)| ==>
      1 <= Flatten(ctx, buf, keeps, upto)[k].cls < upto
    decreases upto
  {
    if upto > 1 {
      FlattenShape(ctx, buf, keeps, upto - 1);
      assert Rows(ctx, keeps[upto - 1]);
      ClassEntriesShape(ctx, buf, upto - 1, keeps[upto - 1]);
    }
  }

  lemma {:induction false} ClassEntriesShape(ctx: Ctx, buf: seq<uint8>, cls: int, rois: seq<int>)
    requires ValidCtx(ctx) && Fits(ctx, buf) && Foreground(ctx, cls) && Rows(ctx, rois)
    ensures forall k :: 0 <= k < |rois| ==> ClassEntries(ctx, buf, cls, rois)[k].cls == cls
    decreases |rois|
  {
    if rois != [] {
      ClassEntriesShape(ctx, buf, cls, rois[..|rois| - 1]);
    }
  }

  /** A permutation of entries of foreground classes has foreground classes. */
  lemma SortedClasses(sorted: seq<Entry>, all: seq<Entry>, numClasses: int)
    requires multiset(sorted) == multiset(all)
    requires forall k :: 0 <= k < |all| ==> 1 <= all[k].cls < numClasses
    ensures forall k :: 0 <= k < |sorted| ==> 1 <= sorted[k].cls < numClasses
  {
    forall k | 0 <= k < |sorted| ensures 1 <= sorted[k].cls < numClasses {
      assert sorted[k] in multiset(all);
      var j :| 0 <= j < |all| && all[j] == sorted[k];
    }
  }

  /** The result of one image: the final keep lists, their total count, and
      the working buffer after it. */
  datatype ImageResult = ImageResult(keeps: seq<seq<int>>, total: int, buf: seq<uint8>)

  /** One image over RoIs 0 .. n-1: all classes, then the cap. */
  function ProcessImage(ctx: Ctx, sort: seq<Entry> -> seq<Entry>, n: int, buf: seq<uint8>): (r: Result<ImageResult>)
    requires ValidCtx(ctx) && Fits(ctx, buf) && n <= ctx.numRois
    requires SortsDescending(sort)
  {
    var cl :- SelectClasses(ctx, n, ctx.numClasses, buf);
    SelectClassesRows(ctx, n, ctx.numClasses, buf);
    var capped := Cap(ctx, sort, cl.buf, cl.keeps);
    Ok(ImageResult(capped.keeps, capped.total, cl.buf))
  }
}
