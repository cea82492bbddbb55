# Quantized class-aware RoI non-maximum suppression

A Dafny model of Caffe2's `Int8AABBRoINMS` operator on the CPU
(`Int8AABBRoINMSOp<CPUContext>::RunOnDevice`). The model also covers the
soft-NMS method parser, its constants and the constructor defaults of the
float operator `AABBRoINMSOp` (`aabb_roi_nms_op.h:15-57`). The int8 operator
is taken to read the same arguments with the same defaults.

The operator takes three inputs:
- batch splits: the number of RoIs of each image;
- a uint8 score table of shape `(num_rois, num_classes)`, quantized with a
  scale and a zero point;
- a uint16 box table of shape `(num_rois, num_classes * 4)`, in fixed point
  with 3 fraction bits.

For every image and every foreground class (class 0 is the background), it
works in four steps:
1. It collects the RoIs whose dequantized score beats `min_score`.
2. It runs greedy selection. Each round keeps the best remaining candidate and
   compares every other candidate with it:
   - under hard NMS, candidates beyond the IoU threshold are dropped;
   - under linear or Gaussian soft-NMS, their scores are decayed and written
     back, re-quantized, into a working copy of the score table.
3. It caps the image's detections over all classes at `max_objects` by
   sorting on raw working scores.
4. It appends the scores, raw boxes and classes of the kept RoIs, class by
   class, and records the image's count as its output split.

## Structure

- `Status` (status.dfy): the error values and a `Result`/`Option` pair.
- `NmsConfig` (config.dfy): `SOFT_NMS_*`, `GetSoftNmsMethod`, the constructor defaults.
- `Quant` (quant.dfy): dequantization; the re-quantizer and `exp` as parameters.
- `Geometry` (geometry.dfy): row-major slots, boxes, intersection, union, the IoU test.
- `Selection` (selection.dfy): one (image, class) pass as functions: candidates, sweep, rounds.
- `SelectionImpl` (selection_impl.dfy): the same pass over the working `array<uint8>`, proved against `Selection`.
- `SelectionProps` (selection_props.dfy): what one class's selection guarantees.
- `Image` (image.dfy): all classes of one image, the flatten/sort/regroup cap.
- `ImageImpl` (image_impl.dfy): the class loop and the cap over the working array.
- `ImageProps` (image_props.dfy): keep-list shape, the cap's count and top-K property.
- `Output` (output.dfy): the detections one image appends.
- `OutputImpl` (output_impl.dfy): growing the outputs and writing them slot by slot.
- `Operator` (operator.dfy): tensors, the shape and type checks, the batch, the operator.
- `OperatorImpl` (operator_impl.dfy): `RunOnDevice` over arrays, proved equal to `Operator.Int8AabbRoiNms`.
- `OperatorProps` (operator_props.dfy): error cases, output splits against outputs, the hard-NMS case.

## How the source is modelled

- **Numbers.**
  - A score is the real `scale * (raw - zero_point)`.
  - A box coordinate is the real `raw * 0.125`.
  - The overlap test is the source's division-free
    `intersection <= max_iou * union`.
  - IoU itself, which only soft-NMS uses, is `intersection / union`.
- **Numeric collaborators.** `int8::QuantizeUint8` and `std::exp` are
  parameters of type `Numerics`. The uint8 result type of the re-quantizer
  bounds its results to [0, 255]. `Quant.ExpDecays` states the range of
  `exp` on non-positive arguments, for the lemmas that need it.
- **The sort.** `std::sort` is a parameter `sort`. `Image.SortsDescending`
  demands only that it return a permutation in non-increasing raw-score
  order, since the sort is not stable.
- **Working buffer.**
  - The adjusted score table is an `array<uint8>`, updated in place by
    `SelectionImpl.RescoreInPlace` and `SelectionImpl.SpareInPlace`.
  - The pure functions in `Selection` thread the same table as a
    `seq<uint8>`.
  - The indices, keep lists and outputs are sequences that the methods
    reassign.
- **Quirks kept as written.**
  - `roi_start` is advanced but never used. Every image therefore reads rows
    `0 .. batch_splits[b]-1` of the shared tables, and of the working buffer
    the previous images left behind. `Operator.Batch` threads that buffer.
  - Under Gaussian soft-NMS, a candidate within the threshold is ranked by
    its pre-decay score, while its decayed score is written back. It is kept
    regardless of `soft_nms_min_score` (`Selection.Spare`).
  - Ties go to the first candidate of the current list, which after the swap
    to the front is not always the lowest RoI index (`Selection.Ranked`).
  - Once the cap fires, each class's keep list is in non-increasing
    raw-score order (`ImageProps.CapTopK`).
  - A 4-D score table has a single class, and a 4-D box table never passes
    the width check (`OperatorProps.FourDimensionalTables`).
- **Debug checks.** A selection round that starts without a best position
  fails `DCHECK_GE(best_score_pos, 0)`. The model returns
  `Err(NoBestCandidate)` there, and `OperatorProps.HardNmsSucceeds` shows it
  cannot happen under hard NMS with `min_score >= -1`.
- **Unchecked demands.** The source relies on three things it never checks.
  `Operator.Admissible` states them:
  - every split is at most `num_rois`;
  - under soft-NMS, foreground boxes have positive width and height, so the
    divisions by the union are defined. This is deliberately stronger than
    the code needs: only the boxes it actually compares need a positive
    union, and it asks this of every row, candidate or not;
  - a Gaussian sigma is not zero.
- **Where the code differs from the operator schema's argument and input
  descriptions (`int8_aabb_roi_nms_op.cc:277-305`), the model follows the
  code.**
  - The schema discards boxes whose score is lower than `min_score`. The
    code also discards a box whose score equals it (`score > min_score_`).
  - The schema discards a box whose IoU with another box of its class is
    higher than `max_iou`. The code only compares a box with the boxes kept
    before it, and under soft-NMS it rescores such a box instead of
    discarding it.
  - The schema has the batch splits partition the RoIs among the images.
    The code reads rows `0 .. batch_splits[b]-1` for every image (see
    `roi_start` above).
- **Other behaviour kept as written.**
  - The cap's sort is not stable.
  - A linearly decayed score of exactly 0 with `soft_nms_min_score = 0` is
    kept (`>=`).
  - One working buffer is shared by all classes and all images of a call.

## Model

Source paths are relative to the repository root.

| member | source | states |
|---|---|---|
| NmsConfig.GetSoftNmsMethod | caffe2/operators/aabb_roi_nms_op.h:31-46 | a name parses exactly when it is "none", "linear" or "gaussian", to one of the three method constants; any other name is the unknown-method error carrying that name |
| NmsConfig.ParseNameRoundTrip | caffe2/operators/aabb_roi_nms_op.h:31-43 | parsing the name of each of the three methods gives that method back |
| NmsConfig.NameParseRoundTrip | caffe2/operators/aabb_roi_nms_op.h:34-43 | every name that parses is the name of the method it parses to |
| NmsConfig.Construct | caffe2/operators/aabb_roi_nms_op.h:15-24 | construction succeeds exactly when the configured (or default "none") method name parses; it then holds one of the three methods, and otherwise fails with that name |
| NmsConfig.ConstructDefaults | caffe2/operators/aabb_roi_nms_op.h:17-23 | with no arguments the configuration is min_score 0.05, max_iou 0.3, max_objects 100, method none, sigma 0.5, soft-NMS minimum score 0 |
| NmsConfig.ConstructUsesArgs | caffe2/operators/aabb_roi_nms_op.h:17-23 | every argument that is given ends up in the configuration unchanged; every absent one takes its own default (min_score 0.05, max_iou 0.3, max_objects 100, method none, sigma 0.5, soft-NMS minimum score 0), whatever the other arguments are |
| Geometry.Slot | caffe2/operators/quantized/int8_aabb_roi_nms_op.cc:84 | the row-major index roi * num_classes + class lies inside the table |
| Geometry.SlotInjective | caffe2/operators/quantized/int8_aabb_roi_nms_op.cc:106-109 | two (roi, class) pairs share a slot exactly when they are equal, so one RoI's rescoring never touches another's score |
| Geometry.BoxAt | caffe2/operators/quantized/int8_aabb_roi_nms_op.cc:106-121 | defines the box of (roi, class) as the four coordinates at slot (roi * num_classes + class) * 4 onwards, each raw value times 0.125; distinct pairs read distinct slots by `Geometry.SlotInjective` |
| Geometry.Intersection | caffe2/operators/quantized/int8_aabb_roi_nms_op.cc:126-138 | defines the intersection area with each side clamped at 0; `Geometry.OverlapBounds` bounds it by 0 and by either area, `Geometry.OverlapSymmetric` shows the order of the boxes does not matter |
| Geometry.Union | caffe2/operators/quantized/int8_aabb_roi_nms_op.cc:139 | defines the union area as the two areas minus the intersection; `Geometry.OverlapBounds` shows it is positive and at least the intersection for proper boxes |
| Geometry.WithinIou | caffe2/operators/quantized/int8_aabb_roi_nms_op.cc:141 | defines the division-free test intersection <= max_iou * union; `Geometry.WithinIouMeansIouBelow` shows it is IoU <= max_iou, `Geometry.OverlapSymmetric` that it is symmetric |
| Geometry.AreaPositive | caffe2/operators/quantized/int8_aabb_roi_nms_op.cc:110-112 | a box with positive width and height has positive area |
| Geometry.OverlapBounds | caffe2/operators/quantized/int8_aabb_roi_nms_op.cc:126-139 | the clamped intersection is non-negative and at most either area, and the union is positive and at least the intersection |
| Geometry.Iou | caffe2/operators/quantized/int8_aabb_roi_nms_op.cc:151 | IoU lies in [0, 1] and times the union gives the intersection |
| Geometry.WithinIouMeansIouBelow | caffe2/operators/quantized/int8_aabb_roi_nms_op.cc:141 | the division-free test passes exactly when IoU is at most max_iou |
| Geometry.OverlapSymmetric | caffe2/operators/quantized/int8_aabb_roi_nms_op.cc:127-141 | intersection, union and the threshold test do not depend on which box was picked |
| Quant.DequantizeOrder | caffe2/operators/quantized/int8_aabb_roi_nms_op.cc:196-203 | with a positive scale, ordering raw scores orders the dequantized scores the same way |
| Quant.Dequantize | caffe2/operators/quantized/int8_aabb_roi_nms_op.cc:84 | defines the real score scale * (raw - zero_point); `Quant.DequantizeOrder` shows it preserves the raw order for a positive scale |
| Selection.Swap | caffe2/operators/quantized/int8_aabb_roi_nms_op.cc:100 | the swap to the front exchanges positions 0 and j, leaves the rest in place and is a permutation |
| Selection.Push | caffe2/operators/quantized/int8_aabb_roi_nms_op.cc:86-90 | appends a RoI and its rank, and moves the best position to it only on a strict improvement; `SelectionProps.PushRanked` shows the best position stays on the first maximal rank |
| Selection.LinearDecay | caffe2/operators/quantized/int8_aabb_roi_nms_op.cc:158-159 | defines the linear decay score * (1 - IoU); `SelectionProps.LinearDecayBounds` puts a non-negative result in [0, score] |
| Selection.GaussianFactor | caffe2/operators/quantized/int8_aabb_roi_nms_op.cc:151-152 | defines the Gaussian factor exp(-IoU^2 / sigma); `SelectionProps.GaussianDecayBounds` puts it in (0, 1] |
| Selection.GaussianDecay | caffe2/operators/quantized/int8_aabb_roi_nms_op.cc:160-162 | defines the score times the Gaussian factor; `SelectionProps.GaussianDecayBounds` puts a non-negative result in [0, score] |
| Selection.Decayed | caffe2/operators/quantized/int8_aabb_roi_nms_op.cc:156-166 | picks the linear or the Gaussian decay by the method; `SelectionProps.VisitEffect` shows its re-quantized result is what lands in the candidate slot |
| Selection.ClassCap | caffe2/operators/quantized/int8_aabb_roi_nms_op.cc:93-94 | defines the per-class cap: max_objects when positive, otherwise the RoI count of the image; `SelectionProps.RoundsSpec` shows the keep list stops at it |
| Selection.Spare | caffe2/operators/quantized/int8_aabb_roi_nms_op.cc:141-154 | a candidate within the threshold is appended to the next round's list and the buffer keeps its length |
| Selection.Rescore | caffe2/operators/quantized/int8_aabb_roi_nms_op.cc:156-173 | a candidate beyond the threshold under soft-NMS is appended to the next round's list or dropped; the buffer keeps its length |
| Selection.Visit | caffe2/operators/quantized/int8_aabb_roi_nms_op.cc:117-174 | visiting a candidate appends it to the next round's list or leaves the list alone |
| Selection.SweepRest | caffe2/operators/quantized/int8_aabb_roi_nms_op.cc:114-176 | a sweep keeps at most the remaining candidates, all RoI rows, and the buffer's length |
| Selection.Rounds | caffe2/operators/quantized/int8_aabb_roi_nms_op.cc:96-104 | the rounds fail only on the missing-best-position debug check, and keep the buffer's length |
| Selection.SelectClass | caffe2/operators/quantized/int8_aabb_roi_nms_op.cc:79-177 | one class's selection keeps the working buffer's length |
| Selection.Candidates | caffe2/operators/quantized/int8_aabb_roi_nms_op.cc:83-92 | the candidate list of the first k RoIs holds at most k RoIs, all below k |
| SelectionImpl.CollectCandidates | caffe2/operators/quantized/int8_aabb_roi_nms_op.cc:80-92 | the collection loop returns the candidate list and best position of `Selection.Candidates` |
| SelectionImpl.SpareInPlace | caffe2/operators/quantized/int8_aabb_roi_nms_op.cc:141-154 | the in-place within-threshold step yields the list, ranks, best score and buffer of `Selection.Spare` |
| SelectionImpl.RescoreInPlace | caffe2/operators/quantized/int8_aabb_roi_nms_op.cc:156-173 | the in-place soft-NMS step yields the list, ranks, best score and buffer of `Selection.Rescore` |
| SelectionImpl.VisitInPlace | caffe2/operators/quantized/int8_aabb_roi_nms_op.cc:117-174 | one pass of the inner loop yields the state of `Selection.Visit` |
| SelectionImpl.SweepRound | caffe2/operators/quantized/int8_aabb_roi_nms_op.cc:114-176 | the inner loop returns the new candidate list and best position and leaves the buffer of `Selection.SweepRest` |
| SelectionImpl.NmsClass | caffe2/operators/quantized/int8_aabb_roi_nms_op.cc:80-177 | one class's loops fail exactly when `Selection.SelectClass` does, otherwise return its keep list and leave its buffer |
| SelectionProps.PushRanked | caffe2/operators/quantized/int8_aabb_roi_nms_op.cc:86-90 | appending a candidate with a strict best-score update keeps best_score_pos on the first maximal rank |
| SelectionProps.CandidatesRanked | caffe2/operators/quantized/int8_aabb_roi_nms_op.cc:80-92 | after collection best_score_pos is the first position of the highest score, or -1 when no score exceeds -1 |
| SelectionProps.CandidatesSpec | caffe2/operators/quantized/int8_aabb_roi_nms_op.cc:83-92 | candidates are ranked by their dequantized scores and listed in increasing RoI order |
| SelectionProps.CandidatesMembers | caffe2/operators/quantized/int8_aabb_roi_nms_op.cc:83-92 | a RoI below k is a candidate exactly when its dequantized score is strictly above min_score |
| SelectionProps.CandidateRows | caffe2/operators/quantized/int8_aabb_roi_nms_op.cc:83-92 | candidates are distinct RoI rows whose scores beat min_score, and when min_score >= -1 a non-empty list has a best position |
| SelectionProps.VisitEffect | caffe2/operators/quantized/int8_aabb_roi_nms_op.cc:141-174 | per mode and threshold outcome: only the candidate's own slot may change; it is re-quantized from the linear or Gaussian decay; the candidate stays ranked by the pre-decay score within the threshold, and by the decayed score beyond it when that is at least soft_nms_min_score; otherwise it is dropped; ranking is preserved |
| SelectionProps.SweepRestSpec | caffe2/operators/quantized/int8_aabb_roi_nms_op.cc:114-176 | a sweep yields a ranked list of distinct remaining candidates and changes no slot other than those of this class's remaining candidates |
| SelectionProps.SweepRestRanked | caffe2/operators/quantized/int8_aabb_roi_nms_op.cc:141-173 | after a sweep best_score_pos is the first position of the highest rank |
| SelectionProps.SweepNone | caffe2/operators/quantized/int8_aabb_roi_nms_op.cc:127-147 | under hard NMS a sweep leaves the buffer alone, ranks by the unchanged scores, and keeps a remaining candidate exactly when it is within the threshold of the picked box |
| SelectionProps.LinearDecayBounds | caffe2/operators/quantized/int8_aabb_roi_nms_op.cc:158-159 | a non-negative score decays linearly into [0, score] |
| SelectionProps.GaussianDecayBounds | caffe2/operators/quantized/int8_aabb_roi_nms_op.cc:149-162 | with exp in (0, 1] on non-positive arguments and sigma positive, the Gaussian factor is in (0, 1] and a non-negative score decays into [0, score] |
| SelectionProps.SwapFacts | caffe2/operators/quantized/int8_aabb_roi_nms_op.cc:99-101 | after the swap the list has the same distinct members and the picked RoI is not among the rest |
| SelectionProps.RoundsSpec | caffe2/operators/quantized/int8_aabb_roi_nms_op.cc:96-104 | the keep list only grows by distinct RoIs taken from the candidates, and stops at the cap |
| SelectionProps.RoundsSucceed | caffe2/operators/quantized/int8_aabb_roi_nms_op.cc:96-104 | under hard NMS with min_score >= -1, rounds over candidates that all beat min_score and have a best position never fail and leave the buffer alone |
| SelectionProps.RoundsApart | caffe2/operators/quantized/int8_aabb_roi_nms_op.cc:96-176 | under hard NMS, whatever min_score is, rounds that succeed leave the buffer alone and keep RoIs pairwise within the threshold, given a keep list and candidates that already are |
| SelectionProps.SelectClassSpec | caffe2/operators/quantized/int8_aabb_roi_nms_op.cc:79-104 | a class keeps distinct RoIs of the image, at most its RoI count and at most max_objects when positive, each with an input score above min_score |
| SelectionProps.SelectClassApart | caffe2/operators/quantized/int8_aabb_roi_nms_op.cc:79-177 | under hard NMS, whatever min_score is, a class selection that succeeds leaves the buffer alone and any two kept boxes of the class are within the IoU threshold |
| SelectionProps.SelectClassNone | caffe2/operators/quantized/int8_aabb_roi_nms_op.cc:114-147 | under hard NMS with min_score >= -1 a class's selection succeeds, leaves the buffer alone, and any two kept boxes are within the IoU threshold |
| Image.NoKeeps | caffe2/operators/quantized/int8_aabb_roi_nms_op.cc:74 | one empty keep list per class |
| Image.SelectClasses | caffe2/operators/quantized/int8_aabb_roi_nms_op.cc:79-179 | the class loop keeps one list per class and a buffer that fits, and fails only on the debug check |
| Image.SelectClassesRows | caffe2/operators/quantized/int8_aabb_roi_nms_op.cc:79-179 | every kept RoI of every class is a row of the tables |
| Image.Kept | caffe2/operators/quantized/int8_aabb_roi_nms_op.cc:178 | defines total_keep_count as the sum of the foreground keep-list lengths; `ImageProps.KeptAppend` and `ImageProps.KeptNone` give its updates |
| Image.Flatten | caffe2/operators/quantized/int8_aabb_roi_nms_op.cc:187-194 | defines all_objects, class by class in keep order; `Image.FlattenShape`, `ImageProps.FlattenSpec` and `ImageProps.FlattenUnique` give its length, members and uniqueness |
| Image.SortsDescending | caffe2/operators/quantized/int8_aabb_roi_nms_op.cc:196-203 | what the comparator sort promises: the same entries, in non-increasing raw-score order; `ImageProps.SortedEntries` and `ImageProps.SortedUnique` rely on nothing more |
| Image.Cap | caffe2/operators/quantized/int8_aabb_roi_nms_op.cc:181-218 | defines the cap over all classes; `ImageProps.CapCount`, `ImageProps.CapFires`, `ImageProps.CapTopK` and `ImageProps.CapDistinct` state its count, survivors, order and uniqueness, and `ImageImpl.CapKeeps` its code |
| Image.ProcessImage | caffe2/operators/quantized/int8_aabb_roi_nms_op.cc:73-219 | defines one image as the class loop followed by the cap; `ImageProps.ProcessImageSpec` and `ImageProps.ProcessImageNone` state its keep lists, `ImageImpl.NmsImage` its code |
| Image.ClassEntries | caffe2/operators/quantized/int8_aabb_roi_nms_op.cc:190-194 | flattening one class gives one entry per kept RoI |
| Image.Regroup | caffe2/operators/quantized/int8_aabb_roi_nms_op.cc:209-216 | regrouping gives one keep list per class |
| Image.FlattenShape | caffe2/operators/quantized/int8_aabb_roi_nms_op.cc:187-194 | flattening gives exactly total_keep_count entries, all of foreground classes |
| Image.ClassEntriesShape | caffe2/operators/quantized/int8_aabb_roi_nms_op.cc:190-193 | every entry flattened from a class carries that class |
| Image.SortedClasses | caffe2/operators/quantized/int8_aabb_roi_nms_op.cc:196-203 | sorting keeps every entry in a foreground class |
| ImageImpl.SelectClassesErr | caffe2/operators/quantized/int8_aabb_roi_nms_op.cc:97 | once a class fails the debug check the whole class loop fails |
| ImageImpl.SelectClassesStep | caffe2/operators/quantized/int8_aabb_roi_nms_op.cc:79-179 | one more class sets its keep list and passes the buffer on, or makes the loop fail |
| ImageImpl.FlattenKeeps | caffe2/operators/quantized/int8_aabb_roi_nms_op.cc:187-194 | the nested flatten loops produce `Image.Flatten` |
| ImageImpl.RegroupTop | caffe2/operators/quantized/int8_aabb_roi_nms_op.cc:209-216 | clearing the lists and pushing the first m sorted entries produces `Image.Regroup` of that prefix |
| ImageImpl.CapKeeps | caffe2/operators/quantized/int8_aabb_roi_nms_op.cc:181-218 | the cap's code produces the keep lists and count of `Image.Cap` |
| ImageImpl.SelectClassInPlace | caffe2/operators/quantized/int8_aabb_roi_nms_op.cc:79-179 | one pass of the class loop advances `Image.SelectClasses` by one class and the running total by its keep count |
| ImageImpl.NmsClasses | caffe2/operators/quantized/int8_aabb_roi_nms_op.cc:78-179 | the class loop fails exactly when `Image.SelectClasses` does, otherwise gives its keep lists, its buffer and their total count |
| ImageImpl.NmsImage | caffe2/operators/quantized/int8_aabb_roi_nms_op.cc:73-218 | one image fails exactly when `Image.ProcessImage` does, otherwise gives its keep lists, its count and its buffer |
| ImageProps.SelectClassesSpec | caffe2/operators/quantized/int8_aabb_roi_nms_op.cc:74-179 | the background list stays empty; each foreground list holds distinct RoIs of the image, at most its RoI count and at most max_objects when positive |
| ImageProps.SelectClassesNone | caffe2/operators/quantized/int8_aabb_roi_nms_op.cc:79-179 | under hard NMS with min_score >= -1 no class fails, the buffer is untouched, and within every class any two kept boxes are within the threshold |
| ImageProps.SelectClassesApart | caffe2/operators/quantized/int8_aabb_roi_nms_op.cc:79-179 | under hard NMS, whatever min_score is, a class loop that succeeds leaves the buffer alone and, within every class, any two kept boxes are within the threshold |
| ImageProps.KeptAppend | caffe2/operators/quantized/int8_aabb_roi_nms_op.cc:178 | pushing one RoI to a foreground class raises the total count by one |
| ImageProps.KeptNone | caffe2/operators/quantized/int8_aabb_roi_nms_op.cc:74 | fresh keep lists count zero |
| ImageProps.RegroupSpec | caffe2/operators/quantized/int8_aabb_roi_nms_op.cc:209-216 | regrouping keeps one RoI per entry, leaves the background empty, and a RoI is in class c's list exactly when an entry of class c carries it |
| ImageProps.RegroupDescending | caffe2/operators/quantized/int8_aabb_roi_nms_op.cc:196-216 | regrouping a descending list gives each class its RoIs in non-increasing raw-score order |
| ImageProps.ClassEntriesKeyed | caffe2/operators/quantized/int8_aabb_roi_nms_op.cc:190-203 | each flattened entry is (class, RoI) keyed by its raw working score, as the comparator reads it |
| ImageProps.ClassEntriesHas | caffe2/operators/quantized/int8_aabb_roi_nms_op.cc:190-194 | a class's entries carry exactly its kept RoIs |
| ImageProps.FlattenSpec | caffe2/operators/quantized/int8_aabb_roi_nms_op.cc:187-194 | the flattened list is keyed, and holds (c, roi) exactly when roi is kept for class c |
| ImageProps.PermutedKeyed | caffe2/operators/quantized/int8_aabb_roi_nms_op.cc:196-203 | a permutation of keyed entries is keyed and has the same members |
| ImageProps.SortedEntries | caffe2/operators/quantized/int8_aabb_roi_nms_op.cc:187-203 | the sorted list has total_keep_count keyed entries in non-increasing order and holds exactly the kept (class, RoI) pairs |
| ImageProps.FlattenUnique | caffe2/operators/quantized/int8_aabb_roi_nms_op.cc:187-194 | flattening duplicate-free keep lists gives every (class, RoI) pair at most once |
| ImageProps.SortedUnique | caffe2/operators/quantized/int8_aabb_roi_nms_op.cc:196-203 | the sorted list also holds every (class, RoI) pair at most once, since entries with equal pairs carry equal keys |
| ImageProps.RegroupDistinct | caffe2/operators/quantized/int8_aabb_roi_nms_op.cc:209-216 | regrouping entries without repeated pairs gives duplicate-free keep lists |
| ImageProps.CapCount | caffe2/operators/quantized/int8_aabb_roi_nms_op.cc:181-218 | after the cap the count matches the lists, is at most max_objects when positive, equals it when the cap fires, the lists are unchanged when it does not, only previously kept RoIs survive, and lists without duplicates stay without duplicates |
| ImageProps.CapFires | caffe2/operators/quantized/int8_aabb_roi_nms_op.cc:182-217 | when the cap fires exactly max_objects detections survive, all of them kept before and none of the background |
| ImageProps.CapTopK | caffe2/operators/quantized/int8_aabb_roi_nms_op.cc:196-216 | when the cap fires every survivor's raw score is at least every discarded entry's, and each class lists its survivors in non-increasing raw score |
| ImageProps.CapDistinct | caffe2/operators/quantized/int8_aabb_roi_nms_op.cc:182-217 | when the cap fires on duplicate-free keep lists, every list it rebuilds is duplicate-free |
| ImageProps.ProcessImageSpec | caffe2/operators/quantized/int8_aabb_roi_nms_op.cc:73-219 | an image's keep lists are duplicate-free rows below its split, the background is empty, the count is their total and at most max_objects when positive |
| ImageProps.ProcessImageNone | caffe2/operators/quantized/int8_aabb_roi_nms_op.cc:73-219 | under hard NMS, whatever min_score is, an image that succeeds leaves the buffer alone, and any two boxes a class still holds after the cap are within the IoU threshold |
| Output.BoxRaw | caffe2/operators/quantized/int8_aabb_roi_nms_op.cc:242-245 | an output box is the four raw input coordinates at slot (roi, class), unchanged |
| Output.Append | caffe2/operators/quantized/int8_aabb_roi_nms_op.cc:221-225 | defines appending the detections of one image to the outputs; `Output.AppendAt` shows the earlier ones stay in place and the new ones follow |
| Output.ClassDetections | caffe2/operators/quantized/int8_aabb_roi_nms_op.cc:238-249 | defines the detections of one class in keep order; `Output.ClassDetectionsSpec` and `Output.ClassDetectionsCount` give each one and their number |
| Output.ImageDetections | caffe2/operators/quantized/int8_aabb_roi_nms_op.cc:234-252 | defines the detections of one image class by class; `Output.ImageDetectionsCount`, `Output.DetectionAt` and `Output.ImageDetectionsClasses` give their number, positions and classes |
| Output.ClassDetectionsSpec | caffe2/operators/quantized/int8_aabb_roi_nms_op.cc:238-249 | the k-th detection of a class has the k-th kept RoI's dequantized working score, its raw box and the class |
| Output.ClassDetectionsCount | caffe2/operators/quantized/int8_aabb_roi_nms_op.cc:238-249 | a class contributes one score, four box values and one class per kept RoI |
| Output.ImageDetectionsCount | caffe2/operators/quantized/int8_aabb_roi_nms_op.cc:222-252 | an image contributes exactly total_keep_count detections, four box values each |
| Output.AppendAt | caffe2/operators/quantized/int8_aabb_roi_nms_op.cc:222-225 | appended detections keep the earlier ones in place and put the new ones after them |
| Output.DetectionAt | caffe2/operators/quantized/int8_aabb_roi_nms_op.cc:234-252 | the k-th kept RoI of class c sits at the count of the classes before c plus k, with its score, raw box and class |
| Output.DetectionKept | caffe2/operators/quantized/int8_aabb_roi_nms_op.cc:234-252 | writing a later class does not move the detections of an earlier one |
| Output.DetectionLast | caffe2/operators/quantized/int8_aabb_roi_nms_op.cc:234-252 | the last class's detections follow those of the classes before it |
| Output.AppendDetections | caffe2/operators/quantized/int8_aabb_roi_nms_op.cc:235-251 | adding one class leaves the earlier detections in place and puts the class's detections after them |
| Output.ImageDetectionsClasses | caffe2/operators/quantized/int8_aabb_roi_nms_op.cc:235-249 | every detection's class is a foreground class and classes appear in ascending order |
| OutputImpl.WriteBox | caffe2/operators/quantized/int8_aabb_roi_nms_op.cc:242-245 | the component loop writes the raw box at the offset and leaves everything before it |
| OutputImpl.WriteDetection | caffe2/operators/quantized/int8_aabb_roi_nms_op.cc:239-245 | one detection's score and box land at its offset; everything before it stays |
| OutputImpl.WriteScoresBoxes | caffe2/operators/quantized/int8_aabb_roi_nms_op.cc:238-246 | the first loop over a class writes its scores and boxes right after the previous detections |
| OutputImpl.WriteClasses | caffe2/operators/quantized/int8_aabb_roi_nms_op.cc:247-249 | the second loop writes the class index of each kept RoI right after the previous detections |
| OutputImpl.WriteClass | caffe2/operators/quantized/int8_aabb_roi_nms_op.cc:235-252 | one pass of the class loop extends the written detections by that class's |
| OutputImpl.WrittenAll | caffe2/operators/quantized/int8_aabb_roi_nms_op.cc:234-252 | once every class is written the outputs are the old ones followed by the image's detections |
| OutputImpl.AppendImage | caffe2/operators/quantized/int8_aabb_roi_nms_op.cc:221-252 | growing by total_keep_count and writing every class gives the old outputs followed by `Output.ImageDetections` |
| Operator.Validate | caffe2/operators/quantized/int8_aabb_roi_nms_op.cc:14-41 | inputs that pass have tables of rank 2 or 4 and a 1-D split tensor |
| Operator.ValidShape | caffe2/operators/quantized/int8_aabb_roi_nms_op.cc:31-41 | inputs that pass give non-negative RoI and class counts, one split per image and box and score tables of the checked sizes |
| Operator.MakeCtx | caffe2/operators/quantized/int8_aabb_roi_nms_op.cc:31-53 | gathers what every image reads: the configuration, num_rois, num_classes, the score scale and zero point and the box table |
| Operator.Admissible | caffe2/operators/quantized/int8_aabb_roi_nms_op.cc:83-162 | what the code relies on without checking: splits within num_rois, proper boxes under soft-NMS so the divisions by the union are defined, and a non-zero Gaussian sigma |
| Operator.Int8AabbRoiNms | caffe2/operators/quantized/int8_aabb_roi_nms_op.cc:7-264 | defines the operator: the checks, then the batch, then the outputs; `OperatorProps.ValidateSpec`, `OperatorProps.OutputsSpec` and `OperatorProps.HardNmsSucceeds` state its results, `OperatorImpl.RunOnDevice` its code |
| Operator.Batch | caffe2/operators/quantized/int8_aabb_roi_nms_op.cc:71-255 | after b images there are b counts and a buffer that fits; the batch fails only on the debug check |
| OperatorImpl.BatchStep | caffe2/operators/quantized/int8_aabb_roi_nms_op.cc:72-255 | one more image either fails the batch or adds its count, appends its detections and passes on its buffer |
| OperatorImpl.BatchErr | caffe2/operators/quantized/int8_aabb_roi_nms_op.cc:97 | once an image fails, every longer batch fails |
| OperatorImpl.RunBatch | caffe2/operators/quantized/int8_aabb_roi_nms_op.cc:71-255 | the image loop fails exactly when `Operator.Batch` does, otherwise gives its counts, detections and buffer |
| OperatorImpl.RunOnDevice | caffe2/operators/quantized/int8_aabb_roi_nms_op.cc:7-264 | the whole operator over arrays returns exactly `Operator.Int8AabbRoiNms` |
| OperatorProps.ValidateSpec | caffe2/operators/quantized/int8_aabb_roi_nms_op.cc:14-41 | each check fails with its own error exactly when it is the first that fails: score rank, score type, box rank, box type, RoI count, box width, split rank, split type |
| OperatorProps.FourDimensionalTables | caffe2/operators/quantized/int8_aabb_roi_nms_op.cc:14-35 | a 4-D box table never passes the checks, and a 4-D score table has a single class |
| OperatorProps.BatchSpec | caffe2/operators/quantized/int8_aabb_roi_nms_op.cc:72-261 | after any prefix of the batch the counts are non-negative, at most max_objects when positive, add up to the number of detections, and every detection has a foreground class |
| OperatorProps.OutputsSpec | caffe2/operators/quantized/int8_aabb_roi_nms_op.cc:219-261 | one output split per image; the splits add up to the number of scores and of classes, and to a quarter of the box values; each split is at most max_objects when positive; every class is foreground |
| OperatorProps.BatchNone | caffe2/operators/quantized/int8_aabb_roi_nms_op.cc:58-177 | under hard NMS with min_score >= -1 no image fails and the working buffer still equals the input scores |
| OperatorProps.HardNmsSucceeds | caffe2/operators/quantized/int8_aabb_roi_nms_op.cc:93-104 | under hard NMS with min_score >= -1 the operator succeeds exactly when its inputs pass the checks |

## Left out

- IEEE float32 rounding of scores, coordinates, areas and decays: the model computes with exact reals.
- `int8::QuantizeUint8` and `std::exp`: `int8_utils.h` is not part of this model, so both are parameters of type `Numerics`.
- The order `std::sort` gives equal raw scores: the sort is a parameter, so the model holds for any descending permutation but does not say which one the library picks.
- In hard-NMS mode the source reads the input scores directly instead of a copy. The model always works on a copy, which under hard NMS is never written (`OperatorProps.BatchNone`).
- `Extend(total_keep_count, 50)`: the 50 % growth policy is memory reservation only. The outputs grow by exactly the kept count.
- The `CAFFE_THROW` for an unknown method inside the loop cannot be reached from a constructed operator, since `NmsConfig.Construct` only accepts the three methods.
- The `DCHECK_GT` at lines 206 and 213 hold whenever the cap fires (`ImageProps.CapFires`). They are not modelled as errors.
- 32-bit overflow of `num_classes * 4`, of the slot arithmetic and of the counts: integers are unbounded.
- Operator registration and the schema text after line 264.
- The constructor of `Int8AABBRoINMSOp` itself: its header is not part of this model. `AABBRoINMSOp` is declared `final`, so the int8 operator cannot inherit from it. The model assumes the int8 constructor reads the same six arguments, with the same defaults and the same method parser, as `aabb_roi_nms_op.h:15-46`.
- The NNAPI wrapper, the NNAPI runner, the model loader declaration, `Int8TransposeOp` and `Int8AABBRoIAlignOp` are not part of this model.
