# paz box geometry and PASCAL VOC detection evaluation, in Dafny

This project models two files of the paz perception library.

`paz/core/backend/boxes.py` holds the bounding-box arithmetic of an SSD-style detector:
- intersection over union of one box against many (`compute_iou`) and of two box arrays (`compute_ious`);
- conversion between corner form and centre form;
- `reversed_argmax`: the last index of a maximum;
- `match`: each prior (anchor) box gets a ground-truth box, and priors below the IoU threshold get the background class;
- the offset codec `encode`/`decode` relative to the priors;
- `to_one_hot`;
- keypoint normalisation and denormalisation;
- `make_box_square` and `apply_offsets`.

`paz/evaluation/detection.py` scores a detector the way the PASCAL VOC challenge does:
- predictions and ground truths are filtered per class, and predictions are ranked by score;
- each prediction is judged a true positive, a false positive or ignored (a difficult ground truth);
- per class, the number of easy ground truths, every score and one match value per prediction are accumulated over the samples;
- precision and recall curves are built from cumulative counts;
- average precision is integrated by the 2007 eleven-point rule or the later every-point rule;
- the mean is taken over the classes where average precision is defined (`nanmean`).

Modelling choices:
- **Numbers.** Coordinates and metrics are `real`.
- **NaN.** NumPy's NaN is `Option.None`.
- **Python's integer conversions.** `int()` truncates toward zero and `round()` rounds half to even. Both are written out.
- **Shape of an operation.**
  - Loops that update buffers are methods with loop invariants. Examples: `to_one_hot`, the keypoint functions, `compute_ious`, the writes of `match`, the column updates of `decode`, the claim loop and the metric loops.
  - Every such method is proved equal to a specification function.
  - The dictionaries `compute_matches` mutates are the fields of the class `Accumulation.Accumulator`.
  - Vector expressions are functions.
- **The detector's output.** The detector call is outside the model. Each `Accumulation.Sample` carries the detector's predictions next to its ground truth.

Module map:

| file | module | source |
|---|---|---|
| `geometry.dfy` | `Geometry` | IoU and the box forms |
| `argmax.dfy` | `Reductions` | argmax and `reversed_argmax` |
| `matcher.dfy` | `Matcher` | `match` |
| `codec.dfy` | `Codec` | `encode` and `decode` |
| `box_helpers.dfy` | `BoxHelpers` | `to_one_hot`, the keypoint functions, `make_box_square`, `apply_offsets` |
| `sorting.dfy` | `Sorting` | the descending sort behind `argsort()[::-1]` |
| `masks.dfy` | `DetectionMasks` | `get_predictions`, the two class masks, `np.unique` |
| `claims.dfy` | `Claims` | `get_match_value` and the claim loop |
| `accumulator.dfy` | `Accumulation` | `compute_matches` |
| `relevance.dfy` | `Relevance` | `calculate_relevance_metrics` |
| `average_precision.dfy` | `AveragePrecision` | the two integrators and `nanmean` |
| `evaluation.dfy` | `Evaluation` | `evaluateMAP` |
| `wrappers.dfy` | `Wrappers` | the `Option` type |

## Model

| member | source | states |
|---|---|---|
| Geometry.ToPointForm | paz/core/backend/boxes.py:61-77 | the corner box has the given width and height and is centred on the given centre |
| Geometry.ToCenterForm | paz/core/backend/boxes.py:80-96 | converting the centre form back to corners gives the original corners |
| Geometry.CenterPointRoundTrip | paz/core/backend/boxes.py:61-96 | to_center_form undoes to_point_form exactly |
| Geometry.PointCenterRoundTrip | paz/core/backend/boxes.py:61-96 | to_point_form undoes to_center_form exactly; the width and height are x_max - x_min and y_max - y_min |
| Geometry.IoU | paz/core/backend/boxes.py:19-34 | the IoU times the union is the clipped intersection area |
| Geometry.ComputeIou | paz/core/backend/boxes.py:4-35 | one IoU per row of `boxes`, entry j the IoU of `box` with box j |
| Geometry.ComputeIous | paz/core/backend/boxes.py:38-58 | the buffer has one row per box of A, and row i is compute_iou of A[i] against all of B |
| Geometry.MulLeMul | paz/core/backend/boxes.py:27-29 | products of ordered non-negative widths and heights are ordered |
| Geometry.IntersectionBounds | paz/core/backend/boxes.py:23-29 | for well-formed boxes the intersection is non-negative and at most the area of each box |
| Geometry.IoUInUnitInterval | paz/core/backend/boxes.py:23-34 | for well-formed boxes with a non-zero union the intersection lies between 0 and the union, and the IoU lies in [0, 1] |
| Geometry.IoUSymmetric | paz/core/backend/boxes.py:23-34 | the union and the IoU do not depend on the order of the two boxes |
| Geometry.IoUSelf | paz/core/backend/boxes.py:23-34 | a well-formed box of positive area has intersection = area = union with itself, and IoU 1 |
| Geometry.WidenedUnionPositive | paz/evaluation/detection.py:166-174 | after the +1 on the max corners, two well-formed boxes have a union of at least 1, so the evaluator's IoU is always defined |
| Reductions.Argmax | paz/core/backend/boxes.py:154-155 | the argmax index is in range, holds the maximum, and every earlier index holds less (the first maximum) |
| Reductions.ReversedArgmax | paz/core/backend/boxes.py:144-155 | the index is in range, holds the maximum, and every later index holds less (the last maximum) |
| Reductions.ReversedArgmaxUniqueMax | paz/core/backend/boxes.py:144-155 | with a maximum attained once, reversed_argmax agrees with argmax |
| Reductions.ReversedArgmaxAllEqual | paz/core/backend/boxes.py:145-147 | when every entry ties, reversed_argmax returns the last index |
| Matcher.IouMatrix | paz/core/backend/boxes.py:178 | row g is compute_iou of ground truth g against all priors in point form |
| Matcher.IouMatrixRectangular | paz/core/backend/boxes.py:178 | with at least one ground truth and one prior, the IoU matrix is rectangular with one column per prior |
| Matcher.BestPrior | paz/core/backend/boxes.py:182 | each ground truth's best prior is a valid prior index |
| Matcher.BestPriorIsLastMax | paz/core/backend/boxes.py:182 | the best prior of ground truth g has g's highest IoU, and no later prior does |
| Matcher.BestBox | paz/core/backend/boxes.py:181 | each prior's best box is a valid ground-truth index |
| Matcher.BestBoxIsLastMax | paz/core/backend/boxes.py:179-181 | prior p's best box has p's highest IoU, no later ground truth does, and that IoU is the column maximum |
| Matcher.BestPriors | paz/core/backend/boxes.py:182 | one best prior per ground truth |
| Matcher.LastIndexOf | paz/core/backend/boxes.py:186-188 | the index found lies among the first n entries |
| Matcher.LastIndexIsLast | paz/core/backend/boxes.py:186-188 | the entry found equals p and no later entry does; nothing is found exactly when no entry equals p |
| Matcher.LastClaimant | paz/core/backend/boxes.py:186-188 | the claimant of a prior is one of the ground truths handled so far |
| Matcher.LastClaimantIsLast | paz/core/backend/boxes.py:186-188 | the claimant has p as best prior and no later ground truth does; there is no claimant exactly when no ground truth has p as best prior |
| Matcher.ClaimantStep | paz/core/backend/boxes.py:186-188 | handling ground truth g makes g the claimant of its best prior and changes no other prior's claimant |
| Matcher.AssignedBox | paz/core/backend/boxes.py:186-188 | the assigned ground truth is a valid index |
| Matcher.Background | paz/core/backend/boxes.py:191 | only the class column becomes 0; the coordinates and the other columns are kept |
| Matcher.ColumnBests | paz/core/backend/boxes.py:179-181 | one entry per prior: its best IoU and its last best ground truth |
| Matcher.WriteSentinel | paz/core/backend/boxes.py:184 | after the write, exactly the priors that are some ground truth's best prior hold 2; the others keep their best IoU |
| Matcher.OverwriteAssigned | paz/core/backend/boxes.py:186-188 | after the loop, each claimed prior holds its last claimant and every other prior keeps its best box |
| Matcher.Gather | paz/core/backend/boxes.py:189 | row q of the result is the ground-truth row the q-th index selects |
| Matcher.Materialize | paz/core/backend/boxes.py:189-191 | one row per prior: the assigned row, class set to 0 when the prior's IoU after the sentinel write is below the threshold |
| Matcher.Match | paz/core/backend/boxes.py:158-192 | one output row per prior, equal to the row the assignment rules define |
| Matcher.MatchedRowFromGroundTruth | paz/core/backend/boxes.py:189-191 | every output row copies a ground-truth row, with at most its class column replaced by 0 |
| Matcher.ForcedMatch | paz/core/backend/boxes.py:181-191 | a ground truth's best prior goes to the last ground truth sharing it; for a threshold at most 2 its class is never zeroed |
| Matcher.SharedBestPriorGoesToLater | paz/core/backend/boxes.py:186-188 | an earlier ground truth loses a best prior it shares with a later one |
| Matcher.UnclaimedPrior | paz/core/backend/boxes.py:179-191 | a prior that is no ground truth's best prior gets its last best ground truth, and is background exactly when that IoU is below the threshold |
| Matcher.BackgroundExactly | paz/core/backend/boxes.py:179-191 | for a threshold at most 2, the class is zeroed exactly when the prior is no ground truth's best prior and its best IoU is below the threshold |
| Codec.EncodeRow | paz/core/backend/boxes.py:112-120 | the centre offsets times variance times prior size give back the centre distance; the size offsets times the variance are log(\|ratio\| + 1e-4); the class columns pass through |
| Codec.Encode | paz/core/backend/boxes.py:99-120 | one target per matched row, each keeping the row's class columns |
| Codec.DecodeRowGeometry | paz/core/backend/boxes.py:135-140 | the decoded box is centred on prior centre + offset · v0 · prior size, has size prior size · exp(offset · v1), and keeps the prediction's remaining columns |
| Codec.DecodeRow | paz/core/backend/boxes.py:135-140 | definition: the decoded centre box in point form followed by the prediction's other columns; its contract is carried by DecodeRowGeometry and DecodeEncodeRow |
| Codec.Decode | paz/core/backend/boxes.py:123-141 | one decoded row per prediction, equal to the centre box of its prior and prediction in corner form |
| Codec.CornersOfCenterForm | paz/core/backend/boxes.py:138-139 | the minimum corner, then the minimum corner plus the size, is the point form of the centre box |
| Codec.WriteCenterForms | paz/core/backend/boxes.py:135-137 | row k of the buffer holds centre box k: centre, then size |
| Codec.CentresToMinCorners | paz/core/backend/boxes.py:138 | the centre columns become centre minus half size; the size columns are unchanged |
| Codec.SizesToMaxCorners | paz/core/backend/boxes.py:139 | the size columns become size plus minimum corner; the first two columns are unchanged |
| Codec.DecodeEncodeRow | paz/core/backend/boxes.py:99-141 | decode(encode(m)) restores m's centre and class columns exactly; the size comes back as prior size times (\|ratio\| + 1e-4) |
| Codec.DecodeEncodeWidth | paz/core/backend/boxes.py:117-118 | for a well-formed box and a positive prior, the decoded width and height overshoot by prior size times 1e-4 |
| BoxHelpers.TruncToZero | paz/core/backend/boxes.py:292 | Python's int(): the integer between 0 and x that is nearest to x |
| BoxHelpers.RoundHalfEven | paz/core/backend/boxes.py:239 | Python's round(): within 0.5 of x, and even on a tie |
| BoxHelpers.RoundHalfEvenOfInteger | paz/core/backend/boxes.py:239 | rounding an integer gives it back |
| BoxHelpers.PyIndex | paz/core/backend/boxes.py:208 | NumPy's reading of a class index in [-n, n): a valid column, counted from the end when negative |
| BoxHelpers.OneHotRow | paz/core/backend/boxes.py:206-208 | a row of num_classes entries, 1.0 at the class column and 0.0 elsewhere |
| BoxHelpers.OneHotRowArgmax | paz/core/backend/boxes.py:206-208 | argmax of the one-hot row gives back the class column |
| BoxHelpers.ToOneHot | paz/core/backend/boxes.py:195-209 | a fresh len × num_classes buffer whose row i is the one-hot row of class_indices[i] |
| BoxHelpers.Clip | paz/core/backend/boxes.py:236-238 | the clipped value lies in [-1, 1] and equals x when x already does |
| BoxHelpers.DenormalizeInImage | paz/core/backend/boxes.py:236-238 | before rounding, denormalised coordinates lie in the pixel range [-0.5, size - 0.5] |
| BoxHelpers.NormalizeDenormalize | paz/core/backend/boxes.py:236-255 | on [-1, 1], normalising a denormalised coordinate (before rounding) gives it back, for both axes |
| BoxHelpers.DenormalizeNormalize | paz/core/backend/boxes.py:236-255 | for a pixel whose normalised value lies in [-1, 1], denormalising the normalised value gives the pixel back |
| BoxHelpers.DenormalizeKeypoints | paz/core/backend/boxes.py:226-241 | in place: columns 0 and 1 of every keypoint become the rounded image x and flipped image y; every other column is kept |
| BoxHelpers.NormalizeKeypoints | paz/core/backend/boxes.py:244-257 | a fresh buffer of the keypoints' shape: columns 0 and 1 hold the normalised coordinates and any further column is 0 |
| BoxHelpers.SquaredIsSquare | paz/core/backend/boxes.py:271-285 | the squared box keeps the centre, and both its sides equal the longer side |
| BoxHelpers.Grown | paz/core/backend/boxes.py:288-291 | moving every side out by d adds 2d to the width and to the height |
| BoxHelpers.MakeBoxSquare | paz/core/backend/boxes.py:260-292 | definition as written: square about the centre, grow each side by offset_scale times the centre x, truncate with int(); its properties are MakeBoxSquareMarginFollowsPosition and MakeBoxSquareExample |
| BoxHelpers.MakeBoxSquareBySide | paz/core/backend/boxes.py:260-292 | corrected definition: the margin is offset_scale times the squared side; its property is MakeBoxSquareBySideGeometry |
| BoxHelpers.MakeBoxSquareMarginFollowsPosition | paz/core/backend/boxes.py:286-291 | as written, the grown width is the longer side plus offset_scale · (x_min + x_max), so it depends on where the box is |
| BoxHelpers.MakeBoxSquareExample | paz/core/backend/boxes.py:260-292 | the box (100, 0, 110, 10) at scale 0.05 gives (94, -5, 115, 15) as written and (99, 0, 110, 10) with the margin from the side |
| BoxHelpers.MakeBoxSquareBySideGeometry | paz/core/backend/boxes.py:286-291 | with the margin taken from the side, the result is a square of side (1 + 2 · offset_scale) · longer side with the original centre |
| BoxHelpers.ApplyOffsets | paz/core/backend/boxes.py:295-311 | definition as written: the width's offset moves x_min and y_max, the height's moves y_min and x_max, then int(); its properties are OffsetBoxMovesCentre and ApplyOffsetsExample |
| BoxHelpers.ApplySymmetricOffsets | paz/core/backend/boxes.py:295-311 | corrected definition: each offset moves both sides of its own axis; its property is SymmetricOffsetBoxGeometry |
| BoxHelpers.OffsetBoxMovesCentre | paz/core/backend/boxes.py:305-310 | as written, the box centre moves by half the difference of the two offsets, in opposite directions on x and y |
| BoxHelpers.ApplyOffsetsExample | paz/core/backend/boxes.py:295-311 | the box (0, 0, 10, 20) with scales (0.1, 0.1) gives (-1, -2, 12, 21) as written and (-1, -2, 11, 22) with each offset on its own axis |
| BoxHelpers.SymmetricOffsetBoxGeometry | paz/core/backend/boxes.py:305-310 | with each offset on its own axis, the centre is kept and each side is scaled by 1 + 2 · scale |
| Sorting.Insert | paz/evaluation/detection.py:46 | inserting into a sorted list keeps it sorted by non-increasing score and adds exactly the new item |
| Sorting.ConsSorted | paz/evaluation/detection.py:46 | a head scoring at least the first entry keeps a sorted list sorted |
| Sorting.BelowHead | paz/evaluation/detection.py:46 | every element of a re-ordering of the tail plus a lower item scores at most the head |
| Sorting.SortDesc | paz/evaluation/detection.py:46-48 | the result is ordered by non-increasing score and is a permutation of the input |
| Sorting.Zip | paz/evaluation/detection.py:47-48 | entry i pairs item i with score i |
| Sorting.Items | paz/evaluation/detection.py:47 | entry i is the item of pair i |
| Sorting.Scores | paz/evaluation/detection.py:48 | entry i is the score of pair i |
| Sorting.ItemsScoresOfZip | paz/evaluation/detection.py:47-48 | unzipping a zip gives back both sequences |
| Sorting.SortDescOfSorted | paz/evaluation/detection.py:46 | input that is already sorted comes back unchanged |
| DetectionMasks.GetPredictions | paz/evaluation/detection.py:6-25 | three aligned arrays with one entry per detection, in order: its coordinates, its class argument under class_to_arg, its score |
| DetectionMasks.ClassMask | paz/evaluation/detection.py:41 | entry i is true exactly when class_args[i] is the class |
| DetectionMasks.Positions | paz/evaluation/detection.py:42 | the indices a mask selects, in increasing order, each selected and every selected index included |
| DetectionMasks.Select | paz/evaluation/detection.py:42-43 | boolean-mask indexing: entry k is the element at the k-th selected position |
| DetectionMasks.SelectAbsentClass | paz/evaluation/detection.py:41-43 | a class that does not occur selects nothing |
| DetectionMasks.PositionsOfNone | paz/evaluation/detection.py:42 | an all-false mask selects no index |
| DetectionMasks.PositionsOfAll | paz/evaluation/detection.py:42 | an all-true mask selects every index |
| DetectionMasks.SelectedFromClass | paz/evaluation/detection.py:41-43 | each selected element comes from a position of that class |
| DetectionMasks.GroundTruthMaskByClass | paz/evaluation/detection.py:53-71 | the boxes and difficulties of one class in their original order, kept index-aligned |
| DetectionMasks.PredictionsMaskByClass | paz/evaluation/detection.py:28-50 | as many boxes and scores as predictions of the class, scores non-increasing, and the (box, score) pairs a permutation of the filtered pairs |
| DetectionMasks.ClassPredictionFromClass | paz/evaluation/detection.py:41-48 | every returned box is a prediction of that class |
| DetectionMasks.PairFromPermutation | paz/evaluation/detection.py:46-48 | each entry of a re-ordering of pairs comes from an entry of the original |
| DetectionMasks.PredictionsAbsentClass | paz/evaluation/detection.py:41-50 | a class with no prediction yields no boxes and no scores |
| DetectionMasks.LastNotEarlier | paz/evaluation/detection.py:141 | the last entry of a strictly increasing list occurs nowhere before it |
| DetectionMasks.InsertUnique | paz/evaluation/detection.py:141 | the list stays strictly increasing and gains exactly x |
| DetectionMasks.Unique | paz/evaluation/detection.py:139-141 | np.unique: strictly increasing, with exactly the values of the input |
| DetectionMasks.PredictionsMaskAsCalled | paz/evaluation/detection.py:144-146 | the call as written fails exactly when the unique class list and the predictions differ in length; otherwise it masks by the unique list |
| DetectionMasks.UniqueExample | paz/evaluation/detection.py:139-141 | the classes [1, 1] and [2] give the unique list [1, 2] |
| DetectionMasks.SelectOneOfTwo | paz/evaluation/detection.py:42 | a mask with one true entry over two elements selects that element |
| DetectionMasks.AsCalledPicksByPosition | paz/evaluation/detection.py:144-146 | as written with the unique list [1, 2], class 1 gets the first prediction and class 2 the second, whatever their classes |
| DetectionMasks.PickOne | paz/evaluation/detection.py:41-50 | a class at one position of two gets exactly that prediction |
| DetectionMasks.ByOwnClassKeepsBoth | paz/evaluation/detection.py:41-50 | masking by the predictions' own classes [1, 1] gives class 1 both predictions and class 2 none |
| DetectionMasks.PredictionsMaskAsCalledExample | paz/evaluation/detection.py:139-146 | two class-1 predictions and a class-2 ground truth: as written, class 1 receives one prediction and class 2 the other, but the predictions' own classes give class 1 both |
| Claims.GetMatchValue | paz/evaluation/detection.py:74-96 | (False, 0) without a match; (True, -1) for a difficult ground truth; (True, 1) exactly for an easy, unclaimed one; (True, 0) otherwise; the value lies in {-1, 0, 1} |
| Claims.SlotWritten | paz/evaluation/detection.py:183 | the flag written is a valid index; -1 means the last one |
| Claims.ClaimState | paz/evaluation/detection.py:179-183 | one claimed flag per ground truth |
| Claims.ClaimValues | paz/evaluation/detection.py:179-184 | one match value in {-1, 0, 1} per prediction |
| Claims.ClaimValuesAt | paz/evaluation/detection.py:180-184 | value k is get_match_value on the flags left by the first k predictions |
| Claims.ClaimStep | paz/evaluation/detection.py:180-184 | a prediction scores 1 exactly when its ground truth is easy and unclaimed, and then claims it; a prediction without a match clears the last ground truth's flag |
| Claims.ClaimStateFixed | paz/evaluation/detection.py:179-183 | with the corrected write, one claimed flag per ground truth |
| Claims.ClaimValuesFixed | paz/evaluation/detection.py:179-184 | with the corrected write, one match value in {-1, 0, 1} per prediction |
| Claims.ClaimValuesFixedAt | paz/evaluation/detection.py:180-184 | with the corrected write, value k is get_match_value on the flags left by the first k predictions |
| Claims.ClaimStateFixedMonotone | paz/evaluation/detection.py:179-183 | with the corrected write, a claimed flag stays claimed |
| Claims.AtMostOneTruePositiveFixed | paz/evaluation/detection.py:179-184 | with the corrected write, two true positives never share a ground truth |
| Claims.ClaimStateMonotoneBelowLast | paz/evaluation/detection.py:179-183 | as written, every flag except the last stays claimed once set |
| Claims.AtMostOneTruePositiveBelowLast | paz/evaluation/detection.py:179-184 | as written, a ground truth other than the last yields at most one true positive |
| Claims.ClaimDoubleCountExample | paz/evaluation/detection.py:179-184 | predictions matching ground truths [0, -1, 0] of one easy box score [1, 0, 1] as written and [1, 0, 0] with the corrected write |
| Accumulation.CountEasy | paz/evaluation/detection.py:152 | the number of easy ground truths is at most their number, and 0 exactly when all are difficult |
| Accumulation.ClassIous | paz/evaluation/detection.py:165-174 | row i is the IoU of prediction i against all ground truths, both widened by one pixel on the max corner |
| Accumulation.GroundTruthArgs | paz/evaluation/detection.py:175-177 | -1 exactly when every IoU of the prediction is below the threshold; otherwise the first ground truth of highest IoU, which reaches the threshold |
| Accumulation.ClassMatchValues | paz/evaluation/detection.py:157-184 | one match value in {-1, 0, 1} per prediction, all 0 when the class has no ground truth |
| Accumulation.SampleDifficulties | paz/evaluation/detection.py:123-136 | the sample's difficulties when present; otherwise all easy, one per ground truth |
| Accumulation.ClassUnionsDefined | paz/evaluation/detection.py:173-174 | every IoU a class step computes has a non-zero union |
| Accumulation.WellFormedSampleUnions | paz/evaluation/detection.py:165-174 | for well-formed boxes every widened prediction and ground-truth pair has a non-zero union |
| Accumulation.SelfUnions | paz/evaluation/detection.py:165-174 | a well-formed box and its copies have non-zero unions once widened |
| Accumulation.SelfIous | paz/evaluation/detection.py:165-174 | a widened well-formed box has IoU 1 with itself |
| Accumulation.FullOverlapArgs | paz/evaluation/detection.py:175-177 | predictions with IoU 1 all pick ground truth 0 |
| Accumulation.SameTruthClaims | paz/evaluation/detection.py:179-184 | two predictions of one easy ground truth score [1, 0]; one prediction of a difficult one scores [-1] |
| Accumulation.DuplicateDetectionExample | paz/evaluation/detection.py:157-184 | two copies of an easy ground-truth box give one true positive and one false positive; a detection of a difficult box is ignored |
| Accumulation.ClassShare | paz/evaluation/detection.py:144-184 | one match value per score in a class step's contribution |
| Accumulation.AbsentClassContributesNothing | paz/evaluation/detection.py:139-162 | a class absent from the sample adds no positives, no scores and no match values |
| Accumulation.ClaimLoop | paz/evaluation/detection.py:179-184 | the loop over a bool buffer, including the write at index -1, appends exactly the claim values |
| Accumulation.MatchValues | paz/evaluation/detection.py:157-184 | the values one class step appends: none without predictions, zeros without ground truths, the claim loop otherwise |
| Accumulation.ClassRange | paz/evaluation/detection.py:116-118 | the keys range(1, num_classes + 1) |
| Accumulation.Shares | paz/evaluation/detection.py:139-184 | each class 1..num_classes has its class step's contribution |
| Accumulation.Initial | paz/evaluation/detection.py:116-118 | every class 1..num_classes starts with 0 positives, no scores and no matches, and there are no other keys |
| Accumulation.UpdateKeys | paz/evaluation/detection.py:153 | updating an existing key keeps the dictionary's keys |
| Accumulation.AddClass | paz/evaluation/detection.py:152-184 | a class step keeps the keys and keeps one match value per score in every class |
| Accumulation.AddClasses | paz/evaluation/detection.py:142-184 | the class steps, in order, keep the keys and the alignment |
| Accumulation.AddSample | paz/evaluation/detection.py:119-184 | after a sample the keys stay exactly 1..num_classes and every class stays aligned |
| Accumulation.AddClassesStep | paz/evaluation/detection.py:142-184 | one more class step extends the class steps already done |
| Accumulation.AddSampleAt | paz/evaluation/detection.py:152-184 | after a sample, class c holds its old positives plus its share, and its old scores and matches followed by its share's |
| Accumulation.AddClassesEntries | paz/evaluation/detection.py:142-184 | over distinct classes, a visited class gains its share exactly once and any other class is unchanged |
| Accumulation.AddClassAt | paz/evaluation/detection.py:152-184 | a class step changes only its own class's entries |
| Accumulation.MapsAgree | paz/evaluation/detection.py:116-118 | two dictionaries on the keys 1..n that agree on every key are equal |
| Accumulation.AddClassesCoverAt | paz/evaluation/detection.py:139-184 | when a class left out of the visited list has an empty share, it ends equal either way |
| Accumulation.AddClassesCover | paz/evaluation/detection.py:139-184 | visiting only the sample's present classes amounts to adding every class's share |
| Accumulation.SampleClasses | paz/evaluation/detection.py:139-141 | the classes visited are in 1..num_classes, and every class not visited has an empty share |
| Accumulation.SampleShares | paz/evaluation/detection.py:119-184 | entry i is the per-class contributions of sample i |
| Accumulation.Accumulate | paz/evaluation/detection.py:116-186 | the dictionaries after any number of samples have exactly the keys 1..num_classes, each aligned |
| Accumulation.AccumulateStep | paz/evaluation/detection.py:119-184 | one more sample extends the samples already handled |
| Accumulation.AllMatches | paz/evaluation/detection.py:156-184 | a class has as many accumulated match values as scores |
| Accumulation.AccumulateEntries | paz/evaluation/detection.py:116-186 | each class holds the sum of its easy ground truths over all samples and, in sample order, the concatenation of their scores and match values |
| Accumulation.AccumulatedAligned | paz/evaluation/detection.py:152-184 | the accumulated positives are non-negative, and the match values and scores have the same length |
| Accumulation.Accumulator.constructor | paz/evaluation/detection.py:115-118 | the dictionaries start as the initial statistics |
| Accumulation.Accumulator.AccumulateClass | paz/evaluation/detection.py:142-184 | one class step of one sample adds that class's share and nothing else |
| Accumulation.Accumulator.Extend | paz/evaluation/detection.py:153-184 | updates positives, scores and match values of the class in place, keeping the accumulator valid |
| Accumulation.Accumulator.AccumulateSample | paz/evaluation/detection.py:119-184 | the loop over the sample's unique classes adds every class's share of the sample |
| Accumulation.ComputeMatches | paz/evaluation/detection.py:99-186 | three dictionaries keyed 1..num_classes: per class, the total of easy ground truths, and all scores and match values in sample order |
| Relevance.ItemsAppend | paz/evaluation/detection.py:205 | unzipping distributes over concatenation |
| Relevance.ItemsInsert | paz/evaluation/detection.py:204-205 | inserting a pair adds exactly its item |
| Relevance.ItemsCons | paz/evaluation/detection.py:205 | the items of a non-empty list are its head's item plus the items of the rest |
| Relevance.ItemsSortDesc | paz/evaluation/detection.py:204-205 | sorting re-orders the items and nothing more |
| Relevance.Ranked | paz/evaluation/detection.py:204-205 | one ranked match value per match value |
| Relevance.RankedPermutes | paz/evaluation/detection.py:204-205 | ranking is a permutation of the match values |
| Relevance.RankedOrder | paz/evaluation/detection.py:204-205 | the ranking pairs each match value with its own score, ordered by non-increasing score |
| Relevance.Count | paz/evaluation/detection.py:206-207 | a count never exceeds the length |
| Relevance.CountMultiplicity | paz/evaluation/detection.py:206-207 | the count of v is its multiplicity, independent of the order |
| Relevance.CumulativeCount | paz/evaluation/detection.py:206-207 | entry i counts the matching values among the first i + 1 |
| Relevance.CumulativeCountSteps | paz/evaluation/detection.py:206-207 | the running count at rank 0 is the first entry's indicator, each later rank adds exactly its entry's indicator, count i is at most i + 1, and the last count is the multiplicity |
| Relevance.CountsBelowLength | paz/evaluation/detection.py:206-207 | true positives, false positives and ignored entries together number at most the entries |
| Relevance.CumulativeCountsJoint | paz/evaluation/detection.py:206-207 | at rank i, TP[i] + FP[i] ≤ i + 1, because an ignored entry counts in neither |
| Relevance.Ratio | paz/evaluation/detection.py:208-209 | undefined exactly when both counts are 0; otherwise in [0, 1], 0 without true positives and 1 without false positives |
| Relevance.RatioTimesTotal | paz/evaluation/detection.py:208-209 | a defined precision times TP + FP gives back TP |
| Relevance.Precision | paz/evaluation/detection.py:208-209 | entry i is TP[i] / (TP[i] + FP[i]), undefined when both are 0 |
| Relevance.Fraction | paz/evaluation/detection.py:211 | a count over a positive total is non-negative, and at most 1 when the count does not exceed the total |
| Relevance.FractionMonotone | paz/evaluation/detection.py:211 | larger counts give larger recalls |
| Relevance.Recall | paz/evaluation/detection.py:211 | entry i is TP[i] / num_positives |
| Relevance.ClassPrecision | paz/evaluation/detection.py:202-209 | one precision entry per prediction of the class |
| Relevance.ClassRecall | paz/evaluation/detection.py:210-211 | recall exists exactly when the class has positives, with one entry per prediction |
| Relevance.ClassRecallMonotone | paz/evaluation/detection.py:206-211 | recall never decreases along the ranking |
| Relevance.ClassRecallComplete | paz/evaluation/detection.py:204-211 | the last recall entry is the class's number of true positives over its positives, whatever the order of tied scores |
| Relevance.PrecisionDefinedAfterJudged | paz/evaluation/detection.py:206-209 | precision is defined at any rank whose prediction is judged (not -1) |
| Relevance.IgnoredKeepsCurves | paz/evaluation/detection.py:204-211 | at the rank of an ignored prediction (-1) precision and recall equal those of the rank before |
| Relevance.ItemsRemove | paz/evaluation/detection.py:205 | removing pair j removes exactly its match value |
| Relevance.MultisetRemove | paz/evaluation/detection.py:205 | removing entry j removes exactly that entry from the multiset |
| Relevance.ItemsPermutation | paz/evaluation/detection.py:204-205 | any re-ordering of the (match, score) pairs re-orders the match values and nothing more |
| Relevance.RankingFinalCounts | paz/evaluation/detection.py:204-207 | for every order `argsort()[::-1]` may return, the last running count of v is the multiplicity of v in the class's matches |
| Relevance.TieOrderRankings | paz/evaluation/detection.py:204-205 | with scores [0.5, 0.5] and matches [1, 0], both orders of the tie are valid rankings |
| Relevance.TieRanked | paz/evaluation/detection.py:204-205 | the model's sort keeps the earlier of two tied entries first |
| Relevance.TwoEntryPrecision | paz/evaluation/detection.py:206-209 | precision over two ranked values: the first entry's indicator, then TP/(TP + FP) of both |
| Relevance.TieOrderExample | paz/evaluation/detection.py:204-209 | for that tie the model's ranking gives precision [1, 0.5], and the other valid ranking gives [0, 0.5] |
| Relevance.CalculateRelevanceMetrics | paz/evaluation/detection.py:189-212 | lists of num_classes + 1 entries with entry 0 None; entry c is class c's precision curve, and its recall curve when it has positives, None otherwise |
| AveragePrecision.NanToNum | paz/evaluation/detection.py:237-238 | an undefined precision counts as 0; a defined one is kept |
| AveragePrecision.NanToNumUnit | paz/evaluation/detection.py:237-238 | precisions in [0, 1] stay in [0, 1] |
| AveragePrecision.MaxAbove | paz/evaluation/detection.py:233-240 | none exactly when no recall reaches t; otherwise a precision at a recall reaching t that is at least every such precision |
| AveragePrecision.Interpolated | paz/evaluation/detection.py:233-240 | 0 when no recall reaches t, and in [0, 1] for precisions in [0, 1] |
| AveragePrecision.ElevenPointSumBounds | paz/evaluation/detection.py:231-244 | after k recall levels the partial sum lies in [0, k/11] |
| AveragePrecision.ElevenPointAP | paz/evaluation/detection.py:231-244 | definition: the sum over the eleven thresholds k/10 of the interpolated precision, over 11; its contract is carried by ElevenPointBounds, ElevenPointPerfect and ElevenPointClass |
| AveragePrecision.ElevenPointBounds | paz/evaluation/detection.py:231-244 | with precisions in [0, 1] the eleven-point average precision lies in [0, 1] |
| AveragePrecision.ElevenPointSumPerfect | paz/evaluation/detection.py:231-244 | with all precisions 1 and recall reaching 1, the partial sum after k levels is k/11 |
| AveragePrecision.ElevenPointPerfect | paz/evaluation/detection.py:231-244 | a detector with precision 1 throughout and recall reaching 1 scores 1 |
| AveragePrecision.ElevenPointClass | paz/evaluation/detection.py:231-244 | the loop over the eleven thresholds computes the eleven-point average precision |
| AveragePrecision.ElevenPointInterpolation | paz/evaluation/detection.py:215-246 | one entry per class: NaN without precision or recall, otherwise the eleven-point average precision of its curves |
| AveragePrecision.MaxOf | paz/evaluation/detection.py:269-270 | the maximum bounds every entry and is one of them |
| AveragePrecision.SuffixMax | paz/evaluation/detection.py:269-270 | the envelope has one entry per precision |
| AveragePrecision.SuffixMaxIsEnvelope | paz/evaluation/detection.py:269-270 | envelope entry i is at least every precision from i on and is one of them |
| AveragePrecision.SuffixMaxNonIncreasing | paz/evaluation/detection.py:269-270 | the envelope never increases along the ranking |
| AveragePrecision.PaddedPrecision | paz/evaluation/detection.py:265-266 | one sentinel on each side |
| AveragePrecision.PaddedRecall | paz/evaluation/detection.py:267 | one sentinel on each side |
| AveragePrecision.Steps | paz/evaluation/detection.py:278-281 | one step per pair of neighbouring recall entries |
| AveragePrecision.StillSteps | paz/evaluation/detection.py:274-281 | a step where recall does not change contributes 0 |
| AveragePrecision.ChangeArgs | paz/evaluation/detection.py:274-275 | every listed index is one where recall changes |
| AveragePrecision.ChangeArgsComplete | paz/evaluation/detection.py:274-275 | every index where recall changes is listed, in increasing order |
| AveragePrecision.SumOverAppend | paz/evaluation/detection.py:278-281 | one more index adds its step to the sum |
| AveragePrecision.ChangeSumIsTotal | paz/evaluation/detection.py:274-281 | summing over the changes equals summing every step when the others are 0 |
| AveragePrecision.EveryPointIsArea | paz/evaluation/detection.py:264-281 | the every-point average precision is the sum over all steps of recall gain times envelope |
| AveragePrecision.EveryPointAP | paz/evaluation/detection.py:264-281 | definition: the padded curves, the envelope, and the sum over recall changes of gain times envelope; its contract is carried by EveryPointIsArea, EveryPointBounds and EveryPointPerfectPrecision |
| AveragePrecision.StepsBounds | paz/evaluation/detection.py:278-281 | with the envelope in [0, 1] and recall non-decreasing, each step lies between 0 and its recall gain |
| AveragePrecision.TotalBounds | paz/evaluation/detection.py:278-281 | steps between 0 and their gains sum to at most the total recall gain |
| AveragePrecision.EveryPointBounds | paz/evaluation/detection.py:264-281 | with precisions in [0, 1] and a non-decreasing recall in [0, 1], the every-point average precision lies in [0, 1] |
| AveragePrecision.EnvelopeUnit | paz/evaluation/detection.py:265-270 | the envelope of precisions in [0, 1] stays in [0, 1] |
| AveragePrecision.TelescopeTotal | paz/evaluation/detection.py:278-281 | while each step is its recall gain, the sum telescopes to the total gain |
| AveragePrecision.PerfectEnvelope | paz/evaluation/detection.py:265-270 | for a precision curve of ones, the envelope is 1 up to the last real entry and 0 at the closing sentinel |
| AveragePrecision.EveryPointPerfectPrecision | paz/evaluation/detection.py:264-281 | a detector whose every precision is 1 earns exactly its final recall |
| AveragePrecision.EveryPointClass | paz/evaluation/detection.py:260-281 | one class: NaN without a curve, otherwise the every-point average precision |
| AveragePrecision.EveryPointInterpolation | paz/evaluation/detection.py:249-283 | one entry per class: NaN without precision or recall, otherwise the every-point average precision of its curves |
| AveragePrecision.CurveAP | paz/evaluation/detection.py:302-309 | defined exactly when both curves are |
| AveragePrecision.ApplyMetric | paz/evaluation/detection.py:302-309 | each class gets the average precision of the rule use_07_metric selects |
| AveragePrecision.DefinedCount | paz/evaluation/detection.py:311 | at most the number of entries, and 0 exactly when all are NaN |
| AveragePrecision.NanMean | paz/evaluation/detection.py:311 | NaN exactly when every entry is; otherwise the mean times the number of defined entries is their sum |
| AveragePrecision.DefinedSumBounds | paz/evaluation/detection.py:311 | defined entries in [0, 1] sum to between 0 and their number |
| AveragePrecision.UnitQuotient | paz/evaluation/detection.py:311 | a sum in [0, n] over n gives a mean in [0, 1] |
| AveragePrecision.NanMeanBounds | paz/evaluation/detection.py:311 | the mean of defined entries in [0, 1] lies in [0, 1] |
| Evaluation.ClassPrecisionUnit | paz/evaluation/detection.py:208-209 | every defined precision of a class lies in [0, 1] |
| Evaluation.ClassRecallUnit | paz/evaluation/detection.py:210-211 | with no more true positives than positives, recall stays in [0, 1] |
| Evaluation.CountBelowTotal | paz/evaluation/detection.py:206 | a non-decreasing count stays below its last entry |
| Evaluation.ClassElevenPointBounds | paz/evaluation/detection.py:231-244 | a class's eleven-point average precision lies in [0, 1] |
| Evaluation.ClassEveryPointBounds | paz/evaluation/detection.py:264-281 | with no more true positives than positives, a class's every-point average precision lies in [0, 1] |
| Evaluation.ClassAP | paz/evaluation/detection.py:299-309 | a class's average precision is defined exactly when the class has easy ground truth, and lies in [0, 1] under the eleven-point rule |
| Evaluation.PrecisionCurves | paz/evaluation/detection.py:199-209 | num_classes + 1 entries, entry 0 None, entry c the precision curve of class c's totals |
| Evaluation.RecallCurves | paz/evaluation/detection.py:199-211 | num_classes + 1 entries, entry 0 None, entry c the recall of class c's totals |
| Evaluation.CurvesAligned | paz/evaluation/detection.py:199-211 | the two curves of a class have the same length |
| Evaluation.CurveAPIsClassAP | paz/evaluation/detection.py:299-309 | the metric applied to class c's curves is class c's average precision |
| Evaluation.CurvesOfDictionaries | paz/evaluation/detection.py:299-301 | the lists built from the accumulated dictionaries are the curves of the totals |
| Evaluation.RelevanceOfSamples | paz/evaluation/detection.py:299-301 | compute_matches followed by calculate_relevance_metrics gives the curves of the accumulated totals |
| Evaluation.MetricOfCurves | paz/evaluation/detection.py:302-311 | entry 0 is NaN, entry c is class c's average precision, and under the eleven-point rule the mean lies in [0, 1] |
| Evaluation.EvaluateMAP | paz/evaluation/detection.py:286-311 | entry 0 (background) NaN, entry c class c's average precision over all samples, the map their NaN-ignoring mean, in [0, 1] under the eleven-point rule |

## Left out

- Floating point: all arithmetic is exact on `real`. The `float32` casts at paz/core/backend/boxes.py:178 and paz/evaluation/detection.py:21-23, the `float32` buffer at boxes.py:250 and the `int8` cast at detection.py:202 are not modelled. Match values lie in {-1, 0, 1}, so the `int8` cast loses nothing.
- NaN is `None`. `nan_to_num` maps `None` to 0. NumPy's warnings on 0/0 are not modelled.
- AveragePrecision.Threshold: the thresholds of `np.arange(0., 1.1, 0.1)` are the exact k/10. The floating-point values, such as 0.30000000000000004, can differ from k/10 for a recall exactly at a threshold.
- Codec.EncodeRow, Codec.Decode: the natural logarithm and exponential are parameters, treated as uninterpreted. Only Codec.DecodeEncodeRow and Codec.DecodeEncodeWidth assume that exponential undoes logarithm on positive numbers.
- Codec.EncodeRow, Codec.Encode: require every prior to have non-zero width and height, and both variances to be non-zero (`UsablePrior`). encode divides by them without a guard (paz/core/backend/boxes.py:113-118), so NumPy would return inf or NaN, which `real` cannot represent.
- Codec.Decode: the second `return boxes` at paz/core/backend/boxes.py:141 cannot be reached and is not modelled.
- Geometry.IoU: requires a non-zero union. The source divides without a guard, and NumPy would give inf or NaN there.
- Geometry.ComputeIou, Geometry.ComputeIous: take corner boxes only, so columns after the fourth (`box[:4]`) are not carried. They require non-zero unions, like Geometry.IoU.
- Matcher.Match: requires at least one ground truth and one prior, because `max` and `argmax` over an empty axis raise. It also requires that every ground-truth row has a class column, which the write to column 4 needs. There is no background-only fallback.
- BoxHelpers.ToOneHot: requires every class index to lie in [-num_classes, num_classes), because NumPy raises an IndexError otherwise.
- BoxHelpers.NormalizeKeypoints: requires non-zero width and height. The coordinates are NumPy scalars, so a zero size gives inf or NaN, which `real` cannot represent. It also requires at least two columns.
- BoxHelpers.DenormalizeKeypoints: requires at least two columns, because NumPy raises on a missing column.
- BoxHelpers.MakeBoxSquare and BoxHelpers.ApplyOffsets carry no contract of their own. What they compute is stated by the lemmas about them (see the Findings).
- DetectionMasks.PredictionsMaskByClass: the order among equal scores is not promised. NumPy's default sort is not stable, so the model states only the order by score and the permutation. Sorting.SortDesc is one such order.
- DetectionMasks.GetPredictions: requires every class name to be a key of class_to_arg, because the source raises a KeyError otherwise.
- Accumulation.ComputeMatches:
  - Iterating the dataset, `load_image` and the `detector(image)` call (paz/evaluation/detection.py:119-132) are outside the model. Each `Sample` carries the predictions the detector returned, as DetectionMasks.GetPredictions would build them.
  - `num_classes` stands for `len(class_to_arg)`.
  - Class arguments outside 1..num_classes raise a KeyError in the source, so `ValidSample` excludes them.
  - `ValidSample` also asks that every widened prediction and ground-truth pair of one class has a non-zero union. Accumulation.WellFormedSampleUnions shows that well-formed boxes always meet this.
  - The optional `'difficulties'` key is an `Option`.
- Relevance.Ranked, Accumulation.ComputeMatches, Evaluation.EvaluateMAP: the exact curves and values are those of one stable order, in which tied scores keep their earlier entry first. `argsort()[::-1]` at paz/evaluation/detection.py:46 and :204 promises no tie order, and NumPy may put the later of two equal scores first.
  - Example: scores [0.5, 0.5] with matches [1, 0] and one positive. The model ranks them [1, 0], giving precision [1, 0.5] and average precision 1 by either rule. The other order gives precision [0, 0.5] and average precision 0.5 (Relevance.TieOrderExample).
  - The same holds for Relevance.CalculateRelevanceMetrics, Evaluation.ClassAP and, via the per-class sort of DetectionMasks.PredictionsMaskByClass, the order of the accumulated matches. With the as-written write at detection.py:183, that order can even change which match values occur.
  - What holds for every valid ranking is stated separately: Relevance.TieOrderRankings and Relevance.RankingFinalCounts (the final counts, and so the last recall, do not depend on the tie order).
- Accumulation.Accumulator.AccumulateClass masks the predictions by their own class arguments. This is the corrected call of paz/evaluation/detection.py:145 (see the Findings). The call as written is DetectionMasks.PredictionsMaskAsCalled.
- Accumulation.ClaimLoop keeps the write at index -1 of paz/evaluation/detection.py:183 as written, so the accumulated matches are those evaluateMAP reports. Claims.ClaimValuesFixed is the corrected loop.
- Relevance.CalculateRelevanceMetrics: requires num_classes ≥ 1, because `max` of an empty key set raises. It also requires dictionaries keyed 1..num_classes, because a missing key raises a KeyError.
- AveragePrecision.ElevenPointInterpolation, AveragePrecision.EveryPointInterpolation: require the recall list to be at least as long as the precision list, and the two curves of a class to have the same length. Otherwise the source's indexing raises.
- Evaluation.ClassAP, Evaluation.EvaluateMAP: the [0, 1] bound is stated only for the eleven-point rule.
  - The every-point bound (Evaluation.ClassEveryPointBounds) needs no more true positives than positives.
  - The claim loop as written can break that condition: Claims.ClaimDoubleCountExample counts one ground truth twice, so recall can exceed 1.
- `substract_mean` (paz/core/backend/boxes.py:212-223) is not part of this model. It is a per-channel pixel subtraction with nothing to state.
- paz/core/processor.py, examples/implicit_orientation_learning/pipelines.py and examples/mask_rcnn/tests/sequencer_test.py are not part of this model. They are pipeline glue, network wiring and tests over image files.

## Findings

| source | as written | input that shows it | evidently intended | confidence | as-written member | corrected member |
|---|---|---|---|---|---|---|
| paz/evaluation/detection.py:145 | predictions are masked with `class_args`, the sample's unique class list, instead of the predictions' own class arguments | two class-1 predictions and one class-2 ground truth: the unique list is [1, 2], so class 1 receives only the first prediction and class 2 receives the second; with any other number of unique classes NumPy raises on the mask length | mask with `predicted_class_args` | high; not executed | DetectionMasks.PredictionsMaskAsCalled, DetectionMasks.PredictionsMaskAsCalledExample | DetectionMasks.PredictionsMaskByClass, DetectionMasks.ByOwnClassKeepsBoth |
| paz/evaluation/detection.py:183 | `selected[ground_truth_arg] = is_selected` also runs for a prediction without a match, and index -1 clears the last ground truth's flag | one easy ground truth; predictions matching [0, -1, 0] score [1, 0, 1], two true positives of one ground truth | write the flag only for a matched prediction | high; not executed | Claims.ClaimValues, Claims.ClaimDoubleCountExample | Claims.ClaimValuesFixed, Claims.AtMostOneTruePositiveFixed |
| paz/core/backend/boxes.py:286-287 | the margin is offset_scale times `(x_max + x_min) / 2`, the centre x, called a side length | the box (100, 0, 110, 10) at scale 0.05 gets the margin 5.25 and becomes (94, -5, 115, 15); the same box near x = 0 would barely grow | offset_scale times the side length `x_max - x_min` | medium; not executed | BoxHelpers.MakeBoxSquare, BoxHelpers.MakeBoxSquareMarginFollowsPosition, BoxHelpers.MakeBoxSquareExample | BoxHelpers.MakeBoxSquareBySide, BoxHelpers.MakeBoxSquareBySideGeometry |
| paz/core/backend/boxes.py:305-310 | the x offset (from the width) is added to y_max and the y offset (from the height) to x_max | the box (0, 0, 10, 20) with scales (0.1, 0.1) becomes (-1, -2, 12, 21) and its centre moves | each offset applied to both sides of its own axis: (-1, -2, 11, 22) | high; not executed | BoxHelpers.ApplyOffsets, BoxHelpers.OffsetBoxMovesCentre, BoxHelpers.ApplyOffsetsExample | BoxHelpers.ApplySymmetricOffsets, BoxHelpers.SymmetricOffsetBoxGeometry |
