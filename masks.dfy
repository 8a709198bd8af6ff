/** Gathering a sample's detections and selecting one class of them
    (paz/evaluation/detection.py: get_predictions, predictions_mask_by_class,
    ground_truth_mask_by_class, and np.unique over the class arguments). */
module DetectionMasks {
  import opened Wrappers
  import opened Geometry
  import opened Sorting

  /** A detection as the detector reports it. */
  datatype Box2D = Box2D(coordinates: PointForm, className: string, score: real)

  /** The three arrays get_predictions returns, index-aligned. */
  datatype Predictions = Predictions(boxes: seq<PointForm>, classArgs: seq<int>, scores: seq<real>)

  predicate Aligned(p: Predictions)
  {
    |p.boxes| == |p.classArgs| == |p.scores|
  }

  /** get_predictions: one entry per detection, appended in order; a class
      name missing from class_to_arg is a KeyError in the source. */
  function GetPredictions(results: seq<Box2D>, classToArg: map<string, int>): (p: Predictions)
    requires forall i :: 0 <= i < |results| ==> results[i].className in classToArg
    ensures Aligned(p) && |p.boxes| == |results|
    ensures forall i :: 0 <= i < |results| ==>
      p.boxes[i] == results[i].coordinates &&
      p.classArgs[i] == classToArg[results[i].className] &&
      p.scores[i] == results[i].score
  {
    if |results| == 0 then Predictions([], [], [])
    else
      var p := GetPredictions(results[..|results| - 1], classToArg);
      var d := results[|results| - 1];
      Predictions(p.boxes + [d.coordinates], p.classArgs + [classToArg[d.className]], p.scores + [d.score])
  }

  /** class_arg == class_args. */
  function ClassMask(classArg: int, classArgs: seq<int>): (mask: seq<bool>)
    ensures |mask| == |classArgs|
    ensures forall i :: 0 <= i < |mask| ==> (mask[i] <==> classArgs[i] == classArg)
  {
    seq(|classArgs|, i requires 0 <= i < |classArgs| => classArgs[i] == classArg)
  }

  /** The indices a boolean mask selects, in increasing order. */
  function Positions(mask: seq<bool>): (ps: seq<nat>)
    ensures forall k :: 0 <= k < |ps| ==> ps[k] < |mask| && mask[ps[k]]
    ensures forall k, l :: 0 <= k < l < |ps| ==> ps[k] < ps[l]
    ensures forall i :: 0 <= i < |mask| && mask[i] ==> i in ps
  {
    if |mask| == 0 then []
    else
      var ps := Positions(mask[..|mask| - 1]);
      if mask[|mask| - 1] then ps + [|mask| - 1] else ps
  }

  /** Boolean-mask indexing xs[mask]; NumPy requires the mask's length to match. */
  function Select<T>(xs: seq<T>, mask: seq<bool>): (ys: seq<T>)
    requires |xs| == |mask|
    ensures |ys| == |Positions(mask)|
    ensures forall k :: 0 <= k < |ys| ==> ys[k] == xs[Positions(mask)[k]]
  {
    if |xs| == 0 then []
    else
      var n := |xs| - 1;
      var ys := Select(xs[..n], mask[..n]);
      if mask[n] then ys + [xs[n]] else ys
  }

  /** Nothing is selected for a class that does not occur. */
  lemma SelectAbsentClass<T>(xs: seq<T>, classArg: int, classArgs: seq<int>)
    requires |xs| == |classArgs| && classArg !in classArgs
    ensures Select(xs, ClassMask(classArg, classArgs)) == []
  {
    PositionsOfNone(ClassMask(classArg, classArgs));
  }

  lemma {:induction false} PositionsOfNone(mask: seq<bool>)
    requires forall i :: 0 <= i < |mask| ==> !mask[i]
    ensures Positions(mask) == []
  {
    if |mask| > 0 {
      PositionsOfNone(mask[..|mask| - 1]);
    }
  }

  /** A mask of all true selects every position. */
  lemma {:induction false} PositionsOfAll(mask: seq<bool>)
    requires forall i :: 0 <= i < |mask| ==> mask[i]
    ensures |Positions(mask)| == |mask|
  {
    if |mask| > 0 {
      PositionsOfAll(mask[..|mask| - 1]);
    }
  }

  /** Each selected element comes from a position of that class. */
  lemma SelectedFromClass<T>(xs: seq<T>, classArg: int, classArgs: seq<int>, k: nat)
    requires |xs| == |classArgs| && k < |Select(xs, ClassMask(classArg, classArgs))|
    ensures var i := Positions(ClassMask(classArg, classArgs))[k];
      i < |xs| && classArgs[i] == classArg && Select(xs, ClassMask(classArg, classArgs))[k] == xs[i]
  {
  }

  /** A class's share of a sample's ground truth. */
  datatype GroundTruths = GroundTruths(boxes: seq<PointForm>, difficulties: seq<bool>)

  /** ground_truth_mask_by_class: the order-preserving filter of boxes and
      difficulties to one class, kept index-aligned. */
  function GroundTruthMaskByClass(classArg: int, classArgs: seq<int>, boxes: seq<PointForm>,
                                  difficulties: seq<bool>): (g: GroundTruths)
    requires |classArgs| == |boxes| == |difficulties|
    ensures var ps := Positions(ClassMask(classArg, classArgs));
      |g.boxes| == |g.difficulties| == |ps| &&
      (forall k :: 0 <= k < |ps| ==> g.boxes[k] == boxes[ps[k]] && g.difficulties[k] == difficulties[ps[k]])
  {
    var mask := ClassMask(classArg, classArgs);
    GroundTruths(Select(boxes, mask), Select(difficulties, mask))
  }

  /** A class's predictions, highest score first. */
  datatype ClassPredictions = ClassPredictions(boxes: seq<PointForm>, scores: seq<real>)

  /** predictions_mask_by_class: filter to one class, then order by
      non-increasing score. The result is a re-ordering of the filtered
      (box, score) pairs; the order among equal scores is not promised. */
  function PredictionsMaskByClass(classArg: int, classArgs: seq<int>, boxes: seq<PointForm>,
                                  scores: seq<real>): (r: ClassPredictions)
    requires |classArgs| == |boxes| == |scores|
    ensures |r.boxes| == |r.scores| == |Positions(ClassMask(classArg, classArgs))|
    ensures forall i, j :: 0 <= i < j < |r.scores| ==> r.scores[i] >= r.scores[j]
    ensures var mask := ClassMask(classArg, classArgs);
      multiset(Zip(r.boxes, r.scores)) == multiset(Zip(Select(boxes, mask), Select(scores, mask)))
  {
    var mask := ClassMask(classArg, classArgs);
    var sorted := SortDesc(Zip(Select(boxes, mask), Select(scores, mask)));
    assert Zip(Items(sorted), Scores(sorted)) == sorted;
    ClassPredictions(Items(sorted), Scores(sorted))
  }

  /** Every box predictions_mask_by_class returns is a prediction of that class. */
  lemma ClassPredictionFromClass(classArg: int, classArgs: seq<int>, boxes: seq<PointForm>,
                                 scores: seq<real>, k: nat)
    requires |classArgs| == |boxes| == |scores|
    requires k < |PredictionsMaskByClass(classArg, classArgs, boxes, scores).boxes|
    ensures exists i :: (0 <= i < |boxes| && classArgs[i] == classArg &&
      PredictionsMaskByClass(classArg, classArgs, boxes, scores).boxes[k] == boxes[i])
  {
    var r := PredictionsMaskByClass(classArg, classArgs, boxes, scores);
    var mask := ClassMask(classArg, classArgs);
    var selected := Select(boxes, mask);
    var l := PairFromPermutation(r.boxes, r.scores, selected, Select(scores, mask), k);
    SelectedFromClass(boxes, classArg, classArgs, l);
  }

  /** Entry k of a re-ordering of zipped pairs comes from some entry of the original. */
  lemma PairFromPermutation<T>(xs: seq<T>, ys: seq<real>, us: seq<T>, vs: seq<real>, k: nat) returns (l: nat)
    requires |xs| == |ys| && |us| == |vs| && k < |xs|
    requires multiset(Zip(xs, ys)) == multiset(Zip(us, vs))
    ensures l < |us| && xs[k] == us[l]
  {
    var a, b := Zip(xs, ys), Zip(us, vs);
    assert a[k] in multiset(a);
    assert a[k] in multiset(b);
    l :| 0 <= l < |b| && b[l] == a[k];
  }

  /** predictions_mask_by_class yields nothing for a class with no prediction. */
  lemma PredictionsAbsentClass(classArg: int, classArgs: seq<int>, boxes: seq<PointForm>, scores: seq<real>)
    requires |classArgs| == |boxes| == |scores| && classArg !in classArgs
    ensures PredictionsMaskByClass(classArg, classArgs, boxes, scores) == ClassPredictions([], [])
  {
    SelectAbsentClass(boxes, classArg, classArgs);
  }

  predicate StrictlyIncreasing(s: seq<int>)
  {
    forall i, j :: 0 <= i < j < |s| ==> s[i] < s[j]
  }

  /** The last entry of a strictly increasing sequence occurs nowhere
      before; everything else in it occurs before. */
  lemma LastNotEarlier(s: seq<int>)
    requires StrictlyIncreasing(s) && |s| > 0
    ensures s[|s| - 1] !in s[..|s| - 1]
    ensures forall y :: y in s <==> y in s[..|s| - 1] || y == s[|s| - 1]
  {
    assert s == s[..|s| - 1] + [s[|s| - 1]];
    var k := |s| - 1;
    forall j | 0 <= j < k
      ensures s[..k][j] != s[k]
    {
      assert s[..k][j] == s[j];
    }
  }

  /** Adds x to a strictly increasing sequence unless it is already there. */
  function InsertUnique(x: int, s: seq<int>): (r: seq<int>)
    requires StrictlyIncreasing(s)
    ensures StrictlyIncreasing(r)
    ensures forall y :: y in r <==> y == x || y in s
  {
    if |s| == 0 then [x]
    else if x < s[0] then [x] + s
    else if x == s[0] then s
    else
      assert StrictlyIncreasing(s[1..]);
      var t := InsertUnique(x, s[1..]);
      assert forall y :: y in s <==> y == s[0] || y in s[1..];
      assert forall j :: 0 <= j < |t| ==> s[0] < t[j] by {
        forall j | 0 <= j < |t|
          ensures s[0] < t[j]
        {
          assert t[j] in t;
        }
      }
      [s[0]] + t
  }

  /** np.unique: the distinct values, in increasing order. */
  function Unique(s: seq<int>): (u: seq<int>)
    ensures StrictlyIncreasing(u)
    ensures forall y :: y in u <==> y in s
  {
    if |s| == 0 then []
    else
      var n := |s| - 1;
      assert forall y :: y in s <==> y in s[..n] || y == s[n] by {
        assert s == s[..n] + [s[n]];
      }
      InsertUnique(s[n], Unique(s[..n]))
  }

  /** detection.py:145 as written passes the unique class list where the
      predictions' own classes belong. NumPy raises on a mask of the wrong
      length (None here); otherwise the mask picks predictions by their
      position in the unique list, not by their class. */
  function PredictionsMaskAsCalled(classArg: int, uniqueClasses: seq<int>, boxes: seq<PointForm>,
                                   scores: seq<real>): (r: Option<ClassPredictions>)
    requires |boxes| == |scores|
    ensures r.None? <==> |uniqueClasses| != |boxes|
    ensures r.Some? ==> r.value == PredictionsMaskByClass(classArg, uniqueClasses, boxes, scores)
  {
    if |uniqueClasses| != |boxes| then None
    else Some(PredictionsMaskByClass(classArg, uniqueClasses, boxes, scores))
  }

  lemma UniqueExample()
    ensures Unique([1, 1] + [2]) == [1, 2]
  {
    assert [1, 1] + [2] == [1, 1, 2];
    assert [1, 1, 2][..2] == [1, 1] && [1, 1][..1] == [1] && [1][..0] == [];
    assert Unique([1]) == [1];
    assert Unique([1, 1]) == [1];
    assert InsertUnique(2, [1]) == [1, 2];
  }

  /** The single prediction at position `at` of a two-element list. */
  lemma SelectOneOfTwo<T>(xs: seq<T>, at: nat)
    requires |xs| == 2 && at < 2
    ensures Select(xs, seq(2, i => i == at)) == [xs[at]]
  {
    var mask := seq(2, i => i == at);
    assert mask[..1] == [at == 0];
    assert Positions([true]) == [0] && Positions([false]) == [];
    assert Positions(mask) == [at];
  }

  lemma AsCalledPicksByPosition(b0: PointForm, b1: PointForm)
    ensures PredictionsMaskAsCalled(1, [1, 2], [b0, b1], [0.9, 0.8]) == Some(ClassPredictions([b0], [0.9]))
    ensures PredictionsMaskAsCalled(2, [1, 2], [b0, b1], [0.9, 0.8]) == Some(ClassPredictions([b1], [0.8]))
  {
    PickOne(1, [1, 2], [b0, b1], [0.9, 0.8], 0);
    PickOne(2, [1, 2], [b0, b1], [0.9, 0.8], 1);
  }

  /** A class that occurs once in a two-element class list selects that one entry. */
  lemma PickOne(c: int, classArgs: seq<int>, boxes: seq<PointForm>, scores: seq<real>, at: nat)
    requires |classArgs| == |boxes| == |scores| == 2 && at < 2
    requires classArgs[at] == c && classArgs[1 - at] != c
    ensures PredictionsMaskByClass(c, classArgs, boxes, scores) == ClassPredictions([boxes[at]], [scores[at]])
  {
    assert ClassMask(c, classArgs) == seq(2, i => i == at);
    SelectOneOfTwo(boxes, at);
    SelectOneOfTwo(scores, at);
    var z := Zip([boxes[at]], [scores[at]]);
    SortDescOfSorted(z);
    assert Items(z) == [boxes[at]] && Scores(z) == [scores[at]];
  }

  lemma ByOwnClassKeepsBoth(b0: PointForm, b1: PointForm)
    ensures |PredictionsMaskByClass(1, [1, 1], [b0, b1], [0.9, 0.8]).boxes| == 2
    ensures PredictionsMaskByClass(2, [1, 1], [b0, b1], [0.9, 0.8]) == ClassPredictions([], [])
  {
    assert ClassMask(1, [1, 1]) == [true, true];
    PositionsOfAll([true, true]);
    PredictionsAbsentClass(2, [1, 1], [b0, b1], [0.9, 0.8]);
  }

  /** Two class-1 predictions and one class-2 ground truth: the unique list is
      [1, 2], so as called class 1 receives one prediction instead of two and
      class 2 receives the second class-1 prediction. */
  lemma PredictionsMaskAsCalledExample(b0: PointForm, b1: PointForm)
    ensures var unique := Unique([1, 1] + [2]);
      unique == [1, 2] &&
      PredictionsMaskAsCalled(1, unique, [b0, b1], [0.9, 0.8]) == Some(ClassPredictions([b0], [0.9])) &&
      PredictionsMaskAsCalled(2, unique, [b0, b1], [0.9, 0.8]) == Some(ClassPredictions([b1], [0.8])) &&
      |PredictionsMaskByClass(1, [1, 1], [b0, b1], [0.9, 0.8]).boxes| == 2 &&
      PredictionsMaskByClass(2, [1, 1], [b0, b1], [0.9, 0.8]) == ClassPredictions([], [])
  {
    UniqueExample();
    AsCalledPicksByPosition(b0, b1);
    ByOwnClassKeepsBoth(b0, b1);
  }
}
