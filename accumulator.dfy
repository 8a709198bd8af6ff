/** The statistics compute_matches gathers (paz/evaluation/detection.py:99-186):
    per class, the count of easy ground truths, every predicted score, and
    one match value per prediction. Loading the image and calling the
    detector are outside the model: each sample carries the detector's
    output alongside its ground truth. */
module Accumulation {
  import opened Wrappers
  import opened Geometry
  import opened Reductions
  import opened DetectionMasks
  import opened Claims

  /** np.logical_not(class_difficulties).sum() */
  function CountEasy(difficulties: seq<bool>): (n: nat)
    ensures n <= |difficulties|
    ensures n == 0 <==> forall i :: 0 <= i < |difficulties| ==> difficulties[i]
  {
    if |difficulties| == 0 then 0
    else
      var k := |difficulties| - 1;
      assert forall i :: 0 <= i < k ==> difficulties[..k][i] == difficulties[i];
      CountEasy(difficulties[..k]) + (if difficulties[k] then 0 else 1)
  }

  /** The IoU matrix of a class step: predictions (rows) against ground
      truths (columns), both widened by one pixel on the max corner. */
  function ClassIous(predicted: seq<PointForm>, truths: seq<PointForm>): (m: seq<seq<real>>)
    requires NonzeroUnions(Widened(predicted), Widened(truths))
    ensures |m| == |predicted|
    ensures forall i :: 0 <= i < |m| ==> m[i] == ComputeIou(Widened(predicted)[i], Widened(truths))
  {
    seq(|predicted|, i requires 0 <= i < |predicted| => ComputeIou(Widened(predicted)[i], Widened(truths)))
  }

  /** ious.argmax(axis=1), with -1 where the row maximum is below the threshold. */
  function GroundTruthArgs(ious: seq<seq<real>>, iouThreshold: real): (args: seq<int>)
    requires forall i :: 0 <= i < |ious| ==> |ious[i]| > 0
    ensures |args| == |ious|
    ensures forall i :: 0 <= i < |args| ==> -1 <= args[i] < |ious[i]|
    ensures forall i :: 0 <= i < |args| ==>
      (args[i] == -1 <==> forall j :: 0 <= j < |ious[i]| ==> ious[i][j] < iouThreshold)
    ensures forall i :: 0 <= i < |args| && 0 <= args[i] ==>
      iouThreshold <= ious[i][args[i]] &&
      (forall j :: 0 <= j < |ious[i]| ==> ious[i][j] <= ious[i][args[i]]) &&
      (forall j :: 0 <= j < args[i] ==> ious[i][j] < ious[i][args[i]])
  {
    seq(|ious|, i requires 0 <= i < |ious| =>
      if MaxValue(ious[i]) < iouThreshold then -1 else Argmax(ious[i]))
  }

  /** The match values one class step appends: none without predictions,
      all 0 without ground truths, otherwise the claim loop's values. */
  function ClassMatchValues(predicted: seq<PointForm>, truths: seq<PointForm>, difficulties: seq<bool>,
                            iouThreshold: real): (v: seq<int>)
    requires |truths| == |difficulties|
    requires NonzeroUnions(Widened(predicted), Widened(truths))
    ensures |v| == |predicted|
    ensures forall i :: 0 <= i < |v| ==> -1 <= v[i] <= 1
    ensures |truths| == 0 ==> forall i :: 0 <= i < |v| ==> v[i] == 0
  {
    if |predicted| == 0 then []
    else if |truths| == 0 then seq(|predicted|, _ => 0)
    else ClaimValues(GroundTruthArgs(ClassIous(predicted, truths), iouThreshold), difficulties)
  }

  /** One image as the evaluation sees it: the detector's output and the
      ground truth, whose difficulty flags may be absent. */
  datatype Sample = Sample(predictions: Predictions, truthBoxes: seq<PointForm>, truthClasses: seq<int>,
                           difficulties: Option<seq<bool>>)

  /** Missing difficulties mean all boxes are easy. */
  function SampleDifficulties(s: Sample): (d: seq<bool>)
    ensures s.difficulties.Some? ==> d == s.difficulties.value
    ensures s.difficulties.None? ==> |d| == |s.truthBoxes| && forall i :: 0 <= i < |d| ==> !d[i]
  {
    if s.difficulties.Some? then s.difficulties.value else seq(|s.truthBoxes|, _ => false)
  }

  /** What the source needs of a sample: aligned arrays, class arguments that
      are keys of the accumulators (a KeyError otherwise), and a defined IoU
      for every prediction and ground truth of one class. */
  predicate ValidSample(s: Sample, numClasses: nat)
  {
    Aligned(s.predictions) && |s.truthBoxes| == |s.truthClasses| &&
    (s.difficulties.Some? ==> |s.difficulties.value| == |s.truthBoxes|) &&
    (forall i :: 0 <= i < |s.predictions.classArgs| ==> 1 <= s.predictions.classArgs[i] <= numClasses) &&
    (forall j :: 0 <= j < |s.truthClasses| ==> 1 <= s.truthClasses[j] <= numClasses) &&
    (forall i, j :: (0 <= i < |s.predictions.boxes| && 0 <= j < |s.truthBoxes| &&
                     s.predictions.classArgs[i] == s.truthClasses[j]) ==>
       Union(Widen(s.predictions.boxes[i]), Widen(s.truthBoxes[j])) != 0.0)
  }

  function SamplePredictions(s: Sample, c: int): ClassPredictions
    requires Aligned(s.predictions)
  {
    PredictionsMaskByClass(c, s.predictions.classArgs, s.predictions.boxes, s.predictions.scores)
  }

  function SampleTruths(s: Sample, c: int): GroundTruths
    requires |s.truthBoxes| == |s.truthClasses|
    requires s.difficulties.Some? ==> |s.difficulties.value| == |s.truthBoxes|
  {
    GroundTruthMaskByClass(c, s.truthClasses, s.truthBoxes, SampleDifficulties(s))
  }

  /** The IoUs a class step computes are all defined. */
  lemma ClassUnionsDefined(s: Sample, numClasses: nat, c: int)
    requires ValidSample(s, numClasses)
    ensures NonzeroUnions(Widened(SamplePredictions(s, c).boxes), Widened(SampleTruths(s, c).boxes))
  {
    var p, t := SamplePredictions(s, c), SampleTruths(s, c);
    forall k, l | 0 <= k < |p.boxes| && 0 <= l < |t.boxes|
      ensures Union(Widened(p.boxes)[k], Widened(t.boxes)[l]) != 0.0
    {
      ClassPredictionFromClass(c, s.predictions.classArgs, s.predictions.boxes, s.predictions.scores, k);
      var i :| 0 <= i < |s.predictions.boxes| && s.predictions.classArgs[i] == c && p.boxes[k] == s.predictions.boxes[i];
      SelectedFromClass(s.truthBoxes, c, s.truthClasses, l);
    }
  }

  /** Well-formed boxes always have a defined IoU once widened. */
  lemma WellFormedSampleUnions(s: Sample)
    requires forall i :: 0 <= i < |s.predictions.boxes| ==> WellFormed(s.predictions.boxes[i])
    requires forall j :: 0 <= j < |s.truthBoxes| ==> WellFormed(s.truthBoxes[j])
    ensures forall i, j :: 0 <= i < |s.predictions.boxes| && 0 <= j < |s.truthBoxes| ==>
      Union(Widen(s.predictions.boxes[i]), Widen(s.truthBoxes[j])) != 0.0
  {
    forall i, j | 0 <= i < |s.predictions.boxes| && 0 <= j < |s.truthBoxes|
      ensures Union(Widen(s.predictions.boxes[i]), Widen(s.truthBoxes[j])) != 0.0
    {
      WidenedUnionPositive(s.predictions.boxes[i], s.truthBoxes[j]);
    }
  }

  lemma SelfUnions(b: PointForm)
    requires WellFormed(b)
    ensures NonzeroUnions(Widened([b, b]), Widened([b])) && NonzeroUnions(Widened([b]), Widened([b]))
  {
    WidenedUnionPositive(b, b);
    assert Widened([b, b]) == [Widen(b), Widen(b)] && Widened([b]) == [Widen(b)];
  }

  /** A widened box overlaps itself completely. */
  lemma SelfIous(b: PointForm)
    requires WellFormed(b) && NonzeroUnions(Widened([b, b]), Widened([b])) && NonzeroUnions(Widened([b]), Widened([b]))
    ensures ClassIous([b, b], [b]) == [[1.0], [1.0]] && ClassIous([b], [b]) == [[1.0]]
  {
    var w := Widen(b);
    MulLeMul(1.0, 1.0, w.xMax - w.xMin, w.yMax - w.yMin);
    IoUSelf(w);
    assert Widened([b, b]) == [w, w] && Widened([b]) == [w];
    assert ComputeIou(w, [w]) == [1.0];
  }

  lemma FullOverlapArgs()
    ensures GroundTruthArgs([[1.0], [1.0]], 0.5) == [0, 0] && GroundTruthArgs([[1.0]], 0.5) == [0]
  {
    assert MaxValue([1.0]) == 1.0;
  }

  lemma SameTruthClaims()
    ensures ClaimValues([0, 0], [false]) == [1, 0] && ClaimValues([0], [true]) == [-1]
  {
    assert [0, 0][..1] == [0] && [0][..0] == [];
    assert ClaimState([0], [false]) == [true];
    assert ClaimValues([0], [false]) == [1];
  }

  /** Two identical detections of one easy ground truth: the first is a
      true positive, the second a false positive. Were the ground truth
      difficult, a detection of it would be ignored (-1). */
  lemma DuplicateDetectionExample(b: PointForm)
    requires WellFormed(b)
    ensures NonzeroUnions(Widened([b, b]), Widened([b])) && NonzeroUnions(Widened([b]), Widened([b]))
    ensures ClassMatchValues([b, b], [b], [false], 0.5) == [1, 0]
    ensures ClassMatchValues([b], [b], [true], 0.5) == [-1]
  {
    SelfUnions(b);
    SelfIous(b);
    FullOverlapArgs();
    SameTruthClaims();
  }

  /** What one class step adds to its class: the easy ground truths, the
      scores, and one match value per prediction. */
  datatype Share = Share(positives: nat, scores: seq<real>, values: seq<int>)

  /** The share of class c in sample s. */
  function ClassShare(s: Sample, numClasses: nat, c: int, iouThreshold: real): (sh: Share)
    requires ValidSample(s, numClasses)
    ensures |sh.values| == |sh.scores|
  {
    ClassUnionsDefined(s, numClasses, c);
    var predicted, truths := SamplePredictions(s, c), SampleTruths(s, c);
    Share(CountEasy(truths.difficulties), predicted.scores,
          ClassMatchValues(predicted.boxes, truths.boxes, truths.difficulties, iouThreshold))
  }

  /** A class absent from a sample contributes nothing. */
  lemma AbsentClassContributesNothing(s: Sample, numClasses: nat, c: int, iouThreshold: real)
    requires ValidSample(s, numClasses)
    requires c !in s.predictions.classArgs && c !in s.truthClasses
    ensures ClassShare(s, numClasses, c, iouThreshold) == Share(0, [], [])
  {
    PredictionsAbsentClass(c, s.predictions.classArgs, s.predictions.boxes, s.predictions.scores);
    SelectAbsentClass(SampleDifficulties(s), c, s.truthClasses);
  }

  /** The claim loop of compute_matches: a flag per ground truth, set by
      the first prediction that claims it, written as the source does (a
      prediction without a match writes the flag at index -1). */
  method ClaimLoop(groundTruthArgs: seq<int>, difficulties: seq<bool>) returns (values: seq<int>)
    requires |difficulties| > 0 && ValidArgs(groundTruthArgs, |difficulties|)
    ensures values == ClaimValues(groundTruthArgs, difficulties)
  {
    var n := |difficulties|;
    var selected := new bool[n](_ => false);
    values := [];
    for k := 0 to |groundTruthArgs|
      invariant selected[..] == ClaimState(groundTruthArgs[..k], difficulties)
      invariant values == ClaimValues(groundTruthArgs[..k], difficulties)
    {
      var g := groundTruthArgs[k];
      var r := GetMatchValue(selected[..], g, difficulties);
      selected[SlotWritten(g, n)] := r.isSelected;
      values := values + [r.value];
      assert groundTruthArgs[..k + 1][..k] == groundTruthArgs[..k];
    }
    assert groundTruthArgs[..|groundTruthArgs|] == groundTruthArgs;
  }

  /** The match values one class step appends to its class's list. */
  method MatchValues(predicted: seq<PointForm>, truths: seq<PointForm>, difficulties: seq<bool>,
                     iouThreshold: real) returns (values: seq<int>)
    requires |truths| == |difficulties|
    requires NonzeroUnions(Widened(predicted), Widened(truths))
    ensures values == ClassMatchValues(predicted, truths, difficulties, iouThreshold)
  {
    if |predicted| == 0 {
      return [];
    }
    if |truths| == 0 {
      return seq(|predicted|, _ => 0);
    }
    var ious := ComputeIous(Widened(predicted), Widened(truths));
    assert ious == ClassIous(predicted, truths);
    var groundTruthArgs := GroundTruthArgs(ious, iouThreshold);
    values := ClaimLoop(groundTruthArgs, difficulties);
  }

  /** range(1, num_classes + 1) */
  function ClassRange(numClasses: nat): (r: set<int>)
    ensures forall c :: c in r <==> 1 <= c <= numClasses
  {
    if numClasses == 0 then {} else ClassRange(numClasses - 1) + {numClasses}
  }

  /** The shares of every class 1..num_classes in one sample. */
  function Shares(s: Sample, numClasses: nat, iouThreshold: real): (shares: map<int, Share>)
    requires ValidSample(s, numClasses)
    ensures ValidShares(shares, numClasses)
    ensures forall c :: 1 <= c <= numClasses ==> shares[c] == ClassShare(s, numClasses, c, iouThreshold)
  {
    map c | c in ClassRange(numClasses) :: ClassShare(s, numClasses, c, iouThreshold)
  }

  ghost predicate ValidShares(shares: map<int, Share>, numClasses: nat)
  {
    forall c :: 1 <= c <= numClasses ==> c in shares && |shares[c].values| == |shares[c].scores|
  }

  /** The three dictionaries compute_matches returns. */
  datatype Stats = Stats(numPositives: map<int, int>, score: map<int, seq<real>>, matches: map<int, seq<int>>)

  /** Every class 1..num_classes has an entry in each map, positives are
      counts, and each class has one match value per score. */
  ghost predicate ValidStats(st: Stats, numClasses: nat)
  {
    forall c :: 1 <= c <= numClasses ==>
      c in st.numPositives && c in st.score && c in st.matches &&
      st.numPositives[c] >= 0 && |st.score[c]| == |st.matches[c]|
  }

  /** The maps have no key besides the classes 1..num_classes. */
  ghost predicate ExactKeys(st: Stats, numClasses: nat)
  {
    st.numPositives.Keys == ClassRange(numClasses) && st.score.Keys == ClassRange(numClasses) &&
    st.matches.Keys == ClassRange(numClasses)
  }

  /** The dictionaries before any sample: zero positives, no scores, no matches. */
  function Initial(numClasses: nat): (st: Stats)
    ensures ValidStats(st, numClasses) && ExactKeys(st, numClasses)
    ensures forall c :: 1 <= c <= numClasses ==>
      st.numPositives[c] == 0 && st.score[c] == [] && st.matches[c] == []
  {
    Stats(map c | c in ClassRange(numClasses) :: 0,
          map c | c in ClassRange(numClasses) :: [],
          map c | c in ClassRange(numClasses) :: [])
  }

  /** Updating a present key keeps the key set. */
  lemma UpdateKeys<V>(m: map<int, V>, k: int, v: V)
    requires k in m
    ensures m[k := v].Keys == m.Keys
  {
  }

  /** The statistics after a class step adds share sh to class c. */
  function AddClass(st: Stats, numClasses: nat, c: int, sh: Share): (r: Stats)
    requires ValidStats(st, numClasses) && 1 <= c <= numClasses && |sh.values| == |sh.scores|
    ensures ValidStats(r, numClasses)
    ensures r.numPositives.Keys == st.numPositives.Keys && r.score.Keys == st.score.Keys &&
      r.matches.Keys == st.matches.Keys
  {
    UpdateKeys(st.numPositives, c, st.numPositives[c] + sh.positives);
    UpdateKeys(st.score, c, st.score[c] + sh.scores);
    UpdateKeys(st.matches, c, st.matches[c] + sh.values);
    Stats(st.numPositives[c := st.numPositives[c] + sh.positives],
          st.score[c := st.score[c] + sh.scores],
          st.matches[c := st.matches[c] + sh.values])
  }

  predicate InClassRange(cs: seq<int>, numClasses: nat)
  {
    forall k :: 0 <= k < |cs| ==> 1 <= cs[k] <= numClasses
  }

  /** The class steps for the classes cs, in order. */
  function AddClasses(st: Stats, numClasses: nat, shares: map<int, Share>, cs: seq<int>): (r: Stats)
    requires ValidStats(st, numClasses) && ValidShares(shares, numClasses) && InClassRange(cs, numClasses)
    ensures ValidStats(r, numClasses)
    ensures r.numPositives.Keys == st.numPositives.Keys && r.score.Keys == st.score.Keys &&
      r.matches.Keys == st.matches.Keys
  {
    if |cs| == 0 then st
    else
      var k := |cs| - 1;
      assert InClassRange(cs[..k], numClasses);
      AddClass(AddClasses(st, numClasses, shares, cs[..k]), numClasses, cs[k], shares[cs[k]])
  }

  /** The statistics after a whole sample: every class gains its share,
      whatever order the classes are visited in. */
  function AddSample(st: Stats, numClasses: nat, shares: map<int, Share>): (r: Stats)
    requires ValidStats(st, numClasses) && ValidShares(shares, numClasses)
    ensures ValidStats(r, numClasses) && ExactKeys(r, numClasses)
  {
    Stats(map c | c in ClassRange(numClasses) :: st.numPositives[c] + shares[c].positives,
          map c | c in ClassRange(numClasses) :: st.score[c] + shares[c].scores,
          map c | c in ClassRange(numClasses) :: st.matches[c] + shares[c].values)
  }

  /** One more class step. */
  lemma AddClassesStep(st: Stats, numClasses: nat, shares: map<int, Share>, cs: seq<int>, k: nat)
    requires ValidStats(st, numClasses) && ValidShares(shares, numClasses) && InClassRange(cs, numClasses)
    requires k < |cs|
    ensures InClassRange(cs[..k], numClasses) && InClassRange(cs[..k + 1], numClasses)
    ensures AddClasses(st, numClasses, shares, cs[..k + 1]) ==
      AddClass(AddClasses(st, numClasses, shares, cs[..k]), numClasses, cs[k], shares[cs[k]])
  {
    assert cs[..k + 1][..k] == cs[..k];
  }

  /** Each class of a whole-sample step gains exactly its share. */
  lemma AddSampleAt(st: Stats, numClasses: nat, shares: map<int, Share>, c: int)
    requires ValidStats(st, numClasses) && ValidShares(shares, numClasses) && 1 <= c <= numClasses
    ensures var r := AddSample(st, numClasses, shares);
      r.numPositives[c] == st.numPositives[c] + shares[c].positives &&
      r.score[c] == st.score[c] + shares[c].scores && r.matches[c] == st.matches[c] + shares[c].values
  {
  }

  /** Visiting distinct classes adds each visited class's share exactly once. */
  lemma {:induction false} AddClassesEntries(st: Stats, numClasses: nat, shares: map<int, Share>, cs: seq<int>,
                                             c: int)
    requires ValidStats(st, numClasses) && ValidShares(shares, numClasses) && InClassRange(cs, numClasses)
    requires StrictlyIncreasing(cs) && 1 <= c <= numClasses
    ensures var r := AddClasses(st, numClasses, shares, cs);
      r.numPositives[c] == st.numPositives[c] + (if c in cs then shares[c].positives else 0) &&
      r.score[c] == st.score[c] + (if c in cs then shares[c].scores else []) &&
      r.matches[c] == st.matches[c] + (if c in cs then shares[c].values else [])
  {
    if |cs| > 0 {
      var k := |cs| - 1;
      var front := cs[..k];
      assert InClassRange(front, numClasses);
      assert StrictlyIncreasing(front);
      AddClassesEntries(st, numClasses, shares, front, c);
      var prev := AddClasses(st, numClasses, shares, front);
      AddClassAt(prev, numClasses, cs[k], shares[cs[k]], c);
      assert AddClasses(st, numClasses, shares, cs) == AddClass(prev, numClasses, cs[k], shares[cs[k]]);
      LastNotEarlier(cs);
      if c == cs[k] {
        assert prev.score[c] == st.score[c] && prev.matches[c] == st.matches[c];
      } else {
        assert prev.score[c] + [] == prev.score[c];
        assert prev.matches[c] + [] == prev.matches[c];
      }
    }
  }

  /** A class step changes the entries of its own class only. */
  lemma AddClassAt(st: Stats, numClasses: nat, c: int, sh: Share, d: int)
    requires ValidStats(st, numClasses) && 1 <= c <= numClasses && |sh.values| == |sh.scores|
    requires 1 <= d <= numClasses
    ensures var r := AddClass(st, numClasses, c, sh);
      r.numPositives[d] == st.numPositives[d] + (if d == c then sh.positives else 0) &&
      r.score[d] == st.score[d] + (if d == c then sh.scores else []) &&
      r.matches[d] == st.matches[d] + (if d == c then sh.values else [])
  {
    assert st.score[d] + [] == st.score[d];
    assert st.matches[d] + [] == st.matches[d];
  }

  /** Two maps on the keys 1..n that agree on every key are equal. */
  lemma MapsAgree<V>(m1: map<int, V>, m2: map<int, V>, n: nat)
    requires m1.Keys == ClassRange(n) && m2.Keys == ClassRange(n)
    requires forall c :: 1 <= c <= n ==> m1[c] == m2[c]
    ensures m1 == m2
  {
  }

  /** Class c ends with the same entries either way. */
  lemma AddClassesCoverAt(st: Stats, numClasses: nat, shares: map<int, Share>, cs: seq<int>, c: int)
    requires ValidStats(st, numClasses) && ValidShares(shares, numClasses) && InClassRange(cs, numClasses)
    requires StrictlyIncreasing(cs) && 1 <= c <= numClasses
    requires c !in cs ==> shares[c] == Share(0, [], [])
    ensures var r, t := AddClasses(st, numClasses, shares, cs), AddSample(st, numClasses, shares);
      r.numPositives[c] == t.numPositives[c] && r.score[c] == t.score[c] && r.matches[c] == t.matches[c]
  {
    AddClassesEntries(st, numClasses, shares, cs, c);
    AddSampleAt(st, numClasses, shares, c);
    if c !in cs {
      assert st.score[c] + [] == st.score[c];
      assert st.matches[c] + [] == st.matches[c];
    }
  }

  /** When every class left out of cs has an empty share, the class steps
      over the distinct classes cs amount to the whole sample. */
  lemma AddClassesCover(st: Stats, numClasses: nat, shares: map<int, Share>, cs: seq<int>)
    requires ValidStats(st, numClasses) && ValidShares(shares, numClasses) && InClassRange(cs, numClasses)
    requires StrictlyIncreasing(cs) && ExactKeys(st, numClasses)
    requires forall c :: 1 <= c <= numClasses && c !in cs ==> shares[c] == Share(0, [], [])
    ensures AddClasses(st, numClasses, shares, cs) == AddSample(st, numClasses, shares)
  {
    var r, t := AddClasses(st, numClasses, shares, cs), AddSample(st, numClasses, shares);
    forall c | 1 <= c <= numClasses
      ensures r.numPositives[c] == t.numPositives[c] && r.score[c] == t.score[c] && r.matches[c] == t.matches[c]
    {
      AddClassesCoverAt(st, numClasses, shares, cs, c);
    }
    assert ExactKeys(r, numClasses) && ExactKeys(t, numClasses);
    MapsAgree(r.numPositives, t.numPositives, numClasses);
    MapsAgree(r.score, t.score, numClasses);
    MapsAgree(r.matches, t.matches, numClasses);
  }

  /** The classes compute_matches visits for a sample are in range and
      every other class has an empty share. */
  lemma SampleClasses(s: Sample, numClasses: nat, iouThreshold: real)
    requires ValidSample(s, numClasses)
    ensures var cs := Unique(s.predictions.classArgs + s.truthClasses);
      InClassRange(cs, numClasses) &&
      forall c :: 1 <= c <= numClasses && c !in cs ==> Shares(s, numClasses, iouThreshold)[c] == Share(0, [], [])
  {
    var cs := Unique(s.predictions.classArgs + s.truthClasses);
    forall k | 0 <= k < |cs|
      ensures 1 <= cs[k] <= numClasses
    {
      assert cs[k] in s.predictions.classArgs + s.truthClasses;
    }
    forall c | 1 <= c <= numClasses && c !in cs
      ensures Shares(s, numClasses, iouThreshold)[c] == Share(0, [], [])
    {
      assert c !in s.predictions.classArgs + s.truthClasses;
      AbsentClassContributesNothing(s, numClasses, c, iouThreshold);
    }
  }

  predicate ValidSamples(samples: seq<Sample>, numClasses: nat)
  {
    forall i :: 0 <= i < |samples| ==> ValidSample(samples[i], numClasses)
  }

  /** The shares of every class in each sample, in sample order. */
  function SampleShares(samples: seq<Sample>, numClasses: nat, iouThreshold: real): (ss: seq<map<int, Share>>)
    requires ValidSamples(samples, numClasses)
    ensures |ss| == |samples| && ValidShareSeq(ss, numClasses)
    ensures forall i :: 0 <= i < |ss| ==> ss[i] == Shares(samples[i], numClasses, iouThreshold)
  {
    seq(|samples|, i requires 0 <= i < |samples| => Shares(samples[i], numClasses, iouThreshold))
  }

  ghost predicate ValidShareSeq(ss: seq<map<int, Share>>, numClasses: nat)
  {
    forall i :: 0 <= i < |ss| ==> ValidShares(ss[i], numClasses)
  }

  /** The dictionaries after the samples whose shares are ss, in order. */
  function Accumulate(ss: seq<map<int, Share>>, numClasses: nat): (st: Stats)
    requires ValidShareSeq(ss, numClasses)
    ensures ValidStats(st, numClasses) && ExactKeys(st, numClasses)
  {
    if |ss| == 0 then Initial(numClasses)
    else
      var k := |ss| - 1;
      assert ValidShareSeq(ss[..k], numClasses);
      AddSample(Accumulate(ss[..k], numClasses), numClasses, ss[k])
  }

  /** One more sample. */
  lemma AccumulateStep(ss: seq<map<int, Share>>, numClasses: nat, k: nat)
    requires ValidShareSeq(ss, numClasses) && k < |ss|
    ensures ValidShareSeq(ss[..k], numClasses) && ValidShareSeq(ss[..k + 1], numClasses)
    ensures Accumulate(ss[..k + 1], numClasses) == AddSample(Accumulate(ss[..k], numClasses), numClasses, ss[k])
  {
    assert ss[..k + 1][..k] == ss[..k];
  }

  /** Per class, the sum of the easy ground truths of all samples and the
      concatenation, in sample order, of their scores and match values. */
  function TotalPositives(ss: seq<map<int, Share>>, numClasses: nat, c: int): int
    requires ValidShareSeq(ss, numClasses) && 1 <= c <= numClasses
  {
    if |ss| == 0 then 0
    else
      var k := |ss| - 1;
      assert ValidShareSeq(ss[..k], numClasses);
      TotalPositives(ss[..k], numClasses, c) + ss[k][c].positives
  }

  function AllScores(ss: seq<map<int, Share>>, numClasses: nat, c: int): seq<real>
    requires ValidShareSeq(ss, numClasses) && 1 <= c <= numClasses
  {
    if |ss| == 0 then []
    else
      var k := |ss| - 1;
      assert ValidShareSeq(ss[..k], numClasses);
      AllScores(ss[..k], numClasses, c) + ss[k][c].scores
  }

  function AllMatches(ss: seq<map<int, Share>>, numClasses: nat, c: int): (m: seq<int>)
    requires ValidShareSeq(ss, numClasses) && 1 <= c <= numClasses
    ensures |m| == |AllScores(ss, numClasses, c)|
  {
    if |ss| == 0 then []
    else
      var k := |ss| - 1;
      assert ValidShareSeq(ss[..k], numClasses);
      AllMatches(ss[..k], numClasses, c) + ss[k][c].values
  }

  /** The accumulated dictionaries hold, per class, exactly those totals. */
  lemma {:induction false} AccumulateEntries(ss: seq<map<int, Share>>, numClasses: nat, c: int)
    requires ValidShareSeq(ss, numClasses) && 1 <= c <= numClasses
    ensures var st := Accumulate(ss, numClasses);
      st.numPositives[c] == TotalPositives(ss, numClasses, c) &&
      st.score[c] == AllScores(ss, numClasses, c) &&
      st.matches[c] == AllMatches(ss, numClasses, c)
  {
    if |ss| > 0 {
      var k := |ss| - 1;
      assert ValidShareSeq(ss[..k], numClasses);
      AccumulateEntries(ss[..k], numClasses, c);
      AddSampleAt(Accumulate(ss[..k], numClasses), numClasses, ss[k], c);
    }
  }

  /** Accumulated positives are counts and every class has one match value
      per score. */
  lemma {:induction false} AccumulatedAligned(ss: seq<map<int, Share>>, numClasses: nat, c: int)
    requires ValidShareSeq(ss, numClasses) && 1 <= c <= numClasses
    ensures TotalPositives(ss, numClasses, c) >= 0
    ensures |AllMatches(ss, numClasses, c)| == |AllScores(ss, numClasses, c)|
  {
    if |ss| > 0 {
      var k := |ss| - 1;
      assert ValidShareSeq(ss[..k], numClasses);
      AccumulatedAligned(ss[..k], numClasses, c);
    }
  }

  /** The accumulators compute_matches fills, one sample at a time. */
  class Accumulator {
    const numClasses: nat
    var numPositives: map<int, int>
    var score: map<int, seq<real>>
    var matches: map<int, seq<int>>

    function State(): Stats
      reads this
    {
      Stats(numPositives, score, matches)
    }

    ghost predicate Valid()
      reads this
    {
      ValidStats(State(), numClasses) && ExactKeys(State(), numClasses)
    }

    constructor (numClasses: nat)
      ensures Valid() && this.numClasses == numClasses && State() == Initial(numClasses)
    {
      this.numClasses := numClasses;
      numPositives := map c | c in ClassRange(numClasses) :: 0;
      score := map c | c in ClassRange(numClasses) :: [];
      matches := map c | c in ClassRange(numClasses) :: [];
    }

    /** The body of compute_matches for one class of one sample: that
        class's predictions (highest score first) and ground truth, the
        easy count, the scores, and one match value per prediction. */
    method AccumulateClass(s: Sample, classArg: int, iouThreshold: real)
      requires Valid() && ValidSample(s, numClasses) && 1 <= classArg <= numClasses
      modifies this
      ensures Valid()
      ensures State() == AddClass(old(State()), numClasses, classArg, ClassShare(s, numClasses, classArg, iouThreshold))
    {
      var predicted := PredictionsMaskByClass(classArg, s.predictions.classArgs, s.predictions.boxes,
                                              s.predictions.scores);
      var truths := GroundTruthMaskByClass(classArg, s.truthClasses, s.truthBoxes, SampleDifficulties(s));
      ClassUnionsDefined(s, numClasses, classArg);
      var values := MatchValues(predicted.boxes, truths.boxes, truths.difficulties, iouThreshold);
      var sh := Share(CountEasy(truths.difficulties), predicted.scores, values);
      assert sh == ClassShare(s, numClasses, classArg, iouThreshold);
      Extend(classArg, sh);
    }

    /** Adds one class step's positives, scores and match values. */
    method Extend(classArg: int, sh: Share)
      requires Valid() && 1 <= classArg <= numClasses && |sh.values| == |sh.scores|
      modifies this
      ensures Valid() && State() == AddClass(old(State()), numClasses, classArg, sh)
    {
      numPositives := numPositives[classArg := numPositives[classArg] + sh.positives];
      score := score[classArg := score[classArg] + sh.scores];
      matches := matches[classArg := matches[classArg] + sh.values];
      assert State() == AddClass(old(State()), numClasses, classArg, sh);
    }

    /** One sample: the class step for every distinct class among the
        predicted and ground-truth class arguments. */
    method AccumulateSample(s: Sample, iouThreshold: real)
      requires Valid() && ValidSample(s, numClasses)
      modifies this
      ensures Valid() && State() == AddSample(old(State()), numClasses, Shares(s, numClasses, iouThreshold))
    {
      var classArgs := Unique(s.predictions.classArgs + s.truthClasses);
      ghost var shares := Shares(s, numClasses, iouThreshold);
      SampleClasses(s, numClasses, iouThreshold);
      for k := 0 to |classArgs|
        invariant Valid() && InClassRange(classArgs[..k], numClasses)
        invariant State() == AddClasses(old(State()), numClasses, shares, classArgs[..k])
      {
        ghost var before := State();
        AccumulateClass(s, classArgs[k], iouThreshold);
        AddClassesStep(old(State()), numClasses, shares, classArgs, k);
        assert State() == AddClass(before, numClasses, classArgs[k], shares[classArgs[k]]);
      }
      assert classArgs[..|classArgs|] == classArgs;
      AddClassesCover(old(State()), numClasses, shares, classArgs);
    }
  }

  /** compute_matches with the detector's output supplied per sample: the
      positives, scores and match values of every class, accumulated over
      the samples in order. */
  method ComputeMatches(samples: seq<Sample>, numClasses: nat, iouThreshold: real)
    returns (numPositives: map<int, int>, score: map<int, seq<real>>, matches: map<int, seq<int>>)
    requires ValidSamples(samples, numClasses)
    ensures numPositives.Keys == score.Keys == matches.Keys == ClassRange(numClasses)
    ensures forall c :: 1 <= c <= numClasses ==>
      numPositives[c] == TotalPositives(SampleShares(samples, numClasses, iouThreshold), numClasses, c) &&
      score[c] == AllScores(SampleShares(samples, numClasses, iouThreshold), numClasses, c) &&
      matches[c] == AllMatches(SampleShares(samples, numClasses, iouThreshold), numClasses, c)
  {
    ghost var ss := SampleShares(samples, numClasses, iouThreshold);
    var acc := new Accumulator(numClasses);
    for k := 0 to |samples|
      invariant acc.Valid() && acc.numClasses == numClasses && ValidShareSeq(ss[..k], numClasses)
      invariant acc.State() == Accumulate(ss[..k], numClasses)
    {
      acc.AccumulateSample(samples[k], iouThreshold);
      AccumulateStep(ss, numClasses, k);
    }
    assert ss[..|samples|] == ss;
    numPositives, score, matches := acc.numPositives, acc.score, acc.matches;
    forall c | 1 <= c <= numClasses
      ensures numPositives[c] == TotalPositives(ss, numClasses, c) && score[c] == AllScores(ss, numClasses, c) &&
        matches[c] == AllMatches(ss, numClasses, c)
    {
      AccumulateEntries(ss, numClasses, c);
    }
  }
}
