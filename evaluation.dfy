/** evaluateMAP (paz/evaluation/detection.py:286-311): the per-class
    dictionaries of compute_matches, turned into precision and recall curves,
    then into one average precision per class by the rule the flag selects,
    and averaged over the classes where it is defined. */
module Evaluation {
  import opened Wrappers
  import opened Accumulation
  import opened Relevance
  import opened AveragePrecision

  /** Every defined entry of a class's precision curve lies in [0, 1]. */
  lemma ClassPrecisionUnit(scores: seq<real>, matches: seq<int>)
    requires |scores| == |matches|
    ensures UnitPrecision(ClassPrecision(scores, matches))
  {
  }

  /** When the class has no more true positives than positives, its recall
      curve stays in [0, 1]. */
  lemma ClassRecallUnit(numPositives: int, scores: seq<real>, matches: seq<int>)
    requires |scores| == |matches| && numPositives > 0
    requires multiset(matches)[1] <= numPositives
    ensures UnitValues(ClassRecall(numPositives, scores, matches).value)
  {
    var ranked := Ranked(scores, matches);
    var tp := CumulativeCount(ranked, 1);
    CumulativeCountSteps(ranked, 1);
    RankedPermutes(scores, matches);
    forall i | 0 <= i < |tp|
      ensures tp[i] <= numPositives
    {
      CountBelowTotal(tp, i);
    }
  }

  /** A non-decreasing sequence stays below its last entry. */
  lemma {:induction false} CountBelowTotal(tp: seq<nat>, i: nat)
    requires i < |tp|
    requires forall k :: 0 < k < |tp| ==> tp[k - 1] <= tp[k]
    ensures tp[i] <= tp[|tp| - 1]
    decreases |tp| - i
  {
    if i < |tp| - 1 {
      CountBelowTotal(tp, i + 1);
    }
  }

  /** The eleven-point average precision of a class lies in [0, 1]. */
  lemma ClassElevenPointBounds(numPositives: int, scores: seq<real>, matches: seq<int>)
    requires |scores| == |matches| && numPositives > 0
    ensures 0.0 <= ElevenPointAP(NanToNum(ClassPrecision(scores, matches)),
                                 ClassRecall(numPositives, scores, matches).value) <= 1.0
  {
    var p := ClassPrecision(scores, matches);
    ClassPrecisionUnit(scores, matches);
    NanToNumUnit(p);
    ElevenPointBounds(NanToNum(p), ClassRecall(numPositives, scores, matches).value);
  }

  /** The every-point average precision of a class lies in [0, 1] when the
      class has no more true positives than positives. */
  lemma ClassEveryPointBounds(numPositives: int, scores: seq<real>, matches: seq<int>)
    requires |scores| == |matches| && numPositives > 0
    requires multiset(matches)[1] <= numPositives
    ensures 0.0 <= EveryPointAP(ClassPrecision(scores, matches),
                                ClassRecall(numPositives, scores, matches).value) <= 1.0
  {
    ClassPrecisionUnit(scores, matches);
    ClassRecallUnit(numPositives, scores, matches);
    ClassRecallMonotone(numPositives, scores, matches);
    EveryPointBounds(ClassPrecision(scores, matches), ClassRecall(numPositives, scores, matches).value);
  }

  /** The average precision of class c after the samples whose shares are
      ss: None (NaN) when the class has no easy ground truth. */
  function ClassAP(use07Metric: bool, ss: seq<map<int, Share>>, numClasses: nat, c: int): (ap: Option<real>)
    requires ValidShareSeq(ss, numClasses) && 1 <= c <= numClasses
    ensures ap.Some? <==> TotalPositives(ss, numClasses, c) > 0
    ensures use07Metric && ap.Some? ==> 0.0 <= ap.value <= 1.0
  {
    AccumulatedAligned(ss, numClasses, c);
    var positives, scores, matches :=
      TotalPositives(ss, numClasses, c), AllScores(ss, numClasses, c), AllMatches(ss, numClasses, c);
    if positives > 0 then
      ClassElevenPointBounds(positives, scores, matches);
      CurveAP(use07Metric, Some(ClassPrecision(scores, matches)), ClassRecall(positives, scores, matches))
    else None
  }

  /** The curves of class c after the samples whose shares are ss. */
  function PrecisionOf(ss: seq<map<int, Share>>, numClasses: nat, c: int): seq<Option<real>>
    requires ValidShareSeq(ss, numClasses) && 1 <= c <= numClasses
  {
    ClassPrecision(AllScores(ss, numClasses, c), AllMatches(ss, numClasses, c))
  }

  function RecallOf(ss: seq<map<int, Share>>, numClasses: nat, c: int): Option<seq<real>>
    requires ValidShareSeq(ss, numClasses) && 1 <= c <= numClasses
  {
    ClassRecall(TotalPositives(ss, numClasses, c), AllScores(ss, numClasses, c), AllMatches(ss, numClasses, c))
  }

  /** The precision and recall lists calculate_relevance_metrics returns
      for the dictionaries accumulated from ss: entry 0 None, entry c the
      curves of class c. */
  function PrecisionCurves(ss: seq<map<int, Share>>, numClasses: nat): (ps: seq<Option<seq<Option<real>>>>)
    requires ValidShareSeq(ss, numClasses)
    ensures |ps| == numClasses + 1 && ps[0].None?
    ensures forall c :: 1 <= c <= numClasses ==> ps[c] == Some(PrecisionOf(ss, numClasses, c))
  {
    seq(numClasses + 1, c requires 0 <= c <= numClasses => if c == 0 then None else Some(PrecisionOf(ss, numClasses, c)))
  }

  function RecallCurves(ss: seq<map<int, Share>>, numClasses: nat): (rs: seq<Option<seq<real>>>)
    requires ValidShareSeq(ss, numClasses)
    ensures |rs| == numClasses + 1 && rs[0].None?
    ensures forall c :: 1 <= c <= numClasses ==> rs[c] == RecallOf(ss, numClasses, c)
  {
    seq(numClasses + 1, c requires 0 <= c <= numClasses => if c == 0 then None else RecallOf(ss, numClasses, c))
  }

  /** Both curves of a class have one entry per prediction of the class. */
  lemma CurvesAligned(ss: seq<map<int, Share>>, numClasses: nat)
    requires ValidShareSeq(ss, numClasses)
    ensures AlignedCurves(PrecisionCurves(ss, numClasses), RecallCurves(ss, numClasses))
  {
    forall c | 1 <= c <= numClasses
      ensures |AllScores(ss, numClasses, c)| == |AllMatches(ss, numClasses, c)|
    {
      AccumulatedAligned(ss, numClasses, c);
    }
  }

  /** The metric applied to the curves of class c is the class's average precision. */
  lemma CurveAPIsClassAP(use07Metric: bool, ss: seq<map<int, Share>>, numClasses: nat, c: int)
    requires ValidShareSeq(ss, numClasses) && 1 <= c <= numClasses
    ensures CurveAP(use07Metric, PrecisionCurves(ss, numClasses)[c], RecallCurves(ss, numClasses)[c]) ==
      ClassAP(use07Metric, ss, numClasses, c)
  {
    CurvesAligned(ss, numClasses);
    AccumulatedAligned(ss, numClasses, c);
  }

  /** Lists built from dictionaries that hold the accumulated totals are
      the curves of those totals. */
  lemma CurvesOfDictionaries(ss: seq<map<int, Share>>, numClasses: nat, numPositives: map<int, int>,
                             score: map<int, seq<real>>, matches: map<int, seq<int>>,
                             precision: seq<Option<seq<Option<real>>>>, recall: seq<Option<seq<real>>>)
    requires ValidShareSeq(ss, numClasses)
    requires forall c :: 1 <= c <= numClasses ==>
      c in numPositives && c in score && c in matches &&
      numPositives[c] == TotalPositives(ss, numClasses, c) &&
      score[c] == AllScores(ss, numClasses, c) && matches[c] == AllMatches(ss, numClasses, c)
    requires |precision| == |recall| == numClasses + 1 && precision[0].None? && recall[0].None?
    requires forall c :: 1 <= c <= numClasses ==>
      |score[c]| == |matches[c]| &&
      precision[c] == Some(ClassPrecision(score[c], matches[c])) &&
      recall[c] == ClassRecall(numPositives[c], score[c], matches[c])
    ensures precision == PrecisionCurves(ss, numClasses) && recall == RecallCurves(ss, numClasses)
  {
    var ps, rs := PrecisionCurves(ss, numClasses), RecallCurves(ss, numClasses);
    assert forall c :: 0 <= c <= numClasses ==> precision[c] == ps[c];
    assert forall c :: 0 <= c <= numClasses ==> recall[c] == rs[c];
  }

  /** compute_matches followed by calculate_relevance_metrics. */
  method RelevanceOfSamples(samples: seq<Sample>, numClasses: nat, iouThreshold: real)
    returns (precision: seq<Option<seq<Option<real>>>>, recall: seq<Option<seq<real>>>)
    requires numClasses >= 1 && ValidSamples(samples, numClasses)
    ensures precision == PrecisionCurves(SampleShares(samples, numClasses, iouThreshold), numClasses)
    ensures recall == RecallCurves(SampleShares(samples, numClasses, iouThreshold), numClasses)
  {
    ghost var ss := SampleShares(samples, numClasses, iouThreshold);
    var numPositives, score, matches := ComputeMatches(samples, numClasses, iouThreshold);
    forall c | 1 <= c <= numClasses
      ensures |score[c]| == |matches[c]|
    {
      AccumulatedAligned(ss, numClasses, c);
    }
    precision, recall := CalculateRelevanceMetrics(numPositives, score, matches, numClasses);
    CurvesOfDictionaries(ss, numClasses, numPositives, score, matches, precision, recall);
  }

  /** The metric applied to the curves gives each class its average
      precision; with the eleven-point rule their mean lies in [0, 1]. */
  lemma MetricOfCurves(use07Metric: bool, ss: seq<map<int, Share>>, numClasses: nat, aps: seq<Option<real>>)
    requires ValidShareSeq(ss, numClasses)
    requires AlignedCurves(PrecisionCurves(ss, numClasses), RecallCurves(ss, numClasses))
    requires |aps| == numClasses + 1
    requires forall c :: 0 <= c <= numClasses ==>
      aps[c] == CurveAP(use07Metric, PrecisionCurves(ss, numClasses)[c], RecallCurves(ss, numClasses)[c])
    ensures aps[0].None?
    ensures forall c :: 1 <= c <= numClasses ==> aps[c] == ClassAP(use07Metric, ss, numClasses, c)
    ensures use07Metric && NanMean(aps).Some? ==> 0.0 <= NanMean(aps).value <= 1.0
  {
    forall c | 1 <= c <= numClasses
      ensures aps[c] == ClassAP(use07Metric, ss, numClasses, c)
    {
      CurveAPIsClassAP(use07Metric, ss, numClasses, c);
    }
    if use07Metric && NanMean(aps).Some? {
      NanMeanBounds(aps);
    }
  }

  /** evaluateMAP over the detector's outputs, given as samples: the list of
      average precisions (entry 0, the background, is NaN) and their
      NaN-ignoring mean. */
  method EvaluateMAP(samples: seq<Sample>, numClasses: nat, iouThreshold: real, use07Metric: bool)
    returns (averagePrecisions: seq<Option<real>>, meanAP: Option<real>)
    requires numClasses >= 1 && ValidSamples(samples, numClasses)
    ensures |averagePrecisions| == numClasses + 1 && averagePrecisions[0].None?
    ensures forall c :: 1 <= c <= numClasses ==>
      averagePrecisions[c] == ClassAP(use07Metric, SampleShares(samples, numClasses, iouThreshold), numClasses, c)
    ensures meanAP == NanMean(averagePrecisions)
    ensures use07Metric && meanAP.Some? ==> 0.0 <= meanAP.value <= 1.0
  {
    ghost var ss := SampleShares(samples, numClasses, iouThreshold);
    var precision, recall := RelevanceOfSamples(samples, numClasses, iouThreshold);
    CurvesAligned(ss, numClasses);
    averagePrecisions := ApplyMetric(use07Metric, precision, recall);
    MetricOfCurves(use07Metric, ss, numClasses, averagePrecisions);
    meanAP := NanMean(averagePrecisions);
  }
}
