/** Average precision of one class from its precision and recall curves,
    by the two PASCAL VOC rules (paz/evaluation/detection.py:215-283), and
    the mean over the classes whose average precision is defined (NumPy's
    nanmean, detection.py:311). NaN is None throughout. */
module AveragePrecision {
  import opened Wrappers
  import opened Geometry

  /** np.nan_to_num on a precision curve: an undefined entry counts as 0. */
  function NanToNum(p: seq<Option<real>>): (q: seq<real>)
    ensures |q| == |p|
    ensures forall i :: 0 <= i < |p| ==> q[i] == (if p[i].Some? then p[i].value else 0.0)
  {
    seq(|p|, i requires 0 <= i < |p| => if p[i].Some? then p[i].value else 0.0)
  }

  /** Every defined precision entry lies in [0, 1]. */
  predicate UnitPrecision(p: seq<Option<real>>)
  {
    forall i :: 0 <= i < |p| ==> p[i].Some? ==> 0.0 <= p[i].value <= 1.0
  }

  predicate UnitValues(s: seq<real>)
  {
    forall i :: 0 <= i < |s| ==> 0.0 <= s[i] <= 1.0
  }

  lemma NanToNumUnit(p: seq<Option<real>>)
    requires UnitPrecision(p)
    ensures UnitValues(NanToNum(p))
  {
  }

  // ---------------------------------------------------------------------
  // Eleven-point interpolation (VOC 2007)
  // ---------------------------------------------------------------------

  /** np.max(precision[recall >= t]): the largest precision among the
      entries whose recall reaches t, None when no entry does. */
  function MaxAbove(p: seq<real>, r: seq<real>, t: real): (m: Option<real>)
    requires |p| == |r|
    ensures m.None? <==> forall i :: 0 <= i < |r| ==> r[i] < t
    ensures m.Some? ==> exists i :: 0 <= i < |r| && t <= r[i] && p[i] == m.value
    ensures m.Some? ==> forall i :: 0 <= i < |r| && t <= r[i] ==> p[i] <= m.value
  {
    if |p| == 0 then None
    else
      var k := |p| - 1;
      var m := MaxAbove(p[..k], r[..k], t);
      assert forall i :: 0 <= i < k ==> p[..k][i] == p[i] && r[..k][i] == r[i];
      if r[k] < t then m
      else if m.None? || m.value < p[k] then Some(p[k])
      else m
  }

  /** The interpolated precision at recall level t: 0 when no entry reaches t. */
  function Interpolated(p: seq<real>, r: seq<real>, t: real): (v: real)
    requires |p| == |r|
    ensures UnitValues(p) ==> 0.0 <= v <= 1.0
    ensures (forall i :: 0 <= i < |r| ==> r[i] < t) ==> v == 0.0
  {
    var m := MaxAbove(p, r, t);
    if m.None? then 0.0 else m.value
  }

  /** The k-th entry of np.arange(0., 1.1, 0.1), taken as the exact k / 10. */
  function Threshold(k: nat): real
  {
    k as real / 10.0
  }

  /** The first k terms of the eleven-point sum, each divided by 11. */
  function ElevenPointSum(p: seq<real>, r: seq<real>, k: nat): real
    requires |p| == |r| && k <= 11
  {
    if k == 0 then 0.0
    else ElevenPointSum(p, r, k - 1) + Interpolated(p, r, Threshold(k - 1)) / 11.0
  }

  function ElevenPointAP(p: seq<real>, r: seq<real>): real
    requires |p| == |r|
  {
    ElevenPointSum(p, r, 11)
  }

  lemma {:induction false} ElevenPointSumBounds(p: seq<real>, r: seq<real>, k: nat)
    requires |p| == |r| && k <= 11 && UnitValues(p)
    ensures 0.0 <= ElevenPointSum(p, r, k) <= k as real / 11.0
  {
    if k > 0 {
      ElevenPointSumBounds(p, r, k - 1);
    }
  }

  /** With precisions in [0, 1] the eleven-point average precision is in [0, 1]. */
  lemma ElevenPointBounds(p: seq<real>, r: seq<real>)
    requires |p| == |r| && UnitValues(p)
    ensures 0.0 <= ElevenPointAP(p, r) <= 1.0
  {
    ElevenPointSumBounds(p, r, 11);
  }

  lemma {:induction false} ElevenPointSumPerfect(p: seq<real>, r: seq<real>, k: nat)
    requires |p| == |r| && k <= 11
    requires forall i :: 0 <= i < |p| ==> p[i] == 1.0
    requires exists i :: 0 <= i < |r| && 1.0 <= r[i]
    ensures ElevenPointSum(p, r, k) == k as real / 11.0
  {
    if k > 0 {
      ElevenPointSumPerfect(p, r, k - 1);
      var i :| 0 <= i < |r| && 1.0 <= r[i];
      assert Threshold(k - 1) <= r[i];
      var m := MaxAbove(p, r, Threshold(k - 1));
      assert m.Some?;
    }
  }

  /** A detector whose precision is 1 throughout and whose recall reaches 1
      scores 1. */
  lemma ElevenPointPerfect(p: seq<real>, r: seq<real>)
    requires |p| == |r|
    requires forall i :: 0 <= i < |p| ==> p[i] == 1.0
    requires exists i :: 0 <= i < |r| && 1.0 <= r[i]
    ensures ElevenPointAP(p, r) == 1.0
  {
    ElevenPointSumPerfect(p, r, 11);
  }

  /** The loop over the eleven recall levels for one class. */
  method ElevenPointClass(p: seq<real>, r: seq<real>) returns (ap: real)
    requires |p| == |r|
    ensures ap == ElevenPointAP(p, r)
  {
    ap := 0.0;
    for k := 0 to 11
      invariant ap == ElevenPointSum(p, r, k)
    {
      var m := MaxAbove(p, r, Threshold(k));
      var interpolation := if m.None? then 0.0 else m.value;
      ap := ap + interpolation / 11.0;
    }
  }

  /** Curves of the same length for every class where both are defined. */
  predicate AlignedCurves(precision: seq<Option<seq<Option<real>>>>, recall: seq<Option<seq<real>>>)
  {
    |precision| <= |recall| &&
    forall c :: 0 <= c < |precision| ==> precision[c].Some? && recall[c].Some? ==>
      |precision[c].value| == |recall[c].value|
  }

  /** calculate_average_precisions_eleven_point_interpolation: NaN for a
      class without precision or without recall, otherwise the sum over the
      eleven recall levels of the interpolated precision divided by 11. */
  method ElevenPointInterpolation(precision: seq<Option<seq<Option<real>>>>, recall: seq<Option<seq<real>>>)
    returns (averagePrecisions: seq<Option<real>>)
    requires AlignedCurves(precision, recall)
    ensures |averagePrecisions| == |precision|
    ensures forall c :: 0 <= c < |precision| ==>
      averagePrecisions[c] ==
        if precision[c].Some? && recall[c].Some?
        then Some(ElevenPointAP(NanToNum(precision[c].value), recall[c].value))
        else None
  {
    var aps := new Option<real>[|precision|](_ => None);
    for c := 0 to |precision|
      invariant forall d :: 0 <= d < c ==>
        aps[d] ==
          if precision[d].Some? && recall[d].Some?
          then Some(ElevenPointAP(NanToNum(precision[d].value), recall[d].value))
          else None
    {
      if precision[c].None? || recall[c].None? {
        aps[c] := None;
      } else {
        var ap := ElevenPointClass(NanToNum(precision[c].value), recall[c].value);
        aps[c] := Some(ap);
      }
    }
    averagePrecisions := aps[..];
  }

  // ---------------------------------------------------------------------
  // Every-point interpolation (VOC 2010 and later)
  // ---------------------------------------------------------------------

  /** The largest entry of a non-empty sequence. */
  function MaxOf(s: seq<real>): (m: real)
    requires |s| > 0
    ensures forall j :: 0 <= j < |s| ==> s[j] <= m
    ensures m in s
  {
    if |s| == 1 then s[0]
    else
      var t := MaxOf(s[1..]);
      assert forall j :: 1 <= j < |s| ==> s[j] == s[1..][j - 1];
      if t <= s[0] then s[0] else t
  }

  /** np.maximum.accumulate(s[::-1])[::-1]: entry i is the largest of s[i..]. */
  function SuffixMax(s: seq<real>): (e: seq<real>)
    ensures |e| == |s|
  {
    seq(|s|, i requires 0 <= i < |s| => MaxOf(s[i..]))
  }

  /** Entry i of the envelope bounds every later entry and is one of them. */
  lemma SuffixMaxIsEnvelope(s: seq<real>)
    ensures var e := SuffixMax(s);
      (forall i, j :: 0 <= i <= j < |s| ==> s[j] <= e[i]) &&
      (forall i :: 0 <= i < |s| ==> e[i] in s[i..])
  {
    assert forall i, j :: 0 <= i <= j < |s| ==> s[j] == s[i..][j - i];
  }

  /** The envelope never increases: the precision NumPy integrates is
      monotone in recall. */
  lemma SuffixMaxNonIncreasing(s: seq<real>)
    ensures var e := SuffixMax(s);
      forall i, j :: 0 <= i <= j < |s| ==> e[j] <= e[i]
  {
    var e := SuffixMax(s);
    SuffixMaxIsEnvelope(s);
    forall i, j | 0 <= i <= j < |s|
      ensures e[j] <= e[i]
    {
      var k :| 0 <= k < |s[j..]| && s[j..][k] == e[j];
      assert s[j + k] == e[j];
    }
  }

  /** The curves with their sentinels: precision 0 at both ends, recall 0
      before and 1 after. */
  function PaddedPrecision(p: seq<Option<real>>): (q: seq<real>)
    ensures |q| == |p| + 2
  {
    [0.0] + NanToNum(p) + [0.0]
  }

  function PaddedRecall(r: seq<real>): (q: seq<real>)
    ensures |q| == |r| + 2
  {
    [0.0] + r + [1.0]
  }

  /** Step i of the area: the recall gained from entry i to entry i + 1
      times the envelope at i + 1. */
  function Steps(mrec: seq<real>, env: seq<real>): (d: seq<real>)
    requires |env| == |mrec| > 0
    ensures |d| == |mrec| - 1
  {
    seq(|mrec| - 1, i requires 0 <= i < |mrec| - 1 => (mrec[i + 1] - mrec[i]) * env[i + 1])
  }

  /** A step where recall stays put is 0. */
  lemma StillSteps(mrec: seq<real>, env: seq<real>)
    requires |env| == |mrec| > 0
    ensures var d := Steps(mrec, env);
      forall i :: 0 <= i < |d| && mrec[i + 1] == mrec[i] ==> d[i] == 0.0
  {
  }

  /** The sum of the first k steps. */
  function Total(d: seq<real>, k: nat): real
    requires k <= |d|
  {
    if k == 0 then 0.0 else Total(d, k - 1) + d[k - 1]
  }

  /** np.where(mrec[1:] != mrec[:-1])[0], restricted to indices below k. */
  function ChangeArgs(mrec: seq<real>, k: nat): (args: seq<nat>)
    requires k < |mrec|
    ensures forall j :: 0 <= j < |args| ==> args[j] < k && mrec[args[j] + 1] != mrec[args[j]]
  {
    if k == 0 then []
    else ChangeArgs(mrec, k - 1) + (if mrec[k] != mrec[k - 1] then [k - 1] else [])
  }

  /** The change indices are listed in increasing order, and every index
      below k where recall changes is among them. */
  lemma {:induction false} ChangeArgsComplete(mrec: seq<real>, k: nat)
    requires k < |mrec|
    ensures var args := ChangeArgs(mrec, k);
      (forall i :: 0 <= i < k && mrec[i + 1] != mrec[i] ==> i in args) &&
      (forall j1, j2 :: 0 <= j1 < j2 < |args| ==> args[j1] < args[j2])
  {
    if k > 0 {
      ChangeArgsComplete(mrec, k - 1);
      var before := ChangeArgs(mrec, k - 1);
      if mrec[k] != mrec[k - 1] {
        assert ChangeArgs(mrec, k) == before + [k - 1];
      } else {
        assert ChangeArgs(mrec, k) == before;
      }
    }
  }

  /** np.sum(d[args]). */
  function SumOver(args: seq<nat>, d: seq<real>): real
    requires forall j :: 0 <= j < |args| ==> args[j] < |d|
  {
    if |args| == 0 then 0.0
    else
      var n := |args| - 1;
      SumOver(args[..n], d) + d[args[n]]
  }

  lemma SumOverAppend(args: seq<nat>, i: nat, d: seq<real>)
    requires forall j :: 0 <= j < |args| ==> args[j] < |d|
    requires i < |d|
    ensures SumOver(args + [i], d) == SumOver(args, d) + d[i]
  {
    assert (args + [i])[..|args|] == args;
  }

  /** Summing the steps where recall changes is summing every step, when the
      others are 0. */
  lemma {:induction false} ChangeSumIsTotal(mrec: seq<real>, d: seq<real>, k: nat)
    requires |d| == |mrec| - 1 && k <= |d|
    requires forall i :: 0 <= i < |d| && mrec[i + 1] == mrec[i] ==> d[i] == 0.0
    ensures SumOver(ChangeArgs(mrec, k), d) == Total(d, k)
  {
    if k > 0 {
      ChangeSumIsTotal(mrec, d, k - 1);
      var before, args := ChangeArgs(mrec, k - 1), ChangeArgs(mrec, k);
      if mrec[k] != mrec[k - 1] {
        assert args == before + [k - 1];
        SumOverAppend(before, k - 1, d);
      } else {
        assert args == before;
        assert d[k - 1] == 0.0;
      }
      assert Total(d, k) == Total(d, k - 1) + d[k - 1];
    }
  }

  /** calculate_average_precisions_every_point_interpolation for one class. */
  function EveryPointAP(p: seq<Option<real>>, r: seq<real>): real
    requires |p| == |r|
  {
    var mpre, mrec := PaddedPrecision(p), PaddedRecall(r);
    SumOver(ChangeArgs(mrec, |mrec| - 1), Steps(mrec, SuffixMax(mpre)))
  }

  /** The every-point average precision is the area under the precision
      envelope over the padded recall curve: the sum of all its steps. */
  lemma EveryPointIsArea(p: seq<Option<real>>, r: seq<real>)
    requires |p| == |r|
    ensures var mrec := PaddedRecall(r);
      var d := Steps(mrec, SuffixMax(PaddedPrecision(p)));
      EveryPointAP(p, r) == Total(d, |d|)
  {
    var mrec := PaddedRecall(r);
    var env := SuffixMax(PaddedPrecision(p));
    StillSteps(mrec, env);
    ChangeSumIsTotal(mrec, Steps(mrec, env), |mrec| - 1);
  }

  /** With the envelope in [0, 1], a non-decreasing step gains at most its
      recall increase. */
  lemma StepsBounds(mrec: seq<real>, env: seq<real>)
    requires |env| == |mrec| > 0 && UnitValues(env)
    requires forall i :: 0 < i < |mrec| ==> mrec[i - 1] <= mrec[i]
    ensures var d := Steps(mrec, env);
      forall i :: 0 <= i < |d| ==> 0.0 <= d[i] <= mrec[i + 1] - mrec[i]
  {
    var d := Steps(mrec, env);
    forall i | 0 <= i < |d|
      ensures 0.0 <= d[i] <= mrec[i + 1] - mrec[i]
    {
      var gain := mrec[i + 1] - mrec[i];
      MulLeMul(gain, env[i + 1], gain, 1.0);
      MulLeMul(0.0, 0.0, gain, env[i + 1]);
    }
  }

  /** Steps between 0 and the recall gain sum to at most the total gain. */
  lemma {:induction false} TotalBounds(mrec: seq<real>, d: seq<real>, k: nat)
    requires |d| == |mrec| - 1 && k <= |d|
    requires forall i :: 0 <= i < |d| ==> 0.0 <= d[i] <= mrec[i + 1] - mrec[i]
    ensures 0.0 <= Total(d, k) <= mrec[k] - mrec[0]
  {
    if k > 0 {
      TotalBounds(mrec, d, k - 1);
    }
  }

  /** With precisions in [0, 1] and a non-decreasing recall curve in [0, 1]
      the every-point average precision is in [0, 1]. */
  lemma EveryPointBounds(p: seq<Option<real>>, r: seq<real>)
    requires |p| == |r| && UnitPrecision(p) && UnitValues(r)
    requires forall i :: 0 < i < |r| ==> r[i - 1] <= r[i]
    ensures 0.0 <= EveryPointAP(p, r) <= 1.0
  {
    var mpre, mrec := PaddedPrecision(p), PaddedRecall(r);
    var env := SuffixMax(mpre);
    EnvelopeUnit(p);
    assert forall i :: 1 <= i <= |r| ==> mrec[i] == r[i - 1];
    StepsBounds(mrec, env);
    var d := Steps(mrec, env);
    TotalBounds(mrec, d, |d|);
    EveryPointIsArea(p, r);
  }

  /** The envelope of a precision curve in [0, 1] stays in [0, 1]. */
  lemma EnvelopeUnit(p: seq<Option<real>>)
    requires UnitPrecision(p)
    ensures UnitValues(SuffixMax(PaddedPrecision(p)))
  {
    var mpre := PaddedPrecision(p);
    var env := SuffixMax(mpre);
    SuffixMaxIsEnvelope(mpre);
    NanToNumUnit(p);
    assert UnitValues(mpre) by {
      assert forall i :: 1 <= i <= |p| ==> mpre[i] == NanToNum(p)[i - 1];
    }
    forall i | 0 <= i < |env|
      ensures 0.0 <= env[i] <= 1.0
    {
      var j :| 0 <= j < |mpre[i..]| && env[i] == mpre[i..][j];
      assert mpre[i..][j] == mpre[i + j];
    }
  }

  /** While the steps equal the recall gains the total telescopes. */
  lemma {:induction false} TelescopeTotal(mrec: seq<real>, d: seq<real>, k: nat)
    requires |d| == |mrec| - 1 && k <= |d|
    requires forall i :: 0 <= i < k ==> d[i] == mrec[i + 1] - mrec[i]
    ensures Total(d, k) == mrec[k] - mrec[0]
  {
    if k > 0 {
      TelescopeTotal(mrec, d, k - 1);
    }
  }

  /** For a precision curve of ones the envelope is 1 up to the last real
      entry and 0 at the closing sentinel. */
  lemma PerfectEnvelope(p: seq<Option<real>>)
    requires |p| > 0
    requires forall i :: 0 <= i < |p| ==> p[i] == Some(1.0)
    ensures var env := SuffixMax(PaddedPrecision(p));
      (forall j :: 0 <= j <= |p| ==> env[j] == 1.0) && env[|p| + 1] == 0.0
  {
    var n := |p|;
    var mpre := PaddedPrecision(p);
    var env := SuffixMax(mpre);
    EnvelopeUnit(p);
    SuffixMaxIsEnvelope(mpre);
    assert mpre[n] == NanToNum(p)[n - 1] == 1.0;
    assert forall j :: 0 <= j <= n ==> mpre[n] <= env[j];
    assert mpre[n + 1..] == [0.0];
  }

  /** A detector whose every precision entry is 1 earns its final recall. */
  lemma EveryPointPerfectPrecision(p: seq<Option<real>>, r: seq<real>)
    requires |p| == |r| && |r| > 0
    requires forall i :: 0 <= i < |p| ==> p[i] == Some(1.0)
    ensures EveryPointAP(p, r) == r[|r| - 1]
  {
    var n := |r|;
    var mrec := PaddedRecall(r);
    var env := SuffixMax(PaddedPrecision(p));
    PerfectEnvelope(p);
    var d := Steps(mrec, env);
    assert d[n] == 0.0 by {
      assert d[n] == (mrec[n + 1] - mrec[n]) * 0.0;
    }
    assert forall i :: 0 <= i < n ==> d[i] == (mrec[i + 1] - mrec[i]) * 1.0;
    TelescopeTotal(mrec, d, n);
    assert mrec[n] == r[n - 1];
    EveryPointIsArea(p, r);
  }

  /** The every-point value of one class, NaN when a curve is missing. */
  function EveryPointCurve(p: Option<seq<Option<real>>>, r: Option<seq<real>>): Option<real>
    requires p.Some? && r.Some? ==> |p.value| == |r.value|
  {
    if p.Some? && r.Some? then Some(EveryPointAP(p.value, r.value)) else None
  }

  /** One class: NaN without precision or recall, otherwise the sentinels,
      the envelope, the recall changes and the sum. */
  method EveryPointClass(p: Option<seq<Option<real>>>, r: Option<seq<real>>) returns (ap: Option<real>)
    requires p.Some? && r.Some? ==> |p.value| == |r.value|
    ensures ap == EveryPointCurve(p, r)
  {
    if p.None? || r.None? {
      return None;
    }
    var mpre, mrec := PaddedPrecision(p.value), PaddedRecall(r.value);
    var envelope := SuffixMax(mpre);
    var changes := ChangeArgs(mrec, |mrec| - 1);
    ap := Some(SumOver(changes, Steps(mrec, envelope)));
  }

  /** calculate_average_precisions_every_point_interpolation: NaN for a
      class without precision or without recall, otherwise the area under
      the precision envelope summed over the points where recall changes. */
  method EveryPointInterpolation(precision: seq<Option<seq<Option<real>>>>, recall: seq<Option<seq<real>>>)
    returns (averagePrecisions: seq<Option<real>>)
    requires AlignedCurves(precision, recall)
    ensures |averagePrecisions| == |precision|
    ensures forall c :: 0 <= c < |precision| ==>
      averagePrecisions[c] ==
        if precision[c].Some? && recall[c].Some?
        then Some(EveryPointAP(precision[c].value, recall[c].value))
        else None
  {
    var aps := new Option<real>[|precision|](_ => None);
    for c := 0 to |precision|
      invariant forall d :: 0 <= d < c ==> aps[d] == EveryPointCurve(precision[d], recall[d])
    {
      aps[c] := EveryPointClass(precision[c], recall[c]);
    }
    averagePrecisions := aps[..];
  }

  /** The average precision of one class by the rule the flag selects,
      NaN when either curve is missing. */
  function CurveAP(use07Metric: bool, p: Option<seq<Option<real>>>, r: Option<seq<real>>): (ap: Option<real>)
    requires p.Some? && r.Some? ==> |p.value| == |r.value|
    ensures ap.Some? <==> p.Some? && r.Some?
  {
    if p.Some? && r.Some? then
      Some(if use07Metric then ElevenPointAP(NanToNum(p.value), r.value) else EveryPointAP(p.value, r.value))
    else None
  }

  /** The use_07_metric switch of evaluateMAP. */
  method ApplyMetric(use07Metric: bool, precision: seq<Option<seq<Option<real>>>>, recall: seq<Option<seq<real>>>)
    returns (averagePrecisions: seq<Option<real>>)
    requires AlignedCurves(precision, recall)
    ensures |averagePrecisions| == |precision|
    ensures forall c :: 0 <= c < |precision| ==> averagePrecisions[c] == CurveAP(use07Metric, precision[c], recall[c])
  {
    if use07Metric {
      averagePrecisions := ElevenPointInterpolation(precision, recall);
    } else {
      averagePrecisions := EveryPointInterpolation(precision, recall);
    }
  }

  // ---------------------------------------------------------------------
  // Mean average precision
  // ---------------------------------------------------------------------

  function DefinedCount(aps: seq<Option<real>>): (n: nat)
    ensures n <= |aps|
    ensures n == 0 <==> forall i :: 0 <= i < |aps| ==> aps[i].None?
  {
    if |aps| == 0 then 0
    else
      var k := |aps| - 1;
      assert forall i :: 0 <= i < k ==> aps[..k][i] == aps[i];
      DefinedCount(aps[..k]) + (if aps[k].Some? then 1 else 0)
  }

  function DefinedSum(aps: seq<Option<real>>): real
  {
    if |aps| == 0 then 0.0
    else
      var k := |aps| - 1;
      DefinedSum(aps[..k]) + (if aps[k].Some? then aps[k].value else 0.0)
  }

  /** np.nanmean: the mean of the defined entries, NaN when there is none. */
  function NanMean(aps: seq<Option<real>>): (m: Option<real>)
    ensures m.None? <==> forall i :: 0 <= i < |aps| ==> aps[i].None?
    ensures m.Some? ==> m.value * DefinedCount(aps) as real == DefinedSum(aps)
  {
    var n := DefinedCount(aps);
    if n == 0 then None else Some(DefinedSum(aps) / n as real)
  }

  /** Entries in [0, 1] sum to at most their number. */
  lemma {:induction false} DefinedSumBounds(aps: seq<Option<real>>)
    requires forall i :: 0 <= i < |aps| ==> aps[i].Some? ==> 0.0 <= aps[i].value <= 1.0
    ensures 0.0 <= DefinedSum(aps) <= DefinedCount(aps) as real
  {
    if |aps| > 0 {
      var k := |aps| - 1;
      assert forall i :: 0 <= i < k ==> aps[..k][i] == aps[i];
      DefinedSumBounds(aps[..k]);
    }
  }

  /** From m * n == s with 0 <= s <= n to m in [0, 1]. */
  lemma UnitQuotient(m: real, n: real, s: real)
    requires n > 0.0 && m * n == s && 0.0 <= s <= n
    ensures 0.0 <= m <= 1.0
  {
  }

  /** The mean average precision lies in [0, 1] when every defined average
      precision does. */
  lemma NanMeanBounds(aps: seq<Option<real>>)
    requires forall i :: 0 <= i < |aps| ==> aps[i].Some? ==> 0.0 <= aps[i].value <= 1.0
    requires NanMean(aps).Some?
    ensures 0.0 <= NanMean(aps).value <= 1.0
  {
    DefinedSumBounds(aps);
    UnitQuotient(NanMean(aps).value, DefinedCount(aps) as real, DefinedSum(aps));
  }
}
