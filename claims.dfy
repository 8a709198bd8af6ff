/** The true-positive / false-positive / ignored decision of the VOC
    evaluation (paz/evaluation/detection.py: get_match_value and the claim
    loop of compute_matches, lines 179-184). */
module Claims {

  /** get_match_value's pair (is_selected, match_value). */
  datatype MatchResult = MatchResult(isSelected: bool, value: int)

  /** get_match_value: no match (index -1) gives (False, 0); a difficult
      ground truth gives (True, -1); otherwise (True, 1) when the ground
      truth is still unclaimed and (True, 0) when it is already claimed. */
  function GetMatchValue(selected: seq<bool>, groundTruthArg: int, difficulties: seq<bool>): (r: MatchResult)
    requires 0 <= groundTruthArg ==> groundTruthArg < |difficulties| && groundTruthArg < |selected|
    ensures -1 <= r.value <= 1
    ensures r.isSelected <==> 0 <= groundTruthArg
    ensures r.value == -1 <==> 0 <= groundTruthArg && difficulties[groundTruthArg]
    ensures r.value == 1 <==> 0 <= groundTruthArg && !difficulties[groundTruthArg] && !selected[groundTruthArg]
  {
    if groundTruthArg >= 0 then
      if difficulties[groundTruthArg] then MatchResult(true, -1)
      else if !selected[groundTruthArg] then MatchResult(true, 1)
      else MatchResult(true, 0)
    else MatchResult(false, 0)
  }

  /** The ground-truth indices a class step can produce: argmax results, or
      -1 for a prediction without a match. */
  predicate ValidArgs(groundTruthArgs: seq<int>, n: nat)
  {
    forall i :: 0 <= i < |groundTruthArgs| ==> -1 <= groundTruthArgs[i] < n
  }

  /** selected[ground_truth_arg] = is_selected: NumPy reads -1 as the last slot. */
  function SlotWritten(groundTruthArg: int, n: nat): (k: nat)
    requires n > 0 && -1 <= groundTruthArg < n
    ensures k < n
  {
    if groundTruthArg < 0 then n - 1 else groundTruthArg
  }

  /** The selected flags after the loop has handled the given indices, as written. */
  function ClaimState(groundTruthArgs: seq<int>, difficulties: seq<bool>): (s: seq<bool>)
    requires |difficulties| > 0 && ValidArgs(groundTruthArgs, |difficulties|)
    ensures |s| == |difficulties|
  {
    if |groundTruthArgs| == 0 then seq(|difficulties|, _ => false)
    else
      var k := |groundTruthArgs| - 1;
      var s := ClaimState(groundTruthArgs[..k], difficulties);
      var r := GetMatchValue(s, groundTruthArgs[k], difficulties);
      s[SlotWritten(groundTruthArgs[k], |difficulties|) := r.isSelected]
  }

  /** The match values the loop appends, one per index, as written. */
  function ClaimValues(groundTruthArgs: seq<int>, difficulties: seq<bool>): (v: seq<int>)
    requires |difficulties| > 0 && ValidArgs(groundTruthArgs, |difficulties|)
    ensures |v| == |groundTruthArgs|
    ensures forall i :: 0 <= i < |v| ==> -1 <= v[i] <= 1
  {
    if |groundTruthArgs| == 0 then []
    else
      var k := |groundTruthArgs| - 1;
      ClaimValues(groundTruthArgs[..k], difficulties) +
        [GetMatchValue(ClaimState(groundTruthArgs[..k], difficulties), groundTruthArgs[k], difficulties).value]
  }

  /** Entry k of the values is get_match_value on the flags left by the
      first k indices. */
  lemma {:induction false} ClaimValuesAt(groundTruthArgs: seq<int>, difficulties: seq<bool>, k: nat)
    requires |difficulties| > 0 && ValidArgs(groundTruthArgs, |difficulties|) && k < |groundTruthArgs|
    ensures ClaimValues(groundTruthArgs, difficulties)[k] ==
      GetMatchValue(ClaimState(groundTruthArgs[..k], difficulties), groundTruthArgs[k], difficulties).value
  {
    var n := |groundTruthArgs| - 1;
    assert groundTruthArgs[..n][..k] == groundTruthArgs[..k];
    if k < n {
      ClaimValuesAt(groundTruthArgs[..n], difficulties, k);
    }
  }

  /** A prediction scores 1 exactly when its ground truth is easy and not yet
      claimed; afterwards that ground truth is claimed. A prediction without a
      match clears the LAST ground truth's flag. */
  lemma ClaimStep(groundTruthArgs: seq<int>, difficulties: seq<bool>, k: nat)
    requires |difficulties| > 0 && ValidArgs(groundTruthArgs, |difficulties|) && k < |groundTruthArgs|
    ensures var g, before := groundTruthArgs[k], ClaimState(groundTruthArgs[..k], difficulties);
      var after := ClaimState(groundTruthArgs[..k + 1], difficulties);
      (ClaimValues(groundTruthArgs, difficulties)[k] == 1 <==> 0 <= g && !difficulties[g] && !before[g]) &&
      (0 <= g ==> after == before[g := true]) &&
      (g < 0 ==> after == before[|difficulties| - 1 := false])
  {
    ClaimValuesAt(groundTruthArgs, difficulties, k);
    assert groundTruthArgs[..k + 1][..k] == groundTruthArgs[..k];
  }

  /** The claim loop with the write skipped for a prediction without a match. */
  function ClaimStateFixed(groundTruthArgs: seq<int>, difficulties: seq<bool>): (s: seq<bool>)
    requires ValidArgs(groundTruthArgs, |difficulties|)
    ensures |s| == |difficulties|
  {
    if |groundTruthArgs| == 0 then seq(|difficulties|, _ => false)
    else
      var k := |groundTruthArgs| - 1;
      var s := ClaimStateFixed(groundTruthArgs[..k], difficulties);
      if groundTruthArgs[k] < 0 then s else s[groundTruthArgs[k] := true]
  }

  function ClaimValuesFixed(groundTruthArgs: seq<int>, difficulties: seq<bool>): (v: seq<int>)
    requires ValidArgs(groundTruthArgs, |difficulties|)
    ensures |v| == |groundTruthArgs|
    ensures forall i :: 0 <= i < |v| ==> -1 <= v[i] <= 1
  {
    if |groundTruthArgs| == 0 then []
    else
      var k := |groundTruthArgs| - 1;
      ClaimValuesFixed(groundTruthArgs[..k], difficulties) +
        [GetMatchValue(ClaimStateFixed(groundTruthArgs[..k], difficulties), groundTruthArgs[k], difficulties).value]
  }

  lemma {:induction false} ClaimValuesFixedAt(groundTruthArgs: seq<int>, difficulties: seq<bool>, k: nat)
    requires ValidArgs(groundTruthArgs, |difficulties|) && k < |groundTruthArgs|
    ensures ClaimValuesFixed(groundTruthArgs, difficulties)[k] ==
      GetMatchValue(ClaimStateFixed(groundTruthArgs[..k], difficulties), groundTruthArgs[k], difficulties).value
  {
    var n := |groundTruthArgs| - 1;
    assert groundTruthArgs[..n][..k] == groundTruthArgs[..k];
    if k < n {
      ClaimValuesFixedAt(groundTruthArgs[..n], difficulties, k);
    }
  }

  /** Without the stray write a claimed flag stays set. */
  lemma {:induction false} ClaimStateFixedMonotone(groundTruthArgs: seq<int>, difficulties: seq<bool>,
                                                   i: nat, j: nat, g: nat)
    requires ValidArgs(groundTruthArgs, |difficulties|) && i <= j <= |groundTruthArgs| && g < |difficulties|
    requires ClaimStateFixed(groundTruthArgs[..i], difficulties)[g]
    ensures ClaimStateFixed(groundTruthArgs[..j], difficulties)[g]
  {
    if i < j {
      ClaimStateFixedMonotone(groundTruthArgs, difficulties, i, j - 1, g);
      assert groundTruthArgs[..j][..j - 1] == groundTruthArgs[..j - 1];
    }
  }

  /** With the fix every ground truth yields at most one true positive. */
  lemma AtMostOneTruePositiveFixed(groundTruthArgs: seq<int>, difficulties: seq<bool>, i: nat, j: nat)
    requires ValidArgs(groundTruthArgs, |difficulties|) && i < j < |groundTruthArgs|
    requires ClaimValuesFixed(groundTruthArgs, difficulties)[i] == 1
    ensures ClaimValuesFixed(groundTruthArgs, difficulties)[j] == 1 ==> groundTruthArgs[i] != groundTruthArgs[j]
  {
    ClaimValuesFixedAt(groundTruthArgs, difficulties, i);
    ClaimValuesFixedAt(groundTruthArgs, difficulties, j);
    var g := groundTruthArgs[i];
    assert groundTruthArgs[..i + 1][..i] == groundTruthArgs[..i];
    assert ClaimStateFixed(groundTruthArgs[..i + 1], difficulties)[g];
    ClaimStateFixedMonotone(groundTruthArgs, difficulties, i + 1, j, g);
  }

  /** As written, a flag other than the last one also stays set. */
  lemma {:induction false} ClaimStateMonotoneBelowLast(groundTruthArgs: seq<int>, difficulties: seq<bool>,
                                                       i: nat, j: nat, g: nat)
    requires |difficulties| > 0 && ValidArgs(groundTruthArgs, |difficulties|)
    requires i <= j <= |groundTruthArgs| && g < |difficulties| - 1
    requires ClaimState(groundTruthArgs[..i], difficulties)[g]
    ensures ClaimState(groundTruthArgs[..j], difficulties)[g]
  {
    if i < j {
      ClaimStateMonotoneBelowLast(groundTruthArgs, difficulties, i, j - 1, g);
      assert groundTruthArgs[..j][..j - 1] == groundTruthArgs[..j - 1];
    }
  }

  /** As written, every ground truth but the last yields at most one true positive. */
  lemma AtMostOneTruePositiveBelowLast(groundTruthArgs: seq<int>, difficulties: seq<bool>, i: nat, j: nat)
    requires |difficulties| > 0 && ValidArgs(groundTruthArgs, |difficulties|) && i < j < |groundTruthArgs|
    requires ClaimValues(groundTruthArgs, difficulties)[i] == 1 && groundTruthArgs[i] < |difficulties| - 1
    ensures ClaimValues(groundTruthArgs, difficulties)[j] == 1 ==> groundTruthArgs[i] != groundTruthArgs[j]
  {
    ClaimStep(groundTruthArgs, difficulties, i);
    ClaimStep(groundTruthArgs, difficulties, j);
    var g := groundTruthArgs[i];
    ClaimStateMonotoneBelowLast(groundTruthArgs, difficulties, i + 1, j, g);
  }

  /** One easy ground truth; the first prediction matches it, the second
      matches nothing, the third matches it again. As written the stray write
      clears the only flag and the third prediction is a second true positive;
      with the fix it is a false positive. */
  lemma ClaimDoubleCountExample()
    ensures ClaimValues([0, -1, 0], [false]) == [1, 0, 1]
    ensures ClaimValuesFixed([0, -1, 0], [false]) == [1, 0, 0]
  {
    var a := [0, -1, 0];
    assert a[..2] == [0, -1] && a[..2][..1] == [0] && a[..1][..0] == [];
    assert ClaimState([], [false]) == [false];
    assert ClaimState([0], [false]) == [true];
    assert ClaimState([0, -1], [false]) == [false];
    assert ClaimValues([0], [false]) == [1];
    assert ClaimValues([0, -1], [false]) == [1, 0];
    assert ClaimStateFixed([], [false]) == [false];
    assert ClaimStateFixed([0], [false]) == [true];
    assert ClaimStateFixed([0, -1], [false]) == [true];
    assert ClaimValuesFixed([0], [false]) == [1];
    assert ClaimValuesFixed([0, -1], [false]) == [1, 0];
  }
}
