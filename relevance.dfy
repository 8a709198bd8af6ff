/** Precision and recall per class (paz/evaluation/detection.py:189-212):
    the match values of a class are ranked by descending score, counted
    cumulatively, and divided. NumPy's division 0/0 is NaN; here it is None. */
module Relevance {
  import opened Wrappers
  import opened Sorting

  /** Unzipping distributes over concatenation. */
  lemma ItemsAppend<T>(a: seq<Scored<T>>, b: seq<Scored<T>>)
    ensures Items(a + b) == Items(a) + Items(b)
  {
  }

  /** Inserting a pair adds its item to the items. */
  lemma {:induction false} ItemsInsert<T>(x: Scored<T>, s: seq<Scored<T>>)
    requires SortedDesc(s)
    ensures multiset(Items(Insert(x, s))) == multiset(Items(s)) + multiset{x.item}
    decreases |s|
  {
    if |s| == 0 {
      assert Items([x]) == [x.item];
    } else if x.score >= s[0].score {
      ItemsAppend([x], s);
      assert Items([x]) == [x.item];
    } else {
      var t := Insert(x, s[1..]);
      assert SortedDesc(s[1..]);
      ItemsInsert(x, s[1..]);
      assert s == [s[0]] + s[1..];
      ItemsAppend([s[0]], t);
      ItemsAppend([s[0]], s[1..]);
      assert Items([s[0]]) == [s[0].item];
    }
  }

  lemma ItemsCons<T>(s: seq<Scored<T>>)
    requires |s| > 0
    ensures multiset(Items(s)) == multiset{s[0].item} + multiset(Items(s[1..]))
  {
    assert Items(s) == [s[0].item] + Items(s[1..]);
  }

  /** Sorting pairs re-orders their items and nothing more. */
  lemma {:induction false} ItemsSortDesc<T>(s: seq<Scored<T>>)
    ensures multiset(Items(SortDesc(s))) == multiset(Items(s))
  {
    if |s| > 0 {
      var tail := SortDesc(s[1..]);
      ItemsSortDesc(s[1..]);
      ItemsInsert(s[0], tail);
      assert SortDesc(s) == Insert(s[0], tail);
      ItemsCons(s);
    }
  }

  /** The match values re-ordered by non-increasing score of their
      predictions: `matches[order]` with `order = scores.argsort()[::-1]`. */
  function Ranked(scores: seq<real>, matches: seq<int>): (r: seq<int>)
    requires |scores| == |matches|
    ensures |r| == |matches|
  {
    Items(SortDesc(Zip(matches, scores)))
  }

  /** Ranking re-orders the match values and nothing more. */
  lemma RankedPermutes(scores: seq<real>, matches: seq<int>)
    requires |scores| == |matches|
    ensures multiset(Ranked(scores, matches)) == multiset(matches)
  {
    ItemsSortDesc(Zip(matches, scores));
    ItemsScoresOfZip(matches, scores);
  }

  /** Ranking pairs each match value with its own prediction's score, best first. */
  lemma RankedOrder(scores: seq<real>, matches: seq<int>)
    requires |scores| == |matches|
    ensures var z := SortDesc(Zip(matches, scores));
      SortedDesc(z) && multiset(z) == multiset(Zip(matches, scores)) &&
      Items(z) == Ranked(scores, matches)
  {
  }

  /** The number of entries of ms equal to v. */
  function Count(ms: seq<int>, v: int): (n: nat)
    ensures n <= |ms|
  {
    if |ms| == 0 then 0
    else
      var k := |ms| - 1;
      Count(ms[..k], v) + (if ms[k] == v then 1 else 0)
  }

  /** Count is the multiplicity of v, so it does not depend on the order. */
  lemma {:induction false} CountMultiplicity(ms: seq<int>, v: int)
    ensures Count(ms, v) == multiset(ms)[v]
  {
    if |ms| > 0 {
      var k := |ms| - 1;
      CountMultiplicity(ms[..k], v);
      assert ms == ms[..k] + [ms[k]];
      assert multiset(ms) == multiset(ms[..k]) + multiset{ms[k]};
    }
  }

  /** np.cumsum(ms == v): entry i counts the entries equal to v among the first i + 1. */
  function CumulativeCount(ms: seq<int>, v: int): (c: seq<nat>)
    ensures |c| == |ms|
    ensures forall i :: 0 <= i < |c| ==> c[i] == Count(ms[..i + 1], v)
  {
    seq(|ms|, i requires 0 <= i < |ms| => Count(ms[..i + 1], v))
  }

  /** Running counts start at the first entry's indicator, grow by exactly
      the indicator of each later entry, and end at the multiplicity of v. */
  lemma CumulativeCountSteps(ms: seq<int>, v: int)
    ensures var c := CumulativeCount(ms, v);
      (forall i :: 0 <= i < |c| ==> c[i] <= i + 1) &&
      (|ms| > 0 ==> c[0] == if ms[0] == v then 1 else 0) &&
      (forall i :: 0 < i < |c| ==> c[i] == c[i - 1] + (if ms[i] == v then 1 else 0)) &&
      (|ms| > 0 ==> c[|ms| - 1] == multiset(ms)[v])
  {
    var c := CumulativeCount(ms, v);
    if |ms| > 0 {
      assert ms[..1][..0] == [];
    }
    forall i | 0 < i < |c|
      ensures c[i] == c[i - 1] + (if ms[i] == v then 1 else 0)
    {
      assert ms[..i + 1][..i] == ms[..i];
    }
    if |ms| > 0 {
      assert ms[..|ms|] == ms;
      CountMultiplicity(ms, v);
    }
  }

  /** True positives, false positives and ignored entries together never
      outnumber the entries. */
  lemma {:induction false} CountsBelowLength(ms: seq<int>)
    ensures Count(ms, 1) + Count(ms, 0) + Count(ms, -1) <= |ms|
  {
    if |ms| > 0 {
      CountsBelowLength(ms[..|ms| - 1]);
    }
  }

  /** At rank i the true and false positives together are at most i + 1:
      an ignored (-1) entry counts in neither. */
  lemma CumulativeCountsJoint(ms: seq<int>)
    ensures forall i :: 0 <= i < |ms| ==> CumulativeCount(ms, 1)[i] + CumulativeCount(ms, 0)[i] <= i + 1
  {
    forall i | 0 <= i < |ms|
      ensures CumulativeCount(ms, 1)[i] + CumulativeCount(ms, 0)[i] <= i + 1
    {
      CountsBelowLength(ms[..i + 1]);
    }
  }

  /** a / (a + b), None when both are 0: NumPy's 0/0 is NaN. */
  function Ratio(a: nat, b: nat): (p: Option<real>)
    ensures p.None? <==> a + b == 0
    ensures p.Some? ==> 0.0 <= p.value <= 1.0
    ensures p.Some? && a == 0 ==> p.value == 0.0
    ensures p.Some? && b == 0 ==> p.value == 1.0
  {
    if a + b == 0 then None
    else
      var total := (a + b) as real;
      assert a as real / total <= total / total;
      Some(a as real / total)
  }

  /** The defined ratio times the total gives back the true positives. */
  lemma RatioTimesTotal(a: nat, b: nat)
    requires a + b > 0
    ensures Ratio(a, b).value * (a + b) as real == a as real
  {
  }

  /** true_positives / (false_positives + true_positives), entry by entry. */
  function Precision(truePositives: seq<nat>, falsePositives: seq<nat>): (p: seq<Option<real>>)
    requires |truePositives| == |falsePositives|
    ensures |p| == |truePositives|
    ensures forall i :: 0 <= i < |p| ==> p[i] == Ratio(truePositives[i], falsePositives[i])
  {
    seq(|truePositives|, i requires 0 <= i < |truePositives| => Ratio(truePositives[i], falsePositives[i]))
  }

  /** a / n for a positive count n: non-negative, and at most 1 when a
      does not exceed n. */
  function Fraction(a: nat, n: int): (r: real)
    requires n > 0
    ensures 0.0 <= r
    ensures a <= n ==> r <= 1.0
  {
    assert a <= n ==> a as real / n as real <= n as real / n as real;
    a as real / n as real
  }

  /** Larger counts give larger fractions. */
  lemma FractionMonotone(a: nat, b: nat, n: int)
    requires n > 0 && a <= b
    ensures Fraction(a, n) <= Fraction(b, n)
  {
    var inv := 1.0 / n as real;
    assert a as real / n as real == a as real * inv;
    assert b as real / n as real == b as real * inv;
    assert (b as real - a as real) * inv >= 0.0;
  }

  /** true_positives / num_positives, entry by entry. */
  function Recall(truePositives: seq<nat>, numPositives: int): (r: seq<real>)
    requires numPositives > 0
    ensures |r| == |truePositives|
    ensures forall i :: 0 <= i < |r| ==> r[i] == Fraction(truePositives[i], numPositives)
  {
    seq(|truePositives|, i requires 0 <= i < |truePositives| => Fraction(truePositives[i], numPositives))
  }

  /** One class: precision over the ranked matches, and recall when the
      class has easy ground truths. */
  function ClassPrecision(scores: seq<real>, matches: seq<int>): (p: seq<Option<real>>)
    requires |scores| == |matches|
    ensures |p| == |matches|
  {
    var ranked := Ranked(scores, matches);
    Precision(CumulativeCount(ranked, 1), CumulativeCount(ranked, 0))
  }

  function ClassRecall(numPositives: int, scores: seq<real>, matches: seq<int>): (r: Option<seq<real>>)
    requires |scores| == |matches|
    ensures r.Some? <==> numPositives > 0
    ensures r.Some? ==> |r.value| == |matches|
  {
    if numPositives > 0 then Some(Recall(CumulativeCount(Ranked(scores, matches), 1), numPositives)) else None
  }

  /** Recall never decreases along the ranking. */
  lemma ClassRecallMonotone(numPositives: int, scores: seq<real>, matches: seq<int>)
    requires |scores| == |matches| && numPositives > 0
    ensures var r := ClassRecall(numPositives, scores, matches).value;
      forall i :: 0 < i < |r| ==> r[i - 1] <= r[i]
  {
    var ranked := Ranked(scores, matches);
    var tp := CumulativeCount(ranked, 1);
    CumulativeCountSteps(ranked, 1);
    forall i | 0 < i < |tp|
      ensures Fraction(tp[i - 1], numPositives) <= Fraction(tp[i], numPositives)
    {
      FractionMonotone(tp[i - 1], tp[i], numPositives);
    }
  }

  /** The last recall entry counts every true positive of the class,
      whatever the order of equal scores. */
  lemma ClassRecallComplete(numPositives: int, scores: seq<real>, matches: seq<int>)
    requires |scores| == |matches| && numPositives > 0 && |matches| > 0
    ensures var r := ClassRecall(numPositives, scores, matches).value;
      r[|r| - 1] == Fraction(multiset(matches)[1], numPositives)
  {
    var ranked := Ranked(scores, matches);
    var tp := CumulativeCount(ranked, 1);
    CumulativeCountSteps(ranked, 1);
    RankedPermutes(scores, matches);
    var last := tp[|tp| - 1];
    assert last == multiset(matches)[1];
  }

  /** Precision is defined at every rank whose prediction is judged (not -1). */
  lemma PrecisionDefinedAfterJudged(scores: seq<real>, matches: seq<int>, i: nat)
    requires |scores| == |matches| && i < |matches|
    requires Ranked(scores, matches)[i] != -1
    requires forall k :: 0 <= k < |matches| ==> -1 <= matches[k] <= 1
    ensures ClassPrecision(scores, matches)[i].Some?
  {
    var ranked := Ranked(scores, matches);
    RankedPermutes(scores, matches);
    assert ranked[i] in multiset(matches);
    var prefix := ranked[..i + 1];
    assert prefix == prefix[..i] + [ranked[i]];
    CountMultiplicity(prefix, 1);
    CountMultiplicity(prefix, 0);
    assert multiset(prefix) == multiset(prefix[..i]) + multiset{ranked[i]};
  }

  /** An ignored prediction (-1, a difficult ground truth) changes neither
      curve: precision and recall at its rank are those of the rank before. */
  lemma IgnoredKeepsCurves(numPositives: int, scores: seq<real>, matches: seq<int>, i: nat)
    requires |scores| == |matches| && 0 < i < |matches|
    requires Ranked(scores, matches)[i] == -1
    ensures ClassPrecision(scores, matches)[i] == ClassPrecision(scores, matches)[i - 1]
    ensures numPositives > 0 ==>
      ClassRecall(numPositives, scores, matches).value[i] == ClassRecall(numPositives, scores, matches).value[i - 1]
  {
    var ranked := Ranked(scores, matches);
    CumulativeCountSteps(ranked, 1);
    CumulativeCountSteps(ranked, 0);
  }

  /** An order `argsort()[::-1]` may produce: the (match, score) pairs by
      non-increasing score, a permutation of the input. NumPy's sort is not
      stable, so equal scores may come in any order. */
  predicate IsRanking(z: seq<Scored<int>>, scores: seq<real>, matches: seq<int>)
    requires |scores| == |matches|
  {
    SortedDesc(z) && multiset(z) == multiset(Zip(matches, scores))
  }

  /** Taking out entry j takes out its item. */
  lemma ItemsRemove<T>(b: seq<Scored<T>>, j: nat)
    requires j < |b|
    ensures multiset(Items(b)) == multiset{b[j].item} + multiset(Items(b[..j] + b[j + 1..]))
  {
    var l, r := b[..j], b[j + 1..];
    assert b == l + ([b[j]] + r);
    ItemsAppend(l, [b[j]] + r);
    ItemsAppend([b[j]], r);
    ItemsAppend(l, r);
    assert Items([b[j]]) == [b[j].item];
  }

  /** Taking out entry j takes it out of the multiset. */
  lemma MultisetRemove<T>(b: seq<T>, j: nat)
    requires j < |b|
    ensures multiset(b[..j] + b[j + 1..]) == multiset(b) - multiset{b[j]}
  {
    assert b == b[..j] + [b[j]] + b[j + 1..];
  }

  /** Re-ordering pairs re-orders their items. */
  lemma {:induction false} ItemsPermutation<T>(a: seq<Scored<T>>, b: seq<Scored<T>>)
    requires multiset(a) == multiset(b)
    ensures multiset(Items(a)) == multiset(Items(b))
    decreases |a|
  {
    if |a| > 0 {
      assert a[0] in multiset(b);
      var j :| 0 <= j < |b| && b[j] == a[0];
      MultisetRemove(b, j);
      MultisetRemove(a, 0);
      assert a[..0] + a[1..] == a[1..];
      ItemsPermutation(a[1..], b[..j] + b[j + 1..]);
      ItemsCons(a);
      ItemsRemove(b, j);
    }
  }

  /** Whatever order the ties take, the final counts are those of the class:
      every ranking ends with the same true and false positives. */
  lemma RankingFinalCounts(z: seq<Scored<int>>, scores: seq<real>, matches: seq<int>, v: int)
    requires |scores| == |matches| && |matches| > 0 && IsRanking(z, scores, matches)
    ensures var c := CumulativeCount(Items(z), v);
      |c| == |matches| && c[|c| - 1] == multiset(matches)[v]
  {
    ItemsScoresOfZip(matches, scores);
    ItemsPermutation(z, Zip(matches, scores));
    assert |multiset(z)| == |multiset(Zip(matches, scores))|;
    CumulativeCountSteps(Items(z), v);
  }

  /** Scores [0.5, 0.5] with matches [1, 0]: both orders of the tie are rankings. */
  lemma TieOrderRankings()
    ensures IsRanking([Scored(1, 0.5), Scored(0, 0.5)], [0.5, 0.5], [1, 0])
    ensures IsRanking([Scored(0, 0.5), Scored(1, 0.5)], [0.5, 0.5], [1, 0])
  {
    assert Zip([1, 0], [0.5, 0.5]) == [Scored(1, 0.5), Scored(0, 0.5)];
  }

  /** The model's sort keeps the earlier of two tied entries first. */
  lemma TieRanked()
    ensures Ranked([0.5, 0.5], [1, 0]) == [1, 0]
  {
    var z := Zip([1, 0], [0.5, 0.5]);
    assert z == [Scored(1, 0.5), Scored(0, 0.5)];
    assert SortDesc(z[1..]) == [Scored(0, 0.5)];
    assert SortDesc(z) == z;
  }

  /** Precision over two ranked match values, each 0 or 1. */
  lemma TwoEntryPrecision(ms: seq<int>)
    requires |ms| == 2 && ms[0] in {0, 1}
    ensures Precision(CumulativeCount(ms, 1), CumulativeCount(ms, 0)) ==
      [Some(if ms[0] == 1 then 1.0 else 0.0),
       Ratio(Count(ms, 1), Count(ms, 0))]
  {
    CumulativeCountSteps(ms, 1);
    CumulativeCountSteps(ms, 0);
    assert ms[..2] == ms;
  }

  /** The tie of TieOrderRankings: the model's ranking gives precision
      [1, 0.5], the other order gives [0, 0.5]. */
  lemma TieOrderExample()
    ensures ClassPrecision([0.5, 0.5], [1, 0]) == [Some(1.0), Some(0.5)]
    ensures Precision(CumulativeCount([0, 1], 1), CumulativeCount([0, 1], 0)) == [Some(0.0), Some(0.5)]
  {
    TieRanked();
    TwoEntryPrecision([1, 0]);
    TwoEntryPrecision([0, 1]);
    assert [1, 0][..1] == [1] && [0, 1][..1] == [0];
    assert [1][..0] == [] && [0][..0] == [];
  }

  /** calculate_relevance_metrics over dictionaries keyed 1..num_classes:
      lists of num_classes + 1 entries, entry 0 (background) left None. */
  method CalculateRelevanceMetrics(numPositives: map<int, int>, scores: map<int, seq<real>>,
                                   matches: map<int, seq<int>>, numClasses: nat)
    returns (precision: seq<Option<seq<Option<real>>>>, recall: seq<Option<seq<real>>>)
    requires numClasses >= 1
    requires forall c :: c in numPositives <==> 1 <= c <= numClasses
    requires forall c :: 1 <= c <= numClasses ==> c in scores && c in matches && |scores[c]| == |matches[c]|
    ensures |precision| == |recall| == numClasses + 1
    ensures precision[0].None? && recall[0].None?
    ensures forall c :: 1 <= c <= numClasses ==>
      precision[c] == Some(ClassPrecision(scores[c], matches[c])) &&
      recall[c] == ClassRecall(numPositives[c], scores[c], matches[c])
  {
    precision, recall := seq(numClasses + 1, _ => None), seq(numClasses + 1, _ => None);
    for c := 1 to numClasses + 1
      invariant |precision| == |recall| == numClasses + 1
      invariant precision[0].None? && recall[0].None?
      invariant forall d :: 1 <= d < c ==>
        precision[d] == Some(ClassPrecision(scores[d], matches[d])) &&
        recall[d] == ClassRecall(numPositives[d], scores[d], matches[d])
      invariant forall d :: c <= d <= numClasses ==> precision[d].None? && recall[d].None?
    {
      precision := precision[c := Some(ClassPrecision(scores[c], matches[c]))];
      if numPositives[c] > 0 {
        recall := recall[c := ClassRecall(numPositives[c], scores[c], matches[c])];
      }
    }
  }
}
