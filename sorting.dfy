/** Descending order by score, standing in for NumPy's `argsort()[::-1]`.
    NumPy's default sort is not stable, so the source promises only that the
    result is ordered by non-increasing score and is a permutation of its
    input; the insertion sort below is one such order. */
module Sorting {

  /** An item carried along with the score it is sorted by. */
  datatype Scored<T> = Scored(item: T, score: real)

  predicate SortedDesc<T>(s: seq<Scored<T>>)
  {
    forall i, j :: 0 <= i < j < |s| ==> s[i].score >= s[j].score
  }

  function Insert<T(==)>(x: Scored<T>, s: seq<Scored<T>>): (r: seq<Scored<T>>)
    requires SortedDesc(s)
    ensures SortedDesc(r)
    ensures multiset(r) == multiset(s) + multiset{x}
    ensures |r| == |s| + 1
  {
    if |s| == 0 then [x]
    else if x.score >= s[0].score then
      ConsSorted(x, s);
      [x] + s
    else
      assert SortedDesc(s[1..]);
      var t := Insert(x, s[1..]);
      assert s == [s[0]] + s[1..];
      BelowHead(x, s, t);
      ConsSorted(s[0], t);
      [s[0]] + t
  }

  /** A head scoring at least every element keeps a sorted tail sorted. */
  lemma ConsSorted<T>(a: Scored<T>, t: seq<Scored<T>>)
    requires SortedDesc(t)
    requires |t| > 0 ==> t[0].score <= a.score
    ensures SortedDesc([a] + t)
  {
    var r := [a] + t;
    forall i, j | 0 <= i < j < |r|
      ensures r[i].score >= r[j].score
    {
      if i == 0 {
        assert r[j] == t[j - 1];
      } else {
        assert r[i] == t[i - 1] && r[j] == t[j - 1];
      }
    }
  }

  /** Every element of a permutation of s[1..] + [x] scores at most s[0]. */
  lemma BelowHead<T>(x: Scored<T>, s: seq<Scored<T>>, t: seq<Scored<T>>)
    requires |s| > 0 && SortedDesc(s) && x.score < s[0].score
    requires multiset(t) == multiset(s[1..]) + multiset{x}
    ensures forall i :: 0 <= i < |t| ==> t[i].score <= s[0].score
  {
    forall i | 0 <= i < |t|
      ensures t[i].score <= s[0].score
    {
      assert t[i] in multiset(t);
      if t[i] != x {
        assert t[i] in s[1..];
      }
    }
  }

  /** The items re-ordered by non-increasing score. */
  function SortDesc<T(==)>(s: seq<Scored<T>>): (r: seq<Scored<T>>)
    ensures SortedDesc(r)
    ensures multiset(r) == multiset(s)
    ensures |r| == |s|
  {
    if |s| == 0 then []
    else
      assert s == [s[0]] + s[1..];
      Insert(s[0], SortDesc(s[1..]))
  }

  /** Pairing two aligned sequences. */
  function Zip<T>(items: seq<T>, scores: seq<real>): (z: seq<Scored<T>>)
    requires |items| == |scores|
    ensures |z| == |items|
    ensures forall i :: 0 <= i < |z| ==> z[i].item == items[i] && z[i].score == scores[i]
  {
    seq(|items|, i requires 0 <= i < |items| => Scored(items[i], scores[i]))
  }

  function Items<T>(z: seq<Scored<T>>): (items: seq<T>)
    ensures |items| == |z|
    ensures forall i :: 0 <= i < |z| ==> items[i] == z[i].item
  {
    seq(|z|, i requires 0 <= i < |z| => z[i].item)
  }

  function Scores<T>(z: seq<Scored<T>>): (scores: seq<real>)
    ensures |scores| == |z|
    ensures forall i :: 0 <= i < |z| ==> scores[i] == z[i].score
  {
    seq(|z|, i requires 0 <= i < |z| => z[i].score)
  }

  /** Unzipping a zip gives the two sequences back. */
  lemma ItemsScoresOfZip<T>(items: seq<T>, scores: seq<real>)
    requires |items| == |scores|
    ensures Items(Zip(items, scores)) == items && Scores(Zip(items, scores)) == scores
  {
  }

  /** Already sorted input comes back unchanged. */
  lemma {:induction false} SortDescOfSorted<T>(s: seq<Scored<T>>)
    requires SortedDesc(s)
    ensures SortDesc(s) == s
  {
    if |s| > 0 {
      assert SortedDesc(s[1..]);
      SortDescOfSorted(s[1..]);
    }
  }
}
