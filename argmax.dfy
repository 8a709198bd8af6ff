/** NumPy's argmax and max along one axis, and reversed_argmax
    (paz/core/backend/boxes.py:144-155). */
module Reductions {

  /** numpy.argmax on a non-empty vector: the FIRST index of the maximum. */
  function Argmax(s: seq<real>): (k: nat)
    requires |s| > 0
    ensures k < |s|
    ensures forall j :: 0 <= j < |s| ==> s[j] <= s[k]
    ensures forall j :: 0 <= j < k ==> s[j] < s[k]
  {
    if |s| == 1 then 0
    else
      var k := Argmax(s[..|s| - 1]);
      assert forall j :: 0 <= j < |s| - 1 ==> s[..|s| - 1][j] == s[j];
      if s[|s| - 1] > s[k] then |s| - 1 else k
  }

  /** numpy.max on a non-empty vector. */
  function MaxValue(s: seq<real>): real
    requires |s| > 0
  {
    s[Argmax(s)]
  }

  function Reverse(s: seq<real>): (r: seq<real>)
  {
    seq(|s|, i requires 0 <= i < |s| => s[|s| - 1 - i])
  }

  /** reversed_argmax: argmax of the flipped vector, mapped back. */
  function ReversedArgmax(s: seq<real>): (k: nat)
    requires |s| > 0
    ensures k < |s|
    ensures forall j :: 0 <= j < |s| ==> s[j] <= s[k]
    ensures forall j :: k < j < |s| ==> s[j] < s[k]
  {
    var f := Reverse(s);
    var a := Argmax(f);
    assert forall j :: 0 <= j < |s| ==> s[j] == f[|s| - 1 - j];
    |s| - a - 1
  }

  /** Both argmax variants pick a maximum; when the maximum is attained only
      once they agree. */
  lemma ReversedArgmaxUniqueMax(s: seq<real>)
    requires |s| > 0
    requires forall i, j :: 0 <= i < |s| && 0 <= j < |s| && s[i] == MaxValue(s) && s[j] == MaxValue(s) ==> i == j
    ensures ReversedArgmax(s) == Argmax(s)
  {
  }

  /** When every entry ties, reversed_argmax returns the last index. */
  lemma ReversedArgmaxAllEqual(s: seq<real>)
    requires |s| > 0
    requires forall j :: 0 <= j < |s| ==> s[j] == s[0]
    ensures ReversedArgmax(s) == |s| - 1
  {
    var k := ReversedArgmax(s);
    assert s[|s| - 1] == s[k];
  }

  /** Column j of a matrix given as a sequence of rows. */
  function Column(m: seq<seq<real>>, j: nat): (c: seq<real>)
    requires forall i :: 0 <= i < |m| ==> j < |m[i]|
  {
    seq(|m|, i requires 0 <= i < |m| => m[i][j])
  }
}
