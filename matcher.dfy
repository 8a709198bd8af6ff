/** Anchor matching (paz/core/backend/boxes.py: match). Every prior box is
    assigned one ground-truth row: the ground truth of highest IoU with it,
    unless the prior is the best prior of some ground truth, in which case
    the last such ground truth takes it and the sentinel IoU 2 protects its
    class from the threshold. */
module Matcher {
  import opened Wrappers
  import opened Geometry
  import opened Reductions

  /** A non-empty matrix of rows of one common, non-zero length. Rows are
      ground truths, columns are priors. */
  predicate Rectangular(m: seq<seq<real>>)
  {
    |m| > 0 && |m[0]| > 0 && forall g :: 0 <= g < |m| ==> |m[g]| == |m[0]|
  }

  /** The IoU matrix match computes: ground truths against priors in point form. */
  function IouMatrix(boxes: seq<Row>, priorBoxes: seq<CenterForm>): (m: seq<seq<real>>)
    requires NonzeroUnions(Boxes(boxes), PointForms(priorBoxes))
    ensures |m| == |boxes|
    ensures forall g :: 0 <= g < |m| ==> m[g] == ComputeIou(Boxes(boxes)[g], PointForms(priorBoxes))
  {
    seq(|boxes|, g requires 0 <= g < |boxes| => ComputeIou(Boxes(boxes)[g], PointForms(priorBoxes)))
  }

  lemma IouMatrixRectangular(boxes: seq<Row>, priorBoxes: seq<CenterForm>)
    requires |boxes| > 0 && |priorBoxes| > 0
    requires NonzeroUnions(Boxes(boxes), PointForms(priorBoxes))
    ensures Rectangular(IouMatrix(boxes, priorBoxes))
    ensures |IouMatrix(boxes, priorBoxes)[0]| == |priorBoxes|
  {
  }

  /** best_prior_box_arg_per_box[g]: the last prior of highest IoU with ground truth g. */
  function BestPrior(m: seq<seq<real>>, g: nat): (p: nat)
    requires Rectangular(m) && g < |m|
    ensures p < |m[0]|
  {
    ReversedArgmax(m[g])
  }

  /** Ground truth g's best prior has its highest IoU, and no later prior does. */
  lemma BestPriorIsLastMax(m: seq<seq<real>>, g: nat)
    requires Rectangular(m) && g < |m|
    ensures var p := BestPrior(m, g);
      (forall q :: 0 <= q < |m[0]| ==> m[g][q] <= m[g][p]) &&
      (forall q :: p < q < |m[0]| ==> m[g][q] < m[g][p])
  {
  }

  /** best_box_arg_per_prior_box[p] before the overwrite loop: the last
      ground truth of highest IoU with prior p. */
  function BestBox(m: seq<seq<real>>, p: nat): (g: nat)
    requires Rectangular(m) && p < |m[0]|
    ensures g < |m|
  {
    ReversedArgmax(Column(m, p))
  }

  /** best_box_iou_per_prior_box[p] before the sentinel write: the column maximum. */
  function BestIou(m: seq<seq<real>>, p: nat): real
    requires Rectangular(m) && p < |m[0]|
  {
    MaxValue(Column(m, p))
  }

  /** Prior p's best box has its highest IoU, no later ground truth does, and
      that IoU is the column maximum. */
  lemma BestBoxIsLastMax(m: seq<seq<real>>, p: nat)
    requires Rectangular(m) && p < |m[0]|
    ensures var g := BestBox(m, p);
      (forall k :: 0 <= k < |m| ==> m[k][p] <= m[g][p]) &&
      (forall k :: g < k < |m| ==> m[k][p] < m[g][p]) &&
      BestIou(m, p) == m[g][p]
  {
    var c := Column(m, p);
    assert forall k :: 0 <= k < |m| ==> c[k] == m[k][p];
    assert c[Argmax(c)] == m[Argmax(c)][p];
  }

  /** best_prior_box_arg_per_box: every ground truth's best prior. */
  function BestPriors(m: seq<seq<real>>): (bp: seq<nat>)
    requires Rectangular(m)
    ensures |bp| == |m|
    ensures forall g :: 0 <= g < |m| ==> bp[g] == BestPrior(m, g)
  {
    seq(|m|, g requires 0 <= g < |m| => BestPrior(m, g))
  }

  /** Among the first n entries of s, the last one equal to p. */
  function LastIndexOf(s: seq<nat>, p: nat, n: nat): (o: Option<nat>)
    requires n <= |s|
    ensures o.Some? ==> o.value < n
  {
    if n == 0 then None
    else if s[n - 1] == p then Some(n - 1)
    else LastIndexOf(s, p, n - 1)
  }

  /** The index found holds p and no later one among the first n does; there
      is none exactly when no entry among the first n is p. */
  lemma {:induction false} LastIndexIsLast(s: seq<nat>, p: nat, n: nat)
    requires n <= |s|
    ensures var o := LastIndexOf(s, p, n);
      (o.Some? ==> s[o.value] == p && forall k :: o.value < k < n ==> s[k] != p) &&
      (o.None? <==> forall k :: 0 <= k < n ==> s[k] != p)
  {
    if n > 0 && s[n - 1] != p {
      LastIndexIsLast(s, p, n - 1);
    }
  }

  /** Among the first n ground truths, the last one whose best prior is p. */
  function LastClaimant(m: seq<seq<real>>, p: nat, n: nat): (o: Option<nat>)
    requires Rectangular(m) && p < |m[0]| && n <= |m|
    ensures o.Some? ==> o.value < n
  {
    LastIndexOf(BestPriors(m), p, n)
  }

  /** The claimant found is a ground truth whose best prior is p and no
      later one has it; there is none exactly when no ground truth has it. */
  lemma LastClaimantIsLast(m: seq<seq<real>>, p: nat, n: nat)
    requires Rectangular(m) && p < |m[0]| && n <= |m|
    ensures var o := LastClaimant(m, p, n);
      (o.Some? ==> BestPrior(m, o.value) == p && forall k :: o.value < k < n ==> BestPrior(m, k) != p) &&
      (o.None? <==> forall k :: 0 <= k < n ==> BestPrior(m, k) != p)
  {
    LastIndexIsLast(BestPriors(m), p, n);
  }

  /** best_box_iou_per_prior_box[p] once the sentinel has been written for
      the first n ground truths. */
  function SentinelIou(m: seq<seq<real>>, p: nat, n: nat): real
    requires Rectangular(m) && p < |m[0]| && n <= |m|
  {
    if LastClaimant(m, p, n).Some? then 2.0 else BestIou(m, p)
  }

  /** best_box_arg_per_prior_box[p] once the overwrite loop has run over the
      first n ground truths. */
  function AssignedBox(m: seq<seq<real>>, p: nat, n: nat): (g: nat)
    requires Rectangular(m) && p < |m[0]| && n <= |m|
    ensures g < |m|
  {
    match LastClaimant(m, p, n)
    case Some(h) => h
    case None => BestBox(m, p)
  }

  /** A row with its class column (column 4) set to the background class 0. */
  function Background(r: Row): (b: Row)
    requires |r.rest| > 0
    ensures b.box == r.box && |b.rest| == |r.rest| && b.rest[0] == 0.0
    ensures forall i :: 1 <= i < |r.rest| ==> b.rest[i] == r.rest[i]
  {
    Row(r.box, r.rest[0 := 0.0])
  }

  predicate Labelled(boxes: seq<Row>)
  {
    forall g :: 0 <= g < |boxes| ==> |boxes[g].rest| > 0
  }

  /** The row match produces for prior p. */
  function MatchedRow(boxes: seq<Row>, m: seq<seq<real>>, p: nat, iouThreshold: real): Row
    requires Rectangular(m) && |boxes| == |m| && Labelled(boxes) && p < |m[0]|
  {
    var r := boxes[AssignedBox(m, p, |m|)];
    if SentinelIou(m, p, |m|) < iouThreshold then Background(r) else r
  }

  /** Handling ground truth g claims its best prior and leaves every other
      prior's claimant as it was. */
  lemma ClaimantStep(m: seq<seq<real>>, q: nat, g: nat)
    requires Rectangular(m) && q < |m[0]| && g < |m|
    ensures LastClaimant(m, q, g + 1) == if BestPrior(m, g) == q then Some(g) else LastClaimant(m, q, g)
  {
    assert BestPriors(m)[g] == BestPrior(m, g);
  }

  /** pz.max(ious, axis=0) and reversed_argmax(ious, 0): each prior's best
      IoU and the last ground truth attaining it. */
  method ColumnBests(ious: seq<seq<real>>) returns (bestIou: array<real>, bestBox: array<nat>)
    requires Rectangular(ious)
    ensures fresh(bestIou) && fresh(bestBox)
    ensures bestIou.Length == bestBox.Length == |ious[0]|
    ensures forall q :: 0 <= q < |ious[0]| ==> bestIou[q] == BestIou(ious, q) && bestBox[q] == BestBox(ious, q)
  {
    var np := |ious[0]|;
    bestIou := new real[np];
    bestBox := new nat[np];
    for p := 0 to np
      invariant forall q :: 0 <= q < p ==> bestIou[q] == BestIou(ious, q) && bestBox[q] == BestBox(ious, q)
    {
      bestIou[p] := BestIou(ious, p);
      bestBox[p] := BestBox(ious, p);
    }
  }

  /** best_box_iou_per_prior_box[best_prior_box_arg_per_box] = 2, one
      ground truth at a time. */
  method WriteSentinel(ious: seq<seq<real>>, bestPrior: seq<nat>, bestIou: array<real>)
    requires Rectangular(ious) && bestIou.Length == |ious[0]| && |bestPrior| == |ious|
    requires forall g :: 0 <= g < |ious| ==> bestPrior[g] == BestPrior(ious, g)
    requires forall q :: 0 <= q < bestIou.Length ==> bestIou[q] == BestIou(ious, q)
    modifies bestIou
    ensures forall q :: 0 <= q < bestIou.Length ==> bestIou[q] == SentinelIou(ious, q, |ious|)
  {
    for g := 0 to |ious|
      invariant forall q :: 0 <= q < bestIou.Length ==> bestIou[q] == SentinelIou(ious, q, g)
    {
      forall q | 0 <= q < |ious[0]|
        ensures LastClaimant(ious, q, g + 1) == if bestPrior[g] == q then Some(g) else LastClaimant(ious, q, g)
      {
        ClaimantStep(ious, q, g);
      }
      bestIou[bestPrior[g]] := 2.0;
    }
  }

  /** The loop of match that gives each ground truth's best prior to that
      ground truth, later ground truths overwriting earlier ones. */
  method OverwriteAssigned(ious: seq<seq<real>>, bestPrior: seq<nat>, bestBox: array<nat>)
    requires Rectangular(ious) && bestBox.Length == |ious[0]| && |bestPrior| == |ious|
    requires forall g :: 0 <= g < |ious| ==> bestPrior[g] == BestPrior(ious, g)
    requires forall q :: 0 <= q < bestBox.Length ==> bestBox[q] == BestBox(ious, q)
    modifies bestBox
    ensures forall q :: 0 <= q < bestBox.Length ==> bestBox[q] == AssignedBox(ious, q, |ious|)
  {
    for g := 0 to |ious|
      invariant forall q :: 0 <= q < bestBox.Length ==> bestBox[q] == AssignedBox(ious, q, g)
    {
      forall q | 0 <= q < |ious[0]|
        ensures LastClaimant(ious, q, g + 1) == if bestPrior[g] == q then Some(g) else LastClaimant(ious, q, g)
      {
        ClaimantStep(ious, q, g);
      }
      bestBox[bestPrior[g]] := g;
    }
  }

  /** match(boxes, prior_boxes, iou_threshold). The source fails on zero
      ground truths or zero priors (max and argmax over an empty axis) and
      writes column 4, so each ground-truth row must have a class column. */
  method Match(boxes: seq<Row>, priorBoxes: seq<CenterForm>, iouThreshold: real) returns (matches: seq<Row>)
    requires |boxes| > 0 && |priorBoxes| > 0 && Labelled(boxes)
    requires NonzeroUnions(Boxes(boxes), PointForms(priorBoxes))
    ensures Rectangular(IouMatrix(boxes, priorBoxes)) && |IouMatrix(boxes, priorBoxes)[0]| == |priorBoxes|
    ensures |matches| == |priorBoxes|
    ensures forall p :: 0 <= p < |matches| ==>
      matches[p] == MatchedRow(boxes, IouMatrix(boxes, priorBoxes), p, iouThreshold)
  {
    var ious := ComputeIous(Boxes(boxes), PointForms(priorBoxes));
    IouMatrixRectangular(boxes, priorBoxes);
    assert ious == IouMatrix(boxes, priorBoxes);
    var nb, np := |boxes|, |priorBoxes|;
    var bestIou, bestBox := ColumnBests(ious);
    var bestPrior := BestPriors(ious);
    WriteSentinel(ious, bestPrior, bestIou);
    OverwriteAssigned(ious, bestPrior, bestBox);
    matches := Materialize(boxes, ious, bestIou, bestBox, iouThreshold);
  }

  /** boxes[args]: the rows the indices select, in the order of the indices. */
  method Gather(boxes: seq<Row>, args: array<nat>) returns (rows: seq<Row>)
    requires forall q :: 0 <= q < args.Length ==> args[q] < |boxes|
    ensures |rows| == args.Length
    ensures forall q :: 0 <= q < args.Length ==> rows[q] == boxes[args[q]]
  {
    rows := [];
    for p := 0 to args.Length
      invariant |rows| == p
      invariant forall q :: 0 <= q < p ==> rows[q] == boxes[args[q]]
    {
      rows := rows + [boxes[args[p]]];
    }
  }

  /** matches = boxes[best_box_arg_per_prior_box], then
      matches[best_box_iou_per_prior_box < iou_threshold, 4] = 0. */
  method Materialize(boxes: seq<Row>, ious: seq<seq<real>>, bestIou: array<real>, bestBox: array<nat>,
                     iouThreshold: real) returns (matches: seq<Row>)
    requires Rectangular(ious) && |boxes| == |ious| && Labelled(boxes)
    requires bestIou.Length == bestBox.Length == |ious[0]|
    requires forall q :: 0 <= q < bestIou.Length ==> bestIou[q] == SentinelIou(ious, q, |ious|)
    requires forall q :: 0 <= q < bestBox.Length ==> bestBox[q] == AssignedBox(ious, q, |ious|)
    ensures |matches| == |ious[0]|
    ensures forall q :: 0 <= q < |matches| ==> matches[q] == MatchedRow(boxes, ious, q, iouThreshold)
  {
    var np := |ious[0]|;
    matches := Gather(boxes, bestBox);
    for p := 0 to np
      invariant |matches| == np
      invariant forall q :: 0 <= q < p ==> matches[q] == MatchedRow(boxes, ious, q, iouThreshold)
      invariant forall q :: p <= q < np ==> matches[q] == boxes[bestBox[q]]
    {
      var r := matches[p];
      if bestIou[p] < iouThreshold {
        r := Background(r);
      }
      assert r == MatchedRow(boxes, ious, p, iouThreshold);
      matches := matches[p := r];
    }
  }

  /** Every output row is a ground-truth row, with at most its class column
      replaced by 0: coordinates and the columns after the class are copied. */
  lemma MatchedRowFromGroundTruth(boxes: seq<Row>, m: seq<seq<real>>, p: nat, iouThreshold: real)
    requires Rectangular(m) && |boxes| == |m| && Labelled(boxes) && p < |m[0]|
    ensures var r := MatchedRow(boxes, m, p, iouThreshold);
      exists g :: 0 <= g < |boxes| && r.box == boxes[g].box && |r.rest| == |boxes[g].rest| &&
        r.rest[1..] == boxes[g].rest[1..] && (r.rest[0] == boxes[g].rest[0] || r.rest[0] == 0.0)
  {
    var g := AssignedBox(m, p, |m|);
    var r := MatchedRow(boxes, m, p, iouThreshold);
    assert r.rest[1..] == boxes[g].rest[1..];
  }

  /** The prior that is ground truth g's best prior goes to the LAST ground
      truth sharing that best prior (g itself or a later one), and keeps that
      ground truth's class whenever the threshold does not exceed the sentinel. */
  lemma ForcedMatch(boxes: seq<Row>, m: seq<seq<real>>, g: nat, iouThreshold: real)
    requires Rectangular(m) && |boxes| == |m| && Labelled(boxes) && g < |m|
    requires iouThreshold <= 2.0
    ensures var p := BestPrior(m, g);
      var h := AssignedBox(m, p, |m|);
      g <= h < |m| && BestPrior(m, h) == p &&
      (forall k :: h < k < |m| ==> BestPrior(m, k) != p) &&
      MatchedRow(boxes, m, p, iouThreshold) == boxes[h]
  {
    var p := BestPrior(m, g);
    LastClaimantIsLast(m, p, |m|);
    assert BestPrior(m, g) == p;
  }

  /** An earlier ground truth loses a best prior it shares with a later one. */
  lemma SharedBestPriorGoesToLater(m: seq<seq<real>>, g: nat, h: nat)
    requires Rectangular(m) && g < h < |m| && BestPrior(m, g) == BestPrior(m, h)
    ensures AssignedBox(m, BestPrior(m, g), |m|) != g
  {
    var p := BestPrior(m, g);
    LastClaimantIsLast(m, p, |m|);
    assert BestPrior(m, h) == p;
  }

  /** A prior that is no ground truth's best prior gets the last ground truth
      of highest IoU with it, and is background exactly when that IoU is
      below the threshold. */
  lemma UnclaimedPrior(boxes: seq<Row>, m: seq<seq<real>>, p: nat, iouThreshold: real)
    requires Rectangular(m) && |boxes| == |m| && Labelled(boxes) && p < |m[0]|
    requires forall g :: 0 <= g < |m| ==> BestPrior(m, g) != p
    ensures var a := AssignedBox(m, p, |m|);
      (forall k :: 0 <= k < |m| ==> m[k][p] <= m[a][p]) &&
      (forall k :: a < k < |m| ==> m[k][p] < m[a][p]) &&
      MatchedRow(boxes, m, p, iouThreshold) ==
        (if m[a][p] < iouThreshold then Background(boxes[a]) else boxes[a])
  {
    LastClaimantIsLast(m, p, |m|);
    BestBoxIsLastMax(m, p);
  }

  /** With a threshold at most the sentinel, the class column of prior p is
      zeroed exactly when p is no ground truth's best prior and its best IoU
      is below the threshold. */
  lemma BackgroundExactly(boxes: seq<Row>, m: seq<seq<real>>, p: nat, iouThreshold: real)
    requires Rectangular(m) && |boxes| == |m| && Labelled(boxes) && p < |m[0]|
    requires iouThreshold <= 2.0
    ensures var a := AssignedBox(m, p, |m|);
      var masked := (forall g :: 0 <= g < |m| ==> BestPrior(m, g) != p) && BestIou(m, p) < iouThreshold;
      MatchedRow(boxes, m, p, iouThreshold) == (if masked then Background(boxes[a]) else boxes[a])
  {
    LastClaimantIsLast(m, p, |m|);
  }
}
