/** The small helpers of paz/core/backend/boxes.py: to_one_hot, keypoint
    (de)normalisation, make_box_square and apply_offsets, with Python's
    integer conversions written out. */
module BoxHelpers {
  import opened Geometry
  import opened Reductions

  /** Python's int() on a float: truncation toward zero. */
  function TruncToZero(x: real): (r: int)
    ensures 0.0 <= x ==> 0 <= r && r as real <= x < r as real + 1.0
    ensures x < 0.0 ==> r <= 0 && r as real - 1.0 < x <= r as real
  {
    if x >= 0.0 then x.Floor else -((-x).Floor)
  }

  /** Python's round() on a float: the nearest integer, ties to the even one. */
  function RoundHalfEven(x: real): (r: int)
    ensures -0.5 <= x - r as real <= 0.5
    ensures (x - r as real == 0.5 || x - r as real == -0.5) ==> r % 2 == 0
  {
    var f := x.Floor;
    var d := x - f as real;
    if d < 0.5 then f
    else if d > 0.5 then f + 1
    else if f % 2 == 0 then f
    else f + 1
  }

  /** Rounding an integer gives it back. */
  lemma RoundHalfEvenOfInteger(n: int)
    ensures RoundHalfEven(n as real) == n
  {
  }

  /** NumPy's reading of a possibly negative index into an axis of length n. */
  function PyIndex(c: int, n: nat): (k: nat)
    requires -(n as int) <= c < n
    ensures k < n
    ensures c >= 0 ==> k == c
    ensures c < 0 ==> k == n + c
  {
    if c < 0 then n + c else c
  }

  /** The one-hot row for class index c. */
  function OneHotRow(c: int, n: nat): (row: seq<real>)
    requires -(n as int) <= c < n
    ensures |row| == n
    ensures forall j :: 0 <= j < n ==> row[j] == (if j == PyIndex(c, n) then 1.0 else 0.0)
  {
    seq(n, j requires 0 <= j < n => if j == PyIndex(c, n) then 1.0 else 0.0)
  }

  /** Reading a one-hot row back with argmax gives the class index it encodes. */
  lemma OneHotRowArgmax(c: int, n: nat)
    requires -(n as int) <= c < n
    ensures Argmax(OneHotRow(c, n)) == PyIndex(c, n)
  {
    var row := OneHotRow(c, n);
    var k := Argmax(row);
    assert row[PyIndex(c, n)] == 1.0;
  }

  /** to_one_hot: a zero buffer with one 1.0 written per row. NumPy raises on
      an index outside [-num_classes, num_classes), so such inputs are excluded. */
  method ToOneHot(classIndices: seq<int>, numClasses: nat) returns (oneHot: array2<real>)
    requires forall i :: 0 <= i < |classIndices| ==> -(numClasses as int) <= classIndices[i] < numClasses
    ensures fresh(oneHot)
    ensures oneHot.Length0 == |classIndices| && oneHot.Length1 == numClasses
    ensures forall i, j :: 0 <= i < oneHot.Length0 && 0 <= j < oneHot.Length1 ==>
      oneHot[i, j] == OneHotRow(classIndices[i], numClasses)[j]
  {
    oneHot := new real[|classIndices|, numClasses]((_, _) => 0.0);
    for i := 0 to |classIndices|
      invariant forall r, j :: 0 <= r < i && 0 <= j < numClasses ==>
        oneHot[r, j] == OneHotRow(classIndices[r], numClasses)[j]
      invariant forall r, j :: i <= r < |classIndices| && 0 <= j < numClasses ==> oneHot[r, j] == 0.0
    {
      oneHot[i, PyIndex(classIndices[i], numClasses)] := 1.0;
    }
  }

  /** min(max(x, -1), 1). */
  function Clip(x: real): (c: real)
    ensures -1.0 <= c <= 1.0
    ensures -1.0 <= x <= 1.0 ==> c == x
  {
    Min(Max(x, -1.0), 1.0)
  }

  /** The image x coordinate of a normalised x, before rounding. */
  function DenormalizeX(x: real, width: int): real
  {
    (Clip(x) * width as real / 2.0 + width as real / 2.0) - 0.5
  }

  /** The image y coordinate of a normalised y, before rounding (y is flipped). */
  function DenormalizeY(y: real, height: int): real
  {
    height as real - 0.5 - (Clip(y) * height as real / 2.0 + height as real / 2.0)
  }

  function NormalizeX(x: real, width: int): real
    requires width != 0
  {
    ((x + 0.5) - width as real / 2.0) / (width as real / 2.0)
  }

  function NormalizeY(y: real, height: int): real
    requires height != 0
  {
    ((height as real - 0.5 - y) - height as real / 2.0) / (height as real / 2.0)
  }

  /** Denormalised coordinates (before rounding) lie in the pixel range
      [-0.5, size - 0.5] of an image of non-negative size. */
  lemma DenormalizeInImage(x: real, y: real, height: int, width: int)
    requires 0 <= height && 0 <= width
    ensures -0.5 <= DenormalizeX(x, width) <= width as real - 0.5
    ensures -0.5 <= DenormalizeY(y, height) <= height as real - 0.5
  {
    var cx, cy, w, h := Clip(x), Clip(y), width as real, height as real;
    MulLeMul(0.0, 0.0, cx + 1.0, w);
    MulLeMul(0.0, 0.0, 1.0 - cx, w);
    MulLeMul(0.0, 0.0, cy + 1.0, h);
    MulLeMul(0.0, 0.0, 1.0 - cy, h);
  }

  /** normalize undoes denormalize (before rounding) on [-1, 1]. */
  lemma NormalizeDenormalize(x: real, y: real, height: int, width: int)
    requires height != 0 && width != 0
    requires -1.0 <= x <= 1.0 && -1.0 <= y <= 1.0
    ensures NormalizeX(DenormalizeX(x, width), width) == x
    ensures NormalizeY(DenormalizeY(y, height), height) == y
  {
    var w, h := width as real, height as real;
    assert DenormalizeX(x, width) + 0.5 - w / 2.0 == x * (w / 2.0);
    assert h - 0.5 - DenormalizeY(y, height) - h / 2.0 == y * (h / 2.0);
  }

  /** denormalize undoes normalize for a pixel whose normalised value lies in [-1, 1]. */
  lemma DenormalizeNormalize(u: real, v: real, height: int, width: int)
    requires height != 0 && width != 0
    requires -1.0 <= NormalizeX(u, width) <= 1.0 && -1.0 <= NormalizeY(v, height) <= 1.0
    ensures DenormalizeX(NormalizeX(u, width), width) == u
    ensures DenormalizeY(NormalizeY(v, height), height) == v
  {
    var w, h := width as real, height as real;
    assert NormalizeX(u, width) * (w / 2.0) == (u + 0.5) - w / 2.0;
    assert NormalizeY(v, height) * (h / 2.0) == (h - 0.5 - v) - h / 2.0;
  }

  /** denormalize_keypoints: overwrites columns 0 and 1 of every keypoint, in
      place, with the rounded image coordinates; other columns are kept. */
  method DenormalizeKeypoints(keypoints: array2<real>, height: int, width: int)
    requires keypoints.Length1 >= 2
    modifies keypoints
    ensures forall i, j :: 0 <= i < keypoints.Length0 && 0 <= j < keypoints.Length1 ==>
      keypoints[i, j] ==
        if j == 0 then RoundHalfEven(DenormalizeX(old(keypoints[i, 0]), width)) as real
        else if j == 1 then RoundHalfEven(DenormalizeY(old(keypoints[i, 1]), height)) as real
        else old(keypoints[i, j])
  {
    for i := 0 to keypoints.Length0
      invariant forall r, j :: 0 <= r < i && 0 <= j < keypoints.Length1 ==>
        keypoints[r, j] ==
          if j == 0 then RoundHalfEven(DenormalizeX(old(keypoints[r, 0]), width)) as real
          else if j == 1 then RoundHalfEven(DenormalizeY(old(keypoints[r, 1]), height)) as real
          else old(keypoints[r, j])
      invariant forall r, j :: i <= r < keypoints.Length0 && 0 <= j < keypoints.Length1 ==>
        keypoints[r, j] == old(keypoints[r, j])
    {
      var x, y := keypoints[i, 0], keypoints[i, 1];
      keypoints[i, 0] := RoundHalfEven(DenormalizeX(x, width)) as real;
      keypoints[i, 1] := RoundHalfEven(DenormalizeY(y, height)) as real;
    }
  }

  /** normalize_keypoints: a fresh zero buffer of the keypoints' shape whose
      columns 0 and 1 receive the normalised coordinates; any further columns
      stay 0 rather than being copied. */
  method NormalizeKeypoints(keypoints: array2<real>, height: int, width: int) returns (normalized: array2<real>)
    requires keypoints.Length1 >= 2 && height != 0 && width != 0
    ensures fresh(normalized)
    ensures normalized.Length0 == keypoints.Length0 && normalized.Length1 == keypoints.Length1
    ensures forall i, j :: 0 <= i < normalized.Length0 && 0 <= j < normalized.Length1 ==>
      normalized[i, j] ==
        if j == 0 then NormalizeX(keypoints[i, 0], width)
        else if j == 1 then NormalizeY(keypoints[i, 1], height)
        else 0.0
  {
    normalized := new real[keypoints.Length0, keypoints.Length1]((_, _) => 0.0);
    for i := 0 to keypoints.Length0
      invariant forall r, j :: 0 <= r < i && 0 <= j < normalized.Length1 ==>
        normalized[r, j] ==
          if j == 0 then NormalizeX(keypoints[r, 0], width)
          else if j == 1 then NormalizeY(keypoints[r, 1], height)
          else 0.0
      invariant forall r, j :: i <= r < normalized.Length0 && 0 <= j < normalized.Length1 ==>
        normalized[r, j] == 0.0
    {
      var x, y := keypoints[i, 0], keypoints[i, 1];
      normalized[i, 0] := NormalizeX(x, width);
      normalized[i, 1] := NormalizeY(y, height);
    }
  }

  /** A box of integer corners, as make_box_square and apply_offsets return. */
  datatype IntBox = IntBox(xMin: int, yMin: int, xMax: int, yMax: int)

  /** int() on each corner. */
  function Truncated(b: PointForm): IntBox
  {
    IntBox(TruncToZero(b.xMin), TruncToZero(b.yMin), TruncToZero(b.xMax), TruncToZero(b.yMax))
  }

  /** The box grown along its shorter side, about its centre, to the length
      of its longer side (the two ifs of make_box_square). */
  function Squared(b: PointForm): PointForm
  {
    var cx, cy := (b.xMax + b.xMin) / 2.0, (b.yMax + b.yMin) / 2.0;
    var width, height := b.xMax - b.xMin, b.yMax - b.yMin;
    if height >= width then PointForm(cx - height / 2.0, b.yMin, cx + height / 2.0, b.yMax)
    else PointForm(b.xMin, cy - width / 2.0, b.xMax, cy + width / 2.0)
  }

  /** The squared box keeps the centre and has both sides equal to the longer one. */
  lemma SquaredIsSquare(b: PointForm)
    ensures var s := Squared(b);
      s.xMax - s.xMin == s.yMax - s.yMin == Max(b.xMax - b.xMin, b.yMax - b.yMin) &&
      (s.xMin + s.xMax) / 2.0 == (b.xMin + b.xMax) / 2.0 &&
      (s.yMin + s.yMax) / 2.0 == (b.yMin + b.yMax) / 2.0
  {
  }

  /** Every side of a box moved outward by d. */
  function Grown(b: PointForm, d: real): (g: PointForm)
    ensures g.xMax - g.xMin == b.xMax - b.xMin + 2.0 * d
    ensures g.yMax - g.yMin == b.yMax - b.yMin + 2.0 * d
  {
    PointForm(b.xMin - d, b.yMin - d, b.xMax + d, b.yMax + d)
  }

  /** make_box_square as written: the margin is offset_scale times the
      squared box's centre x, which the source names a side length. */
  function MakeBoxSquare(box: PointForm, offsetScale: real): IntBox
  {
    var s := Squared(box);
    Truncated(Grown(s, offsetScale * ((s.xMax + s.xMin) / 2.0)))
  }

  /** make_box_square with the margin proportional to the squared side. */
  function MakeBoxSquareBySide(box: PointForm, offsetScale: real): IntBox
  {
    var s := Squared(box);
    Truncated(Grown(s, offsetScale * (s.xMax - s.xMin)))
  }

  /** Before truncation the margin of make_box_square as written grows with
      the box's x position: two boxes of the same shape get different sizes. */
  lemma MakeBoxSquareMarginFollowsPosition(box: PointForm, offsetScale: real)
    ensures var s := Squared(box);
      var g := Grown(s, offsetScale * ((s.xMax + s.xMin) / 2.0));
      g.xMax - g.xMin == Max(box.xMax - box.xMin, box.yMax - box.yMin) + offsetScale * (box.xMin + box.xMax)
  {
    SquaredIsSquare(box);
  }

  /** The box (100, 0, 110, 10) with scale 0.05: as written the margin is 5.25
      (from the centre x 105), so the result is (94, -5, 115, 15). */
  lemma MakeBoxSquareExample()
    ensures MakeBoxSquare(PointForm(100.0, 0.0, 110.0, 10.0), 0.05) == IntBox(94, -5, 115, 15)
    ensures MakeBoxSquareBySide(PointForm(100.0, 0.0, 110.0, 10.0), 0.05) == IntBox(99, 0, 110, 10)
  {
    var b := PointForm(100.0, 0.0, 110.0, 10.0);
    assert Squared(b) == b;
    assert TruncToZero(94.75) == 94 && TruncToZero(-5.25) == -5;
    assert TruncToZero(115.25) == 115 && TruncToZero(15.25) == 15;
    assert TruncToZero(99.5) == 99 && TruncToZero(-0.5) == 0;
    assert TruncToZero(110.5) == 110 && TruncToZero(10.5) == 10;
  }

  /** With the margin taken from the side, the grown square keeps the centre
      and its side is (1 + 2 offset_scale) times the longer side. */
  lemma MakeBoxSquareBySideGeometry(box: PointForm, offsetScale: real)
    ensures var s := Squared(box);
      var side := Max(box.xMax - box.xMin, box.yMax - box.yMin);
      var g := Grown(s, offsetScale * (s.xMax - s.xMin));
      g.xMax - g.xMin == g.yMax - g.yMin == side * (1.0 + 2.0 * offsetScale) &&
      (g.xMin + g.xMax) / 2.0 == (box.xMin + box.xMax) / 2.0 &&
      (g.yMin + g.yMax) / 2.0 == (box.yMin + box.yMax) / 2.0
  {
    SquaredIsSquare(box);
  }

  /** apply_offsets as written, before the int() conversions: the x offset
      (from the width) is added to y_max and the y offset to x_max. */
  function OffsetBox(b: PointForm, xScale: real, yScale: real): PointForm
  {
    var xOffset := (b.xMax - b.xMin) * xScale;
    var yOffset := (b.yMax - b.yMin) * yScale;
    PointForm(b.xMin - xOffset, b.yMin - yOffset, b.xMax + yOffset, b.yMax + xOffset)
  }

  function ApplyOffsets(b: PointForm, xScale: real, yScale: real): IntBox
  {
    Truncated(OffsetBox(b, xScale, yScale))
  }

  /** apply_offsets with the x offset on both x sides and the y offset on both y sides. */
  function SymmetricOffsetBox(b: PointForm, xScale: real, yScale: real): PointForm
  {
    var xOffset := (b.xMax - b.xMin) * xScale;
    var yOffset := (b.yMax - b.yMin) * yScale;
    PointForm(b.xMin - xOffset, b.yMin - yOffset, b.xMax + xOffset, b.yMax + yOffset)
  }

  function ApplySymmetricOffsets(b: PointForm, xScale: real, yScale: real): IntBox
  {
    Truncated(SymmetricOffsetBox(b, xScale, yScale))
  }

  /** As written, the centre moves by half the difference of the two offsets. */
  lemma OffsetBoxMovesCentre(b: PointForm, xScale: real, yScale: real)
    ensures var o := OffsetBox(b, xScale, yScale);
      var xOffset, yOffset := (b.xMax - b.xMin) * xScale, (b.yMax - b.yMin) * yScale;
      (o.xMin + o.xMax) / 2.0 == (b.xMin + b.xMax) / 2.0 + (yOffset - xOffset) / 2.0 &&
      (o.yMin + o.yMax) / 2.0 == (b.yMin + b.yMax) / 2.0 + (xOffset - yOffset) / 2.0
  {
  }

  /** The box (0, 0, 10, 20) with scales (0.1, 0.1): as written (-1, -2, 12, 21),
      symmetric (-1, -2, 11, 22). */
  lemma ApplyOffsetsExample()
    ensures ApplyOffsets(PointForm(0.0, 0.0, 10.0, 20.0), 0.1, 0.1) == IntBox(-1, -2, 12, 21)
    ensures ApplySymmetricOffsets(PointForm(0.0, 0.0, 10.0, 20.0), 0.1, 0.1) == IntBox(-1, -2, 11, 22)
  {
    assert TruncToZero(-1.0) == -1 && TruncToZero(-2.0) == -2;
    assert TruncToZero(12.0) == 12 && TruncToZero(21.0) == 21;
    assert TruncToZero(11.0) == 11 && TruncToZero(22.0) == 22;
  }

  /** Symmetric offsets keep the centre and scale each side by 1 + 2 scale. */
  lemma SymmetricOffsetBoxGeometry(b: PointForm, xScale: real, yScale: real)
    ensures var o := SymmetricOffsetBox(b, xScale, yScale);
      o.xMax - o.xMin == (b.xMax - b.xMin) * (1.0 + 2.0 * xScale) &&
      o.yMax - o.yMin == (b.yMax - b.yMin) * (1.0 + 2.0 * yScale) &&
      (o.xMin + o.xMax) / 2.0 == (b.xMin + b.xMax) / 2.0 &&
      (o.yMin + o.yMax) / 2.0 == (b.yMin + b.yMax) / 2.0
  {
  }
}
