/** Box coordinate conventions and intersection over union
    (paz/core/backend/boxes.py: compute_iou, compute_ious, to_point_form,
    to_center_form). */
module Geometry {

  /** Corner coordinates (x_min, y_min, x_max, y_max). */
  datatype PointForm = PointForm(xMin: real, yMin: real, xMax: real, yMax: real)

  /** Centre coordinates (center_x, center_y, width, height). */
  datatype CenterForm = CenterForm(cx: real, cy: real, w: real, h: real)

  /** One row of an N x (4 + k) box array: the point-form coordinates in
      columns 0..3 and the remaining columns (the class argument first). */
  datatype Row = Row(box: PointForm, rest: seq<real>)

  function Max(a: real, b: real): real { if a >= b then a else b }
  function Min(a: real, b: real): real { if a <= b then a else b }

  /** Corners in order on both axes. */
  predicate WellFormed(b: PointForm) { b.xMin <= b.xMax && b.yMin <= b.yMax }

  function ToPointForm(b: CenterForm): (p: PointForm)
    ensures p.xMax - p.xMin == b.w && p.yMax - p.yMin == b.h
    ensures (p.xMin + p.xMax) / 2.0 == b.cx && (p.yMin + p.yMax) / 2.0 == b.cy
  {
    PointForm(b.cx - b.w / 2.0, b.cy - b.h / 2.0, b.cx + b.w / 2.0, b.cy + b.h / 2.0)
  }

  function ToCenterForm(p: PointForm): (c: CenterForm)
    ensures ToPointForm(c) == p
  {
    CenterForm((p.xMax + p.xMin) / 2.0, (p.yMax + p.yMin) / 2.0, p.xMax - p.xMin, p.yMax - p.yMin)
  }

  /** to_point_form over an array of boxes. */
  function PointForms(bs: seq<CenterForm>): (ps: seq<PointForm>)
  {
    seq(|bs|, i requires 0 <= i < |bs| => ToPointForm(bs[i]))
  }

  /** The coordinate columns of an array of rows. */
  function Boxes(rows: seq<Row>): (bs: seq<PointForm>)
  {
    seq(|rows|, i requires 0 <= i < |rows| => rows[i].box)
  }

  lemma CenterPointRoundTrip(b: CenterForm)
    ensures ToCenterForm(ToPointForm(b)) == b
  {
  }

  lemma PointCenterRoundTrip(p: PointForm)
    ensures ToPointForm(ToCenterForm(p)) == p
    ensures ToCenterForm(p).w == p.xMax - p.xMin && ToCenterForm(p).h == p.yMax - p.yMin
  {
  }

  /** Area of the clipped (non-negative) overlap of the two boxes. */
  function Intersection(a: PointForm, b: PointForm): real
  {
    Max(Min(b.xMax, a.xMax) - Max(b.xMin, a.xMin), 0.0) *
    Max(Min(b.yMax, a.yMax) - Max(b.yMin, a.yMin), 0.0)
  }

  function Area(b: PointForm): real
  {
    (b.xMax - b.xMin) * (b.yMax - b.yMin)
  }

  function Union(a: PointForm, b: PointForm): real
  {
    Area(a) + Area(b) - Intersection(a, b)
  }

  /** compute_iou for one pair; the source divides without a guard, so the
      model asks for a non-zero union. */
  function IoU(a: PointForm, b: PointForm): (r: real)
    requires Union(a, b) != 0.0
    ensures r * Union(a, b) == Intersection(a, b)
  {
    Intersection(a, b) / Union(a, b)
  }

  /** compute_iou(box, boxes): one IoU per row of `boxes`. */
  function ComputeIou(box: PointForm, boxes: seq<PointForm>): (r: seq<real>)
    requires forall j :: 0 <= j < |boxes| ==> Union(box, boxes[j]) != 0.0
    ensures |r| == |boxes|
    ensures forall j :: 0 <= j < |r| ==> r[j] == IoU(box, boxes[j])
  {
    seq(|boxes|, j requires 0 <= j < |boxes| => IoU(box, boxes[j]))
  }

  predicate NonzeroUnions(boxesA: seq<PointForm>, boxesB: seq<PointForm>)
  {
    forall i, j :: 0 <= i < |boxesA| && 0 <= j < |boxesB| ==> Union(boxesA[i], boxesB[j]) != 0.0
  }

  /** compute_ious: a zero buffer of |A| rows, filled row by row. */
  method ComputeIous(boxesA: seq<PointForm>, boxesB: seq<PointForm>) returns (ious: seq<seq<real>>)
    requires NonzeroUnions(boxesA, boxesB)
    ensures |ious| == |boxesA|
    ensures forall i :: 0 <= i < |ious| ==> ious[i] == ComputeIou(boxesA[i], boxesB)
  {
    var buffer := new seq<real>[|boxesA|](_ => seq(|boxesB|, _ => 0.0));
    for i := 0 to |boxesA|
      invariant forall k :: 0 <= k < i ==> buffer[k] == ComputeIou(boxesA[k], boxesB)
    {
      buffer[i] := ComputeIou(boxesA[i], boxesB);
    }
    ious := buffer[..];
  }

  lemma MulLeMul(a: real, b: real, c: real, d: real)
    requires 0.0 <= a <= c && 0.0 <= b <= d
    ensures a * b <= c * d
  {
    calc {
      a * b;
    <= { assert (c - a) * b >= 0.0; }
      c * b;
    <= { assert c * (d - b) >= 0.0; }
      c * d;
    }
  }

  /** The overlap never exceeds either box. */
  lemma IntersectionBounds(a: PointForm, b: PointForm)
    requires WellFormed(a) && WellFormed(b)
    ensures 0.0 <= Intersection(a, b) <= Area(a)
    ensures Intersection(a, b) <= Area(b)
  {
    var iw := Max(Min(b.xMax, a.xMax) - Max(b.xMin, a.xMin), 0.0);
    var ih := Max(Min(b.yMax, a.yMax) - Max(b.yMin, a.yMin), 0.0);
    MulLeMul(0.0, 0.0, iw, ih);
    MulLeMul(iw, ih, a.xMax - a.xMin, a.yMax - a.yMin);
    MulLeMul(iw, ih, b.xMax - b.xMin, b.yMax - b.yMin);
  }

  lemma IoUInUnitInterval(a: PointForm, b: PointForm)
    requires WellFormed(a) && WellFormed(b) && Union(a, b) != 0.0
    ensures 0.0 <= Intersection(a, b) <= Union(a, b)
    ensures 0.0 <= IoU(a, b) <= 1.0
  {
    IntersectionBounds(a, b);
    var i, u := Intersection(a, b), Union(a, b);
    assert 0.0 < u;
    assert IoU(a, b) * u == i;
  }

  lemma IoUSymmetric(a: PointForm, b: PointForm)
    requires Union(a, b) != 0.0
    ensures Union(b, a) == Union(a, b)
    ensures IoU(a, b) == IoU(b, a)
  {
  }

  /** A well-formed box of positive area overlaps itself completely. */
  lemma IoUSelf(a: PointForm)
    requires WellFormed(a) && Area(a) > 0.0
    ensures Intersection(a, a) == Area(a) == Union(a, a)
    ensures IoU(a, a) == 1.0
  {
    assert Min(a.xMax, a.xMax) - Max(a.xMin, a.xMin) == a.xMax - a.xMin;
    assert Min(a.yMax, a.yMax) - Max(a.yMin, a.yMin) == a.yMax - a.yMin;
    assert Intersection(a, a) == Area(a);
    assert Union(a, a) == Area(a);
    assert IoU(a, a) == Area(a) / Area(a);
  }

  /** The evaluation convention: +1 on the max corner (inclusive pixel bounds). */
  function Widen(b: PointForm): PointForm
  {
    PointForm(b.xMin, b.yMin, b.xMax + 1.0, b.yMax + 1.0)
  }

  function Widened(bs: seq<PointForm>): (ws: seq<PointForm>)
  {
    seq(|bs|, i requires 0 <= i < |bs| => Widen(bs[i]))
  }

  /** Widened well-formed boxes always have a union of at least one, so the
      evaluator's IoU division is always defined for them. */
  lemma WidenedUnionPositive(a: PointForm, b: PointForm)
    requires WellFormed(a) && WellFormed(b)
    ensures Union(Widen(a), Widen(b)) >= 1.0
  {
    var wa, wb := Widen(a), Widen(b);
    IntersectionBounds(wa, wb);
    MulLeMul(1.0, 1.0, wa.xMax - wa.xMin, wa.yMax - wa.yMin);
  }
}
