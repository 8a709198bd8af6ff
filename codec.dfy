/** The SSD-style regression codec relative to prior boxes
    (paz/core/backend/boxes.py: encode, decode). The natural logarithm and
    exponential are passed in as parameters: the model treats them as
    uninterpreted, and only the decode(encode(.)) lemma asks that `exponential`
    undo `logarithm` on positive arguments. */
module Codec {
  import opened Geometry

  /** The four regression offsets of an encoded row. */
  datatype Offsets = Offsets(dcx: real, dcy: real, dw: real, dh: real)

  /** One row of an encoded target or of a prediction: the offsets in
      columns 0..3 and the remaining columns (the class part) after them. */
  datatype Target = Target(offsets: Offsets, rest: seq<real>)

  function Abs(x: real): real { if x < 0.0 then -x else x }

  /** The 1e-4 added inside the logarithm. */
  const Epsilon: real := 1.0 / 10000.0

  /** An offset multiplied by its variance: the argument decode passes to
      the exponential, and what encode's logarithm equals. */
  function Scaled(offset: real, variance: real): real { offset * variance }

  predicate UsablePrior(prior: CenterForm, v0: real, v1: real)
  {
    prior.w != 0.0 && prior.h != 0.0 && v0 != 0.0 && v1 != 0.0
  }

  /** encode for one matched row and its prior. */
  function EncodeRow(m: Row, prior: CenterForm, v0: real, v1: real, logarithm: real -> real): (t: Target)
    requires UsablePrior(prior, v0, v1)
    ensures t.rest == m.rest
    ensures t.offsets.dcx * (v0 * prior.w) == (m.box.xMin + m.box.xMax) / 2.0 - prior.cx
    ensures t.offsets.dcy * (v0 * prior.h) == (m.box.yMin + m.box.yMax) / 2.0 - prior.cy
    ensures Scaled(t.offsets.dw, v1) == logarithm(Abs((m.box.xMax - m.box.xMin) / prior.w) + Epsilon)
    ensures Scaled(t.offsets.dh, v1) == logarithm(Abs((m.box.yMax - m.box.yMin) / prior.h) + Epsilon)
  {
    var gcx := ((m.box.xMin + m.box.xMax) / 2.0 - prior.cx) / (v0 * prior.w);
    var gcy := ((m.box.yMin + m.box.yMax) / 2.0 - prior.cy) / (v0 * prior.h);
    var gw := (m.box.xMax - m.box.xMin) / prior.w;
    var gh := (m.box.yMax - m.box.yMin) / prior.h;
    Target(Offsets(gcx, gcy, logarithm(Abs(gw) + Epsilon) / v1, logarithm(Abs(gh) + Epsilon) / v1), m.rest)
  }

  /** encode(matched, priors, variances): row i is encoded against prior i. */
  function Encode(matched: seq<Row>, priors: seq<CenterForm>, variances: seq<real>, logarithm: real -> real): (t: seq<Target>)
    requires |matched| == |priors| && |variances| >= 2
    requires forall i :: 0 <= i < |priors| ==> UsablePrior(priors[i], variances[0], variances[1])
    ensures |t| == |matched|
    ensures forall i :: 0 <= i < |t| ==> t[i].rest == matched[i].rest
  {
    seq(|matched|, i requires 0 <= i < |matched| => EncodeRow(matched[i], priors[i], variances[0], variances[1], logarithm))
  }

  /** The centre-form box that decode reconstructs before converting it. */
  function DecodedCenterForm(p: Target, prior: CenterForm, v0: real, v1: real, exponential: real -> real): CenterForm
  {
    CenterForm(prior.cx + p.offsets.dcx * v0 * prior.w,
               prior.cy + p.offsets.dcy * v0 * prior.h,
               prior.w * exponential(Scaled(p.offsets.dw, v1)),
               prior.h * exponential(Scaled(p.offsets.dh, v1)))
  }

  /** What decode produces for one row: the reconstructed box in point form,
      followed by the prediction's remaining columns. */
  function DecodeRow(p: Target, prior: CenterForm, v0: real, v1: real, exponential: real -> real): Row
  {
    Row(ToPointForm(DecodedCenterForm(p, prior, v0, v1, exponential)), p.rest)
  }

  /** The decoded box has the predicted centre and the predicted size, and
      the remaining columns pass through. */
  lemma DecodeRowGeometry(p: Target, prior: CenterForm, v0: real, v1: real, exponential: real -> real)
    ensures var r := DecodeRow(p, prior, v0, v1, exponential);
      r.rest == p.rest &&
      (r.box.xMin + r.box.xMax) / 2.0 == prior.cx + p.offsets.dcx * v0 * prior.w &&
      (r.box.yMin + r.box.yMax) / 2.0 == prior.cy + p.offsets.dcy * v0 * prior.h &&
      r.box.xMax - r.box.xMin == prior.w * exponential(Scaled(p.offsets.dw, v1)) &&
      r.box.yMax - r.box.yMin == prior.h * exponential(Scaled(p.offsets.dh, v1))
  {
    var c := DecodedCenterForm(p, prior, v0, v1, exponential);
    var b := ToPointForm(c);
    assert DecodeRow(p, prior, v0, v1, exponential) == Row(b, p.rest);
    assert c.w == prior.w * exponential(Scaled(p.offsets.dw, v1));
    assert c.h == prior.h * exponential(Scaled(p.offsets.dh, v1));
    assert b.xMax - b.xMin == c.w && b.yMax - b.yMin == c.h;
  }

  /** decode: a P x 4 buffer holding centres and sizes, whose first two
      columns are then overwritten with the minimum corner, and whose last two
      columns are then overwritten with minimum corner plus size. */
  method Decode(predictions: seq<Target>, priors: seq<CenterForm>, variances: seq<real>, exponential: real -> real)
    returns (decoded: seq<Row>)
    requires |predictions| == |priors| && |variances| >= 2
    ensures |decoded| == |predictions|
    ensures forall i :: 0 <= i < |decoded| ==>
      decoded[i] == DecodeRow(predictions[i], priors[i], variances[0], variances[1], exponential)
  {
    var n, v0, v1 := |predictions|, variances[0], variances[1];
    var centres := seq(n, i requires 0 <= i < n => DecodedCenterForm(predictions[i], priors[i], v0, v1, exponential));
    var boxes := new real[n, 4];
    WriteCenterForms(boxes, centres);
    CentresToMinCorners(boxes);
    SizesToMaxCorners(boxes);
    decoded := seq(n, i requires 0 <= i < n reads boxes =>
      Row(PointForm(boxes[i, 0], boxes[i, 1], boxes[i, 2], boxes[i, 3]), predictions[i].rest));
    forall i | 0 <= i < n
      ensures decoded[i] == DecodeRow(predictions[i], priors[i], v0, v1, exponential)
    {
      CornersOfCenterForm(centres[i]);
    }
  }

  /** Minimum corner, then minimum corner plus size, is the point form. */
  lemma CornersOfCenterForm(c: CenterForm)
    ensures ToPointForm(c) ==
      PointForm(c.cx - c.w / 2.0, c.cy - c.h / 2.0, c.w + (c.cx - c.w / 2.0), c.h + (c.cy - c.h / 2.0))
  {
  }

  /** Row k of the buffer receives centre form k: centre, then size. */
  method WriteCenterForms(boxes: array2<real>, centres: seq<CenterForm>)
    requires boxes.Length0 == |centres| && boxes.Length1 == 4
    modifies boxes
    ensures forall k :: 0 <= k < |centres| ==>
      boxes[k, 0] == centres[k].cx && boxes[k, 1] == centres[k].cy &&
      boxes[k, 2] == centres[k].w && boxes[k, 3] == centres[k].h
  {
    for i := 0 to |centres|
      invariant forall k :: 0 <= k < i ==>
        boxes[k, 0] == centres[k].cx && boxes[k, 1] == centres[k].cy &&
        boxes[k, 2] == centres[k].w && boxes[k, 3] == centres[k].h
    {
      var c := centres[i];
      boxes[i, 0], boxes[i, 1], boxes[i, 2], boxes[i, 3] := c.cx, c.cy, c.w, c.h;
    }
  }

  /** boxes[:, :2] = boxes[:, :2] - boxes[:, 2:4] / 2: the centre columns
      become the minimum corner. */
  method CentresToMinCorners(boxes: array2<real>)
    requires boxes.Length1 == 4
    modifies boxes
    ensures forall k :: 0 <= k < boxes.Length0 ==>
      boxes[k, 0] == old(boxes[k, 0]) - old(boxes[k, 2]) / 2.0 &&
      boxes[k, 1] == old(boxes[k, 1]) - old(boxes[k, 3]) / 2.0 &&
      boxes[k, 2] == old(boxes[k, 2]) && boxes[k, 3] == old(boxes[k, 3])
  {
    for i := 0 to boxes.Length0
      invariant forall k :: 0 <= k < boxes.Length0 ==>
        boxes[k, 2] == old(boxes[k, 2]) && boxes[k, 3] == old(boxes[k, 3]) &&
        (k < i ==> boxes[k, 0] == old(boxes[k, 0]) - old(boxes[k, 2]) / 2.0 &&
                   boxes[k, 1] == old(boxes[k, 1]) - old(boxes[k, 3]) / 2.0) &&
        (i <= k ==> boxes[k, 0] == old(boxes[k, 0]) && boxes[k, 1] == old(boxes[k, 1]))
    {
      boxes[i, 0] := boxes[i, 0] - boxes[i, 2] / 2.0;
      boxes[i, 1] := boxes[i, 1] - boxes[i, 3] / 2.0;
    }
  }

  /** boxes[:, 2:4] = boxes[:, 2:4] + boxes[:, :2]: the size columns become
      the maximum corner. */
  method SizesToMaxCorners(boxes: array2<real>)
    requires boxes.Length1 == 4
    modifies boxes
    ensures forall k :: 0 <= k < boxes.Length0 ==>
      boxes[k, 0] == old(boxes[k, 0]) && boxes[k, 1] == old(boxes[k, 1]) &&
      boxes[k, 2] == old(boxes[k, 2]) + old(boxes[k, 0]) &&
      boxes[k, 3] == old(boxes[k, 3]) + old(boxes[k, 1])
  {
    for i := 0 to boxes.Length0
      invariant forall k :: 0 <= k < boxes.Length0 ==>
        boxes[k, 0] == old(boxes[k, 0]) && boxes[k, 1] == old(boxes[k, 1]) &&
        (k < i ==> boxes[k, 2] == old(boxes[k, 2]) + old(boxes[k, 0]) &&
                   boxes[k, 3] == old(boxes[k, 3]) + old(boxes[k, 1])) &&
        (i <= k ==> boxes[k, 2] == old(boxes[k, 2]) && boxes[k, 3] == old(boxes[k, 3]))
    {
      boxes[i, 2] := boxes[i, 2] + boxes[i, 0];
      boxes[i, 3] := boxes[i, 3] + boxes[i, 1];
    }
  }

  /** decode(encode(m)) puts the centre and the class part back exactly; the
      size comes back as prior size times (|ratio| + 1e-4), provided `exponential`
      undoes `logarithm` on positive arguments. */
  lemma {:induction false} DecodeEncodeRow(m: Row, prior: CenterForm, v0: real, v1: real,
                                           logarithm: real -> real, exponential: real -> real)
    requires UsablePrior(prior, v0, v1)
    requires forall x :: 0.0 < x ==> exponential(logarithm(x)) == x
    ensures var d := DecodeRow(EncodeRow(m, prior, v0, v1, logarithm), prior, v0, v1, exponential);
      d.rest == m.rest &&
      (d.box.xMin + d.box.xMax) / 2.0 == (m.box.xMin + m.box.xMax) / 2.0 &&
      (d.box.yMin + d.box.yMax) / 2.0 == (m.box.yMin + m.box.yMax) / 2.0 &&
      d.box.xMax - d.box.xMin == prior.w * (Abs((m.box.xMax - m.box.xMin) / prior.w) + Epsilon) &&
      d.box.yMax - d.box.yMin == prior.h * (Abs((m.box.yMax - m.box.yMin) / prior.h) + Epsilon)
  {
    var t := EncodeRow(m, prior, v0, v1, logarithm);
    DecodeRowGeometry(t, prior, v0, v1, exponential);
    assert t.offsets.dcx * v0 * prior.w == (m.box.xMin + m.box.xMax) / 2.0 - prior.cx;
    assert t.offsets.dcy * v0 * prior.h == (m.box.yMin + m.box.yMax) / 2.0 - prior.cy;
    var ax := Abs((m.box.xMax - m.box.xMin) / prior.w) + Epsilon;
    var ay := Abs((m.box.yMax - m.box.yMin) / prior.h) + Epsilon;
    assert exponential(logarithm(ax)) == ax && exponential(logarithm(ay)) == ay;
  }

  /** For a well-formed box and a positive prior size the decoded width
      overshoots the original by prior width times 1e-4 (likewise height). */
  lemma DecodeEncodeWidth(m: Row, prior: CenterForm, v0: real, v1: real,
                          logarithm: real -> real, exponential: real -> real)
    requires UsablePrior(prior, v0, v1) && prior.w > 0.0 && prior.h > 0.0 && WellFormed(m.box)
    requires forall x :: 0.0 < x ==> exponential(logarithm(x)) == x
    ensures var d := DecodeRow(EncodeRow(m, prior, v0, v1, logarithm), prior, v0, v1, exponential);
      d.box.xMax - d.box.xMin == (m.box.xMax - m.box.xMin) + prior.w * Epsilon &&
      d.box.yMax - d.box.yMin == (m.box.yMax - m.box.yMin) + prior.h * Epsilon
  {
    DecodeEncodeRow(m, prior, v0, v1, logarithm, exponential);
    var w, h := m.box.xMax - m.box.xMin, m.box.yMax - m.box.yMin;
    assert w / prior.w >= 0.0 && h / prior.h >= 0.0;
    assert prior.w * (w / prior.w) == w;
    assert prior.h * (h / prior.h) == h;
  }
}
