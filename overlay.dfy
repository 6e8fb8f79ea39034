/**
 * What `_draw_on_frame` draws, as a list of drawing operations on a copy of
 * the frame. Pixels are not modelled: an annotated frame is the untouched
 * input frame together with the operations drawn on its copy, in order.
 */
module Overlay {
  import opened Wrappers
  import opened Domain

  /** An OpenCV colour triple, in the library's (blue, green, red) order. */
  datatype Colour = Colour(b: int, g: int, r: int)

  const LabelColour := Colour(255, 255, 0)
  const InteractedColour := Colour(0, 255, 0)
  const IdleColour := Colour(255, 0, 255)
  const InferredColour := Colour(255, 0, 0)
  const ObservedColour := Colour(0, 255, 255)

  datatype DrawOp =
    | Label(text: int, at: Point, colour: Colour)          // putText
    | Outline(polygon: seq<Point>, colour: Colour)          // drawContours
    | Ellipse(x: int, y: int, w: int, h: int, phi: int, colour: Colour)

  datatype Annotated = Annotated(base: Frame, ops: seq<DrawOp>)

  /** The operations drawn for one unit, given the last known positions. */
  function UnitOps(u: TrackingUnit, positions: map<int, Position>): (ops: seq<DrawOp>)
    ensures 1 <= |ops| && ops[0] == Label(u.roi.idx, u.roi.offset, LabelColour)
    ensures u.roi.idx !in positions ==> |ops| == 1
    ensures u.roi.idx in positions ==>
      var p := positions[u.roi.idx];
      && |ops| == 3
      && ops[1].Outline? && ops[1].polygon == u.roi.polygon
      && (ops[1].colour == InteractedColour || ops[1].colour == IdleColour)
      && (ops[1].colour == InteractedColour <==> p.hasInteracted)
      && ops[2].Ellipse? && (ops[2].x, ops[2].y, ops[2].w, ops[2].h, ops[2].phi) == (p.x, p.y, p.w, p.h, p.phi)
      && (ops[2].colour == InferredColour || ops[2].colour == ObservedColour)
      && (ops[2].colour == InferredColour <==> p.isInferred)
  {
    var tag := Label(u.roi.idx, u.roi.offset, LabelColour);
    if u.roi.idx !in positions then [tag]
    else
      var p := positions[u.roi.idx];
      var roiColour := if p.hasInteracted then InteractedColour else IdleColour;
      var colour := if p.isInferred then InferredColour else ObservedColour;
      [tag, Outline(u.roi.polygon, roiColour), Ellipse(p.x, p.y, p.w, p.h, p.phi, colour)]
  }

  /** The operations drawn for a list of units, unit after unit. */
  function Ops(units: seq<TrackingUnit>, positions: map<int, Position>): seq<DrawOp>
  {
    if units == [] then []
    else Ops(units[..|units| - 1], positions) + UnitOps(units[|units| - 1], positions)
  }

  /**
   * The annotated copy of `frame`: the frame with the units' operations drawn
   * over it. `AnnotationContents` states what those operations are.
   */
  function Annotate(frame: Frame, units: seq<TrackingUnit>, positions: map<int, Position>): Annotated
  {
    Annotated(frame, Ops(units, positions))
  }

  /** Unit k's operations are drawn in `ops` as one block, right after those of the units before it. */
  ghost predicate DrawnAsBlock(ops: seq<DrawOp>, units: seq<TrackingUnit>, positions: map<int, Position>, k: nat)
    requires k < |units|
  {
    var start, block := |Ops(units[..k], positions)|, UnitOps(units[k], positions);
    start + |block| <= |ops| && ops[start..start + |block|] == block
  }

  /**
   * What an annotation holds: the untouched frame; every unit's label, once
   * each, in unit order; and every unit's operations as one block right after
   * those of the units before it, so later units draw on top.
   */
  lemma AnnotationContents(frame: Frame, units: seq<TrackingUnit>, positions: map<int, Position>)
    ensures var img := Annotate(frame, units, positions);
      && img.base == frame
      && Labels(img.ops) == Ids(units)
      && forall k :: 0 <= k < |units| ==> DrawnAsBlock(img.ops, units, positions, k)
  {
    var ops := Ops(units, positions);
    LabelsInUnitOrder(units, positions);
    forall k | 0 <= k < |units|
      ensures DrawnAsBlock(ops, units, positions, k)
    {
      OpsSegment(units, positions, k);
    }
  }

  /** The labels drawn, in drawing order. */
  function Labels(ops: seq<DrawOp>): seq<int>
  {
    if ops == [] then []
    else Labels(ops[..|ops| - 1]) + (if ops[|ops| - 1].Label? then [ops[|ops| - 1].text] else [])
  }

  lemma {:induction false} LabelsAppend(a: seq<DrawOp>, b: seq<DrawOp>)
    ensures Labels(a + b) == Labels(a) + Labels(b)
    decreases |b|
  {
    if b == [] {
      assert a + b == a;
    } else {
      var b' := b[..|b| - 1];
      assert (a + b)[..|a + b| - 1] == a + b';
      LabelsAppend(a, b');
    }
  }

  /** Drawing the first k units draws a prefix of what drawing all of them draws. */
  lemma {:induction false} OpsPrefix(units: seq<TrackingUnit>, positions: map<int, Position>, k: nat)
    requires k <= |units|
    ensures Ops(units[..k], positions) <= Ops(units, positions)
    decreases |units| - k
  {
    if k < |units| {
      OpsPrefix(units, positions, k + 1);
      assert units[..k + 1][..k] == units[..k];
    } else {
      assert units[..k] == units;
    }
  }

  /**
   * Every unit's operations appear in the annotation as one contiguous block,
   * right after those of the units before it: later units draw on top.
   */
  lemma OpsSegment(units: seq<TrackingUnit>, positions: map<int, Position>, k: nat)
    requires k < |units|
    ensures var start := |Ops(units[..k], positions)|;
            var block := UnitOps(units[k], positions);
            && start + |block| <= |Ops(units, positions)|
            && Ops(units, positions)[start..start + |block|] == block
  {
    var pre, block := Ops(units[..k], positions), UnitOps(units[k], positions);
    assert units[..k + 1][..k] == units[..k];
    assert Ops(units[..k + 1], positions) == pre + block;
    OpsPrefix(units, positions, k + 1);
    assert (pre + block)[|pre|..|pre| + |block|] == block;
  }

  /** A unit's own operations carry exactly one label, its ROI identity. */
  lemma UnitLabel(u: TrackingUnit, positions: map<int, Position>)
    ensures Labels(UnitOps(u, positions)) == [u.roi.idx]
  {
    var ops := UnitOps(u, positions);
    assert ops[..1][..0] == [];
    assert Labels(ops[..1]) == [u.roi.idx];
    if |ops| == 3 {
      assert ops[..2][..1] == ops[..1];
      assert Labels(ops[..2]) == [u.roi.idx];
      assert ops[..3] == ops;
    } else {
      assert ops[..1] == ops;
    }
  }

  /** Every unit's label is drawn, exactly once each, in unit order. */
  lemma {:induction false} LabelsInUnitOrder(units: seq<TrackingUnit>, positions: map<int, Position>)
    ensures Labels(Ops(units, positions)) == Ids(units)
    decreases |units|
  {
    if units != [] {
      var init := units[..|units| - 1];
      var u := units[|units| - 1];
      LabelsInUnitOrder(init, positions);
      LabelsAppend(Ops(init, positions), UnitOps(u, positions));
      UnitLabel(u, positions);
      assert Ids(units) == Ids(init) + [u.roi.idx];
    }
  }
}
