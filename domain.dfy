/**
 * The entities the monitor handles. Geometry is in integer pixels and
 * time in integer milliseconds; the source's floats are not modelled.
 */
module Domain {
  import opened Wrappers

  datatype Point = Point(x: int, y: int)

  /** A region of interest: its identity, its outline and the anchor of its label. */
  datatype Roi = Roi(idx: int, polygon: seq<Point>, offset: Point)

  /** An absolute position reported by a tracking unit. */
  datatype Position = Position(x: int, y: int, w: int, h: int, phi: int,
                               isInferred: bool, hasInteracted: bool)

  /** A camera frame: opaque content and its dimensions in pixels. */
  datatype Frame = Frame(content: int, width: nat, height: nat)

  /** The fixed geometry a video writer is opened with: (width, height). */
  datatype Geometry = Geometry(width: nat, height: nat)

  /** An opaque data row a tracking unit hands to the result writer. */
  datatype Row = Row(fields: seq<int>)

  /** An opaque interactor. */
  datatype Interactor = Interactor(id: int)

  /** The tracker class each unit instantiates; opaque. */
  datatype TrackerClass = TrackerClass(name: string)

  /** One tracker bound to one ROI and at most one interactor. */
  datatype TrackingUnit = TrackingUnit(tracker: TrackerClass, roi: Roi, interactor: Option<Interactor>)

  /**
   * The exceptions the monitor raises itself, and `Raised` for any exception a
   * collaborator (camera, unit, writer, OpenCV) raises, identified by an opaque code.
   */
  datatype Error =
    | TypeError          // `None * 1000` in the constructor
    | ValueError         // interactor count differs from the ROI count
    | ZeroDivisionError  // `i % 0` when drawing every 0 frames
    | AttributeError     // drawing before any frame was stored (`None.copy()`)
    | Raised(code: int)

  /** The ROI identities of a list of units, in list order. */
  function Ids(units: seq<TrackingUnit>): (ids: seq<int>)
    ensures |ids| == |units|
    ensures forall k :: 0 <= k < |units| ==> ids[k] == units[k].roi.idx
  {
    seq(|units|, k requires 0 <= k < |units| => units[k].roi.idx)
  }

  /** No two units share an ROI identity. */
  predicate DistinctIds(units: seq<TrackingUnit>)
  {
    forall a, b :: 0 <= a < b < |units| ==> units[a].roi.idx != units[b].roi.idx
  }
}
