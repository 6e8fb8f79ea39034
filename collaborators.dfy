/**
 * The collaborators of a run, as inputs, and the calls the run makes on
 * them, as a trace of events.
 */
module Collaborators {
  import opened Wrappers
  import opened Domain
  import opened Overlay

  /** One step of iterating the camera: a time-stamped frame, or an exception. */
  datatype Grab = Grab(t: int, frame: Frame) | GrabRaises(error: Error)

  /**
   * What a tracking unit does when called on a frame: it returns a data row
   * or `None`, and then reports its last absolute position or `None`; or one
   * of these two calls raises.
   */
  datatype Answer = Answer(row: Option<Row>, position: Option<Position>) | Raises(error: Error)

  /** The calls into OpenCV and the result writer that may raise. */
  datatype Call =
    | NamedWindow
    | OpenWriter
    | WriteRow(frame: nat, unit: nat)
    | FlushRows(frame: nat)
    | OpenVideo(frame: nat)
    | DrawFrame(frame: nat)
    | ShowFrame(frame: nat)
    | WriteVideo(frame: nat)

  /**
   * Everything a run reads from outside besides the camera: each unit's
   * answer on each frame (frame index, unit index), which calls raise, and
   * the frame index before whose stop checks an outside `stop()` arrives, if
   * any (one due at a step the loop never pulls arrives while `run` is
   * finishing, before an exception is stored). The camera itself is a finite sequence of `Grab`s; it is exhausted
   * at its end.
   */
  datatype Environment = Environment(
    answer: (nat, nat) -> Answer,
    raises: Call -> Option<Error>,
    stopAt: Option<nat>)

  /** The calls a run completes, in order. */
  datatype Event =
    | WindowOpened
    | WriterOpened
    | RowWritten(t: int, roi: Roi, row: Row)
    | Flushed
    | VideoOpened(geometry: Geometry)
    | Rendered
    | Shown(image: Annotated)
    | VideoFrame(image: Annotated)
    | VideoReleased

  datatype Kind = KWindow | KWriter | KRow | KFlush | KVideoOpen | KRender | KShow | KVideoFrame | KRelease

  function KindOf(e: Event): Kind
  {
    match e
    case WindowOpened => KWindow
    case WriterOpened => KWriter
    case RowWritten(_, _, _) => KRow
    case Flushed => KFlush
    case VideoOpened(_) => KVideoOpen
    case Rendered => KRender
    case Shown(_) => KShow
    case VideoFrame(_) => KVideoFrame
    case VideoReleased => KRelease
  }

  /** How many events of a kind a trace holds. */
  function Tally(s: seq<Event>, k: Kind): nat
  {
    if s == [] then 0
    else Tally(s[..|s| - 1], k) + (if KindOf(s[|s| - 1]) == k then 1 else 0)
  }

  lemma {:induction false} TallyAppend(a: seq<Event>, b: seq<Event>, k: Kind)
    ensures Tally(a + b, k) == Tally(a, k) + Tally(b, k)
    decreases |b|
  {
    if b == [] {
      assert a + b == a;
    } else {
      var b' := b[..|b| - 1];
      assert (a + b)[..|a + b| - 1] == a + b';
      TallyAppend(a, b', k);
    }
  }

  lemma TallySnoc(s: seq<Event>, e: Event)
    ensures forall k :: Tally(s + [e], k) == Tally(s, k) + (if KindOf(e) == k then 1 else 0)
  {
    assert (s + [e])[..|s|] == s;
  }

  lemma TallyOne(e: Event, k: Kind)
    ensures Tally([e], k) == if KindOf(e) == k then 1 else 0
  {
    assert [e][..0] == [];
  }

  /** A trace without events of kind k tallies none of them. */
  lemma {:induction false} TallyAbsent(s: seq<Event>, k: Kind)
    requires forall n :: 0 <= n < |s| ==> KindOf(s[n]) != k
    ensures Tally(s, k) == 0
    decreases |s|
  {
    if s != [] {
      TallyAbsent(s[..|s| - 1], k);
    }
  }
}
