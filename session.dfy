/**
 * Reference semantics of `Monitor.run`: one iteration per camera step, folded
 * over the feed, between a prologue (window, result writer) and an epilogue
 * (store the exception, release the video writer). The imperative `Run` of
 * class `Monitor` is proved to compute exactly this; the lemmas below state what
 * a run guarantees.
 */
module Session {
  import opened Wrappers
  import opened Domain
  import opened Overlay
  import opened Collaborators
  import opened Tracking

  /** What the constructor stores and a run only reads. */
  datatype Config = Config(
    units: seq<TrackingUnit>,
    resultFile: Option<string>,
    drawResults: bool,
    drawEveryN: int,
    videoOut: Option<string>,
    maxDurationMs: int)

  /** The fields a run or `stop()` changes and the accessors read. */
  datatype State = State(
    positions: map<int, Position>,
    lastTs: int,
    frameBuffer: Option<Frame>,
    forceStop: bool,
    exception: Option<Error>)

  /** Why the frame loop ended. */
  datatype Exit = Exhausted | StoppedByRequest | StoppedByTimeout | Faulted(error: Error)

  /**
   * The loop's data: the monitor's fields, the video writer (its geometry once
   * opened), the calls made so far, how many frames were taken into processing
   * (their time stamp stored), and the reason the loop ends, once known.
   */
  datatype Progress = Progress(
    state: State, video: Option<Geometry>, trace: seq<Event>, frames: nat, exit: Option<Exit>)

  /** `stop()`: sets the stop flag unless an exception is stored, which it raises instead. */
  function Stopped(s: State): (r: State)
    ensures r.forceStop == (s.forceStop || s.exception.None?)
    ensures r.(forceStop := s.forceStop) == s
  {
    if s.exception.Some? then s else s.(forceStop := true)
  }

  /** `stop()` called twice does what it does once. */
  lemma StopIdempotent(s: State)
    ensures Stopped(Stopped(s)) == Stopped(s)
  {
  }

  function Fault(p: Progress, e: Error): Progress
  {
    p.(exit := Some(Faulted(e)))
  }

  /** The video writer is opened lazily, sized to the frame. */
  function OpenVideoStep(cfg: Config, env: Environment, p: Progress, i: nat, frame: Frame): Progress
  {
    if p.exit.Some? || cfg.videoOut.None? || p.video.Some? then p
    else match env.raises(OpenVideo(i))
      case Some(e) => Fault(p, e)
      case None =>
        var g := Geometry(frame.width, frame.height);
        p.(video := Some(g), trace := p.trace + [VideoOpened(g)])
  }

  /** Frame i is handed to every unit, in list order. */
  function TrackStep(cfg: Config, env: Environment, writer: bool, p: Progress, i: nat, t: int): Progress
  {
    if p.exit.Some? then p
    else
      var f := FanOut(cfg.units, env, i, t, writer, p.state.positions, |cfg.units|);
      p.(state := p.state.(positions := f.positions),
         trace := p.trace + f.events,
         exit := if f.error.Some? then Some(Faulted(f.error.value)) else None)
  }

  /** The result writer is flushed once per frame, when there is one. */
  function FlushStep(env: Environment, writer: bool, p: Progress, i: nat): Progress
  {
    if p.exit.Some? || !writer then p
    else match env.raises(FlushRows(i))
      case Some(e) => Fault(p, e)
      case None => p.(trace := p.trace + [Flushed])
  }

  /**
   * Whether frame i goes to the window: `draw_results and i % draw_every_n == 0`.
   * Python's `%` floors and Dafny's is Euclidean, but both leave 0 exactly when
   * `draw_every_n` divides i.
   */
  predicate ShowNow(cfg: Config, i: nat)
    requires !(cfg.drawResults && cfg.drawEveryN == 0)
  {
    cfg.drawResults && i % cfg.drawEveryN == 0
  }

  /** The annotated frame is rendered once and sent to the window and the video writer. */
  function OutputStep(cfg: Config, env: Environment, p: Progress, i: nat, frame: Frame): Progress
  {
    if p.exit.Some? then p
    else if cfg.drawResults && cfg.drawEveryN == 0 then Fault(p, ZeroDivisionError)
    else if !ShowNow(cfg, i) && p.video.None? then p
    else Render(cfg, env, p, i, frame)
  }

  /** Drawing the positions on the frame, then delivering the image. */
  function Render(cfg: Config, env: Environment, p: Progress, i: nat, frame: Frame): Progress
    requires !(cfg.drawResults && cfg.drawEveryN == 0)
  {
    match env.raises(DrawFrame(i))
    case Some(e) => Fault(p, e)
    case None =>
      Deliver(env, p.(trace := p.trace + [Rendered]), i, ShowNow(cfg, i), p.video.Some?,
              Annotate(frame, cfg.units, p.state.positions))
  }

  /**
   * Emitting a frame only appends to the trace and may end the loop by an
   * exception, a zero display stride being one; the fields, the video writer
   * and the frame count stay as they are.
   */
  lemma OutputShape(cfg: Config, env: Environment, p: Progress, i: nat, frame: Frame)
    requires p.exit.None?
    ensures var r := OutputStep(cfg, env, p, i, frame);
      && r.state == p.state && r.video == p.video && r.frames == p.frames
      && (r.exit.None? || r.exit.value.Faulted?)
      && |p.trace| <= |r.trace| && r.trace[..|p.trace|] == p.trace
      && (cfg.drawResults && cfg.drawEveryN == 0 ==> r == Fault(p, ZeroDivisionError))
  {
    if !(cfg.drawResults && cfg.drawEveryN == 0) && (ShowNow(cfg, i) || p.video.Some?)
       && env.raises(DrawFrame(i)).None? {
      var img := Annotate(frame, cfg.units, p.state.positions);
      var q := p.(trace := p.trace + [Rendered]);
      DeliverShape(env, q, i, ShowNow(cfg, i), p.video.Some?, img);
    }
  }

  /** The rendered image goes to the window when `show`... */
  function ShowStage(env: Environment, p: Progress, i: nat, show: bool, img: Annotated): Progress
  {
    if !show then p
    else match env.raises(ShowFrame(i))
      case Some(e) => Fault(p, e)
      case None => p.(trace := p.trace + [Shown(img)])
  }

  /** ...then, unless that failed, to the video writer when `video`. */
  function VideoStage(env: Environment, p: Progress, i: nat, video: bool, img: Annotated): Progress
  {
    if p.exit.Some? || !video then p
    else match env.raises(WriteVideo(i))
      case Some(e) => Fault(p, e)
      case None => p.(trace := p.trace + [VideoFrame(img)])
  }

  function Deliver(env: Environment, p: Progress, i: nat, show: bool, video: bool, img: Annotated): Progress
  {
    VideoStage(env, ShowStage(env, p, i, show, img), i, video, img)
  }

  lemma DeliverShape(env: Environment, p: Progress, i: nat, show: bool, video: bool, img: Annotated)
    requires p.exit.None?
    ensures var r := Deliver(env, p, i, show, video, img);
      && r.state == p.state && r.video == p.video && r.frames == p.frames
      && (r.exit.None? || r.exit.value.Faulted?)
      && |p.trace| <= |r.trace| && r.trace[..|p.trace|] == p.trace
  {
    var p1 := ShowStage(env, p, i, show, img);
    assert p1.trace[..|p.trace|] == p.trace;
    if p1.exit.None? && video && env.raises(WriteVideo(i)).None? {
      assert (p1.trace + [VideoFrame(img)])[..|p.trace|] == p.trace;
    }
  }

  /**
   * What a frame sends out when nothing raises: one rendering when it goes to
   * the window or a video writer is open, then the window, then the video.
   */
  function Outputs(show: bool, video: bool, img: Annotated): seq<Event>
  {
    if !show && !video then []
    else [Rendered] + (if show then [Shown(img)] else []) + (if video then [VideoFrame(img)] else [])
  }

  /**
   * The output decision: a frame emits a prefix of its outputs, all of them
   * exactly when none of the calls raised; a frame that neither goes to the
   * window nor to a video writer renders nothing.
   */
  lemma OutputDecision(cfg: Config, env: Environment, p: Progress, i: nat, frame: Frame)
    requires p.exit.None? && !(cfg.drawResults && cfg.drawEveryN == 0)
    ensures var r := OutputStep(cfg, env, p, i, frame);
            var full := Outputs(ShowNow(cfg, i), p.video.Some?, Annotate(frame, cfg.units, p.state.positions));
            && r.trace[|p.trace|..] <= full
            && (r.exit.None? <==> r.trace[|p.trace|..] == full)
  {
    var r := OutputStep(cfg, env, p, i, frame);
    var show, video := ShowNow(cfg, i), p.video.Some?;
    var img := Annotate(frame, cfg.units, p.state.positions);
    var full := Outputs(show, video, img);
    if show || video {
      if env.raises(DrawFrame(i)).Some? {
        assert r.trace[|p.trace|..] == [];
      } else if show && env.raises(ShowFrame(i)).Some? {
        assert r.trace == p.trace + [Rendered];
        assert r.trace[|p.trace|..] == [Rendered];
      } else if video && env.raises(WriteVideo(i)).Some? {
        assert r.trace == p.trace + [Rendered] + (if show then [Shown(img)] else []);
        assert r.trace[|p.trace|..] == [Rendered] + (if show then [Shown(img)] else []);
      } else {
        assert r.trace == p.trace + full;
        assert r.trace[|p.trace|..] == full;
      }
    } else {
      assert r.trace[|p.trace|..] == [];
    }
  }

  /** Everything done for a frame that passed the stop checks, after its time stamp is stored. */
  function Process(cfg: Config, env: Environment, writer: bool, p: Progress, i: nat, t: int, frame: Frame): Progress
  {
    var p := OpenVideoStep(cfg, env, p, i, frame);
    var p := TrackStep(cfg, env, writer, p, i, t);
    var p := FlushStep(env, writer, p, i);
    OutputStep(cfg, env, p, i, frame)
  }

  /** The fields once a stop request due before camera step i has arrived. */
  function Arrive(env: Environment, s: State, i: nat): State
  {
    if env.stopAt == Some(i) then Stopped(s) else s
  }

  /**
   * One pass of the frame loop, on camera step i. A stop request arriving
   * before it is applied with `stop()`'s semantics; then the frame is pulled,
   * then the stop flag and then the timeout are checked.
   */
  function Iteration(cfg: Config, env: Environment, writer: bool, p: Progress, i: nat, g: Grab): Progress
  {
    if p.exit.Some? then p else Pull(cfg, env, writer, p.(state := Arrive(env, p.state, i)), i, g)
  }

  /** The loop's data once camera step k passed the checks: its time stamp and frame stored, and counted. */
  function Taken(p: Progress, s: State, t: int, frame: Frame): Progress
  {
    p.(state := s.(lastTs := t, frameBuffer := Some(frame)), frames := p.frames + 1)
  }

  /** Pulling camera step i, which yields g, then the stop flag and time limit checks, then the frame's processing. */
  function Pull(cfg: Config, env: Environment, writer: bool, p: Progress, i: nat, g: Grab): Progress
  {
    match g
    case GrabRaises(e) => Fault(p, e)
    case Grab(t, frame) =>
      if p.state.forceStop then p.(exit := Some(StoppedByRequest))
      else if t > cfg.maxDurationMs then p.(exit := Some(StoppedByTimeout))
      else Process(cfg, env, writer, Taken(p, p.state, t, frame), i, t, frame)
  }

  /** The loop's data after the first k camera steps. */
  function Loop(cfg: Config, feed: seq<Grab>, env: Environment, writer: bool, p0: Progress, k: nat): Progress
    requires k <= |feed|
  {
    if k == 0 then p0 else Iteration(cfg, env, writer, Loop(cfg, feed, env, writer, p0, k - 1), k - 1, feed[k - 1])
  }

  /** The part of `run` before the loop: open the window, then the result writer. */
  datatype Opening = Opening(writer: bool, trace: seq<Event>, error: Option<Error>)

  function Prologue(cfg: Config, env: Environment): Opening
  {
    if cfg.drawResults && env.raises(NamedWindow).Some? then Opening(false, [], env.raises(NamedWindow))
    else
      var trace := if cfg.drawResults then [WindowOpened] else [];
      if cfg.resultFile.None? then Opening(false, trace, None)
      else if env.raises(OpenWriter).Some? then Opening(false, trace, env.raises(OpenWriter))
      else Opening(true, trace + [WriterOpened], None)
  }

  function Start(s: State, trace: seq<Event>): Progress
  {
    Progress(s, None, trace, 0, None)
  }

  /** What a run leaves behind: the new fields, the calls made, the frames processed, why it ended. */
  datatype Finish = Finish(state: State, trace: seq<Event>, frames: nat, exit: Exit)

  /**
   * A whole call of `run` on a monitor whose fields are s, with the camera
   * yielding `feed`. A stop request that did not arrive inside the loop (it
   * came during the prologue, with no camera step left, or while the last
   * step pulled was being processed) arrives before the exception is stored;
   * that arrival is written as `stop()` applied once more after the loop,
   * which changes nothing for a request the loop already saw
   * (`SessionFacts.StopAppliedOnce`).
   */
  function RunOf(cfg: Config, feed: seq<Grab>, env: Environment, s: State): Finish
  {
    var pro := Prologue(cfg, env);
    if pro.error.Some? then
      var s' := if env.stopAt.Some? then Stopped(s) else s;
      Finish(s'.(exception := pro.error), pro.trace, 0, Faulted(pro.error.value))
    else
      var p := Loop(cfg, feed, env, pro.writer, Start(s, pro.trace), |feed|);
      var exit := if p.exit.Some? then p.exit.value else Exhausted;
      var st := if env.stopAt.Some? then Stopped(p.state) else p.state;
      Finish(st.(exception := if exit.Faulted? then Some(exit.error) else p.state.exception),
             p.trace + (if p.video.Some? then [VideoReleased] else []),
             p.frames, exit)
  }
}

module SessionFacts {
  import opened Wrappers
  import opened Domain
  import opened Overlay
  import opened Collaborators
  import opened Tracking
  import opened Session

  /** The ROI identities of the units, as a set. */
  function UnitKeys(units: seq<TrackingUnit>): set<int>
  {
    set j | 0 <= j < |units| :: units[j].roi.idx
  }

  /** One frame of tolerance in the counts, for a loop ended by an exception mid-frame. */
  function Slack(p: Progress): nat
  {
    if p.exit.Some? && p.exit.value.Faulted? then 1 else 0
  }

  /** Nothing but the stop flag has changed since p0. */
  ghost predicate Untouched(p0: Progress, p: Progress)
  {
    && p.state.positions == p0.state.positions
    && p.state.lastTs == p0.state.lastTs
    && p.state.frameBuffer == p0.state.frameBuffer
    && p.trace == p0.trace
    && p.video.None?
  }

  /** The loop's data before the first iteration: no video writer, and no frame calls made yet. */
  ghost predicate StartOk(p0: Progress)
  {
    && p0.frames == 0 && p0.video.None? && p0.exit.None?
    && Tally(p0.trace, KFlush) == 0 && Tally(p0.trace, KVideoOpen) == 0
    && Tally(p0.trace, KRelease) == 0 && Tally(p0.trace, KVideoFrame) == 0
  }

  /** What holds after k iterations of the loop begun from p0. */
  ghost predicate Inv(cfg: Config, writer: bool, p0: Progress, p: Progress, k: nat)
  {
    && p.frames <= k
    && (p.exit.None? ==> p.frames == k)
    && (p.exit.Some? ==> !p.exit.value.Exhausted?)
    && p.state.exception == p0.state.exception
    && (p0.state.forceStop ==> p.state.forceStop && p.frames == 0)
    && (p.frames == 0 ==> Untouched(p0, p))
    && (p.frames > 0 ==> p.state.lastTs <= cfg.maxDurationMs)
    && p0.state.positions.Keys <= p.state.positions.Keys
    && p.state.positions.Keys <= p0.state.positions.Keys + UnitKeys(cfg.units)
    && (p.video.Some? ==> cfg.videoOut.Some?)
    && Tally(p.trace, KVideoOpen) == (if p.video.Some? then 1 else 0)
    && Tally(p.trace, KRelease) == 0
    && (!writer ==> Tally(p.trace, KFlush) == 0)
    && (writer ==> Tally(p.trace, KFlush) <= p.frames <= Tally(p.trace, KFlush) + Slack(p))
    && (p.video.None? ==> Tally(p.trace, KVideoFrame) == 0)
    && (cfg.videoOut.Some? ==> Tally(p.trace, KVideoFrame) <= p.frames <= Tally(p.trace, KVideoFrame) + Slack(p))
  }

  lemma OpenVideoFacts(cfg: Config, env: Environment, q: Progress, i: nat, frame: Frame)
    requires q.exit.None?
    ensures var r := OpenVideoStep(cfg, env, q, i, frame);
      && r.state == q.state && r.frames == q.frames
      && (r.exit.None? || r.exit.value.Faulted?)
      && (q.video.Some? || cfg.videoOut.None? ==> r == q)
      && (cfg.videoOut.Some? && q.video.None? ==> (r.exit.None? <==> r.video.Some?))
      && (r.video.Some? && q.video.None? ==>
            r.video == Some(Geometry(frame.width, frame.height)) && r.trace == q.trace + [VideoOpened(r.video.value)])
      && Tally(r.trace, KVideoOpen) == Tally(q.trace, KVideoOpen) + (if r.video.Some? && q.video.None? then 1 else 0)
      && forall k :: k != KVideoOpen ==> Tally(r.trace, k) == Tally(q.trace, k)
  {
    var r := OpenVideoStep(cfg, env, q, i, frame);
    if r.trace != q.trace {
      TallySnoc(q.trace, VideoOpened(r.video.value));
    }
  }

  lemma TrackFacts(cfg: Config, env: Environment, writer: bool, q: Progress, i: nat, t: int)
    requires q.exit.None?
    ensures var r := TrackStep(cfg, env, writer, q, i, t);
      && r.state == q.state.(positions := r.state.positions) && r.video == q.video && r.frames == q.frames
      && (r.exit.None? || r.exit.value.Faulted?)
      && q.state.positions.Keys <= r.state.positions.Keys
      && r.state.positions.Keys <= q.state.positions.Keys + UnitKeys(cfg.units)
      && forall k :: k != KRow ==> Tally(r.trace, k) == Tally(q.trace, k)
  {
    var f := FanOut(cfg.units, env, i, t, writer, q.state.positions, |cfg.units|);
    FanOutKeys(cfg.units, env, i, t, writer, q.state.positions, |cfg.units|);
    FanOutOnlyRows(cfg.units, env, i, t, writer, q.state.positions, |cfg.units|);
    forall k | k != KRow ensures Tally(q.trace + f.events, k) == Tally(q.trace, k) {
      TallyAppend(q.trace, f.events, k);
      TallyAbsent(f.events, k);
    }
  }

  lemma FlushFacts(env: Environment, writer: bool, q: Progress, i: nat)
    requires q.exit.None?
    ensures var r := FlushStep(env, writer, q, i);
      && r.state == q.state && r.video == q.video && r.frames == q.frames
      && (r.exit.None? || r.exit.value.Faulted?)
      && Tally(r.trace, KFlush) == Tally(q.trace, KFlush) + (if writer && r.exit.None? then 1 else 0)
      && forall k :: k != KFlush ==> Tally(r.trace, k) == Tally(q.trace, k)
  {
    var r := FlushStep(env, writer, q, i);
    if r.trace != q.trace {
      TallySnoc(q.trace, Flushed);
    }
  }

  lemma ShowFacts(env: Environment, q: Progress, i: nat, show: bool, img: Annotated)
    ensures var r := ShowStage(env, q, i, show, img);
      forall k :: k != KShow ==> Tally(r.trace, k) == Tally(q.trace, k)
  {
    if show && env.raises(ShowFrame(i)).None? {
      TallySnoc(q.trace, Shown(img));
    }
  }

  lemma VideoFacts(env: Environment, q: Progress, i: nat, video: bool, img: Annotated)
    ensures var r := VideoStage(env, q, i, video, img);
      && Tally(r.trace, KVideoFrame) == Tally(q.trace, KVideoFrame) + (if video && r.exit.None? then 1 else 0)
      && forall k :: k != KVideoFrame ==> Tally(r.trace, k) == Tally(q.trace, k)
  {
    if q.exit.None? && video && env.raises(WriteVideo(i)).None? {
      TallySnoc(q.trace, VideoFrame(img));
    }
  }

  lemma DeliverFacts(env: Environment, q: Progress, i: nat, show: bool, video: bool, img: Annotated)
    requires q.exit.None?
    ensures var r := Deliver(env, q, i, show, video, img);
      && Tally(r.trace, KVideoFrame) == Tally(q.trace, KVideoFrame) + (if video && r.exit.None? then 1 else 0)
      && forall k :: k != KVideoFrame && k != KShow ==> Tally(r.trace, k) == Tally(q.trace, k)
  {
    ShowFacts(env, q, i, show, img);
    VideoFacts(env, ShowStage(env, q, i, show, img), i, video, img);
  }

  lemma RenderFacts(cfg: Config, env: Environment, q: Progress, i: nat, frame: Frame)
    requires q.exit.None? && !(cfg.drawResults && cfg.drawEveryN == 0)
    ensures var r := Render(cfg, env, q, i, frame);
      && Tally(r.trace, KVideoFrame) == Tally(q.trace, KVideoFrame) + (if q.video.Some? && r.exit.None? then 1 else 0)
      && forall k :: k != KVideoFrame && k != KRender && k != KShow ==> Tally(r.trace, k) == Tally(q.trace, k)
  {
    if env.raises(DrawFrame(i)).None? {
      TallySnoc(q.trace, Rendered);
      DeliverFacts(env, q.(trace := q.trace + [Rendered]), i, ShowNow(cfg, i), q.video.Some?,
                   Annotate(frame, cfg.units, q.state.positions));
    }
  }

  lemma OutputFacts(cfg: Config, env: Environment, q: Progress, i: nat, frame: Frame)
    requires q.exit.None?
    ensures var r := OutputStep(cfg, env, q, i, frame);
      && Tally(r.trace, KVideoFrame) == Tally(q.trace, KVideoFrame) + (if q.video.Some? && r.exit.None? then 1 else 0)
      && forall k :: k != KVideoFrame && k != KRender && k != KShow ==> Tally(r.trace, k) == Tally(q.trace, k)
  {
    if !(cfg.drawResults && cfg.drawEveryN == 0) && (ShowNow(cfg, i) || q.video.Some?) {
      RenderFacts(cfg, env, q, i, frame);
    }
  }

  /** A processed frame changes only the positions, the video writer, the trace and the exit. */
  lemma ProcessShape(cfg: Config, env: Environment, writer: bool, q: Progress, i: nat, t: int, frame: Frame)
    requires q.exit.None?
    ensures var r := Process(cfg, env, writer, q, i, t, frame);
      && r.state == q.state.(positions := r.state.positions) && r.frames == q.frames
      && (r.exit.None? || r.exit.value.Faulted?)
      && q.state.positions.Keys <= r.state.positions.Keys
      && r.state.positions.Keys <= q.state.positions.Keys + UnitKeys(cfg.units)
      && (q.video.Some? ==> r.video == q.video)
      && (r.video.Some? ==> cfg.videoOut.Some?  || q.video.Some?)
      && (cfg.videoOut.Some? && r.exit.None? ==> r.video.Some?)
  {
    var p1 := OpenVideoStep(cfg, env, q, i, frame);
    OpenVideoFacts(cfg, env, q, i, frame);
    if p1.exit.None? {
      TrackFacts(cfg, env, writer, p1, i, t);
      var p2 := TrackStep(cfg, env, writer, p1, i, t);
      if p2.exit.None? {
        FlushFacts(env, writer, p2, i);
        var p3 := FlushStep(env, writer, p2, i);
        if p3.exit.None? {
          OutputShape(cfg, env, p3, i, frame);
        }
      }
    }
  }

  /** What a processed frame adds to the trace, kind by kind. */
  lemma ProcessTallies(cfg: Config, env: Environment, writer: bool, q: Progress, i: nat, t: int, frame: Frame)
    requires q.exit.None?
    ensures var r := Process(cfg, env, writer, q, i, t, frame);
      && Tally(r.trace, KVideoOpen) == Tally(q.trace, KVideoOpen) + (if r.video.Some? && q.video.None? then 1 else 0)
      && Tally(r.trace, KRelease) == Tally(q.trace, KRelease)
      && Tally(q.trace, KFlush) <= Tally(r.trace, KFlush) <= Tally(q.trace, KFlush) + 1
      && (!writer ==> Tally(r.trace, KFlush) == Tally(q.trace, KFlush))
      && (writer && r.exit.None? ==> Tally(r.trace, KFlush) == Tally(q.trace, KFlush) + 1)
      && Tally(q.trace, KVideoFrame) <= Tally(r.trace, KVideoFrame) <= Tally(q.trace, KVideoFrame) + 1
      && (r.video.None? ==> Tally(r.trace, KVideoFrame) == Tally(q.trace, KVideoFrame))
      && (r.video.Some? && r.exit.None? ==> Tally(r.trace, KVideoFrame) == Tally(q.trace, KVideoFrame) + 1)
  {
    var p1 := OpenVideoStep(cfg, env, q, i, frame);
    OpenVideoFacts(cfg, env, q, i, frame);
    if p1.exit.None? {
      TrackFacts(cfg, env, writer, p1, i, t);
      var p2 := TrackStep(cfg, env, writer, p1, i, t);
      if p2.exit.None? {
        FlushFacts(env, writer, p2, i);
        var p3 := FlushStep(env, writer, p2, i);
        if p3.exit.None? {
          OutputShape(cfg, env, p3, i, frame);
          OutputFacts(cfg, env, p3, i, frame);
        }
      }
    }
  }

  /**
   * Processing a frame only appends to the trace; when it opens the video
   * writer, it does so first, with the dimensions of that frame.
   */
  lemma ProcessTrace(cfg: Config, env: Environment, writer: bool, q: Progress, i: nat, t: int, frame: Frame)
    requires q.exit.None?
    ensures var r := Process(cfg, env, writer, q, i, t, frame);
      && q.trace <= r.trace
      && (q.video.None? && r.video.Some? ==>
            r.video == Some(Geometry(frame.width, frame.height)) && q.trace + [VideoOpened(r.video.value)] <= r.trace)
  {
    OpenVideoFacts(cfg, env, q, i, frame);
    AfterOpening(cfg, env, writer, OpenVideoStep(cfg, env, q, i, frame), i, t, frame);
  }

  /** The steps after the video writer's opening keep it and only append to the trace. */
  lemma AfterOpening(cfg: Config, env: Environment, writer: bool, p: Progress, i: nat, t: int, frame: Frame)
    ensures var r := OutputStep(cfg, env, FlushStep(env, writer, TrackStep(cfg, env, writer, p, i, t), i), i, frame);
      r.video == p.video && p.trace <= r.trace
  {
    var p2 := TrackStep(cfg, env, writer, p, i, t);
    var p3 := FlushStep(env, writer, p2, i);
    assert p.trace <= p2.trace;
    assert p2.trace <= p3.trace;
    if p3.exit.None? {
      OutputShape(cfg, env, p3, i, frame);
    }
  }

  /** The three ways an iteration goes, once the loop has not ended before it. */
  lemma IterationCases(cfg: Config, env: Environment, writer: bool, p: Progress, i: nat, g: Grab)
    requires p.exit.None?
    ensures var s := Arrive(env, p.state, i);
            var r := Iteration(cfg, env, writer, p, i, g);
      && (g.GrabRaises? ==> r == p.(state := s, exit := Some(Faulted(g.error))))
      && (g.Grab? && s.forceStop ==> r == p.(state := s, exit := Some(StoppedByRequest)))
      && (g.Grab? && !s.forceStop && g.t > cfg.maxDurationMs ==> r == p.(state := s, exit := Some(StoppedByTimeout)))
      && (g.Grab? && !s.forceStop && g.t <= cfg.maxDurationMs ==>
            r == Process(cfg, env, writer, Taken(p, s, g.t, g.frame), i, g.t, g.frame))
  {
  }

  /** An iteration after the loop has ended changes nothing. */
  lemma IterationAbsorbs(cfg: Config, env: Environment, writer: bool, p: Progress, i: nat, g: Grab)
    requires p.exit.Some?
    ensures Iteration(cfg, env, writer, p, i, g) == p
  {
  }

  /** Processing a frame leaves the count of frames as it is and can end the loop only by an exception. */
  lemma ProcessFrames(cfg: Config, env: Environment, writer: bool, q: Progress, i: nat, t: int, frame: Frame)
    requires q.exit.None?
    ensures var r := Process(cfg, env, writer, q, i, t, frame);
      r.frames == q.frames && (r.exit.None? || r.exit.value.Faulted?)
  {
    var p1 := OpenVideoStep(cfg, env, q, i, frame);
    var p2 := TrackStep(cfg, env, writer, p1, i, t);
    var p3 := FlushStep(env, writer, p2, i);
    assert p3.frames == q.frames && (p3.exit.None? || p3.exit.value.Faulted?);
    if p3.exit.None? {
      OutputShape(cfg, env, p3, i, frame);
    }
  }

  /**
   * An iteration counts at most one frame; one that does not end the loop
   * counts exactly one, and one that sees a camera exception, a stop request
   * or the time limit counts none.
   */
  lemma IterationFrames(cfg: Config, env: Environment, writer: bool, p: Progress, i: nat, g: Grab)
    ensures var r := Iteration(cfg, env, writer, p, i, g);
      && p.frames <= r.frames <= p.frames + 1
      && (p.exit.None? && r.exit.None? ==> r.frames == p.frames + 1)
      && (p.exit.None? && (g.GrabRaises? || Arrive(env, p.state, i).forceStop || g.t > cfg.maxDurationMs) ==>
            r.exit.Some? && r.frames == p.frames)
  {
    if p.exit.None? {
      IterationCases(cfg, env, writer, p, i, g);
      var s := Arrive(env, p.state, i);
      if g.Grab? && !s.forceStop && g.t <= cfg.maxDurationMs {
        ProcessFrames(cfg, env, writer, Taken(p, s, g.t, g.frame), i, g.t, g.frame);
      }
    }
  }

  /** An iteration counts at most one frame, and one exactly when the loop runs on; it never loses a frame. */
  lemma IterationCounts(cfg: Config, env: Environment, writer: bool, p: Progress, i: nat, g: Grab)
    requires Counted(p, i)
    ensures Counted(Iteration(cfg, env, writer, p, i, g), i + 1)
    ensures p.exit.None? ==> i <= Iteration(cfg, env, writer, p, i, g).frames
  {
    IterationFrames(cfg, env, writer, p, i, g);
  }

  lemma IterationKeepsInv(cfg: Config, env: Environment, writer: bool, p0: Progress, p: Progress, k: nat, g: Grab)
    requires StartOk(p0) && Inv(cfg, writer, p0, p, k)
    ensures Inv(cfg, writer, p0, Iteration(cfg, env, writer, p, k, g), k + 1)
  {
    if p.exit.None? {
      IterationCases(cfg, env, writer, p, k, g);
      var s := Arrive(env, p.state, k);
      if g.Grab? && !s.forceStop && g.t <= cfg.maxDurationMs {
        ProcessKeepsInv(cfg, env, writer, p0, p, k, g.t, g.frame);
      }
    } else {
      IterationAbsorbs(cfg, env, writer, p, k, g);
    }
  }

  /** A frame that passed the checks keeps the invariant. */
  lemma ProcessKeepsInv(cfg: Config, env: Environment, writer: bool, p0: Progress, p: Progress, k: nat, t: int, frame: Frame)
    requires StartOk(p0) && Inv(cfg, writer, p0, p, k) && p.exit.None?
    requires !Arrive(env, p.state, k).forceStop && t <= cfg.maxDurationMs
    ensures Inv(cfg, writer, p0, Process(cfg, env, writer, Taken(p, Arrive(env, p.state, k), t, frame), k, t, frame), k + 1)
  {
    var q := Taken(p, Arrive(env, p.state, k), t, frame);
    ProcessShape(cfg, env, writer, q, k, t, frame);
    ProcessTallies(cfg, env, writer, q, k, t, frame);
  }

  lemma {:induction false} LoopInv(cfg: Config, feed: seq<Grab>, env: Environment, writer: bool, p0: Progress, k: nat)
    requires StartOk(p0) && k <= |feed|
    ensures Inv(cfg, writer, p0, Loop(cfg, feed, env, writer, p0, k), k)
    decreases k
  {
    if k > 0 {
      LoopInv(cfg, feed, env, writer, p0, k - 1);
      IterationKeepsInv(cfg, env, writer, p0, Loop(cfg, feed, env, writer, p0, k - 1), k - 1, feed[k - 1]);
    }
  }

  /** Once the loop has an exit reason, later camera steps change nothing. */
  lemma {:induction false} LoopAbsorbs(cfg: Config, feed: seq<Grab>, env: Environment, writer: bool, p0: Progress, k: nat, n: nat)
    requires k <= n <= |feed|
    requires Loop(cfg, feed, env, writer, p0, k).exit.Some?
    ensures Loop(cfg, feed, env, writer, p0, n) == Loop(cfg, feed, env, writer, p0, k)
    decreases n - k
  {
    if k < n {
      LoopAbsorbs(cfg, feed, env, writer, p0, k, n - 1);
      IterationAbsorbs(cfg, env, writer, Loop(cfg, feed, env, writer, p0, n - 1), n - 1, feed[n - 1]);
    }
  }

  /** The first k iterations read only the first m >= k camera steps. */
  lemma {:induction false} LoopFeedPrefix(cfg: Config, feed: seq<Grab>, env: Environment, writer: bool, p0: Progress, m: nat, k: nat)
    requires k <= m <= |feed|
    ensures Loop(cfg, feed, env, writer, p0, k) == Loop(cfg, feed[..m], env, writer, p0, k)
    decreases k
  {
    if k > 0 {
      LoopFeedPrefix(cfg, feed, env, writer, p0, m, k - 1);
      assert feed[..m][k - 1] == feed[k - 1];
    }
  }

  /** The number of processed frames never decreases along the loop. */
  lemma {:induction false} LoopFramesGrow(cfg: Config, feed: seq<Grab>, env: Environment, writer: bool, p0: Progress, j: nat, n: nat)
    requires j <= n <= |feed|
    ensures Loop(cfg, feed, env, writer, p0, j).frames <= Loop(cfg, feed, env, writer, p0, n).frames
    decreases n - j
  {
    if j < n {
      LoopStepFrames(cfg, feed, env, writer, p0, j);
      LoopFramesGrow(cfg, feed, env, writer, p0, j + 1, n);
    }
  }

  /** What one iteration of the loop does to the count of frames. */
  lemma LoopStepFrames(cfg: Config, feed: seq<Grab>, env: Environment, writer: bool, p0: Progress, k: nat)
    requires k < |feed|
    ensures var p, r := Loop(cfg, feed, env, writer, p0, k), Loop(cfg, feed, env, writer, p0, k + 1);
      && p.frames <= r.frames <= p.frames + 1
      && (p.exit.None? && r.exit.None? ==> r.frames == p.frames + 1)
  {
    IterationFrames(cfg, env, writer, Loop(cfg, feed, env, writer, p0, k), k, feed[k]);
  }

  /**
   * An iteration that counts a frame took a grab within the time limit; one
   * that ends the loop by the time limit saw a grab past it and counted nothing.
   */
  lemma IterationExit(cfg: Config, env: Environment, writer: bool, p: Progress, i: nat, g: Grab)
    requires p.exit.None?
    ensures var r := Iteration(cfg, env, writer, p, i, g);
      && (r.frames == p.frames + 1 ==> g.Grab? && g.t <= cfg.maxDurationMs)
      && (r.exit == Some(StoppedByTimeout) ==> g.Grab? && g.t > cfg.maxDurationMs && r.frames == p.frames)
  {
    IterationCases(cfg, env, writer, p, i, g);
    var s := Arrive(env, p.state, i);
    if g.Grab? && !s.forceStop && g.t <= cfg.maxDurationMs {
      ProcessFrames(cfg, env, writer, Taken(p, s, g.t, g.frame), i, g.t, g.frame);
    }
  }

  lemma LoopStepExit(cfg: Config, feed: seq<Grab>, env: Environment, writer: bool, p0: Progress, k: nat)
    requires k < |feed| && Loop(cfg, feed, env, writer, p0, k).exit.None?
    ensures var p, r := Loop(cfg, feed, env, writer, p0, k), Loop(cfg, feed, env, writer, p0, k + 1);
      && (r.frames == p.frames + 1 ==> feed[k].Grab? && feed[k].t <= cfg.maxDurationMs)
      && (r.exit == Some(StoppedByTimeout) ==> feed[k].Grab? && feed[k].t > cfg.maxDurationMs && r.frames == p.frames)
  {
    IterationExit(cfg, env, writer, Loop(cfg, feed, env, writer, p0, k), k, feed[k]);
  }

  /** The loop was running before step n, and had ended after it unless n is k. */
  ghost predicate Settles(cfg: Config, feed: seq<Grab>, env: Environment, writer: bool, p0: Progress, k: nat, n: nat)
    requires k <= |feed|
  {
    && n <= k
    && (n < k ==> Loop(cfg, feed, env, writer, p0, n).exit.Some?)
    && (n > 0 ==> Loop(cfg, feed, env, writer, p0, n - 1).exit.None?)
  }

  /** Within any k camera steps there is a step at which the loop settles. */
  lemma {:induction false} PulledExists(cfg: Config, feed: seq<Grab>, env: Environment, writer: bool, p0: Progress, k: nat)
    requires k <= |feed|
    ensures exists n: nat :: Settles(cfg, feed, env, writer, p0, k, n)
  {
    if k == 0 {
      assert Settles(cfg, feed, env, writer, p0, k, 0);
    } else {
      PulledExists(cfg, feed, env, writer, p0, k - 1);
      var n: nat :| Settles(cfg, feed, env, writer, p0, k - 1, n);
      if n == k - 1 && Loop(cfg, feed, env, writer, p0, k - 1).exit.None? {
        assert Settles(cfg, feed, env, writer, p0, k, k);
      } else {
        assert Settles(cfg, feed, env, writer, p0, k, n);
      }
    }
  }

  /**
   * How many of the first k camera steps the loop pulls: up to and including
   * the one that ended it. Before it the loop was running; after it, unless
   * it is step k, the loop had ended.
   */
  ghost function Pulled(cfg: Config, feed: seq<Grab>, env: Environment, writer: bool, p0: Progress, k: nat): (n: nat)
    requires k <= |feed|
    ensures n <= k
    ensures n < k ==> Loop(cfg, feed, env, writer, p0, n).exit.Some?
    ensures n > 0 ==> Loop(cfg, feed, env, writer, p0, n - 1).exit.None?
  {
    PulledExists(cfg, feed, env, writer, p0, k);
    var n: nat :| Settles(cfg, feed, env, writer, p0, k, n);
    n
  }

  /** The loop was still running before each frame it counted. */
  lemma LoopAliveBefore(cfg: Config, feed: seq<Grab>, env: Environment, writer: bool, p0: Progress, n: nat, j: nat)
    requires StartOk(p0) && n <= |feed| && j < Loop(cfg, feed, env, writer, p0, n).frames
    ensures j < n && Loop(cfg, feed, env, writer, p0, j).exit.None?
  {
    LoopBasics(cfg, feed, env, writer, p0, n);
    LoopBasics(cfg, feed, env, writer, p0, j);
    if Loop(cfg, feed, env, writer, p0, j).exit.Some? {
      LoopAbsorbs(cfg, feed, env, writer, p0, j, n);
    }
  }

  /** The step that follows a running loop counts a frame when a later count says so. */
  lemma LoopCountsStep(cfg: Config, feed: seq<Grab>, env: Environment, writer: bool, p0: Progress, n: nat, j: nat)
    requires StartOk(p0) && j < n <= |feed| && j < Loop(cfg, feed, env, writer, p0, n).frames
    requires Loop(cfg, feed, env, writer, p0, j).exit.None?
    ensures Loop(cfg, feed, env, writer, p0, j + 1).frames == Loop(cfg, feed, env, writer, p0, j).frames + 1
  {
    LoopBasics(cfg, feed, env, writer, p0, j);
    LoopBasics(cfg, feed, env, writer, p0, j + 1);
    if Loop(cfg, feed, env, writer, p0, j + 1).exit.Some? {
      LoopAbsorbs(cfg, feed, env, writer, p0, j + 1, n);
    }
  }

  /** Frame j, one of those the loop counted, was taken from a grab within the time limit. */
  lemma LoopTakenAt(cfg: Config, feed: seq<Grab>, env: Environment, writer: bool, p0: Progress, n: nat, j: nat)
    requires StartOk(p0) && n <= |feed| && j < Loop(cfg, feed, env, writer, p0, n).frames
    ensures j < n && feed[j].Grab? && feed[j].t <= cfg.maxDurationMs
  {
    LoopAliveBefore(cfg, feed, env, writer, p0, n, j);
    LoopCountsStep(cfg, feed, env, writer, p0, n, j);
    LoopStepExit(cfg, feed, env, writer, p0, j);
  }

  /** Every frame the loop counted was taken from a grab within the time limit. */
  lemma LoopTaken(cfg: Config, feed: seq<Grab>, env: Environment, writer: bool, p0: Progress, n: nat)
    requires StartOk(p0) && n <= |feed|
    ensures var p := Loop(cfg, feed, env, writer, p0, n);
      && p.frames <= n
      && forall j :: 0 <= j < p.frames ==> feed[j].Grab? && feed[j].t <= cfg.maxDurationMs
  {
    LoopBasics(cfg, feed, env, writer, p0, n);
    forall j | 0 <= j < Loop(cfg, feed, env, writer, p0, n).frames
      ensures feed[j].Grab? && feed[j].t <= cfg.maxDurationMs
    {
      LoopTakenAt(cfg, feed, env, writer, p0, n, j);
    }
  }

  /**
   * A loop ended by the time limit was ended by the last step it pulled: that
   * step saw a grab past the limit, and every step before it counted a frame,
   * so the grab past the limit is the one right after the last frame counted.
   */
  lemma LoopTimeout(cfg: Config, feed: seq<Grab>, env: Environment, writer: bool, p0: Progress, n: nat)
    requires n <= |feed| && p0.frames == 0 && p0.exit.None?
    requires Loop(cfg, feed, env, writer, p0, n).exit == Some(StoppedByTimeout)
    ensures var p := Loop(cfg, feed, env, writer, p0, n);
      p.frames < n && feed[p.frames].Grab? && feed[p.frames].t > cfg.maxDurationMs
  {
    var k := LastStep(cfg, feed, env, writer, p0, n);
    LoopTimeoutStep(cfg, feed, env, writer, p0, k);
  }

  /** A loop that had ended after n camera steps was ended by some step k before n, and stayed so. */
  lemma LastStep(cfg: Config, feed: seq<Grab>, env: Environment, writer: bool, p0: Progress, n: nat) returns (k: nat)
    requires n <= |feed| && p0.exit.None?
    requires Loop(cfg, feed, env, writer, p0, n).exit.Some?
    ensures k < n && k + 1 == Pulled(cfg, feed, env, writer, p0, n)
    ensures Loop(cfg, feed, env, writer, p0, k).exit.None?
    ensures Loop(cfg, feed, env, writer, p0, k + 1) == Loop(cfg, feed, env, writer, p0, n)
  {
    var m := Pulled(cfg, feed, env, writer, p0, n);
    PulledSettled(cfg, feed, env, writer, p0, n);
    PulledStop(cfg, feed, env, writer, p0, n);
    k := m - 1;
  }

  lemma LoopTimeoutStep(cfg: Config, feed: seq<Grab>, env: Environment, writer: bool, p0: Progress, k: nat)
    requires k < |feed| && p0.frames == 0
    requires Loop(cfg, feed, env, writer, p0, k).exit.None?
    requires Loop(cfg, feed, env, writer, p0, k + 1).exit == Some(StoppedByTimeout)
    ensures Loop(cfg, feed, env, writer, p0, k + 1).frames == k
    ensures feed[k].Grab? && feed[k].t > cfg.maxDurationMs
  {
    LoopCount(cfg, feed, env, writer, p0, k);
    IterationTimeout(cfg, env, writer, Loop(cfg, feed, env, writer, p0, k), k, feed[k]);
  }

  /** An iteration of a running loop that stops it by the time limit saw a grab past the limit and counted no frame. */
  lemma IterationTimeout(cfg: Config, env: Environment, writer: bool, p: Progress, i: nat, g: Grab)
    requires Counted(p, i)
    ensures var r := Iteration(cfg, env, writer, p, i, g);
      p.exit.None? && r.exit == Some(StoppedByTimeout) ==> r.frames == i && g.Grab? && g.t > cfg.maxDurationMs
  {
    if p.exit.None? {
      IterationExit(cfg, env, writer, p, i, g);
    }
  }

  /** A loop that had ended after n camera steps was running before the last step it pulled, and had ended after it. */
  lemma PulledStop(cfg: Config, feed: seq<Grab>, env: Environment, writer: bool, p0: Progress, n: nat)
    requires n <= |feed| && p0.exit.None?
    requires Loop(cfg, feed, env, writer, p0, n).exit.Some?
    ensures var m := Pulled(cfg, feed, env, writer, p0, n);
      && 0 < m <= n
      && Loop(cfg, feed, env, writer, p0, m - 1).exit.None?
      && Loop(cfg, feed, env, writer, p0, m).exit.Some?
  {
    var m := Pulled(cfg, feed, env, writer, p0, n);
    LoopZero(cfg, feed, env, writer, p0);
    assert Loop(cfg, feed, env, writer, p0, m).exit.Some? by {
      if m < n {
      } else {
        assert m == n;
      }
    }
  }

  /** Before any camera step the loop has its initial data. */
  lemma LoopZero(cfg: Config, feed: seq<Grab>, env: Environment, writer: bool, p0: Progress)
    ensures Loop(cfg, feed, env, writer, p0, 0) == p0
  {
  }

  /** The steps after the last one the loop pulled change nothing. */
  lemma PulledSettled(cfg: Config, feed: seq<Grab>, env: Environment, writer: bool, p0: Progress, n: nat)
    requires n <= |feed|
    ensures var m := Pulled(cfg, feed, env, writer, p0, n);
      m <= n && Loop(cfg, feed, env, writer, p0, n) == Loop(cfg, feed, env, writer, p0, m)
  {
    var m := Pulled(cfg, feed, env, writer, p0, n);
    if m < n {
      LoopAbsorbs(cfg, feed, env, writer, p0, m, n);
    }
  }

  /**
   * An iteration only appends to the trace and keeps an open video writer;
   * one that opens the writer took a frame and opened it first, with that
   * frame's dimensions.
   */
  lemma IterationTrace(cfg: Config, env: Environment, writer: bool, p: Progress, i: nat, g: Grab)
    ensures var r := Iteration(cfg, env, writer, p, i, g);
      && p.trace <= r.trace
      && (p.video.Some? ==> r.video == p.video)
      && (p.video.None? && r.video.Some? ==>
            g.Grab? && r.video == Some(Geometry(g.frame.width, g.frame.height))
            && p.trace + [VideoOpened(r.video.value)] <= r.trace)
  {
    if p.exit.None? {
      IterationCases(cfg, env, writer, p, i, g);
      var s := Arrive(env, p.state, i);
      if g.Grab? && !s.forceStop && g.t <= cfg.maxDurationMs {
        var q := Taken(p, s, g.t, g.frame);
        ProcessShape(cfg, env, writer, q, i, g.t, g.frame);
        ProcessTrace(cfg, env, writer, q, i, g.t, g.frame);
      }
    } else {
      IterationAbsorbs(cfg, env, writer, p, i, g);
    }
  }

  lemma LoopStepTrace(cfg: Config, feed: seq<Grab>, env: Environment, writer: bool, p0: Progress, k: nat)
    requires k < |feed|
    ensures var p, r := Loop(cfg, feed, env, writer, p0, k), Loop(cfg, feed, env, writer, p0, k + 1);
      p.trace <= r.trace && (p.video.Some? ==> r.video == p.video)
  {
    IterationTrace(cfg, env, writer, Loop(cfg, feed, env, writer, p0, k), k, feed[k]);
  }

  /** Along the loop the trace only grows at its end, and an open video writer stays the same. */
  lemma {:induction false} LoopTracePrefix(cfg: Config, feed: seq<Grab>, env: Environment, writer: bool, p0: Progress, j: nat, n: nat)
    requires j <= n <= |feed|
    ensures var p, r := Loop(cfg, feed, env, writer, p0, j), Loop(cfg, feed, env, writer, p0, n);
      p.trace <= r.trace && (p.video.Some? ==> r.video == p.video)
    decreases n - j
  {
    if j < n {
      LoopStepTrace(cfg, feed, env, writer, p0, j);
      LoopTracePrefix(cfg, feed, env, writer, p0, j + 1, n);
    }
  }

  /**
   * A video writer open after the loop was opened by the first camera step,
   * with the dimensions of its frame, as the first call after the prologue.
   */
  lemma LoopVideoOpened(cfg: Config, feed: seq<Grab>, env: Environment, writer: bool, p0: Progress, n: nat)
    requires StartOk(p0) && n <= |feed|
    requires Loop(cfg, feed, env, writer, p0, n).video.Some?
    ensures var p := Loop(cfg, feed, env, writer, p0, n);
      && 0 < n && feed[0].Grab?
      && p.video == Some(Geometry(feed[0].frame.width, feed[0].frame.height))
      && p0.trace + [VideoOpened(p.video.value)] <= p.trace
  {
    assert n > 0;
    LoopVideoBasics(cfg, feed, env, writer, p0, n);
    LoopVideoBasics(cfg, feed, env, writer, p0, 1);
    LoopBasics(cfg, feed, env, writer, p0, 1);
    if Loop(cfg, feed, env, writer, p0, 1).exit.Some? {
      LoopAbsorbs(cfg, feed, env, writer, p0, 1, n);
    }
    IterationTrace(cfg, env, writer, p0, 0, feed[0]);
    LoopTracePrefix(cfg, feed, env, writer, p0, 1, n);
  }

  lemma PrologueStarts(cfg: Config, env: Environment, s: State)
    ensures StartOk(Start(s, Prologue(cfg, env).trace))
  {
    PrologueEvents(cfg, env);
    OpeningTallies(Prologue(cfg, env).trace);
  }

  /** A trace of openings only holds no flush, video opening, release or video frame. */
  lemma OpeningTallies(t: seq<Event>)
    requires forall n :: 0 <= n < |t| ==> t[n] == WindowOpened || t[n] == WriterOpened
    ensures Tally(t, KFlush) == 0 && Tally(t, KVideoOpen) == 0
    ensures Tally(t, KRelease) == 0 && Tally(t, KVideoFrame) == 0
  {
    TallyAbsent(t, KFlush);
    TallyAbsent(t, KVideoOpen);
    TallyAbsent(t, KRelease);
    TallyAbsent(t, KVideoFrame);
  }

  /** The invariant at the end of the loop of a run whose prologue succeeded. */
  lemma FinalInv(cfg: Config, feed: seq<Grab>, env: Environment, s: State)
    requires Prologue(cfg, env).error.None?
    ensures var pro := Prologue(cfg, env);
            Inv(cfg, pro.writer, Start(s, pro.trace), Loop(cfg, feed, env, pro.writer, Start(s, pro.trace), |feed|), |feed|)
  {
    var pro := Prologue(cfg, env);
    PrologueStarts(cfg, env, s);
    LoopInv(cfg, feed, env, pro.writer, Start(s, pro.trace), |feed|);
  }

  /**
   * How a successful prologue's run ends: the loop's frame count and exit
   * reason, exhaustion when the loop ran out of camera steps, and the loop's
   * calls followed by the video writer's release when one was opened. The
   * stored exception is stated by `StoredException`, the stop flag by
   * `StopFlag`.
   */
  lemma Epilogue(cfg: Config, feed: seq<Grab>, env: Environment, s: State)
    requires Prologue(cfg, env).error.None?
    ensures var pro := Prologue(cfg, env);
            var p := Loop(cfg, feed, env, pro.writer, Start(s, pro.trace), |feed|);
            var o := RunOf(cfg, feed, env, s);
            && o.frames == p.frames
            && o.trace == (if p.video.Some? then p.trace + [VideoReleased] else p.trace)
            && (p.exit.Some? ==> o.exit == p.exit.value)
            && (p.exit.None? ==> o.exit == Exhausted)
  {
    var pro := Prologue(cfg, env);
    var p := Loop(cfg, feed, env, pro.writer, Start(s, pro.trace), |feed|);
    assert p.trace + [] == p.trace;
  }

  /** The prologue records only the opening of the window and of the result writer. */
  lemma PrologueEvents(cfg: Config, env: Environment)
    ensures var t := Prologue(cfg, env).trace;
      forall n :: 0 <= n < |t| ==> t[n] == WindowOpened || t[n] == WriterOpened
  {
    var t := Prologue(cfg, env).trace;
    var w: seq<Event> := if cfg.drawResults then [WindowOpened] else [];
    assert t == [] || t == w || t == w + [WriterOpened];
  }

  /**
   * A run that opened the video writer did so on its first camera frame, with
   * that frame's width and height, as the first call after the prologue's
   * window and result writer, and so before every video frame; with a video
   * output, a run that processed a frame and did not fail opened it.
   */
  lemma VideoGeometry(cfg: Config, feed: seq<Grab>, env: Environment, s: State)
    ensures var o := RunOf(cfg, feed, env, s);
            var pro := Prologue(cfg, env).trace;
      && (cfg.videoOut.Some? && o.frames > 0 && !o.exit.Faulted? ==> Tally(o.trace, KVideoOpen) == 1)
      && (Tally(o.trace, KVideoOpen) == 1 ==>
            && 0 < |feed| && feed[0].Grab?
            && |pro| < |o.trace| && o.trace[..|pro|] == pro
            && o.trace[|pro|] == VideoOpened(Geometry(feed[0].frame.width, feed[0].frame.height)))
  {
    var pro := Prologue(cfg, env);
    PrologueStarts(cfg, env, s);
    if pro.error.None? {
      var p0 := Start(s, pro.trace);
      Epilogue(cfg, feed, env, s);
      LoopVideoBasics(cfg, feed, env, pro.writer, p0, |feed|);
      var p := Loop(cfg, feed, env, pro.writer, p0, |feed|);
      ReleaseTallies(p.trace, p.video.Some?);
      if p.video.Some? {
        LoopVideoOpened(cfg, feed, env, pro.writer, p0, |feed|);
        OpenedAfter(pro.trace, p.video.value, p.trace);
      }
    }
  }

  /** A run writes no video frame before it opens the video writer. */
  lemma OpenedBeforeFrames(cfg: Config, feed: seq<Grab>, env: Environment, s: State)
    ensures var o := RunOf(cfg, feed, env, s);
            var pro := Prologue(cfg, env).trace;
      Tally(o.trace, KVideoOpen) == 1 ==>
        |pro| < |o.trace| && o.trace[|pro|].VideoOpened?
        && forall n :: 0 <= n <= |pro| ==> !o.trace[n].VideoFrame?
  {
    var o := RunOf(cfg, feed, env, s);
    var pro := Prologue(cfg, env).trace;
    VideoGeometry(cfg, feed, env, s);
    PrologueEvents(cfg, env);
    if Tally(o.trace, KVideoOpen) == 1 {
      NoFrameBefore(pro, o.trace);
    }
  }

  /** A trace that starts with prologue events and then an opening has no video frame up to the opening. */
  lemma NoFrameBefore(pro: seq<Event>, trace: seq<Event>)
    requires |pro| < |trace| && trace[..|pro|] == pro && trace[|pro|].VideoOpened?
    requires forall n :: 0 <= n < |pro| ==> pro[n] == WindowOpened || pro[n] == WriterOpened
    ensures forall n :: 0 <= n <= |pro| ==> !trace[n].VideoFrame?
  {
    forall n | 0 <= n < |pro|
      ensures !trace[n].VideoFrame?
    {
      assert trace[n] == trace[..|pro|][n];
    }
  }

  /** An opening that followed a prefix of a trace still follows it once the release is appended. */
  lemma OpenedAfter(pro: seq<Event>, g: Geometry, trace: seq<Event>)
    requires pro + [VideoOpened(g)] <= trace
    ensures var o := trace + [VideoReleased];
      |pro| < |o| && o[..|pro|] == pro && o[|pro|] == VideoOpened(g)
  {
    var o := trace + [VideoReleased];
    assert o[..|pro|] == trace[..|pro|] == (pro + [VideoOpened(g)])[..|pro|];
    assert o[|pro|] == (pro + [VideoOpened(g)])[|pro|];
  }

  /**
   * The video writer is opened at most once, only when a video output is
   * configured, and released exactly when it was opened, as the last call.
   */
  lemma VideoLifecycle(cfg: Config, feed: seq<Grab>, env: Environment, s: State)
    ensures var o := RunOf(cfg, feed, env, s);
      && Tally(o.trace, KVideoOpen) <= 1
      && Tally(o.trace, KRelease) == Tally(o.trace, KVideoOpen)
      && (Tally(o.trace, KRelease) == 1 ==> o.trace[|o.trace| - 1] == VideoReleased)
      && (cfg.videoOut.None? ==> Tally(o.trace, KVideoOpen) == 0)
  {
    var pro := Prologue(cfg, env);
    PrologueStarts(cfg, env, s);
    if pro.error.None? {
      FinalInv(cfg, feed, env, s);
      Epilogue(cfg, feed, env, s);
      var p := Loop(cfg, feed, env, pro.writer, Start(s, pro.trace), |feed|);
      ReleaseTallies(p.trace, p.video.Some?);
    }
  }

  /** Appending the release to a trace with the writer opened once, never released. */
  lemma ReleaseTallies(trace: seq<Event>, isOpen: bool)
    requires Tally(trace, KRelease) == 0 && Tally(trace, KVideoOpen) == (if isOpen then 1 else 0)
    ensures var t := if isOpen then trace + [VideoReleased] else trace;
      && Tally(t, KVideoOpen) == Tally(t, KRelease) == (if isOpen then 1 else 0)
      && (isOpen ==> t[|t| - 1] == VideoReleased)
      && Tally(t, KFlush) == Tally(trace, KFlush) && Tally(t, KVideoFrame) == Tally(trace, KVideoFrame)
  {
    if isOpen {
      TallySnoc(trace, VideoReleased);
    }
  }

  /**
   * With a result file the writer is flushed once per processed frame, even
   * when no unit produced a row; only a frame cut short by an exception may
   * miss its flush. Without one nothing is flushed.
   */
  lemma FlushPerFrame(cfg: Config, feed: seq<Grab>, env: Environment, s: State)
    ensures var o := RunOf(cfg, feed, env, s);
      && (cfg.resultFile.None? ==> Tally(o.trace, KFlush) == 0)
      && (cfg.resultFile.Some? && !o.exit.Faulted? ==> Tally(o.trace, KFlush) == o.frames)
      && (cfg.resultFile.Some? ==> Tally(o.trace, KFlush) <= o.frames <= Tally(o.trace, KFlush) + 1)
  {
    var pro := Prologue(cfg, env);
    PrologueStarts(cfg, env, s);
    if pro.error.None? {
      FinalInv(cfg, feed, env, s);
      Epilogue(cfg, feed, env, s);
      var p := Loop(cfg, feed, env, pro.writer, Start(s, pro.trace), |feed|);
      ReleaseTallies(p.trace, p.video.Some?);
    }
  }

  /**
   * With a video output every processed frame is written to the video,
   * whatever the display stride; only a frame cut short by an exception may
   * be missing. Without one no video frame is written.
   */
  lemma EveryFrameRecorded(cfg: Config, feed: seq<Grab>, env: Environment, s: State)
    ensures var o := RunOf(cfg, feed, env, s);
      && (cfg.videoOut.None? ==> Tally(o.trace, KVideoFrame) == 0)
      && (cfg.videoOut.Some? && !o.exit.Faulted? ==> Tally(o.trace, KVideoFrame) == o.frames)
      && (cfg.videoOut.Some? ==> Tally(o.trace, KVideoFrame) <= o.frames <= Tally(o.trace, KVideoFrame) + 1)
  {
    var pro := Prologue(cfg, env);
    PrologueStarts(cfg, env, s);
    if pro.error.None? {
      FinalInv(cfg, feed, env, s);
      Epilogue(cfg, feed, env, s);
      var p := Loop(cfg, feed, env, pro.writer, Start(s, pro.trace), |feed|);
      ReleaseTallies(p.trace, p.video.Some?);
    }
  }

  /**
   * The exception is stored exactly when the run ended by one; a run that
   * ends by exhaustion, stop request or timeout leaves the stored exception
   * as it was. A run ends by exhaustion only after processing every frame.
   */
  lemma StoredException(cfg: Config, feed: seq<Grab>, env: Environment, s: State)
    ensures var o := RunOf(cfg, feed, env, s);
      && o.state.exception == (if o.exit.Faulted? then Some(o.exit.error) else s.exception)
      && (o.exit.Exhausted? ==> o.frames == |feed|)
      && o.frames <= |feed|
  {
    if Prologue(cfg, env).error.None? {
      FinalInv(cfg, feed, env, s);
    }
  }

  /**
   * Positions are never removed by a run, and only the units' ROI identities
   * are ever added.
   */
  lemma PositionsOnlyGrow(cfg: Config, feed: seq<Grab>, env: Environment, s: State)
    ensures var o := RunOf(cfg, feed, env, s);
      && s.positions.Keys <= o.state.positions.Keys
      && o.state.positions.Keys <= s.positions.Keys + UnitKeys(cfg.units)
  {
    if Prologue(cfg, env).error.None? {
      FinalInv(cfg, feed, env, s);
    }
  }

  /**
   * The time stamp stored last is within the maximum duration (every frame
   * processed is, by `TimeLimit`); a run that processed nothing leaves the time stamp, the frame buffer and the
   * positions as they were.
   */
  lemma TimeoutBound(cfg: Config, feed: seq<Grab>, env: Environment, s: State)
    ensures var o := RunOf(cfg, feed, env, s);
      && (o.frames > 0 ==> o.state.lastTs <= cfg.maxDurationMs)
      && (o.frames == 0 ==> o.state.lastTs == s.lastTs && o.state.frameBuffer == s.frameBuffer
                            && o.state.positions == s.positions)
  {
    if Prologue(cfg, env).error.None? {
      FinalInv(cfg, feed, env, s);
    }
  }

  /**
   * Every frame a run processed came from a grab within the maximum
   * duration, in feed order; a run ended by the time limit ended at the grab
   * right after its last processed frame, which was past the limit.
   */
  lemma TimeLimit(cfg: Config, feed: seq<Grab>, env: Environment, s: State)
    ensures var o := RunOf(cfg, feed, env, s);
      && o.frames <= |feed|
      && (forall j :: 0 <= j < o.frames ==> feed[j].Grab? && feed[j].t <= cfg.maxDurationMs)
      && (o.exit.StoppedByTimeout? ==>
            o.frames < |feed| && feed[o.frames].Grab? && feed[o.frames].t > cfg.maxDurationMs)
  {
    var pro := Prologue(cfg, env);
    if pro.error.None? {
      PrologueStarts(cfg, env, s);
      Epilogue(cfg, feed, env, s);
      LoopTimeLimit(cfg, feed, env, pro.writer, Start(s, pro.trace), |feed|);
    }
  }

  lemma LoopTimeLimit(cfg: Config, feed: seq<Grab>, env: Environment, writer: bool, p0: Progress, n: nat)
    requires StartOk(p0) && n <= |feed|
    ensures var p := Loop(cfg, feed, env, writer, p0, n);
      && p.frames <= n
      && (forall j :: 0 <= j < p.frames ==> feed[j].Grab? && feed[j].t <= cfg.maxDurationMs)
      && (p.exit == Some(StoppedByTimeout) ==>
            p.frames < n && feed[p.frames].Grab? && feed[p.frames].t > cfg.maxDurationMs)
  {
    LoopTaken(cfg, feed, env, writer, p0, n);
    if Loop(cfg, feed, env, writer, p0, n).exit == Some(StoppedByTimeout) {
      LoopTimeout(cfg, feed, env, writer, p0, n);
    }
  }

  /** After k camera steps the loop has counted at most k frames, and exactly k while it is still running. */
  ghost predicate Counted(p: Progress, k: nat)
  {
    p.frames <= k && (p.exit.None? ==> p.frames == k)
  }

  /** A loop begun with no frame counted has counted one frame per step while it runs. */
  lemma {:induction false} LoopCount(cfg: Config, feed: seq<Grab>, env: Environment, writer: bool, p0: Progress, k: nat)
    requires k <= |feed| && p0.frames == 0
    ensures Counted(Loop(cfg, feed, env, writer, p0, k), k)
  {
    if k > 0 {
      LoopCount(cfg, feed, env, writer, p0, k - 1);
      IterationCounts(cfg, env, writer, Loop(cfg, feed, env, writer, p0, k - 1), k - 1, feed[k - 1]);
    }
  }

  /**
   * A `stop()` that arrives before camera step k, while no exception is
   * stored, lets no frame from index k on be processed, and the run then does
   * not end by exhaustion.
   */
  lemma StopLatency(cfg: Config, feed: seq<Grab>, env: Environment, s: State, k: nat)
    requires env.stopAt == Some(k) && s.exception.None?
    ensures RunOf(cfg, feed, env, s).frames <= k
    ensures k < |feed| ==> !RunOf(cfg, feed, env, s).exit.Exhausted?
  {
    var pro := Prologue(cfg, env);
    if pro.error.None? {
      PrologueStarts(cfg, env, s);
      FinalInv(cfg, feed, env, s);
      Epilogue(cfg, feed, env, s);
      if k < |feed| {
        LoopStopped(cfg, feed, env, pro.writer, Start(s, pro.trace), k);
      }
    }
  }

  /** The part of the invariant a stop request needs: the frame count and the stored exception. */
  lemma LoopBasics(cfg: Config, feed: seq<Grab>, env: Environment, writer: bool, p0: Progress, k: nat)
    requires StartOk(p0) && k <= |feed|
    ensures var p := Loop(cfg, feed, env, writer, p0, k);
      && p.frames <= k && (p.exit.None? ==> p.frames == k) && p.state.exception == p0.state.exception
      && (p.exit.Some? ==> !p.exit.value.Exhausted?)
  {
    LoopInv(cfg, feed, env, writer, p0, k);
  }

  /** The part of the invariant about the video writer. */
  lemma LoopVideoBasics(cfg: Config, feed: seq<Grab>, env: Environment, writer: bool, p0: Progress, k: nat)
    requires StartOk(p0) && k <= |feed|
    ensures var p := Loop(cfg, feed, env, writer, p0, k);
      && (p.video.Some? ==> cfg.videoOut.Some?)
      && (cfg.videoOut.Some? && Slack(p) == 0 && p.video.None? ==> p.frames == 0)
      && Tally(p.trace, KVideoOpen) == (if p.video.Some? then 1 else 0)
      && Tally(p.trace, KRelease) == 0
  {
    LoopInv(cfg, feed, env, writer, p0, k);
  }

  /** A stop request due at step k, with no exception stored, ends the loop with at most k frames. */
  lemma LoopStopped(cfg: Config, feed: seq<Grab>, env: Environment, writer: bool, p0: Progress, k: nat)
    requires StartOk(p0) && p0.state.exception.None? && env.stopAt == Some(k) && k < |feed|
    ensures var last := Loop(cfg, feed, env, writer, p0, |feed|);
      last.exit.Some? && last.frames <= k
  {
    LoopBasics(cfg, feed, env, writer, p0, k);
    if Loop(cfg, feed, env, writer, p0, k).exit.Some? {
      LoopAbsorbs(cfg, feed, env, writer, p0, k, |feed|);
    } else {
      LoopStopStep(cfg, feed, env, writer, p0, k);
      LoopAbsorbs(cfg, feed, env, writer, p0, k + 1, |feed|);
    }
  }

  /** A stop request seen at camera step k ends a loop still running there, with no frame counted. */
  lemma LoopStopStep(cfg: Config, feed: seq<Grab>, env: Environment, writer: bool, p0: Progress, k: nat)
    requires k < |feed|
    requires var p := Loop(cfg, feed, env, writer, p0, k); p.exit.None? && Arrive(env, p.state, k).forceStop
    ensures var p, r := Loop(cfg, feed, env, writer, p0, k), Loop(cfg, feed, env, writer, p0, k + 1);
      r.exit.Some? && r.frames == p.frames
  {
    IterationFrames(cfg, env, writer, Loop(cfg, feed, env, writer, p0, k), k, feed[k]);
  }

  /**
   * A monitor already asked to stop processes no frame at all: positions,
   * time stamp and frame buffer stay as they were, and a non-empty feed ends
   * the run by the stop request or by the camera's exception.
   */
  lemma StopBeforeRun(cfg: Config, feed: seq<Grab>, env: Environment, s: State)
    requires s.forceStop
    ensures var o := RunOf(cfg, feed, env, s);
      && o.frames == 0
      && o.state.positions == s.positions && o.state.lastTs == s.lastTs && o.state.frameBuffer == s.frameBuffer
      && (|feed| > 0 ==> o.exit.StoppedByRequest? || o.exit.Faulted?)
  {
    var pro := Prologue(cfg, env);
    if pro.error.None? {
      var p0 := Start(s, pro.trace);
      FinalInv(cfg, feed, env, s);
      if |feed| > 0 {
        IterationFrames(cfg, env, pro.writer, p0, 0, feed[0]);
        IterationCases(cfg, env, pro.writer, p0, 0, feed[0]);
        LoopAbsorbs(cfg, feed, env, pro.writer, p0, 1, |feed|);
      }
    }
  }

  /**
   * Whether the stop request, if any, arrived inside the loop: it was due
   * before one of the first k camera steps, and the loop was still running
   * when that step came.
   */
  ghost predicate Delivered(cfg: Config, feed: seq<Grab>, env: Environment, writer: bool, p0: Progress, k: nat)
    requires k <= |feed|
  {
    env.stopAt.Some? && env.stopAt.value < k && Loop(cfg, feed, env, writer, p0, env.stopAt.value).exit.None?
  }

  /** An iteration changes the stop flag only by a stop request arriving at it while the loop runs. */
  lemma IterationFlag(cfg: Config, env: Environment, writer: bool, p: Progress, i: nat, g: Grab)
    ensures Iteration(cfg, env, writer, p, i, g).state.forceStop
      == (if p.exit.None? then Arrive(env, p.state, i).forceStop else p.state.forceStop)
  {
    if p.exit.None? {
      IterationCases(cfg, env, writer, p, i, g);
      var s := Arrive(env, p.state, i);
      if g.Grab? && !s.forceStop && g.t <= cfg.maxDurationMs {
        ProcessShape(cfg, env, writer, Taken(p, s, g.t, g.frame), i, g.t, g.frame);
      }
    }
  }

  /**
   * The stop flag after k camera steps is set exactly when it was set before
   * the loop, or a stop request arrived inside the loop while no exception
   * was stored.
   */
  lemma {:induction false} LoopFlag(cfg: Config, feed: seq<Grab>, env: Environment, writer: bool, p0: Progress, k: nat)
    requires StartOk(p0) && k <= |feed|
    ensures Loop(cfg, feed, env, writer, p0, k).state.forceStop
      == (p0.state.forceStop || (Delivered(cfg, feed, env, writer, p0, k) && p0.state.exception.None?))
  {
    if k > 0 {
      LoopFlag(cfg, feed, env, writer, p0, k - 1);
      LoopBasics(cfg, feed, env, writer, p0, k - 1);
      IterationFlag(cfg, env, writer, Loop(cfg, feed, env, writer, p0, k - 1), k - 1, feed[k - 1]);
    }
  }

  /**
   * The stop request is applied once: after a loop that already saw it,
   * applying `stop()` again leaves the fields as they are, so the run's
   * final arrival only affects a request that missed the loop.
   */
  lemma StopAppliedOnce(cfg: Config, feed: seq<Grab>, env: Environment, writer: bool, p0: Progress)
    requires StartOk(p0)
    ensures var p := Loop(cfg, feed, env, writer, p0, |feed|);
      Delivered(cfg, feed, env, writer, p0, |feed|) ==> Stopped(p.state) == p.state
  {
    LoopFlag(cfg, feed, env, writer, p0, |feed|);
    LoopBasics(cfg, feed, env, writer, p0, |feed|);
  }

  /**
   * A `stop()` during `run` is never lost: after the run the stop flag is set
   * exactly when it was set before, or a stop request came while no exception
   * was stored, whether it arrived in the prologue, inside the loop or after
   * the last camera step pulled.
   */
  lemma StopFlag(cfg: Config, feed: seq<Grab>, env: Environment, s: State)
    ensures RunOf(cfg, feed, env, s).state.forceStop == (s.forceStop || (env.stopAt.Some? && s.exception.None?))
  {
    var pro := Prologue(cfg, env);
    if pro.error.None? {
      PrologueStarts(cfg, env, s);
      LoopFlag(cfg, feed, env, pro.writer, Start(s, pro.trace), |feed|);
      LoopBasics(cfg, feed, env, pro.writer, Start(s, pro.trace), |feed|);
    }
  }

  /** How many camera steps a run pulls: none when its prologue fails. */
  ghost function RunSteps(cfg: Config, feed: seq<Grab>, env: Environment, s: State): (n: nat)
    ensures n <= |feed|
  {
    var pro := Prologue(cfg, env);
    if pro.error.Some? then 0 else Pulled(cfg, feed, env, pro.writer, Start(s, pro.trace), |feed|)
  }

  /**
   * The camera is not read past the step at which the run ended: the run
   * pulls the step of every processed frame and at most one more, all of the
   * feed when it ends by exhaustion, and a run over the feed cut after the
   * steps it pulled is the same run. In particular a fault is terminal:
   * nothing of the feed after it is ever pulled.
   */
  lemma LaterFramesIgnored(cfg: Config, feed: seq<Grab>, env: Environment, s: State)
    ensures var o, n := RunOf(cfg, feed, env, s), RunSteps(cfg, feed, env, s);
      && o.frames <= n <= |feed| && n <= o.frames + 1
      && (o.exit.Exhausted? ==> n == |feed|)
      && RunOf(cfg, feed[..n], env, s) == o
  {
    var pro := Prologue(cfg, env);
    if pro.error.None? {
      var p0 := Start(s, pro.trace);
      var f := |feed|;
      var n := Pulled(cfg, feed, env, pro.writer, p0, f);
      PrologueStarts(cfg, env, s);
      Epilogue(cfg, feed, env, s);
      PulledSettled(cfg, feed, env, pro.writer, p0, f);
      PulledFrames(cfg, feed, env, pro.writer, p0, f);
      LoopBasics(cfg, feed, env, pro.writer, p0, f);
      LoopFeedPrefix(cfg, feed, env, pro.writer, p0, n, n);
      assert |feed[..n]| == n;
    }
  }

  /** The loop counted a frame at every step it pulled but perhaps the last. */
  lemma PulledFrames(cfg: Config, feed: seq<Grab>, env: Environment, writer: bool, p0: Progress, k: nat)
    requires k <= |feed| && p0.frames == 0
    ensures var n := Pulled(cfg, feed, env, writer, p0, k);
            var p := Loop(cfg, feed, env, writer, p0, n);
      p.frames <= n <= p.frames + 1
  {
    LoopZero(cfg, feed, env, writer, p0);
    if Pulled(cfg, feed, env, writer, p0, k) > 0 {
      var j := LastPulled(cfg, feed, env, writer, p0, k);
      LoopCount(cfg, feed, env, writer, p0, j);
      IterationCounts(cfg, env, writer, Loop(cfg, feed, env, writer, p0, j), j, feed[j]);
      assert Loop(cfg, feed, env, writer, p0, j + 1) == Loop(cfg, feed, env, writer, p0, Pulled(cfg, feed, env, writer, p0, k));
    }
  }

  /** The step before the last one the loop pulled, at which the loop was still running. */
  lemma LastPulled(cfg: Config, feed: seq<Grab>, env: Environment, writer: bool, p0: Progress, k: nat) returns (j: nat)
    requires k <= |feed| && Pulled(cfg, feed, env, writer, p0, k) > 0
    ensures j < k && j + 1 == Pulled(cfg, feed, env, writer, p0, k)
    ensures Loop(cfg, feed, env, writer, p0, j).exit.None?
  {
    j := Pulled(cfg, feed, env, writer, p0, k) - 1;
  }

  /** A loop still running after m steps was running after every earlier step. */
  lemma RunningBefore(cfg: Config, feed: seq<Grab>, env: Environment, writer: bool, p0: Progress, m: nat, j: nat)
    requires j <= m <= |feed| && Loop(cfg, feed, env, writer, p0, m).exit.None?
    ensures Loop(cfg, feed, env, writer, p0, j).exit.None?
  {
    if Loop(cfg, feed, env, writer, p0, j).exit.Some? {
      LoopAbsorbs(cfg, feed, env, writer, p0, j, m);
    }
  }

  /** Before the last step it pulled, the loop was running and had counted one frame per step. */
  lemma BeforePulled(cfg: Config, feed: seq<Grab>, env: Environment, writer: bool, p0: Progress, k: nat, m: nat)
    requires k <= |feed| && p0.frames == 0 && m < Pulled(cfg, feed, env, writer, p0, k)
    ensures var p := Loop(cfg, feed, env, writer, p0, m); p.exit.None? && p.frames == m
  {
    RunningBeforePulled(cfg, feed, env, writer, p0, k, m);
    LoopCount(cfg, feed, env, writer, p0, m);
  }

  /** Before the last step it pulled, the loop was running. */
  lemma RunningBeforePulled(cfg: Config, feed: seq<Grab>, env: Environment, writer: bool, p0: Progress, k: nat, m: nat)
    requires k <= |feed| && m < Pulled(cfg, feed, env, writer, p0, k)
    ensures Loop(cfg, feed, env, writer, p0, m).exit.None?
  {
    var n := Pulled(cfg, feed, env, writer, p0, k);
    var j: nat := n - 1;
    assert Loop(cfg, feed, env, writer, p0, j).exit.None?;
    RunningBefore(cfg, feed, env, writer, p0, j, m);
  }

  /** A run over the feed cut before the last step the run pulled ends by exhaustion, with one frame per step. */
  lemma ShorterCut(cfg: Config, feed: seq<Grab>, env: Environment, s: State, m: nat)
    requires m < RunSteps(cfg, feed, env, s)
    ensures var o := RunOf(cfg, feed[..m], env, s); o.exit == Exhausted && o.frames == m
  {
    var pro := Prologue(cfg, env);
    var p0 := Start(s, pro.trace);
    PrologueStarts(cfg, env, s);
    BeforePulled(cfg, feed, env, pro.writer, p0, |feed|, m);
    LoopFeedPrefix(cfg, feed, env, pro.writer, p0, m, m);
    assert |feed[..m]| == m;
    Epilogue(cfg, feed[..m], env, s);
  }

  /** No shorter cut of the feed gives the same run: the camera steps the run pulls are all needed. */
  lemma EarliestCut(cfg: Config, feed: seq<Grab>, env: Environment, s: State)
    ensures forall m :: 0 <= m < RunSteps(cfg, feed, env, s) ==> RunOf(cfg, feed[..m], env, s) != RunOf(cfg, feed, env, s)
  {
    RunExhausted(cfg, feed, env, s);
    forall m | 0 <= m < RunSteps(cfg, feed, env, s)
      ensures RunOf(cfg, feed[..m], env, s) != RunOf(cfg, feed, env, s)
    {
      ShorterCut(cfg, feed, env, s, m);
    }
  }

  /** A run ends by exhaustion only after processing a frame at every camera step. */
  lemma RunExhausted(cfg: Config, feed: seq<Grab>, env: Environment, s: State)
    ensures var o := RunOf(cfg, feed, env, s); o.exit.Exhausted? ==> o.frames == |feed|
  {
    var pro := Prologue(cfg, env);
    if pro.error.None? {
      PrologueStarts(cfg, env, s);
      Epilogue(cfg, feed, env, s);
      LoopBasics(cfg, feed, env, pro.writer, Start(s, pro.trace), |feed|);
    }
  }
}
