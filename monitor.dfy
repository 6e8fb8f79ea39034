/**
 * The `Monitor` object: it owns the tracking units, runs the frame loop over
 * the camera, and serves the last positions, time stamp and annotated frame
 * to other threads. Every method is proved to do what the reference
 * semantics of module `Session` says.
 */
module Monitor {
  import opened Wrappers
  import opened Domain
  import opened Overlay
  import opened Collaborators
  import opened Tracking
  import opened Session
  import opened SessionFacts

  class Monitor {
    // What the constructor stores and a run only reads.
    const units: seq<TrackingUnit>
    const resultFile: Option<string>
    const drawResults: bool
    const drawEveryN: int
    const videoOut: Option<string>
    const maxDurationMs: int

    // What a run and `stop()` change.
    var lastPositions: map<int, Position>
    var lastTimeStamp: int
    var frameBuffer: Option<Frame>
    var forceStop: bool
    var isRunning: bool
    var exception: Option<Error>

    function Settings(): Config
    {
      Config(units, resultFile, drawResults, drawEveryN, videoOut, maxDurationMs)
    }

    function Snapshot(): State
      reads this
    {
      State(lastPositions, lastTimeStamp, frameBuffer, forceStop, exception)
    }

    /** A monitor that has not run yet: no positions, time stamp 0, no frame, no stop request, no exception. */
    constructor (units: seq<TrackingUnit>, resultFile: Option<string>, drawResults: bool, drawEveryN: int,
                 videoOut: Option<string>, maxDurationMs: int)
      ensures Settings() == Config(units, resultFile, drawResults, drawEveryN, videoOut, maxDurationMs)
      ensures Snapshot() == State(map[], 0, None, false, None) && !isRunning
    {
      this.units := units;
      this.resultFile := resultFile;
      this.drawResults := drawResults;
      this.drawEveryN := drawEveryN;
      this.videoOut := videoOut;
      this.maxDurationMs := maxDurationMs;
      lastPositions := map[];
      lastTimeStamp := 0;
      frameBuffer := None;
      forceStop := false;
      isRunning := false;
      exception := None;
    }

    /**
     * `Monitor(...)`: a missing maximum duration fails as `None * 1000` does,
     * before anything else; otherwise the ROIs default to the camera's, the
     * camera is restarted, and one unit is built per ROI. `defaultRois` is
     * what the default ROI builder returns for the camera; `restarted` says
     * whether the camera was restarted. The other parameters default as in
     * the source: no ROIs, interactors, result file, video output or maximum
     * duration, no drawing, and a display stride of 1.
     */
    static method Create(tracker: TrackerClass, defaultRois: seq<Roi>,
                         rois: Option<seq<Roi>> := None, interactors: Option<seq<Interactor>> := None,
                         resultFile: Option<string> := None, drawResults: bool := false,
                         drawEveryN: int := 1, videoOut: Option<string> := None,
                         maxDurationS: Option<int> := None)
      returns (r: Result<Monitor, Error>, restarted: bool)
      ensures restarted <==> maxDurationS.Some?
      ensures var built := BuildUnits(tracker, if rois.Some? then rois.value else defaultRois, interactors);
        && (r.Success? <==> maxDurationS.Some? && built.Success?)
        && (r.Failure? ==> r.error == if maxDurationS.None? then TypeError else ValueError)
        && (r.Success? ==>
              && fresh(r.value)
              && r.value.Settings() == Config(built.value, resultFile, drawResults, drawEveryN, videoOut,
                                              maxDurationS.value * 1000)
              && r.value.Snapshot() == State(map[], 0, None, false, None)
              && !r.value.isRunning)
    {
      if maxDurationS.None? {
        return Failure(TypeError), false;
      }
      var theRois := if rois.Some? then rois.value else defaultRois;
      restarted := true;
      var built := BuildUnits(tracker, theRois, interactors);
      if built.Failure? {
        return Failure(built.error), restarted;
      }
      var m := new Monitor(built.value, resultFile, drawResults, drawEveryN, videoOut, maxDurationS.value * 1000);
      r := Success(m);
    }

    /** `last_positions`: the stored exception is raised instead. */
    function LastPositions(): (r: Result<map<int, Position>, Error>)
      reads this
      ensures r.Failure? <==> exception.Some?
      ensures r.Failure? ==> r.error == exception.value
      ensures r.Success? ==> r.value == lastPositions
    {
      if exception.Some? then Failure(exception.value) else Success(lastPositions)
    }

    /** `last_time_stamp`: the time of the last processed frame, in seconds. */
    function LastTimeStamp(): (r: Result<real, Error>)
      reads this
      ensures r.Failure? <==> exception.Some?
      ensures r.Failure? ==> r.error == exception.value
      ensures r.Success? ==> r.value * 1000.0 == lastTimeStamp as real
    {
      if exception.Some? then Failure(exception.value) else Success(lastTimeStamp as real / 1000.0)
    }

    /** `result_files`: the one configured result file, which may be `None`. */
    function ResultFiles(): (r: Result<seq<Option<string>>, Error>)
      reads this
      ensures r.Failure? <==> exception.Some?
      ensures r.Failure? ==> r.error == exception.value
      ensures r.Success? ==> r.value == [resultFile]
    {
      if exception.Some? then Failure(exception.value) else Success([resultFile])
    }

    /** `stop()`: raises the stored exception, or asks the frame loop to end. */
    method Stop() returns (r: Outcome<Error>)
      modifies this`forceStop
      ensures r == if exception.Some? then Fail(exception.value) else Pass
      ensures Snapshot() == Stopped(old(Snapshot()))
    {
      if exception.Some? {
        return Fail(exception.value);
      }
      forceStop := true;
      r := Pass;
    }

    /**
     * `_draw_on_frame`: a copy of the frame with, for each unit in order, its
     * label and, when its ROI has a known position, its outline and the
     * ellipse at that position.
     */
    method DrawOnFrame(frame: Frame) returns (img: Annotated)
      ensures img == Annotate(frame, units, lastPositions)
    {
      var ops: seq<DrawOp> := [];
      var k := 0;
      while k < |units|
        invariant 0 <= k <= |units|
        invariant ops == Ops(units[..k], lastPositions)
      {
        var u := units[k];
        ops := ops + [Label(u.roi.idx, u.roi.offset, LabelColour)];
        if u.roi.idx in lastPositions {
          var pos := lastPositions[u.roi.idx];
          var roiColour := if pos.hasInteracted then InteractedColour else IdleColour;
          var colour := if pos.isInferred then InferredColour else ObservedColour;
          ops := ops + [Outline(u.roi.polygon, roiColour)];
          ops := ops + [Ellipse(pos.x, pos.y, pos.w, pos.h, pos.phi, colour)];
        }
        assert units[..k + 1][..k] == units[..k];
        k := k + 1;
      }
      assert units[..k] == units;
      img := Annotated(frame, ops);
    }

    /**
     * `last_drawn_frame`: the stored exception is raised instead; before any
     * frame was stored, drawing on `None` fails.
     */
    method LastDrawnFrame() returns (r: Result<Annotated, Error>)
      ensures r.Failure? <==> exception.Some? || frameBuffer.None?
      ensures r.Failure? ==> r.error == if exception.Some? then exception.value else AttributeError
      ensures r.Success? ==> r.value == Annotate(frameBuffer.value, units, lastPositions)
    {
      if exception.Some? {
        return Failure(exception.value);
      }
      if frameBuffer.None? {
        return Failure(AttributeError);
      }
      var img := DrawOnFrame(frameBuffer.value);
      r := Success(img);
    }

    /**
     * The inner loop of `run` on frame i at time t: each unit in turn, until
     * one raises. Returns the rows written and the exception, if any.
     */
    method TrackUnits(env: Environment, i: nat, t: int, writer: bool) returns (rows: seq<Event>, err: Option<Error>)
      modifies this`lastPositions
      ensures var f := FanOut(units, env, i, t, writer, old(lastPositions), |units|);
        lastPositions == f.positions && rows == f.events && err == f.error
    {
      rows, err := [], None;
      var j := 0;
      while j < |units| && err.None?
        invariant 0 <= j <= |units|
        invariant Fan(lastPositions, rows, err) == FanOut(units, env, i, t, writer, old(lastPositions), j)
        decreases |units| - j
      {
        var u := units[j];
        match env.answer(i, j) {
          case Raises(e) =>
            err := Some(e);
          case Answer(row, pos) =>
            if row.Some? {
              if pos.Some? {
                lastPositions := lastPositions[u.roi.idx := pos.value];
              }
              if writer {
                match env.raises(WriteRow(i, j))
                case Some(e) =>
                  err := Some(e);
                case None =>
                  rows := rows + [RowWritten(t, u.roi, row.value)];
              }
            }
        }
        j := j + 1;
      }
      if err.Some? {
        FanOutAbsorbs(units, env, i, t, writer, old(lastPositions), j, |units|);
      }
    }

    /**
     * The part of `run` before the frame loop: open the window when drawing,
     * then the result writer when a result file is configured.
     */
    method Open(env: Environment) returns (writer: bool, trace: seq<Event>, err: Option<Error>)
      ensures Opening(writer, trace, err) == Prologue(Settings(), env)
    {
      writer, trace, err := false, [], None;
      if drawResults {
        match env.raises(NamedWindow) {
          case Some(e) =>
            return false, [], Some(e);
          case None =>
            trace := trace + [WindowOpened];
        }
      }
      if resultFile.Some? {
        match env.raises(OpenWriter) {
          case Some(e) =>
            return false, trace, Some(e);
          case None =>
            writer := true;
            trace := trace + [WriterOpened];
        }
      }
    }

    /**
     * Frame i, rendered and sent to the window every `draw_every_n` frames
     * when drawing, and to the video writer when one is open.
     */
    method Emit(env: Environment, i: nat, frame: Frame, vw: Option<Geometry>, trace: seq<Event>, ghost frames: nat)
      returns (trace': seq<Event>, exit: Option<Exit>)
      ensures Progress(Snapshot(), vw, trace', frames, exit)
        == OutputStep(Settings(), env, Progress(Snapshot(), vw, trace, frames, None), i, frame)
    {
      trace', exit := trace, None;
      if drawResults && drawEveryN == 0 {
        return trace, Some(Faulted(ZeroDivisionError));
      }
      var show := drawResults && i % drawEveryN == 0;
      if !show && vw.None? {
        return;
      }
      match env.raises(DrawFrame(i)) {
        case Some(e) =>
          return trace, Some(Faulted(e));
        case None =>
      }
      var img := DrawOnFrame(frame);
      trace' := trace' + [Rendered];
      if show {
        match env.raises(ShowFrame(i)) {
          case Some(e) =>
            return trace', Some(Faulted(e));
          case None =>
            trace' := trace' + [Shown(img)];
        }
      }
      if vw.Some? {
        match env.raises(WriteVideo(i)) {
          case Some(e) =>
            return trace', Some(Faulted(e));
          case None =>
            trace' := trace' + [VideoFrame(img)];
        }
      }
    }

    /**
     * The body of the frame loop for a frame that passed the stop checks and
     * whose time stamp is stored: open the video writer on the first such
     * frame, fan the frame out to the units, flush the rows, emit the outputs.
     */
    method ProcessFrame(env: Environment, writer: bool, i: nat, t: int, frame: Frame,
                        vw: Option<Geometry>, trace: seq<Event>, ghost frames: nat)
      returns (vw': Option<Geometry>, trace': seq<Event>, exit: Option<Exit>)
      modifies this`lastPositions
      ensures Progress(Snapshot(), vw', trace', frames, exit)
        == Process(Settings(), env, writer, Progress(old(Snapshot()), vw, trace, frames, None), i, t, frame)
    {
      var cfg := Settings();
      ghost var q := Progress(Snapshot(), vw, trace, frames, None);
      vw', trace', exit := vw, trace, None;
      if videoOut.Some? && vw.None? {
        match env.raises(OpenVideo(i)) {
          case Some(e) =>
            return vw, trace, Some(Faulted(e));
          case None =>
            vw' := Some(Geometry(frame.width, frame.height));
            trace' := trace' + [VideoOpened(vw'.value)];
        }
      }
      q := OpenVideoStep(cfg, env, q, i, frame);
      assert q == Progress(Snapshot(), vw', trace', frames, None);
      var rows, err := TrackUnits(env, i, t, writer);
      trace' := trace' + rows;
      if err.Some? {
        return vw', trace', Some(Faulted(err.value));
      }
      q := TrackStep(cfg, env, writer, q, i, t);
      assert q == Progress(Snapshot(), vw', trace', frames, None);
      if writer {
        match env.raises(FlushRows(i)) {
          case Some(e) =>
            return vw', trace', Some(Faulted(e));
          case None =>
            trace' := trace' + [Flushed];
        }
      }
      q := FlushStep(env, writer, q, i);
      assert q == Progress(Snapshot(), vw', trace', frames, None);
      trace', exit := Emit(env, i, frame, vw', trace', frames);
    }

    /**
     * Camera step i, which yields g: the frame is pulled, then the stop flag
     * and the time limit are checked before the frame is stored and processed.
     */
    method PullFrame(env: Environment, writer: bool, i: nat, g: Grab,
                     vw: Option<Geometry>, trace: seq<Event>, ghost frames: nat)
      returns (vw': Option<Geometry>, trace': seq<Event>, ghost frames': nat, exit: Option<Exit>)
      modifies this`lastPositions, this`lastTimeStamp, this`frameBuffer
      ensures Progress(Snapshot(), vw', trace', frames', exit)
        == Pull(Settings(), env, writer, Progress(old(Snapshot()), vw, trace, frames, None), i, g)
    {
      vw', trace', frames', exit := vw, trace, frames, None;
      ghost var p := Progress(Snapshot(), vw, trace, frames, None);
      match g {
        case GrabRaises(e) =>
          exit := Some(Faulted(e));
        case Grab(t, frame) =>
          if forceStop {
            exit := Some(StoppedByRequest);
          } else if t > maxDurationMs {
            exit := Some(StoppedByTimeout);
          } else {
            lastTimeStamp, frameBuffer := t, Some(frame);
            frames' := frames + 1;
            assert Progress(Snapshot(), vw, trace, frames', None) == Taken(p, p.state, t, frame);
            vw', trace', exit := ProcessFrame(env, writer, i, t, frame, vw, trace, frames');
            assert Pull(Settings(), env, writer, p, i, g) == Process(Settings(), env, writer, Taken(p, p.state, t, frame), i, t, frame);
          }
      }
    }

    /** One pass of the frame loop on camera step i: a stop request due now arrives, then the step is pulled. */
    method Iterate(env: Environment, writer: bool, i: nat, g: Grab,
                   vw: Option<Geometry>, trace: seq<Event>, ghost frames: nat)
      returns (vw': Option<Geometry>, trace': seq<Event>, ghost frames': nat, exit: Option<Exit>)
      modifies this`lastPositions, this`lastTimeStamp, this`frameBuffer, this`forceStop
      ensures Progress(Snapshot(), vw', trace', frames', exit)
        == Iteration(Settings(), env, writer, Progress(old(Snapshot()), vw, trace, frames, None), i, g)
    {
      if env.stopAt == Some(i) {
        var _ := Stop();
      }
      vw', trace', frames', exit := PullFrame(env, writer, i, g, vw, trace, frames);
    }

    /**
     * The frame loop of `run`, from the loop's data `p0` when it is entered:
     * one `Iterate` per camera step until one of them gives a reason to end.
     */
    method FrameLoop(camera: seq<Grab>, env: Environment, writer: bool, trace0: seq<Event>)
      returns (vw: Option<Geometry>, trace: seq<Event>, ghost frames: nat, exit: Option<Exit>)
      modifies this`lastPositions, this`lastTimeStamp, this`frameBuffer, this`forceStop
      ensures Progress(Snapshot(), vw, trace, frames, exit)
        == Loop(Settings(), camera, env, writer, Start(old(Snapshot()), trace0), |camera|)
    {
      ghost var p0 := Start(Snapshot(), trace0);
      vw, trace, frames, exit := None, trace0, 0, None;
      var i := 0;
      while i < |camera| && exit.None?
        invariant 0 <= i <= |camera|
        invariant Progress(Snapshot(), vw, trace, frames, exit) == Loop(Settings(), camera, env, writer, p0, i)
        decreases |camera| - i
      {
        vw, trace, frames, exit := Iterate(env, writer, i, camera[i], vw, trace, frames);
        i := i + 1;
      }
      if exit.Some? {
        LoopAbsorbs(Settings(), camera, env, writer, p0, i, |camera|);
      }
    }

    /**
     * `run()`: open the window and the result writer, then process camera
     * frames until the camera is exhausted, a stop request or the time limit
     * is seen, or something raises; store that exception, release the video
     * writer. The camera yields `camera`; a `stop()` from another thread
     * arrives as `env.stopAt` says, and one that misses the loop arrives
     * before the exception is stored. Returns the calls made, in order.
     */
    method Run(camera: seq<Grab>, env: Environment) returns (trace: seq<Event>)
      modifies this
      ensures var o := RunOf(Settings(), camera, env, old(Snapshot()));
        Snapshot() == o.state && trace == o.trace
      ensures !isRunning
    {
      var writer, err;
      writer, trace, err := Open(env);
      if err.Some? {
        if env.stopAt.Some? {
          var _ := Stop();
        }
        exception := err;
        isRunning := false;
        return;
      }
      isRunning := true;
      var vw, exit;
      ghost var frames;
      vw, trace, frames, exit := FrameLoop(camera, env, writer, trace);
      if env.stopAt.Some? {
        // a request the loop missed arrives now; one it saw is repeated, which changes nothing
        var _ := Stop();
      }
      if exit.Some? && exit.value.Faulted? {
        exception := Some(exit.value.error);
      }
      if vw.Some? {
        trace := trace + [VideoReleased];
      }
      isRunning := false;
    }
  }
}
