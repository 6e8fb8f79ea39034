# Monitor: a verified model of the tracking orchestrator

This project models the `Monitor` class of the pysolovideo tracking package
(`src/pysolovideo/tracking/monitor.py`). A `Monitor` owns one tracking unit
per region of interest (ROI). It pulls time-stamped frames from a camera and
hands each frame to every unit in turn. It records the last known position of
each ROI and writes the rows the units return to a result writer. It renders
an annotated copy of the frame for a live window and a video file. It stops on
an external `stop()` request, on a maximum duration, when the camera is
exhausted, or when anything raises; in that last case the exception is stored
and re-raised by every accessor.

The project has these files:

- `wrappers.dfy`: `Option`, `Result` and `Outcome`.
- `domain.dfy`: ROIs, positions, frames, tracking units and the exceptions that
  can occur.
- `overlay.dfy`: what `_draw_on_frame` draws, as a sequence of drawing
  operations on a copy of the frame.
- `collaborators.dfy`: the code the monitor calls but does not own, given as
  data. The camera is a finite sequence of grabs. An answer table says what
  unit j returns on frame i. A fault oracle says which call raises. `stopAt`
  says at which camera step a `stop()` from another thread arrives. It also
  defines the event trace of completed calls and `Tally`, which counts a kind
  of event in a trace.
- `tracking.dfy`: building the units, and the fan-out of one frame to them,
  which is the inner loop of `run`.
- `session.dfy`, module `Session`: the reference semantics of `run`. A run is a
  prologue, then a fold of one iteration per camera step, then an epilogue.
- `session.dfy`, module `SessionFacts`: what a run is proved to guarantee.
- `monitor.dfy`: class `Monitor`. It has the constructor's configuration as
  `const` fields and the run state as `var` fields. Its methods are written
  with loops and field updates as in the source. Each method is proved to
  compute exactly what the reference semantics says, and the guarantees of
  `SessionFacts` therefore hold for `Monitor.Run`.

Where the system's documented behaviour and the code disagree, the model
follows the code:

- A missing `max_duration` is meant to mean no time limit, and the loop
  tests `self._max_duration is not None` before comparing
  (`src/pysolovideo/tracking/monitor.py:174`). But `max_duration` defaults to `None` (`src/pysolovideo/tracking/monitor.py:44`), and the
  constructor computes `max_duration * 1000` (`src/pysolovideo/tracking/monitor.py:73`), so construction
  fails with a `TypeError` and the `is not None` test never sees `None`.
  `Monitor.Create` models that failure, and the loop always compares with the
  stored limit. The docstring (`src/pysolovideo/tracking/monitor.py:58-59`) says only that tracking stops
  when the elapsed time is greater.
- An empty `interactors` list is meant to be treated like a missing one. The
  code tests only `interactors is None`, so an empty list with a non-empty ROI
  list fails the count check with a `ValueError`
  (`src/pysolovideo/tracking/monitor.py:88-94`), and `Tracking.BuildUnits` does the same.
- For an ROI without a known position, the documented behaviour is that the
  outline is drawn. In the code the `KeyError` branch `continue`s
  (`src/pysolovideo/tracking/monitor.py:136-138`) before the outline is drawn (`src/pysolovideo/tracking/monitor.py:151`), so only the label
  is drawn (`Overlay.UnitOps`).

## Model

| member | source | states |
|---|---|---|
| Monitor.Monitor.constructor | src/pysolovideo/tracking/monitor.py:62-81 | the configuration is stored; the run state starts with no positions, time stamp 0, no frame buffer, no stop request, no exception, not running |
| Monitor.Monitor.Create | src/pysolovideo/tracking/monitor.py:41-94 | a missing maximum duration fails with TypeError before the camera is restarted; otherwise the camera is restarted, the ROIs default to the builder's, and construction fails with ValueError exactly when the interactor count differs from the ROI count; on success the duration is stored in milliseconds and one unit is built per ROI |
| Tracking.BuildUnits | src/pysolovideo/tracking/monitor.py:88-94 | one unit per ROI in ROI order; interactors are paired positionally, or each unit gets none; the result is ValueError exactly on a count mismatch |
| Monitor.Monitor.LastPositions | src/pysolovideo/tracking/monitor.py:97-101 | fails with the stored exception exactly when one is stored, else returns the last positions |
| Monitor.Monitor.LastTimeStamp | src/pysolovideo/tracking/monitor.py:103-109 | fails with the stored exception exactly when one is stored, else returns the last time stamp converted from milliseconds to seconds |
| Monitor.Monitor.LastDrawnFrame | src/pysolovideo/tracking/monitor.py:112-116 | the stored exception first; AttributeError when no frame was ever stored; otherwise the annotation of the stored frame with the current positions |
| Monitor.Monitor.ResultFiles | src/pysolovideo/tracking/monitor.py:118-122 | fails with the stored exception exactly when one is stored, else returns the one-element list of the configured result file |
| Monitor.Monitor.Stop | src/pysolovideo/tracking/monitor.py:124-127 | fails with the stored exception and changes nothing when one is stored, otherwise sets the stop flag and nothing else |
| Session.Stopped | src/pysolovideo/tracking/monitor.py:124-127 | the stop flag is set afterwards exactly when it was set before or no exception is stored; no other field changes |
| Session.StopIdempotent | src/pysolovideo/tracking/monitor.py:124-127 | calling stop twice has the effect of calling it once |
| Overlay.UnitOps | src/pysolovideo/tracking/monitor.py:133-153 | every unit gets its label at its offset; only a unit with a known position also gets its outline, coloured by has_interacted, and an ellipse at exactly that position, coloured by is_inferred |
| Overlay.Ops | src/pysolovideo/tracking/monitor.py:133-153 | definition: the operations of the units in list order, each unit's after those of the units before it |
| Overlay.Annotate | src/pysolovideo/tracking/monitor.py:129-156 | definition: the frame with the units' operations (`Ops`) drawn over it; what is drawn is stated by `Overlay.AnnotationContents` and `Overlay.UnitOps` |
| Overlay.AnnotationContents | src/pysolovideo/tracking/monitor.py:129-156 | the annotation's base is the input frame; its labels are the units' ROI identities, once each, in unit order; each unit's operations are one block right after those of the units before it |
| Overlay.OpsPrefix | src/pysolovideo/tracking/monitor.py:133-153 | drawing the first k units draws a prefix of what drawing all units draws |
| Overlay.OpsSegment | src/pysolovideo/tracking/monitor.py:133-153 | each unit's operations form one contiguous block right after those of the units before it, so later ROIs draw on top |
| Overlay.UnitLabel | src/pysolovideo/tracking/monitor.py:134 | each unit draws exactly one label, its ROI identity |
| Overlay.LabelsInUnitOrder | src/pysolovideo/tracking/monitor.py:133-134 | the labels drawn are the units' ROI identities, each once, in unit order |
| Monitor.Monitor.DrawOnFrame | src/pysolovideo/tracking/monitor.py:129-156 | the loop over the units produces exactly the annotation of the frame with the current positions |
| Monitor.Monitor.TrackUnits | src/pysolovideo/tracking/monitor.py:184-198 | the inner loop leaves the positions, the rows written and the exception exactly as the fan-out of the frame to the units says |
| Tracking.Turn | src/pysolovideo/tracking/monitor.py:188-198 | definition: one unit's turn; no row changes nothing, a row upserts the position when there is one and is written when a writer exists, and an exception of the unit or of the write ends the turn |
| Tracking.FanOut | src/pysolovideo/tracking/monitor.py:184-198 | definition: the turns of the first k units in list order, stopping at the first exception |
| Tracking.FanOutAbsorbs | src/pysolovideo/tracking/monitor.py:184-198 | once a unit has raised, later units are not called and nothing more changes |
| Tracking.FanOutFault | src/pysolovideo/tracking/monitor.py:184-198 | the fan-out ends normally exactly when no unit's turn raised; otherwise it carries the exception of the first turn that raised |
| Tracking.FanOutOnlyRows | src/pysolovideo/tracking/monitor.py:197-198 | the fan-out only writes result rows, and nothing without a result writer |
| Tracking.FanOutWrites | src/pysolovideo/tracking/monitor.py:188-198 | without an exception, the writer receives one row per unit that returned one, in unit order, even when that unit reported no position |
| Tracking.FanOutKeys | src/pysolovideo/tracking/monitor.py:193-196 | positions are never removed; only the units' ROI identities are added; other entries keep their values |
| Tracking.FanOutUpsert | src/pysolovideo/tracking/monitor.py:193-196 | with distinct ROI identities, each unit that returned a row and a position has that position recorded; every other unit's entry is as before the frame |
| Monitor.Monitor.Open | src/pysolovideo/tracking/monitor.py:162-166 | opening the window when drawing, then the result writer when a result file is configured, is exactly the reference prologue, including failures at either step |
| Monitor.Monitor.Emit | src/pysolovideo/tracking/monitor.py:203-210 | the output step equals the reference, including the ZeroDivisionError of a zero stride when drawing |
| Monitor.Monitor.ProcessFrame | src/pysolovideo/tracking/monitor.py:181-210 | the body of the frame loop for a frame that passed the stop checks equals the reference: the video writer is opened lazily, the units run, the writer is flushed, then the outputs are emitted |
| Monitor.Monitor.PullFrame | src/pysolovideo/tracking/monitor.py:169-179 | a camera step equals the reference: a camera exception, a stop request and the time limit are checked in source order before the time stamp and frame are stored |
| Monitor.Monitor.Iterate | src/pysolovideo/tracking/monitor.py:169-210 | one pass of the frame loop, with a stop request arriving before it, equals the reference iteration |
| Monitor.Monitor.FrameLoop | src/pysolovideo/tracking/monitor.py:168-210 | the frame loop equals the reference fold of iterations over the whole feed |
| Monitor.Monitor.Run | src/pysolovideo/tracking/monitor.py:158-236 | the fields and the calls made are exactly those of the reference run, and the monitor is no longer running at the end |
| Session.RunOf | src/pysolovideo/tracking/monitor.py:158-236 | definition: the prologue; on its failure the exception is stored and no frame is read; otherwise the loop over the whole feed and its exit reason, exhaustion when the feed ran out; a stop request the loop did not see (during the prologue, with no camera step left, or during the last step pulled) arrives with `stop()`'s semantics before a faulted loop's exception is stored; the video writer is released when one was opened |
| Session.Prologue | src/pysolovideo/tracking/monitor.py:162-166 | definition: the window is opened when drawing, then the result writer when a result file is configured; the first call that raises ends the prologue with its exception |
| Session.Loop | src/pysolovideo/tracking/monitor.py:168-179 | definition: the fold of one iteration per camera step over the first k grabs |
| Session.Iteration | src/pysolovideo/tracking/monitor.py:168-179 | definition: a loop that has ended is left as it is; otherwise a stop request due at this step arrives, then the camera step is pulled |
| Session.Pull | src/pysolovideo/tracking/monitor.py:169-179 | definition: a camera exception, then the stop flag, then the time limit are checked, in source order, before the time stamp and frame are stored and the frame counted and processed |
| Session.Process | src/pysolovideo/tracking/monitor.py:181-210 | definition: the video writer is opened lazily, the units run, the writer is flushed, then the outputs are emitted, each step skipped once an earlier one raised |
| Session.OutputStep | src/pysolovideo/tracking/monitor.py:203-210 | definition: a zero stride while drawing is a ZeroDivisionError; a frame going to neither window nor video is not rendered; otherwise it is rendered once and delivered |
| Session.OutputShape | src/pysolovideo/tracking/monitor.py:203-210 | emitting a frame only appends to the trace and can end the loop only by an exception; a zero stride while drawing is a ZeroDivisionError |
| Session.OutputDecision | src/pysolovideo/tracking/monitor.py:203-210 | a frame emits a prefix of its full outputs (render once, then window, then video); it emits all of them exactly when no call raised; a frame going to neither window nor video renders nothing |
| SessionFacts.OpenVideoFacts | src/pysolovideo/tracking/monitor.py:181-182 | the video writer is opened only when one is configured and none is open yet, with the width and height of the frame being processed, and the opening is recorded once |
| SessionFacts.ProcessTrace | src/pysolovideo/tracking/monitor.py:181-210 | processing a frame only appends to the trace; when it opens the video writer, the opening is its first call and carries that frame's dimensions |
| SessionFacts.TrackFacts | src/pysolovideo/tracking/monitor.py:184-198 | tracking changes only the positions, adds only rows to the trace, and keeps the keys between the old ones and the old ones plus the units' identities |
| SessionFacts.FlushFacts | src/pysolovideo/tracking/monitor.py:200-201 | with a writer, a frame that does not raise is flushed exactly once; without one, nothing is flushed |
| SessionFacts.OutputFacts | src/pysolovideo/tracking/monitor.py:203-210 | emitting writes one video frame exactly when a video writer is open and nothing raised; it adds no flush, row, opening or release |
| SessionFacts.ProcessShape | src/pysolovideo/tracking/monitor.py:178-210 | processing a frame changes only the positions, the video writer, the trace and the exit; an open video writer stays open; with a video output configured and no exception, a writer is open afterwards |
| SessionFacts.ProcessTallies | src/pysolovideo/tracking/monitor.py:181-210 | processing opens the video writer at most once, releases nothing, flushes at most once, and writes at most one video frame, exactly one when nothing raised |
| SessionFacts.IterationCases | src/pysolovideo/tracking/monitor.py:169-179 | an iteration of a running loop is, in source order: a fault when the camera raises, a stop when the flag is set, a timeout past the limit, and otherwise the processing of the stored frame |
| SessionFacts.IterationFrames | src/pysolovideo/tracking/monitor.py:169-179 | an iteration counts at most one frame, exactly one when the loop goes on, and none when the camera raises, a stop is requested or the time limit is passed |
| SessionFacts.IterationExit | src/pysolovideo/tracking/monitor.py:171-179 | an iteration that counts a frame took a grab within the time limit; one ended by the time limit saw a grab past it and counted no frame |
| SessionFacts.IterationTrace | src/pysolovideo/tracking/monitor.py:169-210 | an iteration only appends to the trace and keeps an open video writer; one that opens the writer opened it first, with the dimensions of the frame it grabbed |
| SessionFacts.LoopInv | src/pysolovideo/tracking/monitor.py:169-210 | the loop invariant that holds after every camera step: frames counted, stored exception unchanged, positions only grow, writer and video tallies per frame |
| SessionFacts.LoopAbsorbs | src/pysolovideo/tracking/monitor.py:171-176 | once the loop has ended, later camera steps change nothing |
| SessionFacts.LoopFramesGrow | src/pysolovideo/tracking/monitor.py:169-179 | the number of processed frames never decreases along the loop |
| SessionFacts.LoopFeedPrefix | src/pysolovideo/tracking/monitor.py:169 | the loop's data after k steps depends only on the first k grabs of the camera |
| SessionFacts.LoopStopped | src/pysolovideo/tracking/monitor.py:171-173 | a stop request due at step k with no exception stored ends the loop with at most k frames processed |
| SessionFacts.LoopTaken | src/pysolovideo/tracking/monitor.py:174-179 | every frame the loop counted came from a grab within the time limit, the j-th frame from the j-th grab |
| SessionFacts.LoopTimeout | src/pysolovideo/tracking/monitor.py:174-176 | a loop ended by the time limit counted one frame per earlier step, and the grab right after its last counted frame is past the limit |
| SessionFacts.LoopVideoOpened | src/pysolovideo/tracking/monitor.py:181-182 | a video writer open after the loop was opened on the first camera step, with the dimensions of its frame, as the first call after the prologue |
| SessionFacts.Pulled | src/pysolovideo/tracking/monitor.py:169-176 | the number of the first k camera steps the loop pulls: before it the loop was running, and after it the loop had ended unless it is k |
| SessionFacts.Epilogue | src/pysolovideo/tracking/monitor.py:213-236 | after a successful prologue the run ends with the loop's frame count and exit reason (exhaustion when the camera ran out), and the loop's calls followed by the video writer's release exactly when one was opened |
| SessionFacts.VideoLifecycle | src/pysolovideo/tracking/monitor.py:181-234 | the video writer is opened at most once and only when configured, and is released exactly when it was opened, as the last call of the run |
| SessionFacts.VideoGeometry | src/pysolovideo/tracking/monitor.py:181-182 | with a video output, a run that processed a frame and did not fail opened the writer; a run that opened it did so on the first camera frame, with that frame's width and height, as the first call after the prologue |
| SessionFacts.OpenedBeforeFrames | src/pysolovideo/tracking/monitor.py:181-210 | a run that opened the video writer wrote no video frame before the opening |
| SessionFacts.FlushPerFrame | src/pysolovideo/tracking/monitor.py:200-201 | with a result file, the writer is flushed once per processed frame, except possibly for the frame an exception cut short; without one, nothing is flushed |
| SessionFacts.EveryFrameRecorded | src/pysolovideo/tracking/monitor.py:203-210 | with a video output, every processed frame is written to the video whatever the display stride, except possibly for the frame an exception cut short |
| SessionFacts.StoredException | src/pysolovideo/tracking/monitor.py:213-221 | the exception is stored exactly when the run ended by one; stop, timeout and exhaustion leave it as it was; exhaustion means every frame was processed |
| SessionFacts.PositionsOnlyGrow | src/pysolovideo/tracking/monitor.py:193-196 | a run never removes a position and adds positions only under the units' ROI identities |
| SessionFacts.TimeoutBound | src/pysolovideo/tracking/monitor.py:174-179 | the time stamp a run stores last is within the maximum duration when it processed a frame; a run that processed no frame leaves the time stamp, frame buffer and positions as they were |
| SessionFacts.TimeLimit | src/pysolovideo/tracking/monitor.py:174-179 | every frame a run processed came from a grab within the maximum duration, the j-th frame from the j-th grab; a run ended by the time limit ended at the grab right after its last processed frame, which was past the limit |
| SessionFacts.StopLatency | src/pysolovideo/tracking/monitor.py:171-173 | a stop request arriving before camera step k, with no exception stored, lets no frame from k on be processed, and the run then does not end by exhaustion |
| SessionFacts.IterationFlag | src/pysolovideo/tracking/monitor.py:169-210 | an iteration changes the stop flag only through a stop request arriving at it while the loop runs; pulling and processing a frame never touch it |
| SessionFacts.LoopFlag | src/pysolovideo/tracking/monitor.py:169-173 | after k camera steps the stop flag is set exactly when it was set before the loop, or a request arrived inside the loop while no exception was stored |
| SessionFacts.StopAppliedOnce | src/pysolovideo/tracking/monitor.py:124-127 | after a loop that already saw the stop request, applying `stop()` again leaves the fields unchanged, so a request takes effect once |
| SessionFacts.StopFlag | src/pysolovideo/tracking/monitor.py:124-127 | a `stop()` during `run` is never lost: afterwards the stop flag is set exactly when it was set before, or a request came while no exception was stored before the run, wherever it arrived; by `SessionFacts.StopBeforeRun`, a later `run()` whose prologue succeeds then processes no frame and, on a non-empty camera, ends by the stop request or by the camera's exception at its first grab |
| SessionFacts.StopBeforeRun | src/pysolovideo/tracking/monitor.py:171-173 | a monitor already asked to stop processes no frame, and a non-empty camera ends the run by the request or by the camera's exception |
| SessionFacts.RunSteps | src/pysolovideo/tracking/monitor.py:169-176 | the number of camera steps a run pulls is at most the length of the feed |
| SessionFacts.LaterFramesIgnored | src/pysolovideo/tracking/monitor.py:169-176 | the run pulls the step of every processed frame and at most one more, the whole feed when it ends by exhaustion, and the run over the feed cut after the steps it pulled is the same run, so nothing after a fault, a stop or a timeout is read |
| SessionFacts.EarliestCut | src/pysolovideo/tracking/monitor.py:169-176 | no shorter cut of the feed gives the same run: every camera step the run pulls is needed |
| SessionFacts.ShorterCut | src/pysolovideo/tracking/monitor.py:169-176 | a run over the feed cut before the last step it pulls ends by exhaustion with one frame per step |
| SessionFacts.RunExhausted | src/pysolovideo/tracking/monitor.py:169-179 | a run ends by exhaustion only after processing a frame at every camera step |

## Left out

- Pixels. OpenCV drawing, the window and the video encoder are modelled only as the operations drawn and the calls made. So are the window name built from the process id, the codec and the 50 fps rate.
- The result writer's contents and the run metadata. Opening the writer, a written row and a flush are events in the trace; what the writer stores is not modelled.
- The default ROI builder. What it returns for the camera is a parameter of `Monitor.Create` (`defaultRois`).
- The camera's restart. `Monitor.Create` reports it as a flag, and the feed a run reads is a parameter.
- The tracker's internals. What unit j returns on frame i (a row and an absolute position, or an exception) comes from an answer table.
- Concurrency. A `stop()` from another thread is modelled as arriving at one point: before the stop check of a given camera step (`stopAt`). If the loop never pulls that step, it arrives after the loop and before the exception is stored. This covers a request during the prologue, with no camera step left, or while the last step pulled is processed. A request that arrives after `run` has stored its exception is not modelled; `stop()` would raise there instead of setting the flag. A request in the middle of a frame's processing is modelled as arriving before the next stop check, which the source cannot tell apart. `isRunning` being true during the run is not observable, because the model is sequential.
- Floating point. Time stamps are integer milliseconds and the maximum duration is a whole number of seconds. `LastTimeStamp` divides exactly, as a real. The position fields `x`, `y`, `w`, `h` and `phi` that line 153 reads are floats in the source and `int` in `Domain.Position`. The overlay only copies them into drawing operations, so no rounding is modelled.
- Logging, and the teardown calls `waitKey` and `destroyAllWindows`, whose errors the source swallows.
- The difference between `PSVException` and other exceptions. The source handles both the same way, by storing them.
- Calls that raise. They are absent from the trace, which records only completed calls.
- Monitor.Monitor.Run: does not model an exception from `vw.release()` (lines 233-234). It would escape `run` from the `finally` block without being stored; the model's release always completes.
- Monitor.Monitor.Run: does not model `BaseException`s that are not `Exception`s, such as `KeyboardInterrupt` or `SystemExit`. Lines 213-221 do not catch them, so they would escape without being stored; every modelled fault is an `Exception`.
- Monitor.Monitor.LastPositions: returns the positions as a value. Line 101 returns the live dictionary, which the caller could mutate and which later frames update; values cannot alias.
- Monitor.Monitor.LastDrawnFrame: does not model a drawing failure other than a missing frame. Line 116 lets any OpenCV error of `_draw_on_frame` escape; the model has only the `AttributeError` of `None.copy()`.
- Monitor.Monitor.Run: does not state "running exactly during the loop". That is the same concurrency gap as above; only the final `!isRunning` is stated.
