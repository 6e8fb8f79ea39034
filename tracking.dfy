/**
 * Building the tracking units, and the fan-out of one frame to them: the
 * inner loop of `run`, which upserts positions and writes result rows.
 */
module Tracking {
  import opened Wrappers
  import opened Domain
  import opened Collaborators

  /**
   * One unit per ROI, in ROI order, paired positionally with its interactor,
   * or with none when no interactors are given; a count mismatch is an error.
   */
  function BuildUnits(tracker: TrackerClass, rois: seq<Roi>, interactors: Option<seq<Interactor>>)
    : (r: Result<seq<TrackingUnit>, Error>)
    ensures r.Failure? <==> interactors.Some? && |interactors.value| != |rois|
    ensures r.Failure? ==> r.error == ValueError
    ensures r.Success? ==>
      && |r.value| == |rois|
      && forall k :: 0 <= k < |rois| ==>
           && r.value[k].tracker == tracker
           && r.value[k].roi == rois[k]
           && r.value[k].interactor == (if interactors.None? then None else Some(interactors.value[k]))
  {
    if interactors.None? then
      Success(seq(|rois|, k requires 0 <= k < |rois| => TrackingUnit(tracker, rois[k], None)))
    else if |interactors.value| == |rois| then
      Success(seq(|rois|, k requires 0 <= k < |rois| => TrackingUnit(tracker, rois[k], Some(interactors.value[k]))))
    else
      Failure(ValueError)
  }

  /** The last known positions, the rows written so far and the exception raised, if any. */
  datatype Fan = Fan(positions: map<int, Position>, events: seq<Event>, error: Option<Error>)

  /**
   * One unit's turn on frame `t`: no row means nothing happens; a row upserts
   * the position when there is one and is then written when a writer exists.
   */
  function Turn(f: Fan, u: TrackingUnit, a: Answer, writer: bool, writeRaises: Option<Error>, t: int): Fan
  {
    match a
    case Raises(e) => f.(error := Some(e))
    case Answer(row, pos) =>
      if row.None? then f
      else
        var m := if pos.Some? then f.positions[u.roi.idx := pos.value] else f.positions;
        if !writer then f.(positions := m)
        else if writeRaises.Some? then Fan(m, f.events, writeRaises)
        else Fan(m, f.events + [RowWritten(t, u.roi, row.value)], None)
  }

  /** The state after the first k units have had their turn on frame i; an exception ends the fan-out. */
  function FanOut(units: seq<TrackingUnit>, env: Environment, i: nat, t: int, writer: bool,
                  start: map<int, Position>, k: nat): Fan
    requires k <= |units|
    decreases k
  {
    if k == 0 then Fan(start, [], None)
    else
      var f := FanOut(units, env, i, t, writer, start, k - 1);
      if f.error.Some? then f
      else Turn(f, units[k - 1], env.answer(i, k - 1), writer, env.raises(WriteRow(i, k - 1)), t)
  }

  /** The exception unit j's turn on frame i raises, if any. */
  function TurnFault(env: Environment, i: nat, j: nat, writer: bool): Option<Error>
  {
    match env.answer(i, j)
    case Raises(e) => Some(e)
    case Answer(row, _) => if row.Some? && writer then env.raises(WriteRow(i, j)) else None
  }

  /** Reference: the rows the first k units return on frame i, in unit order, whatever their positions. */
  function RowsOf(units: seq<TrackingUnit>, env: Environment, i: nat, t: int, k: nat): seq<Event>
    requires k <= |units|
  {
    if k == 0 then []
    else
      RowsOf(units, env, i, t, k - 1) +
      match env.answer(i, k - 1)
      case Answer(Some(row), _) => [RowWritten(t, units[k - 1].roi, row)]
      case _ => []
  }

  /** Once a unit has raised, the remaining units are not called. */
  lemma {:induction false} FanOutAbsorbs(units: seq<TrackingUnit>, env: Environment, i: nat, t: int, writer: bool,
                                         start: map<int, Position>, k: nat, n: nat)
    requires k <= n <= |units|
    requires FanOut(units, env, i, t, writer, start, k).error.Some?
    ensures FanOut(units, env, i, t, writer, start, n) == FanOut(units, env, i, t, writer, start, k)
    decreases n - k
  {
    if k < n {
      FanOutAbsorbs(units, env, i, t, writer, start, k, n - 1);
    }
  }

  /**
   * The fan-out ends normally exactly when no unit's turn raised, and
   * otherwise carries the exception of the first unit whose turn raised.
   */
  lemma {:induction false} FanOutFault(units: seq<TrackingUnit>, env: Environment, i: nat, t: int, writer: bool,
                                       start: map<int, Position>, k: nat)
    requires k <= |units|
    ensures var f := FanOut(units, env, i, t, writer, start, k);
      && (f.error.None? <==> forall j :: 0 <= j < k ==> TurnFault(env, i, j, writer).None?)
      && (f.error.Some? ==> exists j :: 0 <= j < k && TurnFault(env, i, j, writer) == f.error
                                        && forall l :: 0 <= l < j ==> TurnFault(env, i, l, writer).None?)
    decreases k
  {
    if k > 0 {
      FanOutFault(units, env, i, t, writer, start, k - 1);
      var f := FanOut(units, env, i, t, writer, start, k - 1);
      if f.error.None? {
        var g := FanOut(units, env, i, t, writer, start, k);
        if g.error.Some? {
          assert TurnFault(env, i, k - 1, writer) == g.error;
        }
      }
    }
  }

  /** Only result rows are written during a fan-out, and nothing without a writer. */
  lemma {:induction false} FanOutOnlyRows(units: seq<TrackingUnit>, env: Environment, i: nat, t: int, writer: bool,
                                          start: map<int, Position>, k: nat)
    requires k <= |units|
    ensures forall n :: 0 <= n < |FanOut(units, env, i, t, writer, start, k).events| ==>
              FanOut(units, env, i, t, writer, start, k).events[n].RowWritten?
    ensures !writer ==> FanOut(units, env, i, t, writer, start, k).events == []
    decreases k
  {
    if k > 0 {
      FanOutOnlyRows(units, env, i, t, writer, start, k - 1);
      var f := FanOut(units, env, i, t, writer, start, k - 1);
      var g := FanOut(units, env, i, t, writer, start, k);
      if g.events != f.events {
        var e := g.events[|g.events| - 1];
        assert writer && g.events == f.events + [e] && e.RowWritten?;
        forall n | 0 <= n < |g.events| ensures g.events[n].RowWritten? {
          if n < |f.events| {
            assert g.events[n] == f.events[n];
          }
        }
      }
    }
  }

  /**
   * Without an exception, the writer receives exactly one row per unit that
   * returned one, in unit order, also when that unit reported no position.
   */
  lemma {:induction false} FanOutWrites(units: seq<TrackingUnit>, env: Environment, i: nat, t: int, writer: bool,
                                        start: map<int, Position>, k: nat)
    requires k <= |units|
    requires FanOut(units, env, i, t, writer, start, k).error.None?
    ensures FanOut(units, env, i, t, writer, start, k).events == if writer then RowsOf(units, env, i, t, k) else []
    decreases k
  {
    if k > 0 {
      FanOutAbsorbsBack(units, env, i, t, writer, start, k);
      FanOutWrites(units, env, i, t, writer, start, k - 1);
    }
  }

  /** A fan-out that ends normally did so at every earlier unit too. */
  lemma FanOutAbsorbsBack(units: seq<TrackingUnit>, env: Environment, i: nat, t: int, writer: bool,
                          start: map<int, Position>, k: nat)
    requires 0 < k <= |units|
    requires FanOut(units, env, i, t, writer, start, k).error.None?
    ensures FanOut(units, env, i, t, writer, start, k - 1).error.None?
  {
  }

  /** Positions are only ever added or replaced, and only under the units' ROI identities. */
  lemma {:induction false} FanOutKeys(units: seq<TrackingUnit>, env: Environment, i: nat, t: int, writer: bool,
                                      start: map<int, Position>, k: nat)
    requires k <= |units|
    ensures var f := FanOut(units, env, i, t, writer, start, k);
      && start.Keys <= f.positions.Keys
      && f.positions.Keys <= start.Keys + (set j | 0 <= j < k :: units[j].roi.idx)
      && forall key :: key in start && (forall j :: 0 <= j < k ==> units[j].roi.idx != key) ==>
           f.positions[key] == start[key]
    decreases k
  {
    if k > 0 {
      FanOutKeys(units, env, i, t, writer, start, k - 1);
      var f := FanOut(units, env, i, t, writer, start, k - 1);
      if f.error.None? {
        TurnKeys(f, units[k - 1], env.answer(i, k - 1), writer, env.raises(WriteRow(i, k - 1)), t);
      }
      var before := set j | 0 <= j < k - 1 :: units[j].roi.idx;
      var after := set j | 0 <= j < k :: units[j].roi.idx;
      assert after == before + {units[k - 1].roi.idx};
    }
  }

  /** A turn adds or replaces at most the position of its own unit's ROI identity. */
  lemma TurnKeys(f: Fan, u: TrackingUnit, a: Answer, writer: bool, writeRaises: Option<Error>, t: int)
    ensures var g := Turn(f, u, a, writer, writeRaises, t);
      && f.positions.Keys <= g.positions.Keys <= f.positions.Keys + {u.roi.idx}
      && forall key :: key in f.positions && key != u.roi.idx ==> g.positions[key] == f.positions[key]
  {
  }

  /**
   * What the fan-out of frame i promises for unit j's ROI identity `key`,
   * from the positions before the frame to those after it.
   */
  ghost predicate Upserted(env: Environment, i: nat, j: nat, key: int,
                           before: map<int, Position>, after: map<int, Position>)
  {
    match env.answer(i, j)
    case Answer(Some(_), Some(p)) => key in after && after[key] == p
    case _ => (key in after <==> key in before) && (key in before ==> after[key] == before[key])
  }

  /** One turn that ends normally upserts only under its own unit's ROI identity. */
  lemma TurnUpserts(env: Environment, i: nat, j: nat, f: Fan, u: TrackingUnit, writer: bool, t: int)
    requires Turn(f, u, env.answer(i, j), writer, env.raises(WriteRow(i, j)), t).error.None?
    ensures var g := Turn(f, u, env.answer(i, j), writer, env.raises(WriteRow(i, j)), t);
      && Upserted(env, i, j, u.roi.idx, f.positions, g.positions)
      && forall key :: key != u.roi.idx ==>
           (key in g.positions <==> key in f.positions) && (key in f.positions ==> g.positions[key] == f.positions[key])
  {
  }

  /**
   * The upsert: after a fan-out that ends normally, with distinct ROI
   * identities, each unit that returned a row and a position has that
   * position recorded under its ROI identity, and every other unit's entry is
   * as it was before the frame (present with its old value, or absent).
   */
  lemma {:induction false} FanOutUpsert(units: seq<TrackingUnit>, env: Environment, i: nat, t: int, writer: bool,
                                        start: map<int, Position>, k: nat)
    requires k <= |units|
    requires DistinctIds(units)
    requires FanOut(units, env, i, t, writer, start, k).error.None?
    ensures forall j :: 0 <= j < k ==>
      Upserted(env, i, j, units[j].roi.idx, start, FanOut(units, env, i, t, writer, start, k).positions)
    decreases k
  {
    if k > 0 {
      FanOutAbsorbsBack(units, env, i, t, writer, start, k);
      FanOutUpsert(units, env, i, t, writer, start, k - 1);
      FanOutKeys(units, env, i, t, writer, start, k - 1);
      var f := FanOut(units, env, i, t, writer, start, k - 1);
      var g := FanOut(units, env, i, t, writer, start, k);
      var last := units[k - 1].roi.idx;
      TurnUpserts(env, i, k - 1, f, units[k - 1], writer, t);
      forall j | 0 <= j < k ensures Upserted(env, i, j, units[j].roi.idx, start, g.positions) {
        if j < k - 1 {
          assert units[j].roi.idx != last;
          assert Upserted(env, i, j, units[j].roi.idx, start, f.positions);
        } else {
          assert forall j' :: 0 <= j' < k - 1 ==> units[j'].roi.idx != last;
        }
      }
    }
  }
}
