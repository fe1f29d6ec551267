/** What a call of StartIO or StopIO does, over every interleaving of the driver with all network threads. */
module DriverCalls {
  import opened Audio
  import opened Driver
  import Engines = Lifecycle

  // ---------------------------------------------------------------- between the calls

  /** The driver rests as it did in `d`, its engine in no new call. */
  ghost predicate Unbothered(d: Driver, t: Driver) {
    && t.phase.Resting? && t.ioRunning == d.ioRunning && |t.dropped| == |d.dropped|
    && (t.engine.Some? <==> d.engine.Some?)
    && (d.engine.Some? ==> t.engine.value.control.Idle? && t.engine.value.call == d.engine.value.call)
  }

  lemma StaysUnbothered(d: Driver, t: Driver, turn: Turn)
    requires Unbothered(d, t) && (if d.ioRunning then !turn.StopIO? else !turn.StartIO?)
    ensures Unbothered(d, TakeTurn(t, turn))
  {
    hide Engines.ControlStep;
  }

  /** While IO runs, another StartIO changes nothing, and while it does not, another StopIO changes nothing:
      until the opposite call comes, IO stays as it is, no engine is dropped, and on the engine held no call is
      begun. */
  lemma {:induction false} RestsUntilTheOpposite(d: Driver, t: Driver, turns: seq<Turn>)
    requires Unbothered(d, t)
    requires forall turn :: turn in turns ==> if d.ioRunning then !turn.StopIO? else !turn.StartIO?
    ensures Unbothered(d, Interleave(t, turns))
    decreases |turns|
  {
    hide TakeTurn;
    hide Unbothered;
    if turns != [] {
      assert turns[0] in turns;
      assert forall turn :: turn in turns[1..] ==> turn in turns;
      StaysUnbothered(d, t, turns[0]);
      RestsUntilTheOpposite(d, TakeTurn(t, turns[0]), turns[1..]);
    }
  }

  /** In every run, from any moment the driver rests. */
  lemma CallsAreIdempotent(turns: seq<Turn>, more: seq<Turn>)
    requires var d := Interleave(NewDriver(), turns);
      d.phase.Resting? &&
      forall turn :: turn in more ==> if d.ioRunning then !turn.StopIO? else !turn.StartIO?
    ensures Unbothered(Interleave(NewDriver(), turns), Interleave(NewDriver(), turns + more))
  {
    InterleaveKeeps(NewDriver(), turns);
    InterleaveConcat(NewDriver(), turns, more);
    var d := Interleave(NewDriver(), turns);
    RestsUntilTheOpposite(d, d, more);
  }

  // ---------------------------------------------------------------- StartIO

  /** StartIO under way or completed, with `n` engines dropped once it has dropped the old one; `configured`
      says whether a receiver is known. */
  ghost predicate StartingIO(t: Driver, n: nat, configured: bool) {
    match t.phase
    case Resting =>
      && t.ioRunning && |t.dropped| == n && (t.engine.Some? <==> configured)
      && (configured ==> t.engine.value.call.kind == Engines.StartCall && t.engine.value.call.result == Some(true))
    case Retiring => !t.ioRunning && |t.dropped| + 1 == n && t.engine.Some?
    case Checking(failed) => !t.ioRunning && |t.dropped| + 1 == n && t.engine.Some?
    case Destroying(failed) => !t.ioRunning && |t.dropped| + 1 == n && t.engine.Some?
    case Creating => !t.ioRunning && |t.dropped| == n && t.engine.None?
    case Launching => !t.ioRunning && |t.dropped| == n && t.engine.Some? && configured
    case Halting => false
  }

  lemma StartingIOStep(t: Driver, n: nat, configured: bool, turn: Turn)
    requires Inv(t) && StartingIO(t, n, configured) && !turn.StopIO?
    requires turn.Proceed? ==> turn.configured == configured
    ensures StartingIO(TakeTurn(t, turn), n, configured)
  {
    hide Engines.ControlStep;
    if t.engine.Some? && t.engine.value.control.Idle? {
      IdleOk(t.engine.value, t.phase);
      if t.phase.Launching? {
        Started(t.engine.value);
      }
    }
  }

  lemma Started(e: Engines.Engine)
    requires Engines.Inv(e) && e.control.Idle? && PhaseOk(e, Launching)
    ensures e.call.kind == Engines.StartCall && e.call.result == Some(true)
  {
  }

  lemma {:induction false} StartingIOGoesOn(t: Driver, n: nat, configured: bool, turns: seq<Turn>)
    requires Inv(t) && StartingIO(t, n, configured)
    requires forall turn :: turn in turns ==> !turn.StopIO? && (turn.Proceed? ==> turn.configured == configured)
    ensures StartingIO(Interleave(t, turns), n, configured)
    decreases |turns|
  {
    hide TakeTurn;
    hide Inv;
    hide StartingIO;
    if turns != [] {
      assert turns[0] in turns;
      assert forall turn :: turn in turns[1..] ==> turn in turns;
      StartingIOStep(t, n, configured, turns[0]);
      TurnKeeps(t, turns[0]);
      StartingIOGoesOn(TakeTurn(t, turns[0]), n, configured, turns[1..]);
    }
  }

  /** StartIO on a driver whose IO is not running: the old engine, if any, is dropped; IO runs exactly once the
      call is over, with an engine whose `start` has succeeded if a receiver is known, and with none otherwise. */
  lemma StartIOEnds(turns: seq<Turn>, more: seq<Turn>, configured: bool)
    requires var d := Interleave(NewDriver(), turns); d.phase.Resting? && !d.ioRunning
    requires forall turn :: turn in more ==> !turn.StopIO? && (turn.Proceed? ==> turn.configured == configured)
    ensures var d := Interleave(NewDriver(), turns);
      var t := Interleave(NewDriver(), turns + [StartIO] + more);
      && StartingIO(t, |d.dropped| + (if d.engine.Some? then 1 else 0), configured)
      && (t.ioRunning <==> t.phase.Resting?)
  {
    var d := Interleave(NewDriver(), turns);
    var begun := TakeTurn(d, StartIO);
    InterleaveKeeps(NewDriver(), turns);
    TurnKeeps(d, StartIO);
    InterleaveConcat(NewDriver(), turns, [StartIO]);
    OneTurn(d, StartIO);
    InterleaveConcat(NewDriver(), turns + [StartIO], more);
    StartingIOGoesOn(begun, |d.dropped| + (if d.engine.Some? then 1 else 0), configured, more);
  }

  // ---------------------------------------------------------------- StopIO

  /** StopIO under way or completed on a driver that held, or did not hold, an engine. */
  ghost predicate StoppingIO(t: Driver, n: nat, held: bool) {
    && |t.dropped| == n && (t.engine.Some? <==> held)
    && match t.phase
       case Resting =>
         !t.ioRunning && (held ==> t.engine.value.call.kind == Engines.StopCall && t.engine.value.call.result.Some?)
       case Halting => t.ioRunning && held
       case _ => false
  }

  lemma StoppingIOStep(t: Driver, n: nat, held: bool, turn: Turn)
    requires Inv(t) && StoppingIO(t, n, held) && !turn.StartIO?
    ensures StoppingIO(TakeTurn(t, turn), n, held)
  {
    hide Engines.ControlStep;
    if t.engine.Some? && t.engine.value.control.Idle? && t.phase.Halting? {
      Stopped(t.engine.value);
    }
  }

  lemma Stopped(e: Engines.Engine)
    requires Engines.Inv(e) && e.control.Idle? && PhaseOk(e, Halting)
    ensures e.call.kind == Engines.StopCall && e.call.result.Some?
  {
  }

  lemma {:induction false} StoppingIOGoesOn(t: Driver, n: nat, held: bool, turns: seq<Turn>)
    requires Inv(t) && StoppingIO(t, n, held)
    requires forall turn :: turn in turns ==> !turn.StartIO?
    ensures StoppingIO(Interleave(t, turns), n, held)
    decreases |turns|
  {
    hide TakeTurn;
    hide Inv;
    hide StoppingIO;
    if turns != [] {
      assert turns[0] in turns;
      assert forall turn :: turn in turns[1..] ==> turn in turns;
      StoppingIOStep(t, n, held, turns[0]);
      TurnKeeps(t, turns[0]);
      StoppingIOGoesOn(TakeTurn(t, turns[0]), n, held, turns[1..]);
    }
  }

  /** StopIO on a driver whose IO is running: its engine, if any, has been through a `stop` when the call is over,
      and is kept; IO runs exactly until then. */
  lemma StopIOEnds(turns: seq<Turn>, more: seq<Turn>)
    requires var d := Interleave(NewDriver(), turns); d.phase.Resting? && d.ioRunning
    requires forall turn :: turn in more ==> !turn.StartIO?
    ensures var d := Interleave(NewDriver(), turns);
      var t := Interleave(NewDriver(), turns + [StopIO] + more);
      && StoppingIO(t, |d.dropped|, d.engine.Some?)
      && (t.ioRunning <==> !t.phase.Resting?)
  {
    var d := Interleave(NewDriver(), turns);
    InterleaveKeeps(NewDriver(), turns);
    TurnKeeps(d, StopIO);
    InterleaveConcat(NewDriver(), turns, [StopIO]);
    OneTurn(d, StopIO);
    InterleaveConcat(NewDriver(), turns + [StopIO], more);
    StoppingIOGoesOn(TakeTurn(d, StopIO), |d.dropped|, d.engine.Some?, more);
  }

  // ---------------------------------------------------------------- no call is ever stuck

  /** Steps left in an engine's call, those of the thread it joins included. */
  function CallLeft(e: Engines.Engine): nat {
    match e.control
    case Idle => 0
    case StartLoad => 5
    case StartSwap => 4
    case StartRing => 3
    case StartClear => 2
    case StartSpawn => 1
    case StopLoad => 8
    case StopSwap => 7
    case StopSignal => 6
    case StopJoin =>
      if e.handle.Some? && e.handle.value in e.threads then
        if e.threads[e.handle.value].Polling? then 4 else 5
      else 3
    case StopDrop => 2
    case StopMark => 1
  }

  /** Steps left until the driver rests. */
  function Left(d: Driver): nat {
    (if d.engine.Some? then CallLeft(d.engine.value) else 0) +
    match d.phase
    case Resting => 0
    case Halting => 1
    case Launching => 1
    case Creating => 10
    case Destroying(failed) => 20
    case Checking(failed) => 30
    case Retiring => 40
  }

  /** The turn that brings the call nearer its end: the driver's own step, or, while `stop` waits in the join, one
      of the thread it waits for. */
  function Next(d: Driver): Turn {
    if d.engine.Some? && d.engine.value.control.StopJoin? && d.engine.value.handle.Some?
       && d.engine.value.handle.value in d.engine.value.threads then
      Current(d.engine.value.handle.value, true)
    else Proceed(true)
  }

  lemma EngineNears(e: Engines.Engine)
    requires Engines.Inv(e) && !e.control.Idle?
    ensures if e.control.StopJoin? && e.handle.Some? && e.handle.value in e.threads then
              CallLeft(Engines.NetworkStep(e, e.handle.value, true)) < CallLeft(e)
            else CallLeft(Engines.ControlStep(e)) < CallLeft(e)
  {
  }

  lemma CallNears(d: Driver)
    requires Inv(d) && !d.phase.Resting?
    ensures Left(TakeTurn(d, Next(d))) < Left(d)
  {
    hide Engines.ControlStep;
    hide Engines.NetworkStep;
    hide Engines.Inv;
    hide CallLeft;
    CallBounds();
    if d.engine.Some? {
      var e := d.engine.value;
      if !e.control.Idle? {
        EngineNears(e);
      } else {
        IdleOk(e, d.phase);
      }
    }
  }

  lemma CallBounds()
    ensures forall e: Engines.Engine :: (e.control.Idle? ==> CallLeft(e) == 0) && CallLeft(e) <= 8
  {
  }

  lemma {:induction false} Completes(d: Driver) returns (more: seq<Turn>)
    requires Inv(d)
    ensures Interleave(d, more).phase.Resting?
    ensures forall turn :: turn in more ==> !turn.StartIO? && !turn.StopIO?
    decreases Left(d)
  {
    hide Inv;
    hide TakeTurn;
    if d.phase.Resting? {
      more := [];
    } else {
      CallNears(d);
      TurnKeeps(d, Next(d));
      more := Completes(TakeTurn(d, Next(d)));
      InterleaveCons(d, Next(d), more);
      more := [Next(d)] + more;
    }
  }

  /** From every reachable state, an IO call under way can be brought to its end by the driver's own steps and
      those of the thread it joins: no call is ever stuck. */
  lemma NoCallIsStuck(turns: seq<Turn>) returns (more: seq<Turn>)
    ensures Interleave(NewDriver(), turns + more).phase.Resting?
    ensures forall turn :: turn in more ==> !turn.StartIO? && !turn.StopIO?
  {
    InterleaveKeeps(NewDriver(), turns);
    more := Completes(Interleave(NewDriver(), turns));
    InterleaveConcat(NewDriver(), turns, more);
  }
}
