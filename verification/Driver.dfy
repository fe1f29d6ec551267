/** The audio driver's StartIO and StopIO over successive engines: what becomes of the network threads of the
    engines it drops. */
module Driver {
  import opened Audio
  import opened Runs
  import opened Lifecycle

  /** How far the driver is in StartIO or StopIO; each engine call in between is stepped on the engine itself. */
  datatype Phase =
    | Resting
    | Retiring                    // StartIO stops the old engine
    | Checking(failed: bool)      // `zinkos_engine_destroy`, before its test of the state
    | Destroying(failed: bool)    // the `stop` in `zinkos_engine_destroy`
    | Creating
    | Launching                   // StartIO starts the new engine
    | Halting                     // StopIO stops the engine

  /** The driver, the engine it holds, and the engines it has dropped. */
  datatype Driver = Driver(ioRunning: bool, engine: Option<Engine>, dropped: seq<Engine>, phase: Phase)

  function NewDriver(): Driver { Driver(false, None, [], Resting) }

  /** The scheduler's choice: an IO call, the driver's next step (`configured` says whether a receiver's
      address is known), or a step of a network thread of the engine held or of one dropped. */
  datatype Turn =
    | StartIO | StopIO
    | Proceed(configured: bool)
    | Current(id: nat, opens: bool)
    | Orphan(k: nat, id: nat, opens: bool)

  /** Freeing an engine frees its producer and detaches its thread, which keeps the state and the stop flag. */
  function Drop(e: Engine): Engine { e.(producer := false, handle := None) }

  function Dropping(d: Driver, e: Engine, failed: bool): Driver {
    d.(engine := None, dropped := d.dropped + [Drop(e)], ioRunning := d.ioRunning || failed,
       phase := if failed then Resting else Creating)
  }

  function WithoutEngine(d: Driver, configured: bool): Driver {
    if !d.phase.Creating? then d
    else if configured then d.(engine := Some(Begin(NewEngine(), StartCall, StartLoad)), phase := Launching)
    else d.(ioRunning := true, phase := Resting)
  }

  function WithEngine(d: Driver, e: Engine): Driver {
    if !e.control.Idle? then d.(engine := Some(ControlStep(e)))
    else
      match d.phase
      case Resting => d
      case Retiring => d.(phase := Checking(false))
      case Checking(failed) =>
        if e.state != Stopped then d.(engine := Some(Begin(e, StopCall, StopLoad)), phase := Destroying(failed))
        else Dropping(d, e, failed)
      case Destroying(failed) => Dropping(d, e, failed)
      case Creating => d
      case Launching =>
        if e.call.result == Some(true) then d.(ioRunning := true, phase := Resting) else d.(phase := Checking(true))
      case Halting => d.(ioRunning := false, phase := Resting)
  }

  /** One turn; a turn that is not possible leaves everything as it is. */
  function TakeTurn(d: Driver, turn: Turn): Driver {
    match turn
    case StartIO =>
      if !d.phase.Resting? || d.ioRunning then d
      else if d.engine.Some? then d.(engine := Some(Begin(d.engine.value, StopCall, StopLoad)), phase := Retiring)
      else d.(phase := Creating)
    case StopIO =>
      if !d.phase.Resting? || !d.ioRunning then d
      else if d.engine.Some? then d.(engine := Some(Begin(d.engine.value, StopCall, StopLoad)), phase := Halting)
      else d.(ioRunning := false)
    case Proceed(configured) =>
      if d.engine.Some? then WithEngine(d, d.engine.value) else WithoutEngine(d, configured)
    case Current(id, opens) =>
      if d.engine.Some? && id in d.engine.value.threads then
        d.(engine := Some(NetworkStep(d.engine.value, id, opens)))
      else d
    case Orphan(k, id, opens) =>
      if k < |d.dropped| && id in d.dropped[k].threads then
        d.(dropped := d.dropped[k := NetworkStep(d.dropped[k], id, opens)])
      else d
  }

  function Interleave(d: Driver, turns: seq<Turn>): Driver
    decreases |turns|
  {
    if turns == [] then d else Interleave(TakeTurn(d, turns[0]), turns[1..])
  }

  // ---------------------------------------------------------------- invariant

  /** A dropped engine is Stopped without a thread, or its last `stop` found it Starting; then its thread was
      never told to stop. */
  ghost predicate DroppedOk(e: Engine) {
    !e.producer && e.handle == None &&
    if e.state == Stopped then e.threads == map[]
    else
      && e.call.kind == StopCall && e.call.found == Starting && e.call.result == Some(false)
      && !e.stopFlag && (e.state == Starting || e.state == Running)
      && |e.threads.Keys| <= 1
      && forall id :: id in e.threads ==>
           if e.state == Running then e.threads[id].Polling? || e.threads[id].Sending?
           else e.threads[id].Opening? || e.threads[id].Marking?
  }

  /** The engine's control thread is in the call the driver's phase says, or that call has returned. */
  ghost predicate PhaseOk(e: Engine, phase: Phase) {
    match phase
    case Resting => e.control.Idle?
    case Retiring => e.call.kind == StopCall
    case Checking(failed) => e.control.Idle? && !failed
    case Destroying(failed) => e.call.kind == StopCall && !failed
    case Creating => false
    case Launching => e.call.kind == StartCall
    case Halting => e.call.kind == StopCall
  }

  ghost predicate Inv(d: Driver) {
    && (forall e :: e in d.dropped ==> DroppedOk(e))
    && match d.engine
       case Some(e) => Lifecycle.Inv(e) && PhaseOk(e, d.phase)
       case None => d.phase.Resting? || d.phase.Creating?
  }

  lemma DropOk(e: Engine, phase: Phase)
    requires Lifecycle.Inv(e) && PhaseOk(e, phase) && e.control.Idle?
    requires phase.Destroying? || e.state == Stopped
    ensures DroppedOk(Drop(e))
    ensures e.state == Starting ==> e.threads != map[]
  {
    if e.state != Stopped {
      assert e.call.result != Some(true) && !e.call.result.value;
      AtMostOne(e.threads.Keys, e.handle.value);
    }
  }

  lemma OrphanKeeps(e: Engine, id: nat, opens: bool)
    requires DroppedOk(e) && id in e.threads
    ensures DroppedOk(NetworkStep(e, id, opens))
    ensures NetworkStep(e, id, opens).threads.Keys <= e.threads.Keys
  {
    var t := NetworkStep(e, id, opens);
    AtMostOneKey(e.threads.Keys, id);
    assert t.threads.Keys <= {id};
    AtMostOne(t.threads.Keys, id);
  }

  lemma CurrentKeeps(e: Engine, phase: Phase)
    requires Lifecycle.Inv(e) && PhaseOk(e, phase) && !e.control.Idle?
    ensures Lifecycle.Inv(ControlStep(e)) && PhaseOk(ControlStep(e), phase)
  {
    ControlKeeps(e);
  }

  lemma ProceedKeeps(d: Driver, configured: bool)
    requires Inv(d)
    ensures Inv(TakeTurn(d, Proceed(configured)))
  {
    hide Lifecycle.Inv;
    hide ControlStep;
    hide DroppedOk;
    if d.engine.Some? {
      var e := d.engine.value;
      if !e.control.Idle? {
        CurrentKeeps(e, d.phase);
      } else {
        BeginOk(e);
        IdleOk(e, d.phase);
        if d.phase.Destroying? || e.state == Stopped {
          DropOk(e, d.phase);
        }
      }
    } else {
      BeginOk(NewEngine());
    }
  }

  lemma IdleOk(e: Engine, phase: Phase)
    requires Lifecycle.Inv(e) && e.control.Idle? && PhaseOk(e, phase)
    ensures phase.Launching? ==> e.call.result == Some(true)
  {
  }

  lemma BeginOk(e: Engine)
    requires e == NewEngine() || (Lifecycle.Inv(e) && e.control.Idle?)
    ensures Lifecycle.Inv(Begin(e, StopCall, StopLoad))
    ensures e == NewEngine() ==> Lifecycle.Inv(Begin(e, StartCall, StartLoad))
  {
  }

  lemma CurrentThreadKeeps(e: Engine, id: nat, opens: bool, phase: Phase)
    requires Lifecycle.Inv(e) && PhaseOk(e, phase) && id in e.threads
    ensures Lifecycle.Inv(NetworkStep(e, id, opens)) && PhaseOk(NetworkStep(e, id, opens), phase)
  {
    NetworkKeeps(e, id, opens);
  }

  lemma TurnKeeps(d: Driver, turn: Turn)
    requires Inv(d)
    ensures Inv(TakeTurn(d, turn))
  {
    hide Lifecycle.Inv;
    hide DroppedOk;
    hide NetworkStep;
    hide ControlStep;
    match turn
    case Proceed(configured) => ProceedKeeps(d, configured);
    case Current(id, opens) =>
      if d.engine.Some? && id in d.engine.value.threads {
        CurrentThreadKeeps(d.engine.value, id, opens, d.phase);
      }
    case Orphan(k, id, opens) =>
      if k < |d.dropped| && id in d.dropped[k].threads {
        OrphanKeeps(d.dropped[k], id, opens);
      }
    case _ => if d.engine.Some? && d.phase.Resting? { BeginOk(d.engine.value); }
  }

  lemma {:induction false} InterleaveKeeps(d: Driver, turns: seq<Turn>)
    requires Inv(d)
    ensures Inv(Interleave(d, turns))
    decreases |turns|
  {
    hide Inv;
    hide TakeTurn;
    if turns != [] {
      TurnKeeps(d, turns[0]);
      InterleaveKeeps(TakeTurn(d, turns[0]), turns[1..]);
    }
  }

  // ---------------------------------------------------------------- live threads

  function LiveIn(es: seq<Engine>): nat {
    if es == [] then 0 else LiveIn(es[..|es| - 1]) + |es[|es| - 1].threads|
  }

  /** The live network threads of the engine held and of all dropped ones. */
  function Live(d: Driver): nat {
    LiveIn(d.dropped) + if d.engine.Some? then |d.engine.value.threads| else 0
  }

  /** The dropped engines whose last `stop` failed because it found them Starting. */
  function Abandoned(es: seq<Engine>): nat {
    if es == [] then 0
    else Abandoned(es[..|es| - 1]) + if es[|es| - 1].state == Stopped then 0 else 1
  }

  lemma {:induction false} LiveBound(es: seq<Engine>)
    requires forall e :: e in es ==> DroppedOk(e)
    ensures LiveIn(es) <= Abandoned(es)
  {
    if es != [] {
      var e := es[|es| - 1];
      assert e in es;
      LiveBound(es[..|es| - 1]);
      KeysCount(e);
    }
  }

  lemma EngineLive(e: Engine)
    requires Lifecycle.Inv(e)
    ensures |e.threads| <= 1
  {
    KeysCount(e);
    if e.handle.Some? && e.threads.Keys <= {e.handle.value} {
      AtMostOne(e.threads.Keys, e.handle.value);
    }
  }

  /** Over every run: there is at most one live network thread more than there are abandoned engines, every
      other engine was dropped Stopped, and the branch for a failed start is never taken. */
  lemma OneThreadUnlessAbandoned(turns: seq<Turn>)
    ensures var d := Interleave(NewDriver(), turns);
      && Live(d) <= 1 + Abandoned(d.dropped)
      && (forall e :: e in d.dropped ==>
            !e.producer && e.handle == None &&
            if e.state == Stopped then e.threads == map[]
            else e.call.kind == StopCall && e.call.found == Starting && !e.stopFlag)
      && (d.phase.Resting? && d.engine.Some? && !d.ioRunning ==> d.engine.value.state != Stopping)
      && d.phase != Checking(true) && d.phase != Destroying(true)
  {
    InterleaveKeeps(NewDriver(), turns);
    var d := Interleave(NewDriver(), turns);
    LiveBound(d.dropped);
    if d.engine.Some? {
      EngineLive(d.engine.value);
    }
  }

  /** The thread of a dropped engine has opened its socket, or will find that it has. */
  ghost predicate Streaming(e: Engine, id: nat) {
    && !e.stopFlag && id in e.threads
    && (e.threads[id] == Marking(true) || e.threads[id].Polling? || e.threads[id].Sending?)
  }

  lemma StreamsOn(d: Driver, k: nat, id: nat, turn: Turn)
    requires k < |d.dropped| && Streaming(d.dropped[k], id)
    ensures k < |TakeTurn(d, turn).dropped| && Streaming(TakeTurn(d, turn).dropped[k], id)
  {
    hide ControlStep;
    match turn
    case Proceed(configured) =>
      hide NetworkStep;
      DroppedGrows(d, turn);
    case _ =>
  }

  /** The thread of an engine freed before its socket was open goes on like any other: it opens the socket, marks
      the freed engine Running and polls its stop flag, which nobody can set any more. */
  lemma OrphanGoesOn(d: Driver, k: nat, id: nat, opens: bool)
    requires k < |d.dropped| && id in d.dropped[k].threads && d.dropped[k].threads[id].Opening?
    requires d.dropped[k].state == Starting && !d.dropped[k].stopFlag
    ensures var t := TakeTurn(TakeTurn(d, Orphan(k, id, opens)), Orphan(k, id, opens));
      && |t.dropped| == |d.dropped| && t.dropped[k].state == Running
      && if opens then Streaming(t.dropped[k], id) && t.dropped[k].threads[id].Polling?
         else id !in t.dropped[k].threads
  {
  }

  /** Nothing the driver does ends the thread of an abandoned engine once its socket is open. */
  lemma {:induction false} OrphanStreamsOn(d: Driver, k: nat, id: nat, turns: seq<Turn>)
    requires k < |d.dropped| && Streaming(d.dropped[k], id)
    ensures k < |Interleave(d, turns).dropped| && Streaming(Interleave(d, turns).dropped[k], id)
    decreases |turns|
  {
    if turns != [] {
      hide TakeTurn;
      hide Streaming;
      StreamsOn(d, k, id, turns[0]);
      OrphanStreamsOn(TakeTurn(d, turns[0]), k, id, turns[1..]);
    }
  }

  // ---------------------------------------------------------------- when a second thread appears

  lemma InterleaveCons(d: Driver, e: Turn, es: seq<Turn>)
    ensures Interleave(d, [e] + es) == Interleave(TakeTurn(d, e), es)
  {
    hide TakeTurn;
    assert ([e] + es)[1..] == es;
  }

  lemma InterleaveConcat(d: Driver, a: seq<Turn>, b: seq<Turn>)
    ensures Interleave(d, a + b) == Interleave(Interleave(d, a), b)
  {
    hide TakeTurn;
    forall t, e, es ensures Interleave(t, [e] + es) == Interleave(TakeTurn(t, e), es) {
      InterleaveCons(t, e, es);
    }
    RunConcat(Interleave, TakeTurn, d, a, b);
  }

  /** The driver takes `n` steps with no network thread scheduled. */
  function Proceeds(d: Driver, n: nat): Driver
    decreases n
  {
    if n == 0 then d else Proceeds(TakeTurn(d, Proceed(true)), n - 1)
  }

  lemma {:induction false} ProceedsIs(d: Driver, n: nat)
    ensures Proceeds(d, n) == Interleave(d, Repeat(Proceed(true), n))
    decreases n
  {
    hide TakeTurn;
    if n > 0 {
      ProceedsIs(TakeTurn(d, Proceed(true)), n - 1);
      assert Repeat(Proceed(true), n)[1..] == Repeat(Proceed(true), n - 1);
    }
  }

  /** While the engine is in a call, the driver's step is the engine's. */
  lemma EngineSteps(d: Driver, e: Engine, n: nat)
    requires d.engine == Some(e) && !e.control.Idle?
    ensures Proceeds(d, n + 1) == Proceeds(d.(engine := Some(ControlStep(e))), n)
  {
    hide ControlStep;
  }

  lemma ProceedOnce(d: Driver, n: nat)
    ensures Proceeds(d, n + 1) == Proceeds(TakeTurn(d, Proceed(true)), n)
  {
  }

  /** A new engine after `n` steps of `start`. */
  function Launched(n: nat): Engine {
    if n == 0 then Begin(NewEngine(), StartCall, StartLoad) else ControlStep(Launched(n - 1))
  }

  lemma StartRuns()
    ensures Launched(0) == Begin(NewEngine(), StartCall, StartLoad)
    ensures forall n :: 0 <= n < 5 ==> !Launched(n).control.Idle? && Launched(n + 1) == ControlStep(Launched(n))
    ensures Launched(5).control.Idle? && Launched(5).call.result == Some(true)
    ensures Launched(5).state == Starting && Launched(5).threads == map[0 := Opening]
  {
    var e1, e2, e3, e4 := Launched(1), Launched(2), Launched(3), Launched(4);
    assert e1.control.StartSwap? && e1.state == Stopped && e2.control.StartRing? && e3.control.StartClear?;
    assert e4.control.StartSpawn? && e4.spawned == 0 && e4.threads == map[] && e4.state == Starting;
  }

  lemma {:induction false} LaunchSteps(d: Driver, n: nat, rest: nat)
    requires n <= 5 && d.engine == Some(Launched(0))
    ensures Proceeds(d, n + rest) == Proceeds(d.(engine := Some(Launched(n))), rest)
  {
    hide Proceeds;
    hide Launched;
    hide ControlStep;
    StartRuns();
    if n > 0 {
      LaunchSteps(d, n - 1, rest + 1);
      EngineSteps(d.(engine := Some(Launched(n - 1))), Launched(n - 1), rest);
    } else {
      assert d.(engine := Some(Launched(0))) == d;
    }
  }

  /** Creating and starting an engine takes seven steps and spawns one thread. */
  lemma CreatesAndStarts(d: Driver)
    requires d.phase.Creating? && d.engine == None
    ensures Proceeds(d, 7) == d.(engine := Some(Launched(5)), phase := Resting, ioRunning := true)
    ensures Launched(5).state == Starting && |Launched(5).threads| == 1
  {
    hide Proceeds;
    hide Launched;
    hide ControlStep;
    StartRuns();
    ProceedOnce(d, 6);
    var t := d.(engine := Some(Launched(0)), phase := Launching);
    LaunchSteps(t, 5, 1);
    var last := t.(engine := Some(Launched(5)));
    ProceedOnce(last, 0);
    NoSteps(TakeTurn(last, Proceed(true)));
  }

  lemma NoSteps(d: Driver)
    ensures Proceeds(d, 0) == d
  {
  }

  /** A `stop` that finds the engine Starting is over after two steps and has changed nothing. */
  function StopFailed(e: Engine): Engine {
    e.(call := Call(StopCall, Share(e), Starting, Some(false)))
  }

  lemma FailedStop(d: Driver, e: Engine, n: nat)
    requires e.control.Idle? && e.state == Starting && d.engine == Some(Begin(e, StopCall, StopLoad))
    ensures Proceeds(d, n + 2) == Proceeds(d.(engine := Some(StopFailed(e))), n)
  {
    var e1 := Begin(e, StopCall, StopLoad);
    EngineSteps(d, e1, n + 1);
    EngineSteps(d.(engine := Some(ControlStep(e1))), ControlStep(e1), n);
  }

  /** Whether the driver's next step drops its engine. */
  predicate Drops(d: Driver) {
    && d.engine.Some? && d.engine.value.control.Idle?
    && (d.phase.Destroying? || (d.phase.Checking? && d.engine.value.state == Stopped))
  }

  lemma {:induction false} NoThreads(es: seq<Engine>)
    ensures LiveIn(es) == 0 <==> forall e :: e in es ==> e.threads == map[]
  {
    if es != [] {
      var e := es[|es| - 1];
      var rest := es[..|es| - 1];
      assert es == rest + [e];
      NoThreads(rest);
      KeysCount(e);
    }
  }

  lemma {:induction false} EmptyStays(d: Driver, turns: seq<Turn>)
    requires LiveIn(d.dropped) == 0
    ensures |Interleave(d, turns).dropped| >= |d.dropped|
    ensures |Interleave(d, turns).dropped| == |d.dropped| ==> LiveIn(Interleave(d, turns).dropped) == 0
    decreases |turns|
  {
    if turns != [] {
      NoThreads(d.dropped);
      var t := TakeTurn(d, turns[0]);
      DroppedGrows(d, turns[0]);
      if |t.dropped| == |d.dropped| {
        EmptyStays(t, turns[1..]);
      } else {
        Grows(t, turns[1..]);
      }
    }
  }

  lemma DroppedGrows(d: Driver, turn: Turn)
    ensures var t := TakeTurn(d, turn);
      |t.dropped| == |d.dropped| + if turn.Proceed? && Drops(d) then 1 else 0
    ensures LiveIn(d.dropped) == 0 && !(turn.Proceed? && Drops(d)) ==> TakeTurn(d, turn).dropped == d.dropped
    ensures turn.Proceed? ==> d.dropped <= TakeTurn(d, turn).dropped
  {
    hide ControlStep;
    NoThreads(d.dropped);
  }

  lemma {:induction false} Grows(d: Driver, turns: seq<Turn>)
    ensures |Interleave(d, turns).dropped| >= |d.dropped|
    decreases |turns|
  {
    hide TakeTurn;
    if turns != [] {
      DroppedGrows(d, turns[0]);
      Grows(TakeTurn(d, turns[0]), turns[1..]);
    }
  }

  /** When dropping an engine leads to two live threads, at the moment it is freed: in any run that has left no
      thread behind so far, some continuation up to the next drop has two if and only if the engine dropped
      has one; an engine dropped Starting has, one dropped Stopped has not. */
  lemma DropLeaks(turns: seq<Turn>)
    requires var d := Interleave(NewDriver(), turns); Drops(d) && LiveIn(d.dropped) == 0
    ensures var d := Interleave(NewDriver(), turns);
      var t := TakeTurn(d, Proceed(true));
      && ((exists more :: |Interleave(t, more).dropped| == |t.dropped| && Live(Interleave(t, more)) > 1)
          <==> d.engine.value.threads != map[])
      && (d.engine.value.state == Starting ==> d.engine.value.threads != map[])
      && (d.engine.value.state == Stopped ==> d.engine.value.threads == map[])
  {
    InterleaveKeeps(NewDriver(), turns);
    var d := Interleave(NewDriver(), turns);
    var e := d.engine.value;
    var t := TakeTurn(d, Proceed(true));
    TurnKeeps(d, Proceed(true));
    assert t.dropped[..|t.dropped| - 1] == d.dropped;
    KeysCount(e);
    if e.threads != map[] {
      CreatesAndStarts(t);
      ProceedsIs(t, 7);
      var more := Repeat(Proceed(true), 7);
      assert Live(Interleave(t, more)) > 1;
    } else {
      forall more | |Interleave(t, more).dropped| == |t.dropped| ensures Live(Interleave(t, more)) <= 1 {
        StaysSingle(t, more);
      }
    }
  }

  lemma StaysSingle(t: Driver, more: seq<Turn>)
    requires Inv(t) && LiveIn(t.dropped) == 0 && |Interleave(t, more).dropped| == |t.dropped|
    ensures Live(Interleave(t, more)) <= 1
  {
    EmptyStays(t, more);
    InterleaveKeeps(t, more);
    if Interleave(t, more).engine.Some? {
      EngineLive(Interleave(t, more).engine.value);
    }
  }

  /** The engine `zinkos_engine_destroy` is given will be Stopped when it is freed: it is Stopped already, or
      Running with its `stop` to come or under way. */
  ghost predicate EndsStopped(d: Driver) {
    d.engine.Some? &&
    match d.phase
    case Checking(failed) => d.engine.value.state == Stopped || d.engine.value.state == Running
    case Destroying(failed) => d.engine.value.call.entry.state == Running
    case _ => false
  }

  lemma EndsStoppedStep(d: Driver, turn: Turn)
    requires Inv(d) && EndsStopped(d) && LiveIn(d.dropped) == 0
    ensures LiveIn(TakeTurn(d, turn).dropped) == 0
    ensures (turn.Proceed? && Drops(d)) || EndsStopped(TakeTurn(d, turn))
  {
    DroppedGrows(d, turn);
    if turn.Proceed? {
      var e := d.engine.value;
      if Drops(d) {
        var t := TakeTurn(d, turn);
        StoppedIsQuiet(e);
        assert t.dropped[..|t.dropped| - 1] == d.dropped;
      } else if !e.control.Idle? {
        ControlKeepsEntry(e);
      }
    } else {
      hide ControlStep;
    }
  }

  lemma ControlKeepsEntry(e: Engine)
    ensures ControlStep(e).call.entry == e.call.entry
  {
  }

  /** A `stop` begun on a Running engine leaves it Stopped. */
  lemma StoppedIsQuiet(e: Engine)
    requires Lifecycle.Inv(e) && e.control.Idle?
    requires e.state == Stopped || (e.call.kind == StopCall && e.call.entry.state == Running)
    ensures e.threads == map[]
  {
  }

  lemma {:induction false} DestroyedStopped(d: Driver, more: seq<Turn>)
    requires Inv(d) && EndsStopped(d) && LiveIn(d.dropped) == 0
    requires |Interleave(d, more).dropped| == |d.dropped| + 1
    ensures Live(Interleave(d, more)) <= 1
    decreases |more|
  {
    hide TakeTurn;
    hide Inv;
    hide EndsStopped;
    hide LiveIn;
    if more != [] {
      EndsStoppedStep(d, more[0]);
      TurnKeeps(d, more[0]);
      DroppedGrows(d, more[0]);
      if more[0].Proceed? && Drops(d) {
        StaysSingle(TakeTurn(d, more[0]), more[1..]);
      } else {
        DestroyedStopped(TakeTurn(d, more[0]), more[1..]);
      }
    }
  }

  /** Destroying an engine that is Starting, and creating the next one, before its thread has run. */
  lemma DestroysStarting(d: Driver, e: Engine)
    requires d.phase == Checking(false) && d.engine == Some(e) && e.control.Idle? && e.state == Starting
    ensures Proceeds(d, 11) ==
      Driver(true, Some(Launched(5)), d.dropped + [Drop(StopFailed(e))], Resting)
    ensures |Launched(5).threads| == 1
  {
    hide Proceeds;
    hide ControlStep;
    hide Launched;
    var destroying := d.(engine := Some(Begin(e, StopCall, StopLoad)), phase := Destroying(false));
    ProceedOnce(d, 10);
    FailedStop(destroying, e, 8);
    ProceedOnce(destroying.(engine := Some(StopFailed(e))), 7);
    CreatesAndStarts(d.(engine := None, dropped := d.dropped + [Drop(StopFailed(e))], phase := Creating));
  }

  lemma LiveSnoc(es: seq<Engine>, e: Engine)
    ensures LiveIn(es + [e]) == LiveIn(es) + |e.threads|
  {
    assert (es + [e])[..|es|] == es;
  }

  /** The condition a caller can read: in any run that has left no thread behind and reaches
      `zinkos_engine_destroy`, some continuation that frees just this engine has two live threads if and only if
      the engine is Starting when the call begins. */
  lemma DestroyLeaks(turns: seq<Turn>)
    requires var d := Interleave(NewDriver(), turns); d.phase == Checking(false) && LiveIn(d.dropped) == 0
    ensures var d := Interleave(NewDriver(), turns);
      && d.engine.Some?
      && ((exists more :: |Interleave(d, more).dropped| == |d.dropped| + 1 && Live(Interleave(d, more)) > 1)
          <==> d.engine.value.state == Starting)
  {
    InterleaveKeeps(NewDriver(), turns);
    DestroyLeaksFrom(Interleave(NewDriver(), turns));
  }

  lemma DestroyLeaksFrom(d: Driver)
    requires Inv(d) && d.phase == Checking(false) && LiveIn(d.dropped) == 0
    ensures d.engine.Some?
    ensures (exists more :: |Interleave(d, more).dropped| == |d.dropped| + 1 && Live(Interleave(d, more)) > 1)
      <==> d.engine.value.state == Starting
  {
    var e := d.engine.value;
    IdleStates(e);
    hide Launched;
    hide Lifecycle.Inv;
    hide Interleave;
    hide Proceeds;
    if e.state == Starting {
      OneThread(e);
      DestroysStarting(d, e);
      ProceedsIs(d, 11);
      LiveSnoc(d.dropped, Drop(StopFailed(e)));
      var more := Repeat(Proceed(true), 11);
      assert Live(Interleave(d, more)) > 1;
    } else {
      forall more | |Interleave(d, more).dropped| == |d.dropped| + 1 ensures Live(Interleave(d, more)) <= 1 {
        DestroyedStopped(d, more);
      }
    }
  }

  lemma IdleStates(e: Engine)
    requires Lifecycle.Inv(e) && e.control.Idle?
    ensures e.state != Stopping
  {
  }

  /** The shortest way there: IO stopped and started again before the network thread has run. */
  lemma StopThenStartLeaks(turns: seq<Turn>)
    requires var d := Interleave(NewDriver(), turns);
      d.phase.Resting? && d.ioRunning && d.engine.Some? && d.engine.value.state == Starting
    ensures var more := [StopIO] + Repeat(Proceed(true), 3) + [StartIO] + Repeat(Proceed(true), 14);
      var d := Interleave(NewDriver(), turns);
      var t := Interleave(NewDriver(), turns + more);
      && t.phase.Resting? && t.ioRunning && t.engine.Some? && |t.engine.value.threads| == 1
      && t.dropped == d.dropped + [Drop(StopFailed(StopFailed(StopFailed(d.engine.value))))]
      && |t.dropped[|d.dropped|].threads| == 1
  {
    hide Interleave;
    hide TakeTurn;
    hide Proceeds;
    InterleaveKeeps(NewDriver(), turns);
    var d := Interleave(NewDriver(), turns);
    StopThenStart(d, d.engine.value);
    var more := [StopIO] + Repeat(Proceed(true), 3) + [StartIO] + Repeat(Proceed(true), 14);
    InterleaveConcat(NewDriver(), turns, more);
  }

  lemma StopThenStart(d: Driver, e: Engine)
    requires Inv(d) && d.phase.Resting? && d.ioRunning && d.engine == Some(e) && e.state == Starting
    ensures |e.threads| == 1
    ensures Interleave(d, [StopIO] + Repeat(Proceed(true), 3) + [StartIO] + Repeat(Proceed(true), 14)) ==
      Driver(true, Some(Launched(5)), d.dropped + [Drop(StopFailed(StopFailed(StopFailed(e))))], Resting)
    ensures |Launched(5).threads| == 1
  {
    hide Proceeds;
    hide Launched;
    hide ControlStep;
    hide TakeTurn;
    hide Interleave;
    StartRuns();
    OneThread(e);
    StopsInVain(d, e);
    var f := StopFailed(e);
    var halted := d.(engine := Some(f), ioRunning := false);
    StartsAnew(halted, f);
    var p3, p14 := Repeat(Proceed(true), 3), Repeat(Proceed(true), 14);
    ProceedsIs(TakeTurn(d, StopIO), 3);
    ProceedsIs(TakeTurn(halted, StartIO), 14);
    OneTurn(d, StopIO);
    OneTurn(halted, StartIO);
    InterleaveConcat(d, [StopIO], p3);
    InterleaveConcat(d, [StopIO] + p3, [StartIO]);
    InterleaveConcat(d, [StopIO] + p3 + [StartIO], p14);
  }

  lemma OneTurn(d: Driver, turn: Turn)
    ensures Interleave(d, [turn]) == TakeTurn(d, turn)
  {
    assert Interleave(TakeTurn(d, turn), [turn][1..]) == TakeTurn(d, turn);
  }

  lemma OneThread(e: Engine)
    requires Lifecycle.Inv(e) && e.control.Idle? && e.state == Starting
    ensures |e.threads| == 1
  {
    assert e.threads.Keys == {e.handle.value};
  }

  lemma StopsInVain(d: Driver, e: Engine)
    requires d.phase.Resting? && d.ioRunning && d.engine == Some(e) && e.control.Idle? && e.state == Starting
    ensures Proceeds(TakeTurn(d, StopIO), 3) == d.(engine := Some(StopFailed(e)), ioRunning := false)
  {
    hide Proceeds;
    hide ControlStep;
    var halting := d.(engine := Some(Begin(e, StopCall, StopLoad)), phase := Halting);
    FailedStop(halting, e, 1);
    var last := halting.(engine := Some(StopFailed(e)));
    ProceedOnce(last, 0);
    NoSteps(TakeTurn(last, Proceed(true)));
  }

  lemma StartsAnew(d: Driver, e: Engine)
    requires d.phase.Resting? && !d.ioRunning && d.engine == Some(e) && e.control.Idle? && e.state == Starting
    ensures Proceeds(TakeTurn(d, StartIO), 14) ==
      Driver(true, Some(Launched(5)), d.dropped + [Drop(StopFailed(StopFailed(e)))], Resting)
  {
    hide Proceeds;
    hide ControlStep;
    hide Launched;
    var f := StopFailed(e);
    var retiring := d.(engine := Some(Begin(e, StopCall, StopLoad)), phase := Retiring);
    FailedStop(retiring, e, 12);
    var checking := retiring.(engine := Some(f), phase := Checking(false));
    ProceedOnce(retiring.(engine := Some(f)), 11);
    DestroysStarting(checking, f);
  }

  /** And that way begins at once: StartIO, StopIO and StartIO again reach `zinkos_engine_destroy` with the engine
      still Starting if its thread has not run. */
  lemma DestroyReached()
    ensures var turns := [StartIO] + Repeat(Proceed(true), 7) + [StopIO] + Repeat(Proceed(true), 3)
                         + [StartIO] + Repeat(Proceed(true), 3);
      var d := Interleave(NewDriver(), turns);
      && d.phase == Checking(false) && d.dropped == []
      && d.engine.Some? && d.engine.value.state == Starting
  {
    hide Proceeds;
    hide Launched;
    hide ControlStep;
    hide TakeTurn;
    hide Interleave;
    hide Repeat;
    hide StopFailed;
    StartRuns();
    var e := Launched(5);
    var d1 := Driver(true, Some(e), [], Resting);
    BeginsCreating();
    CreatesAndStarts(NewDriver().(phase := Creating));
    StopsInVain(d1, e);
    var d2 := d1.(engine := Some(StopFailed(e)), ioRunning := false);
    FailedStaysStarting(e);
    FailedStaysStarting(StopFailed(e));
    Retires(d2, StopFailed(e));
    Segment(NewDriver(), StartIO, 7);
    Segment(d1, StopIO, 3);
    Segment(d2, StartIO, 3);
    var a, b, c := [StartIO] + Repeat(Proceed(true), 7), [StopIO] + Repeat(Proceed(true), 3),
                   [StartIO] + Repeat(Proceed(true), 3);
    InterleaveConcat(NewDriver(), a, b);
    InterleaveConcat(NewDriver(), a + b, c);
    Associative(a, [StopIO], Repeat(Proceed(true), 3));
    Associative(a + b, [StartIO], Repeat(Proceed(true), 3));
  }

  lemma BeginsCreating()
    ensures TakeTurn(NewDriver(), StartIO) == NewDriver().(phase := Creating)
  {
  }

  lemma FailedStaysStarting(e: Engine)
    ensures StopFailed(e).state == e.state && StopFailed(e).control == e.control
  {
  }

  /** One IO call and `n` steps of the driver. */
  lemma Segment(d: Driver, turn: Turn, n: nat)
    ensures Interleave(d, [turn] + Repeat(Proceed(true), n)) == Proceeds(TakeTurn(d, turn), n)
  {
    hide TakeTurn;
    hide Proceeds;
    InterleaveCons(d, turn, Repeat(Proceed(true), n));
    ProceedsIs(TakeTurn(d, turn), n);
  }

  /** StartIO's own `stop` of an engine that is still Starting. */
  lemma Retires(d: Driver, e: Engine)
    requires d.phase.Resting? && !d.ioRunning && d.engine == Some(e) && e.control.Idle? && e.state == Starting
    ensures Proceeds(TakeTurn(d, StartIO), 3) == d.(engine := Some(StopFailed(e)), phase := Checking(false))
  {
    hide Proceeds;
    hide ControlStep;
    var retiring := d.(engine := Some(Begin(e, StopCall, StopLoad)), phase := Retiring);
    FailedStop(retiring, e, 1);
    var last := retiring.(engine := Some(StopFailed(e)));
    ProceedOnce(last, 0);
    NoSteps(TakeTurn(last, Proceed(true)));
  }
}
