/** The engine's lifecycle: a compare-and-swap state, the control thread's `start` and `stop`, and the
    network threads they spawn and join, interleaved step by step. */
module Lifecycle {
  import opened Audio
  import opened Runs

  datatype State = Stopped | Starting | Running | Stopping

  // ---------------------------------------------------------------- the state machine

  /** The outcome of a compare-and-swap: the new value, and whether it happened. */
  function CompareExchange(current: State, from: State, to: State): (State, bool) {
    if current == from then (to, true) else (current, false)
  }

  datatype Result = Ok(state: State) | Err(state: State)

  /** The atomic lifecycle state, each method run without interference. */
  class StateMachine {
    var state: State

    constructor ()
      ensures state == Stopped
    {
      state := Stopped;
    }

    /** The gate of the audio callback's writes. */
    predicate IsAcceptingAudio()
      reads this
    {
      state == Starting || state == Running
    }

    method Transition(from: State, to: State) returns (r: Result)
      modifies this
      ensures (state, r.Ok?) == CompareExchange(old(state), from, to)
      ensures r.state == state
    {
      if state == from {
        state := to;
        r := Ok(to);
      } else {
        r := Err(state);
      }
    }

    /** Succeeds except while stopping; moves only from Stopped. */
    method Start() returns (r: Result)
      modifies this
      ensures state == if old(state) == Stopped then Starting else old(state)
      ensures r == if old(state) == Stopping then Err(Stopping) else Ok(state)
    {
      if state == Starting || state == Running {
        r := Ok(state);
      } else {
        r := Transition(Stopped, Starting);
      }
    }

    /** Moves only from Starting. */
    method MarkRunning() returns (r: Result)
      modifies this
      ensures if old(state) == Starting then state == Running && r == Ok(Running)
              else state == old(state) && r == Err(state)
    {
      r := Transition(Starting, Running);
    }

    /** Succeeds except while starting; moves only from Running. */
    method Stop() returns (r: Result)
      modifies this
      ensures state == if old(state) == Running then Stopping else old(state)
      ensures r == if old(state) == Starting then Err(Starting) else Ok(state)
    {
      if state == Stopping || state == Stopped {
        r := Ok(state);
      } else {
        r := Transition(Running, Stopping);
      }
    }

    /** Moves only from Stopping. */
    method MarkStopped() returns (r: Result)
      modifies this
      ensures if old(state) == Stopping then state == Stopped && r == Ok(Stopped)
              else state == old(state) && r == Err(state)
    {
      r := Transition(Stopping, Stopped);
    }
  }

  // ---------------------------------------------------------------- the threads

  /** Where the control thread is in `start` or `stop`. */
  datatype Control =
    | Idle
    | StartLoad | StartSwap | StartRing | StartClear | StartSpawn
    | StopLoad | StopSwap | StopSignal | StopJoin | StopDrop | StopMark

  /** Where a live network thread is. */
  datatype Network = Opening | Marking(bound: bool) | Polling | Sending

  /** All that a call can change. */
  datatype Shared = Shared(
    state: State, producer: bool, handle: Option<nat>, stopFlag: bool, threads: map<nat, Network>, spawned: nat)

  datatype Kind = NoCall | StartCall | StopCall

  /** The current or last call: what it began with, the state its latest load or compare-and-swap found, and
      whether it succeeded, once it has returned. */
  datatype Call = Call(kind: Kind, entry: Shared, found: State, result: Option<bool>)

  datatype Engine = Engine(
    state: State, producer: bool, handle: Option<nat>, stopFlag: bool,
    control: Control, threads: map<nat, Network>, spawned: nat, call: Call)

  function Share(s: Engine): Shared {
    Shared(s.state, s.producer, s.handle, s.stopFlag, s.threads, s.spawned)
  }

  function NewEngine(): Engine {
    Engine(Stopped, false, None, false, Idle, map[], 0,
           Call(NoCall, Shared(Stopped, false, None, false, map[], 0), Stopped, None))
  }

  /** The scheduler's choice: a call while the control thread is idle, its next step, or a step of one
      network thread; `opens` says whether its socket opens. */
  datatype Turn = CallStart | CallStop | ControlTurn | NetworkTurn(id: nat, opens: bool)

  function Begin(s: Engine, kind: Kind, first: Control): Engine {
    s.(control := first, call := Call(kind, Share(s), s.state, None))
  }

  /** The current call notes the state it finds. */
  function Finds(s: Engine): Engine { s.(call := s.call.(found := s.state)) }

  function Returns(s: Engine, ok: bool): Engine { s.(control := Idle, call := s.call.(result := Some(ok))) }

  function ControlStep(s: Engine): Engine {
    match s.control
    case Idle => s
    case StartLoad =>
      Finds(s).(control := if s.state == Starting || s.state == Running then StartRing else StartSwap)
    case StartSwap =>
      var (state, done) := CompareExchange(s.state, Stopped, Starting);
      if done then Finds(s).(state := state, control := StartRing) else Returns(Finds(s), false)
    case StartRing => s.(producer := true, control := StartClear)
    case StartClear => s.(stopFlag := false, control := StartSpawn)
    case StartSpawn =>
      Returns(s.(threads := s.threads[s.spawned := Opening], handle := Some(s.spawned), spawned := s.spawned + 1),
              true)
    case StopLoad =>
      Finds(s).(control := if s.state == Stopping || s.state == Stopped then StopSignal else StopSwap)
    case StopSwap =>
      var (state, done) := CompareExchange(s.state, Running, Stopping);
      if done then Finds(s).(state := state, control := StopSignal) else Returns(Finds(s), false)
    case StopSignal => s.(stopFlag := true, control := StopJoin)
    case StopJoin =>
      if s.handle.Some? && s.handle.value in s.threads then s               // `join` blocks
      else s.(handle := None, control := StopDrop)
    case StopDrop => s.(producer := false, control := StopMark)
    case StopMark =>
      var (state, done) := CompareExchange(s.state, Stopping, Stopped);
      Returns(s.(state := state), done)
  }

  function NetworkStep(s: Engine, id: nat, opens: bool): Engine
    requires id in s.threads
  {
    match s.threads[id]
    case Opening => s.(threads := s.threads[id := Marking(opens)])
    case Marking(bound) =>
      s.(state := CompareExchange(s.state, Starting, Running).0,
         threads := if bound then s.threads[id := Polling] else s.threads - {id})
    case Polling => if s.stopFlag then s.(threads := s.threads - {id}) else s.(threads := s.threads[id := Sending])
    case Sending => s.(threads := s.threads[id := Polling])
  }

  /** One turn; a turn that is not possible leaves everything as it is. */
  function TakeTurn(s: Engine, turn: Turn): Engine {
    match turn
    case CallStart => if s.control.Idle? then Begin(s, StartCall, StartLoad) else s
    case CallStop => if s.control.Idle? then Begin(s, StopCall, StopLoad) else s
    case ControlTurn => ControlStep(s)
    case NetworkTurn(id, opens) => if id in s.threads then NetworkStep(s, id, opens) else s
  }

  function Interleave(s: Engine, turns: seq<Turn>): Engine
    decreases |turns|
  {
    if turns == [] then s else Interleave(TakeTurn(s, turns[0]), turns[1..])
  }

  /** The client never calls `start` while the engine is Starting or Running. */
  ghost predicate Behaved(s: Engine, turns: seq<Turn>)
    decreases |turns|
  {
    turns != [] ==>
      && (turns[0].CallStart? && s.control.Idle? ==> s.state != Starting && s.state != Running)
      && Behaved(TakeTurn(s, turns[0]), turns[1..])
  }

  lemma InterleaveCons(s: Engine, e: Turn, es: seq<Turn>)
    ensures Interleave(s, [e] + es) == Interleave(TakeTurn(s, e), es)
  {
    hide TakeTurn;
    assert ([e] + es)[1..] == es;
  }

  lemma InterleaveConcat(s: Engine, a: seq<Turn>, b: seq<Turn>)
    ensures Interleave(s, a + b) == Interleave(Interleave(s, a), b)
  {
    hide TakeTurn;
    forall t, e, es ensures Interleave(t, [e] + es) == Interleave(TakeTurn(t, e), es) {
      InterleaveCons(t, e, es);
    }
    RunConcat(Interleave, TakeTurn, s, a, b);
  }

  // ---------------------------------------------------------------- invariant

  /** Nothing is left of a previous session. */
  ghost predicate Quiet(s: Engine) {
    s.threads == map[] && !s.producer && s.handle == None
  }

  /** One session: at most the joined thread is live, and before it has marked the engine running it is
      there. */
  ghost predicate Session(s: Engine) {
    && s.producer && s.handle.Some?
    && s.threads.Keys <= {s.handle.value}
    && (s.state == Starting ==>
          s.handle.value in s.threads && (s.threads[s.handle.value].Opening? || s.threads[s.handle.value].Marking?))
    && (s.state != Starting && s.handle.value in s.threads ==>
          s.threads[s.handle.value].Polling? || s.threads[s.handle.value].Sending?)
  }

  /** Nothing but the network thread has changed what the call began with. */
  ghost predicate Untouched(entry: Shared, s: Engine) {
    && Share(s) == entry.(state := s.state, threads := s.threads)
    && (s.state == entry.state || (entry.state == Starting && s.state == Running))
    && (s.state == Starting ==> s.threads.Keys == entry.threads.Keys)
    && (s.state == Stopped ==> s.threads == entry.threads)
  }

  /** A `stop` that is past its load or swap has found the engine Stopped, as it was at the call, or Running. */
  ghost predicate Decided(s: Engine, flag: bool) {
    var entry := s.call.entry;
    && s.stopFlag == flag
    && if s.call.found == Stopped then
         entry.state == Stopped && !entry.producer && entry.handle == None && Share(s) == entry.(stopFlag := flag)
       else
         s.call.found == Running && s.state == Stopping && s.spawned == entry.spawned
         && (entry.state == Starting || entry.state == Running)
  }

  /** What the current call knows. */
  ghost predicate CallOk(s: Engine) {
    && (s.control.Idle? <==> s.call.kind.NoCall? || s.call.result.Some?)
    && (s.control.Idle? && s.call.kind == StartCall ==> s.call.result == Some(true))
    && (s.control.Idle? && s.call.kind == StopCall ==>
          && (s.state == Stopped <==> s.call.found != Starting)
          && (s.call.result == Some(true) <==> s.call.found == Running)
          && (s.call.entry.state == Running ==> s.call.found == Running))
    && (s.control in {StartLoad, StartSwap, StartRing, StartClear, StartSpawn} ==>
          s.call.kind == StartCall && s.spawned == s.call.entry.spawned)
    && (s.control in {StopLoad, StopSwap, StopSignal, StopJoin, StopDrop, StopMark} ==> s.call.kind == StopCall)
    && (s.control in {StopLoad, StopSwap} ==> Untouched(s.call.entry, s))
    && (s.control.StopSignal? ==> Decided(s, s.call.entry.stopFlag))
    && (s.control in {StopJoin, StopDrop, StopMark} ==> Decided(s, true))
  }

  ghost predicate Inv(s: Engine) {
    && CallOk(s)
    && (s.handle.Some? ==> s.handle.value < s.spawned)
    && (s.state != Stopped && s.control in {Idle, StopLoad, StopSwap, StopSignal, StartSpawn} ==> !s.stopFlag)
    && (s.control.StopJoin? ==> s.stopFlag)
    && match s.control
       case Idle => if s.state == Stopped then Quiet(s) else s.state != Stopping && Session(s)
       case StartLoad => s.state == Stopped && Quiet(s)
       case StartSwap => s.state == Stopped && Quiet(s)
       case StartRing => s.state == Starting && Quiet(s)
       case StartClear => s.state == Starting && s.threads == map[] && s.handle == None && s.producer
       case StartSpawn => s.state == Starting && s.threads == map[] && s.handle == None && s.producer
       case StopLoad => if s.state == Stopped then Quiet(s) else s.state != Stopping && Session(s)
       case StopSwap => s.state != Stopped && s.state != Stopping && Session(s)
       case StopSignal => if s.state == Stopped then Quiet(s) else s.state == Stopping && Session(s)
       case StopJoin => if s.state == Stopped then Quiet(s) else s.state == Stopping && Session(s)
       case StopDrop => s.threads == map[] && s.handle == None && (s.state == Stopped || s.state == Stopping)
       case StopMark => Quiet(s) && (s.state == Stopped || s.state == Stopping)
  }

  lemma ControlKeeps(s: Engine)
    requires Inv(s)
    ensures Inv(ControlStep(s))
  {
    if s.control.StopJoin? && s.handle.Some? && s.handle.value !in s.threads {
      assert s.threads.Keys == {};
    }
  }

  lemma NetworkKeeps(s: Engine, id: nat, opens: bool)
    requires Inv(s) && id in s.threads
    ensures Inv(NetworkStep(s, id, opens))
  {
    assert id in s.threads.Keys;
  }

  lemma {:induction false} EveryStateInv(s: Engine, turns: seq<Turn>)
    requires Inv(s) && Behaved(s, turns)
    ensures Inv(Interleave(s, turns))
    decreases |turns|
  {
    if turns != [] {
      match turns[0] {
        case ControlTurn => ControlKeeps(s);
        case NetworkTurn(id, opens) => if id in s.threads { NetworkKeeps(s, id, opens); }
        case _ =>
      }
      EveryStateInv(TakeTurn(s, turns[0]), turns[1..]);
    }
  }

  // ---------------------------------------------------------------- theorems

  /** In every interleaving with a well-behaved client at most one network thread is live; outside a
      call the engine is never Stopping, and while it is Stopped no network thread is live and the
      producer is gone. */
  lemma Lifecycle(turns: seq<Turn>)
    requires Behaved(NewEngine(), turns)
    ensures var s := Interleave(NewEngine(), turns);
      && |s.threads| <= 1
      && (s.control.Idle? ==> s.state != Stopping)
      && (s.control.Idle? && s.state == Stopped ==> s.threads == map[] && !s.producer && s.handle == None)
      && (s.control.Idle? && s.state != Stopped ==> s.producer && s.handle.Some? && !s.stopFlag)
  {
    EveryStateInv(NewEngine(), turns);
    var s := Interleave(NewEngine(), turns);
    if s.handle.Some? && s.threads.Keys <= {s.handle.value} {
      AtMostOne(s.threads.Keys, s.handle.value);
    }
  }

  lemma AtMostOne(keys: set<nat>, k: nat)
    requires keys <= {k}
    ensures |keys| <= 1
  {
    if k in keys {
      assert keys == {k};
    } else {
      assert keys == {};
    }
  }

  lemma AtMostOneKey(keys: set<nat>, k: nat)
    requires |keys| <= 1 && k in keys
    ensures keys == {k}
  {
    assert |keys - {k}| == 0;
  }

  lemma KeysCount(e: Engine)
    ensures |e.threads| == |e.threads.Keys|
    ensures e.threads == map[] <==> |e.threads| == 0
  {
    if |e.threads.Keys| == 0 {
      assert e.threads.Keys == {};
    }
  }

  function Successor(state: State): State {
    match state
    case Stopped => Starting
    case Starting => Running
    case Running => Stopping
    case Stopping => Stopped
  }

  /** Whatever the client does, the state only moves round the circle. */
  lemma StateGoesRound(s: Engine, turn: Turn)
    ensures TakeTurn(s, turn).state == s.state || TakeTurn(s, turn).state == Successor(s.state)
  {
  }

  /** How `stop` ends: it succeeds exactly if its swap found the engine Running, and then leaves nothing of the
      session; it fails and changes nothing exactly if its swap found it Starting; and it fails having set
      the stop flag and nothing else exactly if it found the engine Stopped. */
  ghost predicate StopEnds(t: Engine) {
    var Call(_, entry, found, result) := t.call;
    && (result == Some(true) <==> found == Running)
    && (found == Running ==> t.state == Stopped && Quiet(t) && t.stopFlag && t.spawned == entry.spawned)
    && (found == Starting <==>
          result == Some(false) && t.state == Starting && t.threads.Keys == entry.threads.Keys
          && Share(t) == entry.(threads := t.threads))
    && (found == Stopped <==> result == Some(false) && t.state == Stopped && Share(t) == entry.(stopFlag := true))
    && (entry.state == Stopped <==> found == Stopped)
    && (entry.state == Running ==> result == Some(true))
  }

  lemma StopEndsHere(s: Engine)
    requires Inv(s) && s.call.kind == StopCall && !s.control.Idle? && ControlStep(s).control.Idle?
    ensures StopEnds(ControlStep(s))
  {
  }

  /** The outcome of every `stop` that completes in an interleaving with a well-behaved client. */
  lemma StopOutcome(turns: seq<Turn>)
    requires Behaved(NewEngine(), turns)
    requires var s := Interleave(NewEngine(), turns);
      s.call.kind == StopCall && !s.control.Idle? && ControlStep(s).control.Idle?
    ensures StopEnds(ControlStep(Interleave(NewEngine(), turns)))
  {
    EveryStateInv(NewEngine(), turns);
    StopEndsHere(Interleave(NewEngine(), turns));
  }

  /** How `start` ends: it succeeds and leaves one new thread. */
  ghost predicate StartEnds(t: Engine) {
    && t.call.result == Some(true) && t.state == Starting && t.spawned == t.call.entry.spawned + 1
    && t.threads == map[t.call.entry.spawned := Opening]
  }

  lemma StartEndsHere(s: Engine)
    requires Inv(s) && s.call.kind == StartCall && !s.control.Idle? && ControlStep(s).control.Idle?
    ensures StartEnds(ControlStep(s))
  {
  }

  /** So ends every `start` that completes in an interleaving with a well-behaved client. */
  lemma StartSucceeds(turns: seq<Turn>)
    requires Behaved(NewEngine(), turns)
    requires var s := Interleave(NewEngine(), turns);
      s.call.kind == StartCall && !s.control.Idle? && ControlStep(s).control.Idle?
    ensures StartEnds(ControlStep(Interleave(NewEngine(), turns)))
  {
    EveryStateInv(NewEngine(), turns);
    StartEndsHere(Interleave(NewEngine(), turns));
  }

  /** From Stopping, where only an interrupted `stop` could leave an engine: `start` fails and changes nothing, and
      `stop` goes on where the last one was and succeeds. */
  lemma FromStopping(s: Engine)
    requires s.control.Idle? && s.state == Stopping && s.threads == map[]
    ensures var t := ControlStep(ControlStep(TakeTurn(s, CallStart)));
      t.control.Idle? && t.call.result == Some(false) && Share(t) == Share(s)
    ensures var t := ControlStep(ControlStep(ControlStep(ControlStep(ControlStep(TakeTurn(s, CallStop))))));
      t.control.Idle? && t.call.result == Some(true) && t.state == Stopped && t.stopFlag && Quiet(t)
  {
  }

  /** A second `stop` is not the no-op its documentation promises: on a stopped engine it runs through all
      its steps, sets the stop flag and fails. */
  lemma StopTwiceFails(s: Engine)
    requires Inv(s) && s.control.Idle? && s.state == Stopped
    ensures var t := ControlStep(ControlStep(ControlStep(ControlStep(ControlStep(TakeTurn(s, CallStop))))));
      t.control.Idle? && t.call.result == Some(false) && Share(t) == Share(s).(stopFlag := true)
  {
  }

  /** Outside a call a network thread that is past opening its socket goes on; once `stop` waits in the
      join, two turns of the thread suffice to end it. */
  lemma ThreadsObeyTheFlag(s: Engine, opens: bool)
    requires Inv(s) && s.handle.Some? && s.handle.value in s.threads
    ensures var id := s.handle.value;
      && (s.control.Idle? && s.state == Running ==> id in NetworkStep(s, id, opens).threads)
      && (s.control.StopJoin? ==>
            var t := NetworkStep(s, id, opens);
            id !in t.threads || id !in NetworkStep(t, id, opens).threads)
  {
  }

  // ---------------------------------------------------------------- a second start

  /** Nothing but the call in progress and the network threads. */
  predicate NoCalls(turns: seq<Turn>) {
    forall turn :: turn in turns ==> turn.ControlTurn? || turn.NetworkTurn?
  }

  function ControlTurns(turns: seq<Turn>): nat {
    if turns == [] then 0 else (if turns[0].ControlTurn? then 1 else 0) + ControlTurns(turns[1..])
  }

  /** Where a `start` on an engine that is Starting or Running is after `k` steps, the `n`-th thread being
      the one it spawns. */
  ghost predicate StartingAgain(t: Engine, n: nat, k: nat) {
    && (t.state == Starting || t.state == Running) && t.producer && !t.stopFlag && t.call.kind == StartCall
    && match t.control
       case StartLoad => k == 0 && t.spawned == n
       case StartRing => k == 1 && t.spawned == n
       case StartClear => k == 2 && t.spawned == n
       case StartSpawn => k == 3 && t.spawned == n
       case Idle => k >= 4 && t.call.result == Some(true) && t.spawned == n + 1 && t.handle == Some(n)
       case _ => false
  }

  lemma {:induction false} StartGoesOn(t: Engine, n: nat, k: nat, turns: seq<Turn>)
    requires StartingAgain(t, n, k) && NoCalls(turns)
    ensures StartingAgain(Interleave(t, turns), n, k + ControlTurns(turns))
    decreases |turns|
  {
    if turns != [] {
      assert turns[0] in turns;
      StartGoesOn(TakeTurn(t, turns[0]), n, if turns[0].ControlTurn? then k + 1 else k, turns[1..]);
    }
  }

  /** `start` on an engine that is Starting or Running: however the network threads run meanwhile, it succeeds
      after exactly four steps, and has spawned one more thread. */
  lemma StartAgain(s: Engine, turns: seq<Turn>)
    requires Inv(s) && s.control.Idle? && (s.state == Starting || s.state == Running) && NoCalls(turns)
    ensures var t := Interleave(TakeTurn(s, CallStart), turns);
      && (t.control.Idle? <==> ControlTurns(turns) >= 4)
      && (t.control.Idle? ==> t.call.result == Some(true) && t.spawned == s.spawned + 1 && t.handle == Some(s.spawned))
      && (t.state == Starting || t.state == Running)
  {
    StartGoesOn(TakeTurn(s, CallStart), s.spawned, 0, turns);
  }

  /** Where the thread live at the call leads to: `start` spawns its own beside it, and the engine keeps
      only that one's handle. */
  lemma StartTwiceLeaks(s: Engine)
    requires Inv(s) && s.control.Idle? && s.handle.Some? && s.handle.value in s.threads
    ensures var t := ControlStep(ControlStep(ControlStep(ControlStep(TakeTurn(s, CallStart)))));
      && t.control.Idle? && t.call.result == Some(true) && t.state == s.state
      && |t.threads| == 2 && s.handle.value in t.threads && t.handle == Some(s.spawned) && s.spawned != s.handle.value
  {
    var t := ControlStep(ControlStep(ControlStep(ControlStep(TakeTurn(s, CallStart)))));
    assert s.threads.Keys == {s.handle.value};
    assert t.threads.Keys == {s.handle.value, s.spawned};
  }

  lemma FourSteps(s: Engine)
    ensures var four := [ControlTurn, ControlTurn, ControlTurn, ControlTurn];
      Interleave(s, four) == ControlStep(ControlStep(ControlStep(ControlStep(s))))
  {
    hide ControlStep;
    var c := ControlTurn;
    assert [c, c, c, c][1..] == [c, c, c] && [c, c, c][1..] == [c, c] && [c, c][1..] == [c] && [c][1..] == [];
    assert Interleave(s, [c, c, c, c]) == Interleave(ControlStep(s), [c, c, c]);
    assert Interleave(ControlStep(s), [c, c, c]) == Interleave(ControlStep(ControlStep(s)), [c, c]);
  }

  /** No thread while the control thread is in `start`, at most one after. */
  ghost predicate Single(t: Engine) {
    match t.control
    case Idle => |t.threads.Keys| <= 1
    case StartLoad => t.threads == map[]
    case StartSwap => t.threads == map[]
    case StartRing => t.threads == map[]
    case StartClear => t.threads == map[]
    case StartSpawn => t.threads == map[]
    case _ => false
  }

  lemma SingleStep(t: Engine, turn: Turn)
    requires Single(t) && (turn.ControlTurn? || turn.NetworkTurn?)
    ensures Single(TakeTurn(t, turn))
  {
    if turn.NetworkTurn? && turn.id in t.threads {
      hide CompareExchange;
      AtMostOneKey(t.threads.Keys, turn.id);
      AtMostOne(NetworkStep(t, turn.id, turn.opens).threads.Keys, turn.id);
    } else if t.control.StartSpawn? {
      assert ControlStep(t).threads.Keys == {t.spawned};
    }
  }

  lemma {:induction false} StaysSingle(t: Engine, turns: seq<Turn>)
    requires Single(t) && NoCalls(turns)
    ensures |Interleave(t, turns).threads| <= 1
    decreases |turns|
  {
    if turns == [] {
      KeysCount(t);
    } else {
      assert turns[0] in turns;
      SingleStep(t, turns[0]);
      StaysSingle(TakeTurn(t, turns[0]), turns[1..]);
    }
  }

  /** Exactly when a `start` leads to two live threads: in some interleaving of it with the network threads
      there are two if and only if a thread is live at the call. There is one on every engine that is Starting
      and none on one that is Stopped; on a Running one it depends on whether its socket opened. */
  lemma StartLeaks(s: Engine)
    requires Inv(s) && s.control.Idle?
    ensures (exists turns :: NoCalls(turns) && |Interleave(TakeTurn(s, CallStart), turns).threads| > 1)
      <==> s.threads != map[]
    ensures s.state == Starting ==> s.threads != map[]
    ensures s.state == Stopped ==> s.threads == map[]
  {
    var begun := TakeTurn(s, CallStart);
    if s.threads != map[] {
      assert s.handle.value in s.threads;
      StartTwiceLeaks(s);
      FourSteps(begun);
      var four := [ControlTurn, ControlTurn, ControlTurn, ControlTurn];
      assert NoCalls(four) && |Interleave(begun, four).threads| > 1;
    } else {
      forall turns | NoCalls(turns) ensures |Interleave(begun, turns).threads| <= 1 {
        StaysSingle(begun, turns);
      }
    }
  }

  /** A client that starts the engine once, first of all, is well behaved. */
  lemma OneStartIsBehaved(turns: seq<Turn>)
    requires turns != [] && forall turn :: turn in turns[1..] ==> !turn.CallStart?
    ensures Behaved(NewEngine(), turns)
  {
    NoStartIsBehaved(TakeTurn(NewEngine(), turns[0]), turns[1..]);
  }

  lemma {:induction false} NoStartIsBehaved(s: Engine, turns: seq<Turn>)
    requires forall turn :: turn in turns ==> !turn.CallStart?
    ensures Behaved(s, turns)
    decreases |turns|
  {
    hide TakeTurn;
    if turns != [] {
      assert turns[0] in turns;
      NoStartIsBehaved(TakeTurn(s, turns[0]), turns[1..]);
    }
  }

  /** Four steps of the control thread from a first `start`. */
  lemma FirstStart()
    ensures var s := ControlStep(ControlStep(ControlStep(ControlStep(TakeTurn(NewEngine(), CallStart)))));
      s.control.StartSpawn? && s.spawned == 0 && s.threads == map[] && s.state == Starting
  {
  }

  /** And the state does not tell: a started engine is Running with a live thread or with none, according to
      whether its socket opened. */
  lemma RunningEitherWay(opens: bool)
    ensures var c, n := ControlTurn, NetworkTurn(0, opens);
      var turns := [CallStart] + ([c, c, c, c] + [c, n, n]);
      var s := Interleave(NewEngine(), turns);
      && Behaved(NewEngine(), turns) && s.control.Idle? && s.state == Running
      && s.threads == if opens then map[0 := Polling] else map[]
  {
    var c, n := ControlTurn, NetworkTurn(0, opens);
    var four, rest := [c, c, c, c], [c, n, n];
    var s := TakeTurn(NewEngine(), CallStart);
    FirstStart();
    FourSteps(s);
    InterleaveCons(NewEngine(), CallStart, four + rest);
    InterleaveConcat(s, four, rest);
    SpawnAndMark(Interleave(s, four), opens);
    OneStartIsBehaved([CallStart] + (four + rest));
  }

  lemma SpawnAndMark(s: Engine, opens: bool)
    requires s.control.StartSpawn? && s.spawned == 0 && s.threads == map[] && s.state == Starting
    ensures var n := NetworkTurn(0, opens);
      var t := Interleave(s, [ControlTurn, n, n]);
      t.control.Idle? && t.state == Running && t.threads == if opens then map[0 := Polling] else map[]
  {
    var n := NetworkTurn(0, opens);
    assert [ControlTurn, n, n][1..] == [n, n] && [n, n][1..] == [n] && [n][1..] == [];
    var t := ControlStep(s);
    assert t.threads == map[0 := Opening];
    assert Interleave(s, [ControlTurn, n, n]) == Interleave(TakeTurn(t, n), [n]);
  }
}
