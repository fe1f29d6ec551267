/** The playback thread's `out` buffer holds 1024 frames, and the program accepts longer periods: exactly when
    what it writes there stays inside. */
module RxRingBounds {
  import opened Audio
  import opened RxRing
  import opened RxRingSafety

  /** The next frame copied out of the ring lands in `out`. */
  predicate CopyInside(s: System) {
    CopyingOutNow(s) ==> |s.consumer.dst| < OUT_FRAMES
  }

  /** And so do the zeros that pad a short read in playback. */
  predicate PaddingInside(s: System) {
    s.consumer.Handing? && s.consumer.stage.Playback? && |s.consumer.dst| < s.config.period
    ==> s.config.period <= OUT_FRAMES
  }

  // ---------------------------------------------------------------- a run that fills the ring

  /** The playback thread waits for the start-fill, the receive thread for a packet, and `n` frames are queued. */
  ghost predicate Filled(s: System, config: Config, n: nat) {
    && Inv(s) && s.config == config && s.producer.Receiving? && s.consumer == ProbingW(StartFill)
    && |s.published| == n && s.taken == []
  }

  /** One-frame packets as many as are to be queued. */
  lemma {:induction false} Fill(config: Config, n: nat) returns (turns: seq<Turn>)
    requires config.Valid() && n <= CAPACITY
    ensures Filled(Interleave(NewSystem(config), turns), config, n)
    decreases n
  {
    hide Interleave;
    if n == 0 {
      turns := [];
      StartsOk(config);
      NoTurns(NewSystem(config));
    } else {
      turns := Fill(config, n - 1);
      var one := Repeat(Receive([ZERO_CELL]), 6);
      InterleaveConcat(NewSystem(config), turns, one);
      OnePacket(Interleave(NewSystem(config), turns), config, n - 1);
      turns := turns + one;
    }
  }

  lemma NoTurns(s: System)
    ensures Interleave(s, []) == s
  {
  }

  /** The first `i` of the steps that append a one-frame packet to `n` queued frames. */
  ghost predicate Appending(s: System, config: Config, n: nat, i: nat) {
    var p := [ZERO_CELL];
    && Inv(s) && s.config == config && s.consumer == ProbingW(StartFill) && s.taken == []
    && |s.published| == n + (if i == 6 then 1 else 0)
    && match i
       case 0 => s.producer.Receiving?
       case 1 => s.producer == LoadingW(p)
       case 2 => s.producer.LoadingR? && s.producer.packet == p
       case 3 => s.producer == Reloading(p)
       case 4 => s.producer.Copying? && s.producer.packet == p && s.producer.k == 0
       case 5 => s.producer.Copying? && s.producer.packet == p && s.producer.k == 1
       case _ => s.producer.Receiving?
  }

  lemma AppendStep(s: System, config: Config, n: nat, i: nat)
    requires Appending(s, config, n, i) && i < 6 && n < CAPACITY
    ensures Appending(TakeTurn(s, Receive([ZERO_CELL])), config, n, i + 1)
  {
    hide Joined;
    hide Stored;
    hide Erased;
    hide Proper;
    ProducerKeeps(s, [ZERO_CELL]);
    DecidesHere(s, Receive([ZERO_CELL]));
  }

  lemma {:induction false} AppendSteps(s: System, config: Config, n: nat, i: nat)
    requires Appending(s, config, n, i) && i <= 6 && n < CAPACITY
    ensures Appending(Interleave(s, Repeat(Receive([ZERO_CELL]), 6 - i)), config, n, 6)
    decreases 6 - i
  {
    hide Appending;
    if i < 6 {
      AppendStep(s, config, n, i);
      AppendSteps(TakeTurn(s, Receive([ZERO_CELL])), config, n, i + 1);
      assert Repeat(Receive([ZERO_CELL]), 6 - i)[1..] == Repeat(Receive([ZERO_CELL]), 5 - i);
    }
  }

  lemma OnePacket(s: System, config: Config, n: nat)
    requires Filled(s, config, n) && n < CAPACITY
    ensures Filled(Interleave(s, Repeat(Receive([ZERO_CELL]), 6)), config, n + 1)
  {
    AppendSteps(s, config, n, 0);
  }

  // ---------------------------------------------------------------- and a read that takes as much as it can

  /** The playback thread is past the start-fill and about to load an index or copy, with a full queue. */
  ghost predicate Ready(s: System, config: Config) {
    && Inv(s) && s.config == config && s.producer.Receiving? && |s.published| == CAPACITY && s.taken == []
    && match s.consumer
       case ProbingW(stage) => stage == StartFill || stage == Prefill(0)
       case ProbingR(stage, _, seen) => (stage == StartFill || stage == Prefill(0)) && seen == CAPACITY
       case ReadingR(_, _, seen) => seen == CAPACITY
       case ReloadingR(_, n) => n == Min(config.period, CAPACITY)
       case CopyingOut(_, n, _, dst) => n == Min(config.period, CAPACITY) && dst == []
       case ReadingW(_) => true
       case _ => false
  }

  /** Steps left until the copy begins. */
  function Distance(c: Consumer): nat {
    match c
    case ProbingW(stage) => if stage.StartFill? then 7 else 5
    case ProbingR(stage, _, _) => if stage.StartFill? then 6 else 4
    case ReadingW(_) => 3
    case ReadingR(_, _, _) => 2
    case ReloadingR(_, _) => 1
    case _ => 0
  }

  lemma ReadyStep(s: System, config: Config)
    requires Ready(s, config) && config.startFill <= CAPACITY && Distance(s.consumer) > 0
    ensures var t := TakeTurn(s, Play(0)); Ready(t, config) && Distance(t.consumer) < Distance(s.consumer)
  {
    hide Joined;
    hide Stored;
    hide Erased;
    hide Proper;
    ConsumerKeeps(s, 0);
    DecidesHere(s, Play(0));
    StepIsQueueStep(s, Play(0));
  }

  lemma {:induction false} BeginsCopy(config: Config, turns: seq<Turn>) returns (more: seq<Turn>)
    requires Ready(Interleave(NewSystem(config), turns), config) && config.startFill <= CAPACITY
    ensures var s := Interleave(NewSystem(config), more); Ready(s, config) && s.consumer.CopyingOut?
    decreases Distance(Interleave(NewSystem(config), turns).consumer)
  {
    hide Interleave;
    hide TakeTurn;
    hide Inv;
    var s := Interleave(NewSystem(config), turns);
    if Distance(s.consumer) == 0 {
      more := turns;
    } else {
      ReadyStep(s, config);
      InterleaveSnoc(NewSystem(config), turns, Play(0));
      more := BeginsCopy(config, turns + [Play(0)]);
    }
  }

  lemma {:induction false} CopiesOn(config: Config, turns: seq<Turn>, k: nat) returns (more: seq<Turn>)
    requires config.Valid()
    requires var s := Interleave(NewSystem(config), turns);
      s.consumer.CopyingOut? && |s.consumer.dst| <= k <= s.consumer.n
    ensures var s, t := Interleave(NewSystem(config), turns), Interleave(NewSystem(config), more);
      t.consumer.CopyingOut? && t.consumer.n == s.consumer.n && |t.consumer.dst| == k
    decreases k - |Interleave(NewSystem(config), turns).consumer.dst|
  {
    hide Interleave;
    var s := Interleave(NewSystem(config), turns);
    if |s.consumer.dst| == k {
      more := turns;
    } else {
      Reachable(config, turns);
      InterleaveSnoc(NewSystem(config), turns, Play(0));
      more := CopiesOn(config, turns + [Play(0)], k);
    }
  }

  /** A run in which a frame is copied past the end of `out`. */
  lemma OverrunReached(config: Config) returns (turns: seq<Turn>)
    requires config.period > OUT_FRAMES && config.startFill <= CAPACITY
    ensures !CopyInside(Interleave(NewSystem(config), turns))
  {
    hide Interleave;
    turns := Fill(config, CAPACITY);
    turns := BeginsCopy(config, turns);
    turns := CopiesOn(config, turns, OUT_FRAMES);
  }

  // ---------------------------------------------------------------- the exact condition

  /** The start-fill lies beyond the capacity, so playback never begins. */
  ghost predicate Waiting(s: System) {
    && s.config.startFill > CAPACITY
    && ((s.consumer.ProbingW? || s.consumer.ProbingR?) && s.consumer.stage.StartFill?)
  }

  lemma {:induction false} WaitsForever(s: System, turns: seq<Turn>)
    requires Inv(s) && Waiting(s)
    ensures Waiting(Interleave(s, turns))
    decreases |turns|
  {
    hide Inv;
    hide DecidesExactly;
    if turns != [] {
      WaitsOn(s, turns[0]);
      WaitsForever(TakeTurn(s, turns[0]), turns[1..]);
    }
  }

  lemma WaitsOn(s: System, turn: Turn)
    requires Inv(s) && Waiting(s)
    ensures Inv(TakeTurn(s, turn)) && Waiting(TakeTurn(s, turn))
  {
    hide Joined;
    hide Stored;
    hide Erased;
    hide Proper;
    match turn {
      case Receive(packet) => ProducerKeeps(s, packet);
      case Play(written) => ConsumerKeeps(s, written);
    }
    DecidesHere(s, turn);
    StepIsQueueStep(s, turn);
  }

  /** The ring is one second of audio, of which it can hold all but one frame. */
  lemma RingIsOneSecond()
    ensures RING_FRAMES == SAMPLE_RATE && CAPACITY == SAMPLE_RATE - 1 && |NewSystem(Config(0, 1, 0)).ring| == 48000
  {
  }

  /** Over every interleaving each write to `out` stays inside it if and only if the period is at most 1024
      frames, or the start-fill is more than the ring can hold and nothing is ever played. The program accepts
      periods of 48 to 4800 frames and start-fills of at most 24000. */
  lemma OutHolds(config: Config)
    requires config.Valid()
    ensures (forall turns :: CopyInside(Interleave(NewSystem(config), turns)))
      <==> config.period <= 1024 || config.startFill > 47999
    ensures config.period <= 1024 || config.startFill > 47999
      ==> (forall turns :: PaddingInside(Interleave(NewSystem(config), turns)))
  {
    if config.period > OUT_FRAMES && config.startFill <= CAPACITY {
      var turns := OverrunReached(config);
      assert !CopyInside(Interleave(NewSystem(config), turns));
    } else {
      forall turns
        ensures CopyInside(Interleave(NewSystem(config), turns))
        ensures PaddingInside(Interleave(NewSystem(config), turns))
      {
        StaysInside(config, turns);
      }
    }
  }

  lemma StaysInside(config: Config, turns: seq<Turn>)
    requires config.Valid() && (config.period <= OUT_FRAMES || config.startFill > CAPACITY)
    ensures CopyInside(Interleave(NewSystem(config), turns)) && PaddingInside(Interleave(NewSystem(config), turns))
  {
    StartsOk(config);
    InterleaveKeeps(NewSystem(config), turns);
    if config.startFill > CAPACITY {
      WaitsForever(NewSystem(config), turns);
    }
  }
}
