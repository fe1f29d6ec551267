/** Neither thread of the C receiver gets stuck: each buffer is handed over and each packet dealt with after a
    bounded number of the thread's own steps, whatever the other one does; and exactly when playback ends. */
module RxRingProgress {
  import opened Audio
  import opened RxRing
  import opened RxRingSafety

  // ---------------------------------------------------------------- exactly when playback ends

  /** A playback write that ALSA answers below zero, recovery included. */
  ghost predicate Fails(s: System, turn: Turn) {
    turn.Play? && turn.written < 0 && s.consumer.Handing? && s.consumer.stage.Playback?
  }

  lemma StopsHere(s: System, turn: Turn)
    requires Inv(s)
    ensures TakeTurn(s, turn).consumer.Stopped? <==> s.consumer.Stopped? || Fails(s, turn)
  {
  }

  /** In every interleaving the playback thread has stopped if and only if a playback write has failed. */
  lemma {:induction false} StopsExactly(config: Config, turns: seq<Turn>)
    requires config.Valid()
    ensures Interleave(NewSystem(config), turns).consumer.Stopped? <==>
      exists k :: 0 <= k < |turns| && Fails(Interleave(NewSystem(config), turns[..k]), turns[k])
    decreases |turns|
  {
    hide TakeTurn;
    hide Fails;
    hide Interleave;
    if turns == [] {
      NoTurnsYet(NewSystem(config));
    } else {
      var n := |turns| - 1;
      var front := turns[..n];
      StopsExactly(config, front);
      Reachable(config, front);
      assert turns == front + [turns[n]];
      InterleaveSnoc(NewSystem(config), front, turns[n]);
      StopsHere(Interleave(NewSystem(config), front), turns[n]);
      assert forall k :: 0 <= k < n ==> front[..k] == turns[..k] && front[k] == turns[k];
    }
  }

  lemma NoTurnsYet(s: System)
    ensures Interleave(s, []) == s
  {
  }

  // ---------------------------------------------------------------- the playback thread goes on

  function Plays(turns: seq<Turn>): nat {
    if turns == [] then 0 else (if turns[0].Play? then 1 else 0) + Plays(turns[1..])
  }

  /** Steps of its own the playback thread takes at most until it next hands a buffer to ALSA. */
  ghost function Left(s: System): nat {
    match s.consumer
    case ProbingW(stage) => s.config.period + if stage.StartFill? then 9 else 7
    case ProbingR(stage, _, seen) =>
      s.config.period + if !stage.StartFill? then 6 else if seen >= |s.taken| + s.config.startFill then 8 else 10
    case ReadingW(_) => s.config.period + 5
    case ReadingR(_, _, _) => s.config.period + 4
    case ReloadingR(_, n) => n + 3
    case CopyingOut(_, n, _, dst) => if |dst| <= n then n - |dst| + 2 else 0
    case Handing(_, _) => 1
    case Stopped => 0
  }

  /** Playback has begun, or the start-fill is there. */
  ghost predicate CanPlay(s: System) {
    && !s.consumer.Stopped?
    && ((s.consumer.ProbingW? || s.consumer.ProbingR?) && s.consumer.stage.StartFill? ==>
          |s.published| >= |s.taken| + s.config.startFill)
  }

  lemma PlayGoesOn(s: System, written: int)
    requires Inv(s) && CanPlay(s) && written >= 0
    ensures var t := TakeTurn(s, Play(written));
      && CanPlay(t)
      && if s.consumer.Handing? then |t.handed| == |s.handed| + 1
         else t.handed == s.handed && Left(t) < Left(s)
  {
    hide Joined;
    hide Erased;
    hide Proper;
    hide Stored;
    DecidesHere(s, Play(written));
  }

  lemma ReceiveKeepsPlay(s: System, packet: seq<Cell>)
    requires Inv(s) && CanPlay(s)
    ensures var t := TakeTurn(s, Receive(packet));
      CanPlay(t) && t.handed == s.handed && Left(t) == Left(s)
  {
    hide Joined;
    hide Erased;
    hide Proper;
    hide Stored;
  }

  lemma {:induction false} HandsWithin(s: System, turns: seq<Turn>)
    requires Inv(s) && CanPlay(s) && Plays(turns) >= Left(s)
    requires forall turn :: turn in turns && turn.Play? ==> turn.written >= 0
    ensures |Interleave(s, turns).handed| > |s.handed|
    decreases |turns|
  {
    hide Inv;
    hide TakeTurn;
    hide CanPlay;
    LeftPositive(s);
    if turns != [] {
      var t := TakeTurn(s, turns[0]);
      assert turns[0] in turns;
      assert forall turn :: turn in turns[1..] ==> turn in turns;
      StepKeeps(s, turns[0]);
      match turns[0] {
        case Receive(packet) =>
          ReceiveKeepsPlay(s, packet);
          HandsWithin(t, turns[1..]);
        case Play(written) =>
          PlayGoesOn(s, written);
          if s.consumer.Handing? {
            HandedGrows(t, turns[1..]);
          } else {
            HandsWithin(t, turns[1..]);
          }
      }
    }
  }

  lemma LeftPositive(s: System)
    requires Inv(s) && CanPlay(s)
    ensures 0 < Left(s) <= s.config.period + 10
  {
    hide Joined;
    hide Erased;
    hide Proper;
    hide Stored;
  }

  lemma StepKeeps(s: System, turn: Turn)
    requires Inv(s)
    ensures Inv(TakeTurn(s, turn))
  {
    match turn
    case Receive(packet) => ProducerKeeps(s, packet);
    case Play(written) => ConsumerKeeps(s, written);
  }

  /** In every interleaving that has reached playback, or holds the start-fill, and has not failed: as long as
      ALSA does not answer below zero, one more buffer is handed over within a period and ten steps of the
      playback thread, whatever the receive thread does. */
  lemma PlaybackGoesOn(config: Config, turns: seq<Turn>, more: seq<Turn>)
    requires config.Valid() && CanPlay(Interleave(NewSystem(config), turns))
    requires forall turn :: turn in more && turn.Play? ==> turn.written >= 0
    requires Plays(more) >= config.period + 10
    ensures |Interleave(NewSystem(config), turns + more).handed| > |Interleave(NewSystem(config), turns).handed|
    ensures !Interleave(NewSystem(config), turns + more).consumer.Stopped?
  {
    hide Interleave;
    hide CanPlay;
    var s := Interleave(NewSystem(config), turns);
    StartsOk(config);
    InterleaveKeeps(NewSystem(config), turns);
    InterleaveConcat(NewSystem(config), turns, more);
    LeftPositive(s);
    HandsWithin(s, more);
    StaysUp(s, more);
  }

  lemma {:induction false} StaysUp(s: System, turns: seq<Turn>)
    requires Inv(s) && CanPlay(s)
    requires forall turn :: turn in turns && turn.Play? ==> turn.written >= 0
    ensures !Interleave(s, turns).consumer.Stopped?
    decreases |turns|
  {
    hide Inv;
    hide TakeTurn;
    if turns != [] {
      assert turns[0] in turns;
      assert forall turn :: turn in turns[1..] ==> turn in turns;
      StepKeeps(s, turns[0]);
      match turns[0] {
        case Receive(packet) => ReceiveKeepsPlay(s, packet);
        case Play(written) => PlayGoesOn(s, written);
      }
      StaysUp(TakeTurn(s, turns[0]), turns[1..]);
    }
  }

  // ---------------------------------------------------------------- the receive thread goes on

  function Receives(turns: seq<Turn>): nat {
    if turns == [] then 0 else (if turns[0].Receive? then 1 else 0) + Receives(turns[1..])
  }

  /** Steps of its own the receive thread takes at most until it is back at the socket. */
  function Busy(p: Producer): nat {
    match p
    case Receiving => 0
    case LoadingW(packet) => |packet| + 4
    case LoadingR(packet, _) => |packet| + 3
    case Reloading(packet) => |packet| + 2
    case Copying(packet, _, k) => if k <= |packet| then |packet| - k + 1 else 0
  }

  /** The receive thread is back, and has put the packet in the ring or refused it. */
  ghost predicate DealtWith(s: System, t: System, packet: seq<Cell>, refused: bool) {
    t.producer.Receiving? && t.accepted == if refused then s.accepted else s.accepted + [packet]
  }

  lemma ReceiveGoesOn(s: System, packet: seq<Cell>)
    requires Inv(s) && !s.producer.Receiving?
    ensures var t := TakeTurn(s, Receive(packet));
      var p := s.producer.packet;
      if s.producer.LoadingR? && |Queue(s)| + |p| > CAPACITY then DealtWith(s, t, p, true)
      else if s.producer.Copying? && s.producer.k == |p| then DealtWith(s, t, p, false)
      else
        !t.producer.Receiving? && t.producer.packet == p && t.accepted == s.accepted
        && Busy(t.producer) < Busy(s.producer)
        && (t.producer.LoadingR? || t.producer.LoadingW? <==> s.producer.LoadingW?)
  {
    hide Joined;
    hide Erased;
    hide Proper;
    hide Stored;
    DecidesHere(s, Receive(packet));
  }

  lemma TakesPacket(s: System, packet: seq<Cell>)
    requires Inv(s) && s.producer.Receiving?
    ensures TakeTurn(s, Receive(packet)) == s.(producer := LoadingW(packet))
  {
  }

  lemma PlayKeepsReceive(s: System, written: int)
    ensures TakeTurn(s, Play(written)).producer == s.producer && TakeTurn(s, Play(written)).accepted == s.accepted
  {
  }

  /** The moment the receive thread is back. */
  lemma {:induction false} ReturnsWithin(s: System, turns: seq<Turn>) returns (k: nat, refused: bool)
    requires Inv(s) && !s.producer.Receiving? && Receives(turns) >= Busy(s.producer)
    ensures k <= |turns| && DealtWith(s, Interleave(s, turns[..k]), s.producer.packet, refused)
    ensures refused ==> s.producer.LoadingW? || s.producer.LoadingR?
    decreases |turns|
  {
    hide Inv;
    hide TakeTurn;
    BusyPositive(s);
    var t := TakeTurn(s, turns[0]);
    StepKeeps(s, turns[0]);
    match turns[0] {
      case Receive(packet) =>
        ReceiveGoesOn(s, packet);
        if t.producer.Receiving? {
          k, refused := 1, s.producer.LoadingR?;
          assert turns[..1] == [turns[0]] && turns[..1][1..] == [];
          assert Interleave(t, []) == t;
        } else {
          k, refused := ReturnsWithin(t, turns[1..]);
          k := k + 1;
          assert turns[..k][1..] == turns[1..][..k - 1];
        }
      case Play(written) =>
        PlayKeepsReceive(s, written);
        k, refused := ReturnsWithin(t, turns[1..]);
        k := k + 1;
        assert turns[..k][1..] == turns[1..][..k - 1];
    }
  }

  lemma BusyPositive(s: System)
    requires Inv(s) && !s.producer.Receiving?
    ensures Busy(s.producer) > 0
  {
    hide Joined;
    hide Erased;
    hide Proper;
    hide Stored;
  }

  /** In every interleaving, a packet of `n` frames that the socket yields is in the ring or refused after at
      most `n + 4` further steps of the receive thread, and the thread waits for the next one. */
  lemma PacketDealtWith(config: Config, turns: seq<Turn>, packet: seq<Cell>, more: seq<Turn>)
      returns (k: nat, refused: bool)
    requires config.Valid() && Interleave(NewSystem(config), turns).producer.Receiving?
    requires Receives(more) >= |packet| + 4
    ensures k <= |more|
    ensures DealtWith(Interleave(NewSystem(config), turns),
                      Interleave(NewSystem(config), turns + [Receive(packet)] + more[..k]), packet, refused)
  {
    hide Interleave;
    hide Inv;
    var s := Interleave(NewSystem(config), turns);
    var t := s.(producer := LoadingW(packet));
    Reachable(config, turns);
    StepKeeps(s, Receive(packet));
    TakesPacket(s, packet);
    InterleaveSnoc(NewSystem(config), turns, Receive(packet));
    k, refused := ReturnsWithin(t, more);
    InterleaveConcat(NewSystem(config), turns + [Receive(packet)], more[..k]);
  }
}
