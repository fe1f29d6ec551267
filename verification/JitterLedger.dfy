/** Invariants of every run of the jitter buffer, with no hypothesis on the sequence numbers:
    the playback state machine and the conservation of packets and frames. */
module JitterLedger {
  import opened Audio
  import opened SeqNum
  import opened JitterSpec

  // ---------------------------------------------------------------- lifting to runs

  /** An assertion kept by every push and by every round of the pop loop. */
  ghost predicate Inductive(nb: Numbering, inv: Run -> bool) {
    && (forall r: Run, e: Entry :: inv(r) ==> inv(Advance(nb, r, Arrive(e))))
    && (forall r: Run, n: nat :: n > 0 && r.st.state == Playing && inv(r) ==>
          inv(Run(PopStep(nb, r.st, n).0, r.trace + [PopStep(nb, r.st, n).1])))
  }

  lemma {:induction false} LoopKeeps(nb: Numbering, inv: Run -> bool, r: Run, n: nat)
    requires Inductive(nb, inv) && inv(r) && r.st.state == Playing
    ensures inv(Run(PopLoop(nb, r.st, n).0, r.trace + PopLoop(nb, r.st, n).1))
    decreases n, |r.st.buf|
  {
    if n == 0 {
      assert r.trace + [] == r.trace;
      assert Run(r.st, r.trace) == r;
    } else {
      var (s, a) := PopStep(nb, r.st, n);
      if !a.Starve? {
        var rest := PopLoop(nb, s, n - |Sound(a)|).1;
        LoopKeeps(nb, inv, Run(s, r.trace + [a]), n - |Sound(a)|);
        Associative(r.trace, [a], rest);
      }
    }
  }

  lemma AdvanceKeeps(nb: Numbering, inv: Run -> bool, r: Run, ev: Event)
    requires Inductive(nb, inv) && inv(r)
    ensures inv(Advance(nb, r, ev))
  {
    match ev
    case Arrive(e) =>
    case Demand(n) =>
      if r.st.state == Playing {
        LoopKeeps(nb, inv, r, n);
      } else {
        assert r.trace + [] == r.trace;
        assert Advance(nb, r, ev) == r;
      }
  }

  lemma {:induction false} ExecuteKeeps(nb: Numbering, inv: Run -> bool, r: Run, events: seq<Event>)
    requires Inductive(nb, inv) && inv(r)
    ensures inv(Execute(nb, r, events))
    decreases |events|
  {
    if events != [] {
      AdvanceKeeps(nb, inv, r, events[0]);
      ExecuteKeeps(nb, inv, Advance(nb, r, events[0]), events[1..]);
    }
  }

  // ---------------------------------------------------------------- deque facts

  lemma {:induction false} InsertTotal(nb: Numbering, buf: seq<Entry>, e: Entry)
    ensures TotalFrames(Insert(nb, buf, e)) == TotalFrames(buf) + |e.frames|
  {
    if buf == [] {
    } else if nb.Before(e.seqno, buf[0].seqno) {
      assert ([e] + buf)[1..] == buf;
    } else {
      InsertTotal(nb, buf[1..], e);
      assert Insert(nb, buf, e)[1..] == Insert(nb, buf[1..], e);
    }
  }

  // ---------------------------------------------------------------- playback state machine

  /** Filling is having no cursor; a buffer that is not playing holds less than its start-fill. */
  ghost predicate PlaybackOk(st: Jitter) {
    && (st.state == Filling <==> st.cursor == None)
    && (st.state != Playing ==> st.buf == [] || TotalFrames(st.buf) < st.startFill)
  }

  lemma PushPlaybackOk(nb: Numbering, st: Jitter, e: Entry)
    requires PlaybackOk(st)
    ensures PlaybackOk(Push(nb, st, e).0)
  {
  }

  lemma PlaybackInductive(nb: Numbering)
    ensures Inductive(nb, (r: Run) => PlaybackOk(r.st))
  {
    forall r: Run, e: Entry | PlaybackOk(r.st) ensures PlaybackOk(Advance(nb, r, Arrive(e)).st) {
      PushPlaybackOk(nb, r.st, e);
    }
  }

  lemma PlaybackInvariant(nb: Numbering, startFill: nat, events: seq<Event>)
    ensures PlaybackOk(Execute(nb, Start(startFill), events).st)
  {
    PlaybackInductive(nb);
    ExecuteKeeps(nb, (r: Run) => PlaybackOk(r.st), Start(startFill), events);
  }

  /** Playback starts or resumes exactly on accepting a packet that brings the deque to the start-fill,
      and the first cursor is the number then at the front. */
  lemma PlaybackStarts(nb: Numbering, st: Jitter, e: Entry)
    requires st.state != Playing
    ensures var s := Push(nb, st, e).0;
      && (s.state == Playing <==>
            !Behind(nb, st, e.seqno) && TotalFrames(st.buf) + |e.frames| >= st.startFill)
      && (s.state == Playing && st.cursor == None ==> s.cursor == Some(s.buf[0].seqno))
      && (st.cursor.Some? ==> s.cursor == st.cursor)
  {
    InsertTotal(nb, st.buf, e);
  }

  /** How a pop of a playing buffer ended, from the number of frames it gave. */
  ghost predicate EndsAs(st: Jitter, s: Jitter, given: nat, count: nat) {
    if given < count then
      s.state == Underrun && s.buf == [] && s.underruns == st.underruns + 1
    else
      given == count && s.state == Playing && s.underruns == st.underruns
  }

  lemma RoundState(nb: Numbering, st: Jitter, n: nat)
    requires n > 0 && st.state == Playing
    ensures var (s, a) := PopStep(nb, st, n);
      if a.Starve? then EndsAs(st, s, 0, n) && Sound(a) == []
      else s.state == Playing && s.underruns == st.underruns
  {
  }

  lemma {:induction false} LoopEnds(nb: Numbering, st: Jitter, count: nat)
    requires st.state == Playing
    ensures EndsAs(st, PopLoop(nb, st, count).0, |Output(PopLoop(nb, st, count).1)|, count)
    decreases count, |st.buf|
  {
    if count > 0 {
      var (s, a) := PopStep(nb, st, count);
      RoundState(nb, st, count);
      var left := count - |Sound(a)|;
      if a.Starve? {
        OutputCons(a, []);
        assert [a] + [] == [a];
      } else {
        LoopEnds(nb, s, left);
        OutputCons(a, PopLoop(nb, s, left).1);
      }
    }
  }

  /** A playing buffer returns fewer frames than asked exactly when it ends the call in Underrun,
      with an empty deque, and exactly then the underrun counter rises, by one. */
  lemma ShortPop(nb: Numbering, st: Jitter, count: nat)
    requires st.state == Playing
    ensures var (s, actions) := Pop(nb, st, count);
      && |Output(actions)| <= count
      && (|Output(actions)| < count <==> s.state == Underrun)
      && (s.state == Underrun <==> s.underruns == st.underruns + 1)
      && (s.state == Underrun ==> s.buf == [])
      && (s.state != Underrun ==> s.state == Playing && s.underruns == st.underruns)
  {
    LoopEnds(nb, st, count);
  }

  // ---------------------------------------------------------------- conservation

  function Tally(trace: seq<Action>, weight: Action -> nat): nat {
    if trace == [] then 0 else Tally(trace[..|trace| - 1], weight) + weight(trace[|trace| - 1])
  }

  function Arrivals(a: Action): nat { if a.Accept? || a.Refuse? then 1 else 0 }
  function Drops(a: Action): nat { if a.Refuse? || a.Skip? then 1 else 0 }
  function FullyPlayed(a: Action): nat { if a.Play? && a.finished then 1 else 0 }
  function Underruns(a: Action): nat { if a.Starve? then 1 else 0 }
  function FramesAccepted(a: Action): nat { if a.Accept? then |a.entry.frames| else 0 }
  function FramesPlayed(a: Action): nat { if a.Play? then |a.frames| else 0 }
  function FramesSkipped(a: Action): nat { if a.Skip? then |a.entry.frames| else 0 }
  function FramesSilent(a: Action): nat { if a.Gap? then a.count else 0 }

  /** The statistics count what happened, and no packet or frame is lost or invented. */
  ghost predicate Balanced(r: Run) {
    var st, t := r.st, r.trace;
    && st.received == Tally(t, Arrivals)
    && st.dropped == Tally(t, Drops)
    && st.underruns == Tally(t, Underruns)
    && st.silence == Tally(t, FramesSilent)
    && st.received == st.dropped + |st.buf| + Tally(t, FullyPlayed)
    && Tally(t, FramesAccepted) == Tally(t, FramesPlayed) + TotalFrames(st.buf) + Tally(t, FramesSkipped)
    && |Output(t)| == Tally(t, FramesPlayed) + st.silence
  }

  /** What one action must do to the state for the books to stay balanced. */
  ghost predicate Settled(st: Jitter, s: Jitter, a: Action) {
    && s.received == st.received + Arrivals(a)
    && s.dropped == st.dropped + Drops(a)
    && s.underruns == st.underruns + Underruns(a)
    && s.silence == st.silence + FramesSilent(a)
    && Arrivals(a) + |st.buf| == Drops(a) + |s.buf| + FullyPlayed(a)
    && FramesAccepted(a) + TotalFrames(st.buf) == FramesPlayed(a) + TotalFrames(s.buf) + FramesSkipped(a)
  }

  lemma Settle(r: Run, s: Jitter, a: Action)
    requires Balanced(r) && Settled(r.st, s, a)
    ensures Balanced(Run(s, r.trace + [a]))
  {
    var t := r.trace + [a];
    assert t[..|t| - 1] == r.trace;
    assert t[|t| - 1] == a;
  }

  lemma PushSettled(nb: Numbering, st: Jitter, e: Entry)
    ensures var (s, actions) := Push(nb, st, e);
      && 1 <= |actions| <= 2 && Settled(st, s, actions[0])
      && (|actions| == 2 ==> Settled(s, s, actions[1]))
  {
    InsertTotal(nb, st.buf, e);
  }

  lemma PushBalanced(nb: Numbering, r: Run, e: Entry)
    requires Balanced(r)
    ensures Balanced(Advance(nb, r, Arrive(e)))
  {
    PushSettled(nb, r.st, e);
    var (s, actions) := Push(nb, r.st, e);
    Settle(r, s, actions[0]);
    if |actions| == 2 {
      Settle(Run(s, r.trace + [actions[0]]), s, actions[1]);
      assert r.trace + [actions[0]] + [actions[1]] == r.trace + actions;
    } else {
      assert actions == [actions[0]];
    }
  }

  lemma RoundSettled(nb: Numbering, st: Jitter, n: nat)
    requires n > 0
    ensures Settled(st, PopStep(nb, st, n).0, PopStep(nb, st, n).1)
  {
    var (s, a) := PopStep(nb, st, n);
    if st.buf != [] && s.buf != st.buf && s.buf != st.buf[1..] {
      assert s.buf[1..] == st.buf[1..];
    }
  }

  lemma RoundBalanced(nb: Numbering, r: Run, n: nat)
    requires Balanced(r) && n > 0
    ensures Balanced(Run(PopStep(nb, r.st, n).0, r.trace + [PopStep(nb, r.st, n).1]))
  {
    RoundSettled(nb, r.st, n);
    Settle(r, PopStep(nb, r.st, n).0, PopStep(nb, r.st, n).1);
  }

  lemma BalancedInductive(nb: Numbering)
    ensures Inductive(nb, Balanced)
  {
    forall r, e | Balanced(r) ensures Balanced(Advance(nb, r, Arrive(e))) {
      PushBalanced(nb, r, e);
    }
    forall r: Run, n: nat | n > 0 && Balanced(r)
      ensures Balanced(Run(PopStep(nb, r.st, n).0, r.trace + [PopStep(nb, r.st, n).1]))
    {
      RoundBalanced(nb, r, n);
    }
  }

  /** Conservation over every run, whatever the numbers of the packets. */
  lemma Conservation(nb: Numbering, startFill: nat, events: seq<Event>)
    ensures Balanced(Execute(nb, Start(startFill), events))
  {
    BalancedInductive(nb);
    ExecuteKeeps(nb, Balanced, Start(startFill), events);
  }
}
