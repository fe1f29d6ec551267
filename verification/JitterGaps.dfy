/** How long the silence for a lost packet is, and when a loss leaves the stream's length as it was. */
module JitterGaps {
  import opened Audio
  import opened SeqNum
  import opened JitterSpec
  import opened JitterTimeline
  import opened JitterWrap

  // ---------------------------------------------------------------- the length of one gap

  /** The gap at `i` in the trace of a pop of `n` frames is 240 frames or, if that is less, all that was still
      wanted; a shorter one ends the pop. */
  ghost predicate GapFits(trace: seq<Action>, n: nat, i: nat)
    requires i < |trace| && trace[i].Gap?
  {
    var before := |Output(trace[..i])|;
    && before < n
    && trace[i].count == Min(DEFAULT_FRAMES_PER_PACKET, n - before)
    && (trace[i].count < DEFAULT_FRAMES_PER_PACKET ==> i == |trace| - 1 && |Output(trace)| == n)
  }

  lemma FirstGapFits(nb: Numbering, st: Jitter, n: nat)
    requires n > 0 && PopStep(nb, st, n).1.Gap?
    ensures GapFits(PopLoop(nb, st, n).1, n, 0)
  {
    hide Output;
    var (s, a) := PopStep(nb, st, n);
    var trace := PopLoop(nb, st, n).1;
    SilentTrace();
    assert trace[..0] == [];
    if a.count < DEFAULT_FRAMES_PER_PACKET {
      assert PopLoop(nb, s, 0) == (s, []) && trace == [a] + [];
      OutputCons(a, []);
    }
  }

  lemma LaterGapFits(a: Action, rest: seq<Action>, n: nat, i: nat)
    requires 0 < i <= |rest| && rest[i - 1].Gap? && |Sound(a)| <= n && GapFits(rest, n - |Sound(a)|, i - 1)
    ensures GapFits([a] + rest, n, i)
  {
    hide Output;
    assert ([a] + rest)[..i] == [a] + rest[..i - 1];
    OutputCons(a, rest[..i - 1]);
    OutputCons(a, rest);
  }

  lemma LoopUnfolds(nb: Numbering, st: Jitter, n: nat)
    ensures n == 0 ==> PopLoop(nb, st, n).1 == []
    ensures n > 0 ==>
      var (s, a) := PopStep(nb, st, n);
      PopLoop(nb, st, n).1 == if a.Starve? then [a] else [a] + PopLoop(nb, s, n - |Sound(a)|).1
  {
  }

  /** So only the last gap of a pop can be short, and then the pop is complete. */
  lemma {:induction false} GapLength(nb: Numbering, st: Jitter, n: nat, i: nat)
    requires i < |PopLoop(nb, st, n).1| && PopLoop(nb, st, n).1[i].Gap?
    ensures GapFits(PopLoop(nb, st, n).1, n, i)
    decreases i
  {
    hide GapFits;
    LoopUnfolds(nb, st, n);
    hide PopLoop;
    var (s, a) := PopStep(nb, st, n);
    if i == 0 {
      FirstGapFits(nb, st, n);
    } else {
      var rest := PopLoop(nb, s, n - |Sound(a)|).1;
      GapLength(nb, s, n - |Sound(a)|, i - 1);
      LaterGapFits(a, rest, n, i);
    }
  }

  lemma SilentTrace()
    ensures Output([]) == []
  {
  }

  // ---------------------------------------------------------------- packets and pops of 240 frames

  function Length(s: Segment): nat { if s.Voiced? then |s.frames| else s.count }

  ghost predicate Full(buf: seq<Entry>) { forall x :: x in buf ==> |x.frames| == DEFAULT_FRAMES_PER_PACKET }

  /** Every packet holds 240 frames and every pop asks for 240. */
  ghost predicate Regular(events: seq<Event>) {
    forall ev :: ev in events ==>
      if ev.Arrive? then |ev.packet.frames| == DEFAULT_FRAMES_PER_PACKET else ev.count == DEFAULT_FRAMES_PER_PACKET
  }

  /** Every number passed has taken 240 frames of output, and no packet is part played. */
  ghost predicate Even(r: Run) {
    var t := TimelineOf(r.trace);
    && Full(r.st.buf) && t.head == []
    && (forall i :: 0 <= i < |t.done| ==> Length(t.done[i]) == DEFAULT_FRAMES_PER_PACKET)
    && |Output(r.trace)| == DEFAULT_FRAMES_PER_PACKET * |t.done|
  }

  lemma {:induction false} InsertFull(nb: Numbering, buf: seq<Entry>, e: Entry)
    requires Full(buf) && |e.frames| == DEFAULT_FRAMES_PER_PACKET
    ensures Full(Insert(nb, buf, e))
  {
    if buf != [] && !nb.Before(e.seqno, buf[0].seqno) {
      assert buf == [buf[0]] + buf[1..];
      InsertFull(nb, buf[1..], e);
    }
  }

  /** An action that plays nothing, or one that passes one number with 240 frames. */
  lemma ActionEven(r: Run, s: Jitter, a: Action)
    requires Even(r) && Full(s.buf)
    requires || a.Accept? || a.Refuse? || a.Begin? || a.Skip? || a.Starve?
             || (a.Play? && a.finished && |a.frames| == DEFAULT_FRAMES_PER_PACKET)
             || (a.Gap? && a.count == DEFAULT_FRAMES_PER_PACKET)
    ensures Even(Run(s, r.trace + [a]))
  {
    hide TimelineOf;
    hide Output;
    TimelineSnoc(r.trace, a);
    OutputSnoc(r.trace, a);
    if a.Play? {
      assert TimelineOf(r.trace).head + a.frames == a.frames;
    }
  }

  lemma PushEven(nb: Numbering, r: Run, e: Entry)
    requires Even(r) && |e.frames| == DEFAULT_FRAMES_PER_PACKET
    ensures Even(Advance(nb, r, Arrive(e)))
  {
    hide Even;
    hide Insert;
    EvenIsFull(r);
    InsertFull(nb, r.st.buf, e);
    var t := Advance(nb, r, Arrive(e));
    var first := Push(nb, r.st, e).1[0];
    ActionEven(r, t.st, first);
    if |Push(nb, r.st, e).1| == 2 {
      var second := Push(nb, r.st, e).1[1];
      EvenIsFull(Run(t.st, r.trace + [first]));
      ActionEven(Run(t.st, r.trace + [first]), t.st, second);
      assert r.trace + [first, second] == r.trace + [first] + [second];
    }
  }

  lemma EvenIsFull(r: Run)
    ensures Even(r) ==> Full(r.st.buf)
  {
  }

  lemma RoundEven(nb: Numbering, r: Run)
    requires Even(r)
    ensures var (s, a) := PopStep(nb, r.st, DEFAULT_FRAMES_PER_PACKET);
      && Even(Run(s, r.trace + [a]))
      && (|Sound(a)| == DEFAULT_FRAMES_PER_PACKET || (Sound(a) == [] && (a.Starve? || |s.buf| < |r.st.buf|)))
  {
    hide Even;
    EvenIsFull(r);
    var (s, a) := PopStep(nb, r.st, DEFAULT_FRAMES_PER_PACKET);
    if r.st.buf != [] {
      assert r.st.buf[0] in r.st.buf;
    }
    ActionEven(r, s, a);
  }

  lemma {:induction false} LoopEven(nb: Numbering, r: Run)
    requires Even(r)
    ensures var (s, actions) := PopLoop(nb, r.st, DEFAULT_FRAMES_PER_PACKET); Even(Run(s, r.trace + actions))
    decreases |r.st.buf|
  {
    hide Even;
    RoundEven(nb, r);
    var n := DEFAULT_FRAMES_PER_PACKET;
    var (s, a) := PopStep(nb, r.st, n);
    if !a.Starve? {
      var rest := PopLoop(nb, s, n - |Sound(a)|).1;
      assert r.trace + ([a] + rest) == r.trace + [a] + rest;
      if |Sound(a)| == 0 {
        LoopEven(nb, Run(s, r.trace + [a]));
      } else {
        assert r.trace + [a] + [] == r.trace + [a];
      }
    }
  }

  lemma {:induction false} ExecuteEven(nb: Numbering, r: Run, events: seq<Event>)
    requires Even(r) && Regular(events)
    ensures Even(Execute(nb, r, events))
    decreases |events|
  {
    hide Even;
    hide PopLoop;
    hide Push;
    if events != [] {
      assert events[0] in events;
      match events[0] {
        case Arrive(e) => PushEven(nb, r, e);
        case Demand(n) =>
          if r.st.state == Playing {
            LoopEven(nb, r);
          } else {
            assert r.trace + [] == r.trace;
          }
      }
      ExecuteEven(nb, Advance(nb, r, events[0]), events[1..]);
    }
  }

  /** With packets and pops of 240 frames, the code's output is 240 frames for every number from the first
      cursor up to the current one, whichever of the packets were lost. */
  lemma LossKeepsLength(startFill: nat, events: seq<Event>)
    requires Windowed(Start(startFill), events) && Regular(events)
    ensures var u := Execute(Unbounded, Start(startFill), events);
      var w := Execute(Wrapped, Start(startFill), WrapEvents(events));
      var t := TimelineOf(u.trace);
      && t.head == []
      && (forall i :: 0 <= i < |t.done| ==> Length(t.done[i]) == DEFAULT_FRAMES_PER_PACKET)
      && (t.first.Some? ==>
            && u.st.cursor.Some? && w.st.cursor == Some(Wrap(u.st.cursor.value))
            && |Output(w.trace)| == DEFAULT_FRAMES_PER_PACKET * (u.st.cursor.value - t.first.value))
      && (t.first.None? ==> Output(w.trace) == [])
  {
    hide Output;
    hide TimelineOf;
    hide Accepted;
    SilentTrace();
    NothingTold();
    ExecuteEven(Unbounded, Start(startFill), events);
    WrappedStream(startFill, events);
  }

  lemma NothingTold()
    ensures TimelineOf([]) == Timeline(None, [], [])
  {
  }
}
