/** Wrap-around refinement: on wrapped 32-bit numbers the jitter buffer does what it would do on
    unbounded ones, as long as live numbers, cursor and arriving number span at most 2^31 - 2. */
module JitterWrap {
  import opened Audio
  import opened SeqNum
  import opened JitterSpec
  import opened JitterTimeline

  function WrapEntry(e: Entry): Entry { Entry(Wrap(e.seqno), e.frames) }

  function WrapBuf(buf: seq<Entry>): (r: seq<Entry>)
    ensures |r| == |buf|
  {
    if buf == [] then [] else [WrapEntry(buf[0])] + WrapBuf(buf[1..])
  }

  function WrapState(st: Jitter): Jitter {
    st.(buf := WrapBuf(st.buf), cursor := if st.cursor == None then None else Some(Wrap(st.cursor.value)))
  }

  function WrapAction(a: Action): Action {
    match a
    case Accept(e) => Accept(WrapEntry(e))
    case Refuse(e) => Refuse(WrapEntry(e))
    case Begin(n) => Begin(Wrap(n))
    case Play(n, frames, finished) => Play(Wrap(n), frames, finished)
    case Gap(n, count) => Gap(Wrap(n), count)
    case Skip(e) => Skip(WrapEntry(e))
    case Starve => Starve
  }

  function WrapTrace(trace: seq<Action>): seq<Action> {
    seq(|trace|, i requires 0 <= i < |trace| => WrapAction(trace[i]))
  }

  function WrapEvents(events: seq<Event>): seq<Event> {
    if events == [] then []
    else
      var ev := events[0];
      [if ev.Arrive? then Arrive(WrapEntry(ev.packet)) else ev] + WrapEvents(events[1..])
  }

  // ---------------------------------------------------------------- the window

  ghost predicate Live(buf: seq<Entry>, cursor: Option<int>) {
    && (forall x, y :: x in buf && y in buf ==> Near(x.seqno, y.seqno))
    && (cursor.Some? ==> NearAll(buf, cursor.value))
  }

  ghost predicate NearAll(buf: seq<Entry>, n: int) {
    forall x :: x in buf ==> Near(n, x.seqno)
  }

  ghost predicate InWindow(st: Jitter) { Sorted(st.buf) && Live(st.buf, st.cursor) }

  ghost predicate ArrivesInWindow(st: Jitter, n: int) {
    NearAll(st.buf, n) && (st.cursor.Some? ==> Near(n, st.cursor.value))
  }

  /** Every packet of the run arrives within half a window of the live numbers and the cursor. */
  ghost predicate Windowed(r: Run, events: seq<Event>)
    decreases |events|
  {
    events != [] ==>
      && (events[0].Arrive? ==> ArrivesInWindow(r.st, events[0].packet.seqno))
      && Windowed(Advance(Unbounded, r, events[0]), events[1..])
  }

  // ---------------------------------------------------------------- push

  lemma {:induction false} InsertWraps(buf: seq<Entry>, e: Entry)
    requires forall x :: x in buf ==> Near(e.seqno, x.seqno)
    ensures Insert(Wrapped, WrapBuf(buf), WrapEntry(e)) == WrapBuf(Insert(Unbounded, buf, e))
    ensures forall x :: x in Insert(Unbounded, buf, e) <==> x == e || x in buf
  {
    if buf != [] {
      WrappedOrder(e.seqno, buf[0].seqno);
      assert buf == [buf[0]] + buf[1..];
      if e.seqno < buf[0].seqno {
        assert ([e] + buf)[1..] == buf;
      } else {
        InsertWraps(buf[1..], e);
        assert WrapBuf(buf)[1..] == WrapBuf(buf[1..]);
        assert Insert(Unbounded, buf, e)[1..] == Insert(Unbounded, buf[1..], e);
      }
    }
  }

  lemma {:induction false} TotalWraps(buf: seq<Entry>)
    ensures TotalFrames(WrapBuf(buf)) == TotalFrames(buf)
  {
    if buf != [] {
      TotalWraps(buf[1..]);
      assert WrapBuf(buf)[1..] == WrapBuf(buf[1..]);
    }
  }

  lemma PushWraps(st: Jitter, e: Entry)
    requires ArrivesInWindow(st, e.seqno)
    ensures Push(Wrapped, WrapState(st), WrapEntry(e)) ==
      (WrapState(Push(Unbounded, st, e).0), WrapTrace(Push(Unbounded, st, e).1))
  {
    if st.cursor.Some? {
      WrappedOrder(e.seqno, st.cursor.value);
    }
    InsertWraps(st.buf, e);
    var buf := Insert(Unbounded, st.buf, e);
    assert WrapBuf(buf)[0].seqno == Wrap(buf[0].seqno);
    TotalWraps(buf);
    assert WrapTrace([Refuse(e)]) == [Refuse(WrapEntry(e))];
    assert WrapTrace([Accept(e)]) == [Accept(WrapEntry(e))];
    var first := buf[0].seqno;
    assert WrapTrace([Accept(e), Begin(first)]) == [Accept(WrapEntry(e)), Begin(Wrap(first))];
  }

  lemma AcceptInWindow(buf: seq<Entry>, cursor: Option<int>, e: Entry)
    requires Sorted(buf) && Live(buf, cursor) && NearAll(buf, e.seqno)
    requires cursor.Some? ==> Near(e.seqno, cursor.value)
    ensures var r := Insert(Unbounded, buf, e);
      Sorted(r) && Live(r, cursor) && Live(r, Some(r[0].seqno))
  {
    InsertKeepsSorted(buf, e);
    InsertWraps(buf, e);
    var r := Insert(Unbounded, buf, e);
    assert r[0] in r;
  }

  lemma PushInWindow(st: Jitter, e: Entry)
    requires InWindow(st) && ArrivesInWindow(st, e.seqno)
    ensures InWindow(Push(Unbounded, st, e).0)
  {
    AcceptInWindow(st.buf, st.cursor, e);
  }

  // ---------------------------------------------------------------- pop

  lemma RoundWraps(st: Jitter, n: nat)
    requires InWindow(st) && n > 0
    ensures PopStep(Wrapped, WrapState(st), n) ==
      (WrapState(PopStep(Unbounded, st, n).0), WrapAction(PopStep(Unbounded, st, n).1))
  {
    if st.buf != [] {
      var front := st.buf[0];
      WrapNext(front.seqno);
      if st.cursor.Some? {
        WrappedOrder(st.cursor.value, front.seqno);
        WrapNext(st.cursor.value);
      }
      assert WrapBuf(st.buf)[1..] == WrapBuf(st.buf[1..]);
      if n < |front.frames| {
        var cut := [Entry(front.seqno, front.frames[n..])] + st.buf[1..];
        assert cut[1..] == st.buf[1..];
      }
    }
  }

  lemma RestInWindow(buf: seq<Entry>, cursor: Option<int>)
    requires Sorted(buf) && Live(buf, cursor) && buf != []
    ensures Sorted(buf[1..]) && Live(buf[1..], cursor) && Live(buf[1..], Some(buf[0].seqno + 1))
  {
    assert forall x :: x in buf[1..] ==> x in buf;
    forall x | x in buf[1..] ensures Near(buf[0].seqno + 1, x.seqno) {
      var i :| 0 <= i < |buf[1..]| && buf[1..][i] == x;
      assert buf[i + 1] == x;
      assert buf[0] in buf && Near(buf[0].seqno, x.seqno);
    }
  }

  lemma GapInWindow(buf: seq<Entry>, c: int)
    requires Sorted(buf) && Live(buf, Some(c)) && buf != [] && c < buf[0].seqno
    ensures Live(buf, Some(c + 1))
  {
    forall x | x in buf ensures Near(c + 1, x.seqno) {
      var i :| 0 <= i < |buf| && buf[i] == x;
      assert Near(c, x.seqno);
    }
  }

  lemma CutInWindow(buf: seq<Entry>, cursor: Option<int>, frames: seq<Frame>)
    requires Sorted(buf) && Live(buf, cursor) && buf != []
    ensures Sorted([Entry(buf[0].seqno, frames)] + buf[1..])
    ensures Live([Entry(buf[0].seqno, frames)] + buf[1..], cursor)
  {
    assert buf[0] in buf;
    assert forall x :: x in buf[1..] ==> x in buf;
  }

  lemma RoundInWindow(st: Jitter, n: nat)
    requires InWindow(st) && n > 0
    ensures InWindow(PopStep(Unbounded, st, n).0)
  {
    if st.buf != [] {
      var front := st.buf[0];
      var next := st.cursor.GetOr(front.seqno);
      if front.seqno == next {
        if n < |front.frames| {
          CutInWindow(st.buf, st.cursor, front.frames[n..]);
        } else {
          RestInWindow(st.buf, st.cursor);
        }
      } else if next < front.seqno {
        GapInWindow(st.buf, next);
      } else {
        RestInWindow(st.buf, st.cursor);
      }
    }
  }

  ghost predicate SameLoop(st: Jitter, n: nat) {
    && PopLoop(Wrapped, WrapState(st), n).0 == WrapState(PopLoop(Unbounded, st, n).0)
    && PopLoop(Wrapped, WrapState(st), n).1 == WrapTrace(PopLoop(Unbounded, st, n).1)
  }

  lemma SameLoopStep(st: Jitter, n: nat, s: Jitter, a: Action)
    requires n > 0 && (s, a) == PopStep(Unbounded, st, n)
    requires PopStep(Wrapped, WrapState(st), n) == (WrapState(s), WrapAction(a))
    requires !a.Starve? ==> SameLoop(s, n - |Sound(a)|)
    ensures SameLoop(st, n)
  {
    assert Sound(WrapAction(a)) == Sound(a);
    assert WrapTrace([a]) == [WrapAction(a)];
    if !a.Starve? {
      ConcatWraps([a], PopLoop(Unbounded, s, n - |Sound(a)|).1);
    }
  }

  lemma RoundSame(st: Jitter, n: nat)
    requires InWindow(st) && n > 0
    requires var (s, a) := PopStep(Unbounded, st, n); !a.Starve? ==> SameLoop(s, n - |Sound(a)|)
    ensures SameLoop(st, n)
  {
    hide PopLoop;
    RoundWraps(st, n);
    SameLoopStep(st, n, PopStep(Unbounded, st, n).0, PopStep(Unbounded, st, n).1);
  }

  lemma {:induction false} LoopWraps(st: Jitter, n: nat)
    requires InWindow(st)
    ensures SameLoop(st, n)
    decreases n, |st.buf|
  {
    if n == 0 {
      assert WrapTrace([]) == [];
    } else {
      hide SameLoop;
      hide PopLoop;
      hide InWindow;
      var (s, a) := PopStep(Unbounded, st, n);
      RoundInWindow(st, n);
      if !a.Starve? {
        LoopWraps(s, n - |Sound(a)|);
      }
      RoundSame(st, n);
    }
  }

  lemma {:induction false} LoopInWindow(st: Jitter, n: nat)
    requires InWindow(st)
    ensures InWindow(PopLoop(Unbounded, st, n).0)
    decreases n, |st.buf|
  {
    if n > 0 {
      hide InWindow;
      var (s, a) := PopStep(Unbounded, st, n);
      RoundInWindow(st, n);
      if !a.Starve? {
        LoopInWindow(s, n - |Sound(a)|);
      }
    }
  }

  lemma ConcatWraps(t: seq<Action>, u: seq<Action>)
    ensures WrapTrace(t + u) == WrapTrace(t) + WrapTrace(u)
  {
  }

  lemma {:induction false} OutputWraps(t: seq<Action>)
    ensures Output(WrapTrace(t)) == Output(t)
  {
    if t != [] {
      var u := t[..|t| - 1];
      OutputWraps(u);
      OutputSnoc(WrapTrace(u), WrapAction(t[|t| - 1]));
      assert WrapTrace(t) == WrapTrace(u) + [WrapAction(t[|t| - 1])];
    }
  }

  // ---------------------------------------------------------------- runs

  function WrapRun(r: Run): Run { Run(WrapState(r.st), WrapTrace(r.trace)) }

  lemma {:induction false} ExecuteWraps(r: Run, events: seq<Event>)
    requires InWindow(r.st) && Windowed(r, events)
    ensures Execute(Wrapped, WrapRun(r), WrapEvents(events)) == WrapRun(Execute(Unbounded, r, events))
    ensures InWindow(Execute(Unbounded, r, events).st)
    decreases |events|
  {
    if events != [] {
      var next := Advance(Unbounded, r, events[0]);
      match events[0] {
        case Arrive(e) => PushWraps(r.st, e); PushInWindow(r.st, e);
        case Demand(n) => LoopWraps(r.st, n); LoopInWindow(r.st, n);
      }
      ConcatWraps(r.trace, Step(Unbounded, r.st, events[0]).1);
      assert WrapEvents(events)[1..] == WrapEvents(events[1..]);
      ExecuteWraps(next, events[1..]);
    }
  }

  /** The code's run and the unbounded run correspond step by step and sound the same. */
  lemma WrappedRefines(startFill: nat, events: seq<Event>)
    requires Windowed(Start(startFill), events)
    ensures var u := Execute(Unbounded, Start(startFill), events);
      var w := Execute(Wrapped, Start(startFill), WrapEvents(events));
      w == WrapRun(u) && Output(w.trace) == Output(u.trace) && Sorted(u.st.buf)
  {
    assert WrapTrace([]) == [];
    ExecuteWraps(Start(startFill), events);
    OutputWraps(Execute(Unbounded, Start(startFill), events).trace);
  }

  /** The first cursor is the least number accepted; every number passed since has its segment; the
      cursor's packet has given a prefix. */
  ghost predicate PlaysAll(accepted: seq<Entry>, t: Timeline)
    requires t.first.Some?
  {
    var cursor := t.first.value + |t.done|;
    && (forall n :: n < t.first.value ==> Copies(accepted, n) == []) && Copies(accepted, t.first.value) != []
    && (forall i :: 0 <= i < |t.done| ==> SegmentOk(accepted, t.first.value + i, t.done[i]))
    && (t.head != [] ==> Copies(accepted, cursor) != [] && t.head <= Copies(accepted, cursor)[0])
  }

  ghost predicate Streams(u: Run) {
    var t := TimelineOf(u.trace);
    && Output(u.trace) == Flatten(t.done) + t.head
    && (t.first == None ==> Output(u.trace) == [] && u.st.cursor == None)
    && (t.first.Some? ==>
          && u.st.cursor == Some(t.first.value + |t.done|)
          && PlaysAll(Accepted(u.trace), t))
  }

  lemma HeadIsPrefix(buf: seq<Entry>, accepted: seq<Entry>, c: int, head: seq<Frame>)
    requires Holds(buf, accepted, c, head) && head != []
    ensures Copies(accepted, c) != [] && head <= Copies(accepted, c)[0]
  {
    assert Copies(accepted, c)[0] == head + buf[0].frames;
  }

  lemma TellsPlaysAll(st: Jitter, accepted: seq<Entry>, t: Timeline)
    requires Tells(st, accepted, t) && t.first.Some?
    ensures PlaysAll(accepted, t)
  {
    if t.head != [] {
      HeadIsPrefix(st.buf, accepted, st.cursor.value, t.head);
    }
  }

  lemma ToldStreams(u: Run)
    requires Told(u)
    ensures Streams(u)
  {
    var t := TimelineOf(u.trace);
    if t.first == None {
      assert Flatten([]) + [] == [];
    } else {
      TellsPlaysAll(u.st, Accepted(u.trace), t);
    }
  }

  /** The same on unbounded numbers, where no window is needed. */
  lemma UnboundedStream(startFill: nat, events: seq<Event>)
    ensures Streams(Execute(Unbounded, Start(startFill), events))
  {
    EveryRunTold(startFill, events);
    ToldStreams(Execute(Unbounded, Start(startFill), events));
  }

  /** The sound of every windowed run of the code: for each number from the first cursor up to the
      current one the whole first copy that was accepted, or 1 to 240 silent frames when none was;
      then the part of the cursor's packet that has been consumed. */
  lemma WrappedStream(startFill: nat, events: seq<Event>)
    requires Windowed(Start(startFill), events)
    ensures var u := Execute(Unbounded, Start(startFill), events);
      var w := Execute(Wrapped, Start(startFill), WrapEvents(events));
      Streams(u) && Output(w.trace) == Output(u.trace) && w == WrapRun(u)
  {
    WrappedRefines(startFill, events);
    UnboundedStream(startFill, events);
  }
}
