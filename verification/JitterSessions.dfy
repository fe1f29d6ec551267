/** A sender that is started again numbers its packets from 0, while the receiver keeps its cursor: what becomes
    of the new session's packets. */
module JitterSessions {
  import opened Audio
  import opened SeqNum
  import opened JitterSpec
  import opened JitterWrap

  /** Packet `i` of a session whose first packet has the unbounded number `base`: on the wire it is `i`. */
  lemma SessionNumber(base: int, i: nat)
    requires Wrap(base) == 0
    ensures Wrap(base + i) == Wrap(i)
  {
    var m := MODULUS;
    assert base == m * (base / m);
    ModUnique(base + i, base / m + i / m, i % m);
  }

  // ---------------------------------------------------------------- the cursor never goes back

  lemma {:induction false} LoopCursor(st: Jitter, n: nat)
    requires st.cursor.Some?
    ensures var s := PopLoop(Unbounded, st, n).0; s.cursor.Some? && s.cursor.value >= st.cursor.value
    decreases n, |st.buf|
  {
    if n > 0 {
      var (s, a) := PopStep(Unbounded, st, n);
      if !a.Starve? {
        LoopCursor(s, n - |Sound(a)|);
      }
    }
  }

  lemma {:induction false} CursorGrows(r: Run, events: seq<Event>)
    requires r.st.cursor.Some?
    ensures var s := Execute(Unbounded, r, events).st; s.cursor.Some? && s.cursor.value >= r.st.cursor.value
    decreases |events|
  {
    hide PopLoop;
    hide Insert;
    hide TotalFrames;
    if events != [] {
      if events[0].Demand? {
        LoopCursor(r.st, events[0].count);
      }
      CursorGrows(Advance(Unbounded, r, events[0]), events[1..]);
    }
  }

  lemma {:induction false} WindowedAt(r: Run, events: seq<Event>, k: nat)
    requires Windowed(r, events) && k < |events|
    ensures Windowed(r, events[..k])
    ensures events[k].Arrive? ==>
      ArrivesInWindow(Execute(Unbounded, r, events[..k]).st, events[k].packet.seqno)
    decreases k
  {
    hide Advance;
    if k > 0 {
      WindowedAt(Advance(Unbounded, r, events[0]), events[1..], k - 1);
      assert events[..k][1..] == events[1..][..k - 1];
    }
  }

  // ---------------------------------------------------------------- theorem

  /** From any state with the cursor at `c` on, whatever arrives and is popped within the window: packet `i` of
      the new session is refused, and nothing else happens to the buffer, exactly if the cursor is past it when
      it arrives. So the packets with `base + i < c` are lost, all of them, and one that is accepted has
      `base + i >= c`. */
  lemma RestartRefused(r: Run, base: int, events: seq<Event>, k: nat, i: nat)
    requires InWindow(r.st) && r.st.cursor.Some? && Windowed(r, events) && Wrap(base) == 0
    requires k < |events| && events[k].Arrive? && events[k].packet.seqno == base + i
    ensures var w := Execute(Wrapped, WrapRun(r), WrapEvents(events[..k])).st;
      var cursor := Execute(Unbounded, r, events[..k]).st.cursor;
      var p := WrapEntry(events[k].packet);
      && p.seqno == Wrap(i)
      && cursor.Some? && cursor.value >= r.st.cursor.value && w.cursor == Some(Wrap(cursor.value))
      && (Push(Wrapped, w, p).1 == [Refuse(p)] <==> base + i < cursor.value)
      && (base + i < r.st.cursor.value ==>
            Push(Wrapped, w, p) == (w.(received := w.received + 1, dropped := w.dropped + 1), [Refuse(p)]))
  {
    hide Windowed;
    hide InWindow;
    hide ArrivesInWindow;
    hide Execute;
    hide Push;
    WindowedAt(r, events, k);
    ExecuteWraps(r, events[..k]);
    CursorGrows(r, events[..k]);
    SessionNumber(base, i);
    PushWhenSet(Execute(Unbounded, r, events[..k]).st, events[k].packet);
  }

  lemma PushWhenSet(st: Jitter, e: Entry)
    requires st.cursor.Some? && ArrivesInWindow(st, e.seqno)
    ensures var w, p := WrapState(st), WrapEntry(e);
      && w.cursor == Some(Wrap(st.cursor.value))
      && (Push(Wrapped, w, p).1 == [Refuse(p)] <==> e.seqno < st.cursor.value)
      && (e.seqno < st.cursor.value ==>
            Push(Wrapped, w, p) == (w.(received := w.received + 1, dropped := w.dropped + 1), [Refuse(p)]))
  {
    hide Insert;
    hide TotalFrames;
    hide WrapBuf;
    WrappedOrder(e.seqno, st.cursor.value);
  }
}
