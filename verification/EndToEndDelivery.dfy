/** The other direction of losslessness: what is delivered in time is played, all of it and in order. */
module EndToEndDelivery {
  import opened Audio
  import opened SeqNum
  import opened Wire
  import opened JitterSpec
  import opened JitterLedger
  import opened JitterTimeline
  import opened JitterWrap
  import opened EndToEnd

  /** A copy of packet `i` is delivered after it was sent and before the receiver's cursor has passed it. */
  ghost predicate InTime(start: Link, events: seq<EndToEnd.Event>, i: nat) {
    exists k :: 0 <= k < |events| && events[k] == Deliver(i) && Expected(EndToEnd.Execute(start, events[..k]), i)
  }

  ghost predicate Expected(l: Link, i: nat) {
    i < |l.sent| && (l.ideal.st.cursor.Some? ==> l.ideal.st.cursor.value <= i)
  }

  // ---------------------------------------------------------------- delivered in time is accepted

  lemma AcceptsExpected(l: Link, i: nat)
    requires SenderOk(l) && Expected(l, i)
    ensures Entry(i, l.chunks[i]) in Accepted(EndToEnd.Step(l, Deliver(i)).ideal.trace)
  {
    hide Accepted;
    hide Insert;
    hide TotalFrames;
    hide EndToEnd.Receive;
    hide EndToEnd.IsPacket;
    hide Joined;
    hide Interleaved;
    var e := Entry(i, l.chunks[i]);
    AcceptedConcat(l.ideal.trace, Push(Unbounded, l.ideal.st, e).1);
    ShortAccepted(Accept(e), Begin(Insert(Unbounded, l.ideal.st.buf, e)[0].seqno));
  }

  lemma StepGrows(l: Link, ev: EndToEnd.Event)
    ensures l.chunks <= EndToEnd.Step(l, ev).chunks
    ensures l.ideal.trace <= EndToEnd.Step(l, ev).ideal.trace
  {
    hide EndToEnd.Receive;
    hide JitterSpec.Step;
  }

  lemma {:induction false} HistoryGrows(l: Link, events: seq<EndToEnd.Event>)
    ensures l.chunks <= EndToEnd.Execute(l, events).chunks
    ensures l.ideal.trace <= EndToEnd.Execute(l, events).ideal.trace
    decreases |events|
  {
    hide EndToEnd.Step;
    if events != [] {
      StepGrows(l, events[0]);
      HistoryGrows(EndToEnd.Step(l, events[0]), events[1..]);
    }
  }

  lemma StaysAccepted(t: seq<Action>, u: seq<Action>, e: Entry)
    requires t <= u && e in Accepted(t)
    ensures e in Accepted(u)
  {
    hide Accepted;
    AcceptedConcat(t, u[|t|..]);
    assert t + u[|t|..] == u;
  }

  lemma {:induction false} CopiesOf(s: seq<Entry>, e: Entry)
    requires e in s
    ensures Copies(s, e.seqno) != []
  {
    if s[0] != e {
      CopiesOf(s[1..], e);
    }
  }

  lemma InTimeAccepted(start: Link, events: seq<EndToEnd.Event>, i: nat)
    requires SenderOk(start) && InTime(start, events, i)
    ensures i < |EndToEnd.Execute(start, events).chunks|
    ensures Copies(Accepted(EndToEnd.Execute(start, events).ideal.trace), i) != []
  {
    hide EndToEnd.Execute;
    hide EndToEnd.Step;
    hide SenderOk;
    hide Copies;
    hide Accepted;
    var k :| 0 <= k < |events| && events[k] == Deliver(i) && Expected(EndToEnd.Execute(start, events[..k]), i);
    var before := EndToEnd.Execute(start, events[..k]);
    SenderRuns(start, events[..k]);
    SentAreChunks(before);
    ExecuteSnoc(start, events[..k], Deliver(i));
    assert events == (events[..k] + [Deliver(i)]) + events[k + 1..];
    ExecuteConcat(start, events[..k] + [Deliver(i)], events[k + 1..]);
    var after := EndToEnd.Step(before, Deliver(i));
    AcceptsExpected(before, i);
    StepGrows(before, Deliver(i));
    HistoryGrows(after, events[k + 1..]);
    var e := Entry(i, before.chunks[i]);
    StaysAccepted(after.ideal.trace, EndToEnd.Execute(start, events).ideal.trace, e);
    CopiesOf(Accepted(EndToEnd.Execute(start, events).ideal.trace), e);
  }

  lemma SentAreChunks(l: Link)
    requires SenderOk(l)
    ensures |l.sent| == |l.chunks|
  {
  }

  // ---------------------------------------------------------------- accepted is played

  /** Packets 0 to `n - 1` have all been accepted. */
  ghost predicate HasAll(accepted: seq<Entry>, n: nat) {
    forall i :: 0 <= i < n ==> Copies(accepted, i) != []
  }

  /** If packet 0 was accepted, playback began with it. */
  lemma BeginsWithFirst(u: Run, chunks: seq<seq<Frame>>, n: nat)
    requires Told(u) && Genuine(Accepted(u.trace), chunks) && HasAll(Accepted(u.trace), n) && n > 0
    ensures TimelineOf(u.trace).first.Some? ==> TimelineOf(u.trace).first == Some(0)
  {
    hide TimelineOf;
    hide Accepted;
    hide Copies;
    hide Holds;
    hide SegmentOk;
    hide Output;
    hide Flatten;
    var t := TimelineOf(u.trace);
    if t.first.Some? {
      CopiesMember(Accepted(u.trace), t.first.value);
      assert Copies(Accepted(u.trace), 0) != [];
    }
  }

  /** The segments of packets that were accepted hold exactly their frames. */
  lemma VoicedSegment(accepted: seq<Entry>, chunks: seq<seq<Frame>>, i: nat, s: Segment)
    requires SegmentOk(accepted, i, s) && Genuine(accepted, chunks) && Copies(accepted, i) != []
    ensures i < |chunks| && s == Voiced(chunks[i])
  {
    CopiesMember(accepted, i);
  }

  /** The output is the first packets whole, or lies within them. */
  lemma WholeOrWithin(u: Run, chunks: seq<seq<Frame>>, n: nat)
    requires Told(u) && Genuine(Accepted(u.trace), chunks) && HasAll(Accepted(u.trace), n)
    requires n <= |chunks| && TimelineOf(u.trace).first == Some(0)
    ensures var t := TimelineOf(u.trace);
      && (n <= |t.done| ==> Joined(chunks[..n]) <= Output(u.trace))
      && (|t.done| < n ==> Output(u.trace) <= Joined(chunks[..n]))
  {
    hide TimelineOf;
    hide Accepted;
    hide Copies;
    hide SegmentOk;
    hide Output;
    var t := TimelineOf(u.trace);
    var accepted := Accepted(u.trace);
    TellsPlaysAll(u.st, accepted, t);
    forall i | 0 <= i < |t.done| && i < n ensures t.done[i] == Voiced(chunks[i]) {
      assert SegmentOk(accepted, t.first.value + i, t.done[i]);
      VoicedSegment(accepted, chunks, i, t.done[i]);
    }
    if n <= |t.done| {
      WholeFirst(t, chunks, n);
    } else {
      if t.head != [] {
        CopiesMember(accepted, |t.done|);
      }
      WithinFirst(t, chunks, n);
    }
  }

  lemma WholeFirst(t: Timeline, chunks: seq<seq<Frame>>, n: nat)
    requires n <= |chunks| && n <= |t.done|
    requires forall i :: 0 <= i < n ==> t.done[i] == Voiced(chunks[i])
    ensures Joined(chunks[..n]) <= Flatten(t.done) + t.head
  {
    hide Flatten;
    hide Joined;
    VoicedJoin(t.done[..n], chunks);
    FlattenPrefix(t.done, n);
  }

  lemma {:induction false} FlattenPrefix(done: seq<Segment>, n: nat)
    requires n <= |done|
    ensures Flatten(done[..n]) <= Flatten(done)
  {
    if n == |done| {
      assert done[..n] == done;
    } else {
      var rest := done[..|done| - 1];
      FlattenPrefix(rest, n);
      assert rest[..n] == done[..n];
    }
  }

  lemma WithinFirst(t: Timeline, chunks: seq<seq<Frame>>, n: nat)
    requires |t.done| < n <= |chunks|
    requires forall i :: 0 <= i < |t.done| ==> t.done[i] == Voiced(chunks[i])
    requires t.head != [] ==> t.head <= chunks[|t.done|]
    ensures Flatten(t.done) + t.head <= Joined(chunks[..n])
  {
    hide Flatten;
    hide Joined;
    forall i | 0 <= i < |t.done| ensures SentOrSilent(chunks[..n], i, t.done[i]) && t.done[i].Voiced? {
    }
    VoicedIsPrefix(t, chunks[..n]);
  }

  lemma NothingCopied(n: int)
    ensures Copies([], n) == []
  {
  }

  /** A deque that ran dry has passed every packet that was accepted. */
  lemma DryHasPassed(u: Run, n: nat)
    requires Told(u) && TimelineOf(u.trace).first == Some(0) && HasAll(Accepted(u.trace), n) && u.st.buf == []
    ensures n <= |TimelineOf(u.trace).done|
  {
    hide TimelineOf;
    hide Accepted;
    hide SegmentOk;
    hide Output;
    hide Flatten;
    var c := |TimelineOf(u.trace).done|;
    NothingCopied(c);
  }

  /** A pop of a playing receiver that asks for enough reaches the end of the first packets. */
  lemma PopReaches(u: Run, chunks: seq<seq<Frame>>, n: nat, count: nat)
    requires u.st.state == Playing && Told(Advance(Unbounded, u, Demand(count)))
    requires var v := Advance(Unbounded, u, Demand(count));
      && Genuine(Accepted(v.trace), chunks) && HasAll(Accepted(v.trace), n) && n <= |chunks|
      && TimelineOf(v.trace).first == Some(0)
    requires |Output(u.trace)| + count >= |Joined(chunks[..n])|
    ensures var v := Advance(Unbounded, u, Demand(count));
      Joined(chunks[..n]) <= Output(v.trace) && |Output(v.trace)| <= |Output(u.trace)| + count
  {
    hide TimelineOf;
    hide Accepted;
    hide Output;
    hide Told;
    hide PopLoop;
    hide HasAll;
    hide Genuine;
    var v := Advance(Unbounded, u, Demand(count));
    ShortPop(Unbounded, u.st, count);
    OutputConcat(u.trace, Pop(Unbounded, u.st, count).1);
    WholeOrWithin(v, chunks, n);
    if v.st.state == Underrun {
      DryHasPassed(v, n);
    }
  }

  // ---------------------------------------------------------------- theorem

  /** For every run within the window in which each of the first `n` packets is delivered after it was sent and
      before the receiver's cursor has passed it, over any loss, order and duplication of the rest: playback, if
      it has begun, began with packet 0; and a pop that asks a playing receiver for the remaining frames of those
      packets makes all that was played begin with exactly the samples they carry, which are the first ones the
      client's writes had accepted. */
  lemma DeliveredIsPlayed(capacity: nat, framesPerPacket: nat, startFill: nat, events: seq<EndToEnd.Event>,
      n: nat, count: nat)
    requires 1 <= framesPerPacket <= MAX_FRAMES && n > 0
    requires var start := NewLink(capacity, framesPerPacket, startFill);
      EndToEnd.Windowed(start, events) && forall i :: 0 <= i < n ==> InTime(start, events, i)
    ensures var start := NewLink(capacity, framesPerPacket, startFill);
      var l := EndToEnd.Execute(start, events);
      var played := EndToEnd.Execute(start, events + [EndToEnd.Play(count)]).receiver.trace;
      && n <= |l.chunks|
      && (l.ideal.st.cursor.Some? ==> TimelineOf(l.ideal.trace).first == Some(0))
      && var whole := |Joined(l.chunks[..n])|;
         (l.receiver.st.state == Playing && |Output(l.receiver.trace)| + count >= whole ==>
            && 2 * whole <= |l.accepted|
            && l.accepted[..2 * whole] <= Interleaved(Output(played))
            && (|Output(l.receiver.trace)| + count == whole ==> Interleaved(Output(played)) == l.accepted[..2 * whole]))
  {
    hide EndToEnd.Execute;
    hide SenderOk;
    hide ReceiverOk;
    hide EndToEnd.Windowed;
    hide InTime;
    var start := NewLink(capacity, framesPerPacket, startFill);
    var l := EndToEnd.Execute(start, events);
    EndToEnd.StartsOk(start);
    EndToEnd.ExecuteKeeps(start, events);
    forall i | 0 <= i < n ensures i < |l.chunks| && Copies(Accepted(l.ideal.trace), i) != [] {
      InTimeAccepted(start, events, i);
    }
    assert n <= |l.chunks| by {
      InTimeAccepted(start, events, n - 1);
    }
    ExecuteSnoc(start, events, EndToEnd.Play(count));
    AllPlayed(l, n, count);
  }

  lemma AllPlayed(l: Link, n: nat, count: nat)
    requires SenderOk(l) && ReceiverOk(l) && HasAll(Accepted(l.ideal.trace), n) && 0 < n <= |l.chunks|
    ensures l.ideal.st.cursor.Some? ==> TimelineOf(l.ideal.trace).first == Some(0)
    ensures var played := EndToEnd.Step(l, EndToEnd.Play(count)).receiver.trace;
      var whole := |Joined(l.chunks[..n])|;
      l.receiver.st.state == Playing && |Output(l.receiver.trace)| + count >= whole ==>
        && 2 * whole <= |l.accepted|
        && l.accepted[..2 * whole] <= Interleaved(Output(played))
        && (|Output(l.receiver.trace)| + count == whole ==> Interleaved(Output(played)) == l.accepted[..2 * whole])
  {
    hide SenderOk;
    hide ReceiverOk;
    hide Told;
    hide Output;
    hide Interleaved;
    hide Joined;
    hide WrapRun;
    hide Accepted;
    hide PopLoop;
    hide TimelineOf;
    hide HasAll;
    hide Genuine;
    var t := EndToEnd.Step(l, EndToEnd.Play(count));
    var first := Joined(l.chunks[..n]);
    PlayKeeps(l, count);
    ReceiverFacts(l);
    ReceiverFacts(t);
    BeginsWithFirst(l.ideal, l.chunks, n);
    AcceptedUnmoved(l.ideal, count);
    BeginsWithFirst(t.ideal, l.chunks, n);
    JoinedPrefix(l.chunks, n);
    SentWasAccepted(l, first);
    if l.receiver.st.state == Playing && |Output(l.receiver.trace)| + count >= |first| {
      ShortPop(Unbounded, l.ideal.st, count);
      PopReaches(l.ideal, l.chunks, n, count);
      InterleavedPrefix(first, Output(t.receiver.trace));
    }
  }

  lemma ReceiverFacts(l: Link)
    requires ReceiverOk(l)
    ensures Told(l.ideal) && Genuine(Accepted(l.ideal.trace), l.chunks)
    ensures Output(l.receiver.trace) == Output(l.ideal.trace) && l.receiver.st.state == l.ideal.st.state
    ensures l.ideal.st.cursor.Some? <==> TimelineOf(l.ideal.trace).first.Some?
    ensures l.ideal.st.state != Filling ==> l.ideal.st.cursor.Some?
  {
    hide Output;
    hide Accepted;
    hide TimelineOf;
    hide Holds;
    hide SegmentOk;
    hide Genuine;
    hide InWindow;
    OutputWraps(l.ideal.trace);
  }

  lemma AcceptedUnmoved(u: Run, count: nat)
    ensures Accepted(Advance(Unbounded, u, Demand(count)).trace) == Accepted(u.trace)
  {
    hide PopLoop;
    hide Accepted;
    LoopAcceptsNothing(u.st, count);
    NoAccepts(Pop(Unbounded, u.st, count).1);
    AcceptedConcat(u.trace, Pop(Unbounded, u.st, count).1);
    assert Accepted(u.trace) + [] == Accepted(u.trace);
  }
}
