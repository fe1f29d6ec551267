/** The whole path: frames pushed one at a time into the sender's queue by one thread and popped by another,
    packets built and sent, datagrams delivered in any order and number or not at all, and the jitter buffer
    popped, all interleaved. */
module EndToEnd {
  import opened Audio
  import opened Runs
  import opened SeqNum
  import opened Wire
  import opened SenderRing
  import opened JitterSpec
  import opened JitterTimeline
  import opened JitterWrap

  /** The network thread: waiting for its deadline, in `read_frames`, or about to send what it read. */
  datatype Reader = Waiting | Reading(frames: seq<Frame>) | Sending(frames: seq<Frame>)

  function InHand(r: Reader): seq<Frame> { if r.Waiting? then [] else r.frames }

  /** The sender's queue and numbering, the samples a write call in progress has still to push, the network
      thread, the datagrams sent, the receiver's run, and the history: samples accepted from the client, the
      frames of each packet, and the run the receiver would have on unbounded numbers. */
  datatype Link = Link(
    queue: seq<Frame>, capacity: nat, framesPerPacket: nat, writing: seq<Sample>, reader: Reader,
    seqno: U32, sent: seq<seq<Byte>>, receiver: Run,
    accepted: seq<Sample>, chunks: seq<seq<Frame>>, ideal: Run)

  datatype Event =
    | Write(samples: seq<Sample>)      // the audio callback calls `write_frames`
    | PushFrame                        // its next push
    | Wake                             // the network thread enters `read_frames`
    | PopFrame                         // its next pop
    | Send(timestampNs: U64)
    | Deliver(index: nat)
    | Play(count: nat)

  function NewLink(capacity: nat, framesPerPacket: nat, startFill: nat): Link {
    Link([], capacity, framesPerPacket, [], Waiting, 0, [], Start(startFill), [], [], Start(startFill))
  }

  /** What the receiver makes of a datagram. */
  function Receive(r: Run, datagram: seq<Byte>): Run {
    match Parse(Received(datagram))
    case Packet(n, frames) => Advance(Wrapped, r, Arrive(Entry(n, frames)))
    case _ => r
  }

  function Step(l: Link, ev: Event): Link {
    match ev
    case Write(samples) => if l.writing != [] then l else l.(writing := samples[..2 * (|samples| / 2)])
    case PushFrame =>
      if |l.writing| < 2 then l
      else if |l.queue| < l.capacity then
        l.(queue := l.queue + [Frame(l.writing[0], l.writing[1])],
           accepted := l.accepted + l.writing[..2], writing := l.writing[2..])
      else l.(writing := [])                               // full: the call gives up on the rest
    case Wake => if l.reader.Waiting? then l.(reader := Reading([])) else l
    case PopFrame =>
      if !l.reader.Reading? then l
      else
        var frames := l.reader.frames;
        if |frames| < l.framesPerPacket && l.queue != [] then
          l.(queue := l.queue[1..], reader := Reading(frames + [l.queue[0]]))
        else l.(reader := if frames == [] then Waiting else Sending(frames))
    case Send(timestampNs) =>
      if !l.reader.Sending? then l
      else
        var frames := l.reader.frames;
        l.(reader := Waiting, seqno := Wrap(l.seqno + 1), chunks := l.chunks + [frames],
           sent := l.sent + [PacketBytes(l.seqno, frames, timestampNs)])
    case Deliver(i) =>
      if i >= |l.sent| || i >= |l.chunks| then l
      else
        l.(receiver := Receive(l.receiver, l.sent[i]),
           ideal := Advance(Unbounded, l.ideal, Arrive(Entry(i, l.chunks[i]))))
    case Play(count) =>
      l.(receiver := Advance(Wrapped, l.receiver, Demand(count)),
         ideal := Advance(Unbounded, l.ideal, Demand(count)))
  }

  function Execute(l: Link, events: seq<Event>): Link
    decreases |events|
  {
    if events == [] then l else Execute(Step(l, events[0]), events[1..])
  }

  lemma {:induction false} ExecuteSnoc(l: Link, events: seq<Event>, ev: Event)
    ensures Execute(l, events + [ev]) == Step(Execute(l, events), ev)
    decreases |events|
  {
    hide Step;
    if events == [] {
      assert events + [ev] == [ev];
      assert Execute(Step(l, ev), [ev][1..]) == Step(l, ev);
    } else {
      ExecuteSnoc(Step(l, events[0]), events[1..], ev);
      assert (events + [ev])[1..] == events[1..] + [ev];
    }
  }

  /** Every datagram that arrives does so within half a window of the receiver's live numbers and cursor. */
  ghost predicate Windowed(l: Link, events: seq<Event>)
    decreases |events|
  {
    events != [] ==>
      && (events[0].Deliver? ==> ArrivesInWindow(l.ideal.st, events[0].index))
      && Windowed(Step(l, events[0]), events[1..])
  }

  // ---------------------------------------------------------------- invariant

  ghost predicate IsPacket(datagram: seq<Byte>, n: nat, chunk: seq<Frame>) {
    && 1 <= |chunk| <= MAX_FRAMES
    && exists t: U64 :: datagram == PacketBytes(Wrap(n), chunk, t)
  }

  /** The frames sent, in the network thread's hands and in the queue. */
  ghost function InPath(l: Link): seq<Frame> { Joined(l.chunks) + InHand(l.reader) + l.queue }

  /** The sender cuts the accepted samples into numbered packets without loss. */
  ghost predicate SenderOk(l: Link) {
    && 1 <= l.framesPerPacket <= MAX_FRAMES
    && |l.sent| == |l.chunks| && l.seqno == Wrap(|l.sent|)
    && (forall i :: 0 <= i < |l.sent| ==> IsPacket(l.sent[i], i, l.chunks[i]))
    && |InHand(l.reader)| <= l.framesPerPacket && (l.reader.Sending? ==> l.reader.frames != [])
    && l.accepted == Interleaved(InPath(l))
  }

  /** The receiver accepted only what was sent. */
  ghost predicate Genuine(accepted: seq<Entry>, chunks: seq<seq<Frame>>) {
    forall e :: e in accepted ==> 0 <= e.seqno < |chunks| && e.frames == chunks[e.seqno]
  }

  ghost predicate ReceiverOk(l: Link) {
    && l.receiver == WrapRun(l.ideal) && InWindow(l.ideal.st) && Told(l.ideal)
    && Genuine(Accepted(l.ideal.trace), l.chunks)
  }

  lemma PushKeeps(l: Link)
    requires SenderOk(l)
    ensures SenderOk(Step(l, PushFrame))
  {
    hide Joined;
    hide Interleaved;
    if |l.writing| >= 2 && |l.queue| < l.capacity {
      var frame := Frame(l.writing[0], l.writing[1]);
      Associative(Joined(l.chunks) + InHand(l.reader), l.queue, [frame]);
      InterleavedSnoc(InPath(l), frame);
      assert l.writing[..2] == [frame.left, frame.right];
    }
  }

  lemma PopKeeps(l: Link)
    requires SenderOk(l)
    ensures SenderOk(Step(l, PopFrame))
  {
    hide Joined;
    hide Interleaved;
    if l.reader.Reading? && |l.reader.frames| < l.framesPerPacket && l.queue != [] {
      Regroup(Joined(l.chunks), l.reader.frames, l.queue);
    }
  }

  lemma Regroup(a: seq<Frame>, b: seq<Frame>, c: seq<Frame>)
    requires c != []
    ensures a + b + c == a + (b + [c[0]]) + c[1..]
  {
    assert c == [c[0]] + c[1..];
  }

  lemma SendKeeps(l: Link, t: U64)
    requires SenderOk(l)
    ensures SenderOk(Step(l, Send(t)))
  {
    hide Joined;
    hide Interleaved;
    hide PacketBytes;
    if l.reader.Sending? {
      var frames := l.reader.frames;
      JoinedSnoc(l.chunks, frames);
      assert Joined(l.chunks) + frames + [] == Joined(l.chunks) + frames;
      assert IsPacket(PacketBytes(l.seqno, frames, t), |l.sent|, frames);
      assert Wrap(Wrap(|l.sent|) + 1) == Wrap(|l.sent| + 1);
    }
  }

  lemma SenderKeeps(l: Link, ev: Event)
    requires SenderOk(l)
    ensures SenderOk(Step(l, ev))
    ensures l.chunks <= Step(l, ev).chunks
  {
    hide Advance;
    hide Receive;
    hide IsPacket;
    hide Joined;
    hide Interleaved;
    match ev
    case PushFrame => PushKeeps(l);
    case PopFrame => PopKeeps(l);
    case Send(t) => SendKeeps(l, t);
    case _ =>
  }

  /** The sender alone, with no hypothesis on the receiver. */
  lemma {:induction false} SenderRuns(l: Link, events: seq<Event>)
    requires SenderOk(l)
    ensures SenderOk(Execute(l, events))
    decreases |events|
  {
    hide SenderOk;
    hide Step;
    if events != [] {
      SenderKeeps(l, events[0]);
      SenderRuns(Step(l, events[0]), events[1..]);
    }
  }

  /** Whatever leads the frames sent, leads the samples accepted. */
  lemma SentWasAccepted(l: Link, frames: seq<Frame>)
    requires SenderOk(l) && frames <= Joined(l.chunks)
    ensures Interleaved(frames) <= l.accepted
  {
    hide Joined;
    hide Interleaved;
    hide IsPacket;
    var all := InPath(l);
    assert Joined(l.chunks) <= Joined(l.chunks) + InHand(l.reader) <= all;
    InterleavedPrefix(frames, all);
  }

  lemma DeliveredParses(datagram: seq<Byte>, n: nat, chunk: seq<Frame>)
    requires IsPacket(datagram, n, chunk)
    ensures Parse(Received(datagram)) == Packet(Wrap(n), chunk)
  {
    var t: U64 :| datagram == PacketBytes(Wrap(n), chunk, t);
    RustReceiverAgrees(Wrap(n), chunk, t);
  }

  /** One push or pop: the receiver's run follows the ideal one. */
  lemma RunKeeps(u: Run, ev: JitterSpec.Event)
    requires InWindow(u.st) && Told(u)
    requires ev.Arrive? ==> ArrivesInWindow(u.st, ev.packet.seqno)
    ensures var v := Advance(Unbounded, u, ev);
      && InWindow(v.st) && Told(v)
      && Advance(Wrapped, WrapRun(u), if ev.Arrive? then Arrive(WrapEntry(ev.packet)) else ev) == WrapRun(v)
  {
    hide Told;
    hide InWindow;
    hide Push;
    hide PopLoop;
    match ev {
      case Arrive(e) => PushWraps(u.st, e); PushInWindow(u.st, e);
      case Demand(n) => LoopWraps(u.st, n); LoopInWindow(u.st, n);
    }
    ConcatWraps(u.trace, JitterSpec.Step(Unbounded, u.st, ev).1);
    AdvanceTold(u, ev);
  }

  lemma {:induction false} NoAccepts(t: seq<Action>)
    requires forall a :: a in t ==> !a.Accept?
    ensures Accepted(t) == []
  {
    if t != [] {
      assert t[|t| - 1] in t;
      NoAccepts(t[..|t| - 1]);
    }
  }

  lemma {:induction false} LoopAcceptsNothing(st: Jitter, n: nat)
    ensures forall a :: a in PopLoop(Unbounded, st, n).1 ==> !a.Accept?
    decreases n, |st.buf|
  {
    if n > 0 {
      var (s, a) := PopStep(Unbounded, st, n);
      if !a.Starve? {
        LoopAcceptsNothing(s, n - |Sound(a)|);
      }
    }
  }

  lemma ShortAccepted(a: Action, b: Action)
    ensures Accepted([a]) == if a.Accept? then [a.entry] else []
    ensures !b.Accept? ==> Accepted([a, b]) == Accepted([a])
  {
    hide Accepted;
    NoAccepts([]);
    OutputSnoc([], a);
    OutputSnoc([a], b);
    assert [] + [a] == [a] && [a] + [b] == [a, b];
  }

  lemma PushAccepts(st: Jitter, e: Entry)
    ensures var accepted := Accepted(Push(Unbounded, st, e).1); accepted == [] || accepted == [e]
  {
    hide Accepted;
    hide Insert;
    hide TotalFrames;
    ShortAccepted(Refuse(e), Starve);
    ShortAccepted(Accept(e), Begin(Insert(Unbounded, st.buf, e)[0].seqno));
  }

  lemma ArriveGenuine(u: Run, e: Entry, chunks: seq<seq<Frame>>)
    requires Genuine(Accepted(u.trace), chunks)
    requires 0 <= e.seqno < |chunks| && e.frames == chunks[e.seqno]
    ensures Genuine(Accepted(Advance(Unbounded, u, Arrive(e)).trace), chunks)
  {
    hide Accepted;
    hide Push;
    AcceptedConcat(u.trace, Push(Unbounded, u.st, e).1);
    PushAccepts(u.st, e);
  }

  lemma DemandGenuine(u: Run, n: nat, chunks: seq<seq<Frame>>)
    requires Genuine(Accepted(u.trace), chunks)
    ensures Genuine(Accepted(Advance(Unbounded, u, Demand(n)).trace), chunks)
  {
    hide PopLoop;
    LoopAcceptsNothing(u.st, n);
    NoAccepts(Pop(Unbounded, u.st, n).1);
    AcceptedConcat(u.trace, Pop(Unbounded, u.st, n).1);
  }

  /** The sender's events leave the receiver alone. */
  lemma ReceiverUnmoved(l: Link, ev: Event)
    requires SenderOk(l) && ReceiverOk(l) && !ev.Deliver? && !ev.Play?
    ensures ReceiverOk(Step(l, ev))
  {
    hide SenderOk;
    hide Told;
    hide InWindow;
    hide WrapRun;
    hide Accepted;
    hide PacketBytes;
    SenderKeeps(l, ev);
    assert Step(l, ev).chunks[..|l.chunks|] == l.chunks;
    assert Step(l, ev).receiver == l.receiver && Step(l, ev).ideal == l.ideal;
  }

  lemma ReceivesEntry(l: Link, i: nat)
    requires SenderOk(l) && i < |l.sent|
    ensures Receive(l.receiver, l.sent[i]) == Advance(Wrapped, l.receiver, Arrive(WrapEntry(Entry(i, l.chunks[i]))))
  {
    hide Advance;
    hide Parse;
    hide Joined;
    DeliveredParses(l.sent[i], i, l.chunks[i]);
  }

  lemma DeliverKeeps(l: Link, i: nat)
    requires SenderOk(l) && ReceiverOk(l) && ArrivesInWindow(l.ideal.st, i)
    ensures ReceiverOk(Step(l, Deliver(i)))
  {
    hide Told;
    hide InWindow;
    hide ArrivesInWindow;
    hide Advance;
    hide Receive;
    hide WrapRun;
    hide Genuine;
    if i < |l.sent| {
      ReceivesEntry(l, i);
      hide SenderOk;
      RunKeeps(l.ideal, Arrive(Entry(i, l.chunks[i])));
      ArriveGenuine(l.ideal, Entry(i, l.chunks[i]), l.chunks);
    }
  }

  lemma PlayKeeps(l: Link, count: nat)
    requires ReceiverOk(l)
    ensures ReceiverOk(Step(l, Event.Play(count)))
  {
    hide Told;
    hide InWindow;
    hide PopLoop;
    RunKeeps(l.ideal, Demand(count));
    DemandGenuine(l.ideal, count, l.chunks);
  }

  lemma ReceiverKeeps(l: Link, ev: Event)
    requires SenderOk(l) && ReceiverOk(l)
    requires ev.Deliver? ==> ArrivesInWindow(l.ideal.st, ev.index)
    ensures ReceiverOk(Step(l, ev))
  {
    hide SenderOk;
    hide ReceiverOk;
    hide ArrivesInWindow;
    hide Step;
    match ev
    case Deliver(i) => DeliverKeeps(l, i);
    case Play(count) => PlayKeeps(l, count);
    case _ => ReceiverUnmoved(l, ev);
  }

  lemma {:induction false} ExecuteKeeps(l: Link, events: seq<Event>)
    requires SenderOk(l) && ReceiverOk(l) && Windowed(l, events)
    ensures SenderOk(Execute(l, events)) && ReceiverOk(Execute(l, events))
    decreases |events|
  {
    hide SenderOk;
    hide ReceiverOk;
    hide Step;
    if events != [] {
      SenderKeeps(l, events[0]);
      ReceiverKeeps(l, events[0]);
      ExecuteKeeps(Step(l, events[0]), events[1..]);
    }
  }

  // ---------------------------------------------------------------- theorems

  /** Whatever is lost, reordered or duplicated, the receiver plays for each number from its first cursor
      on either exactly the frames the sender put in that packet or 1 to 240 silent frames, and then a
      prefix of the frames of the packet at the cursor. */
  lemma PlaysWhatWasSent(capacity: nat, framesPerPacket: nat, startFill: nat, events: seq<Event>)
    requires 1 <= framesPerPacket <= MAX_FRAMES
    requires Windowed(NewLink(capacity, framesPerPacket, startFill), events)
    ensures Faithful(Execute(NewLink(capacity, framesPerPacket, startFill), events))
  {
    var l := NewLink(capacity, framesPerPacket, startFill);
    StartsOk(l);
    ExecuteKeeps(l, events);
    LinkPlays(Execute(l, events));
  }

  /** A segment per number, each as sent or silent, then part of one more packet. */
  ghost predicate PlaysSent(output: seq<Frame>, t: Timeline, chunks: seq<seq<Frame>>) {
    && output == Flatten(t.done) + t.head
    && (t.first == None ==> t.done == [] && t.head == [])
    && (t.first.Some? ==>
          && (forall i :: 0 <= i < |t.done| ==> SentOrSilent(chunks, t.first.value + i, t.done[i]))
          && (t.head != [] ==>
                var c := t.first.value + |t.done|;
                0 <= c < |chunks| && t.head <= chunks[c]))
  }

  ghost predicate Faithful(l: Link) {
    PlaysSent(Output(l.receiver.trace), TimelineOf(l.ideal.trace), l.chunks)
  }

  ghost predicate SentOrSilent(chunks: seq<seq<Frame>>, n: int, s: Segment) {
    match s
    case Voiced(frames) => 0 <= n < |chunks| && frames == chunks[n]
    case Silent(count) => 1 <= count <= DEFAULT_FRAMES_PER_PACKET
  }

  lemma StartsOk(l: Link)
    requires 1 <= l.framesPerPacket <= MAX_FRAMES
    requires exists startFill :: l == NewLink(l.capacity, l.framesPerPacket, startFill)
    ensures SenderOk(l) && ReceiverOk(l)
  {
    assert WrapTrace([]) == [];
  }

  lemma RunPlays(u: Run, chunks: seq<seq<Frame>>)
    requires Told(u) && Genuine(Accepted(u.trace), chunks)
    ensures PlaysSent(Output(u.trace), TimelineOf(u.trace), chunks)
  {
    hide TimelineOf;
    hide Output;
    hide Flatten;
    hide Accepted;
    hide Holds;
    hide SegmentOk;
    hide Sorted;
    var t := TimelineOf(u.trace);
    if t.first.Some? {
      TellsSent(u.st, Accepted(u.trace), t, chunks);
    }
  }

  lemma LinkPlays(l: Link)
    requires ReceiverOk(l)
    ensures Faithful(l)
  {
    hide TimelineOf;
    hide Output;
    hide PlaysSent;
    hide Accepted;
    hide WrapTrace;
    hide Told;
    hide Genuine;
    hide InWindow;
    OutputWraps(l.ideal.trace);
    RunPlays(l.ideal, l.chunks);
  }

  lemma TellsSent(st: Jitter, accepted: seq<Entry>, t: Timeline, chunks: seq<seq<Frame>>)
    requires Tells(st, accepted, t) && t.first.Some? && Genuine(accepted, chunks)
    ensures forall i :: 0 <= i < |t.done| ==> SentOrSilent(chunks, t.first.value + i, t.done[i])
    ensures t.head != [] ==>
      var c := t.first.value + |t.done|;
      0 <= c < |chunks| && t.head <= chunks[c]
  {
    TellsPlaysAll(st, accepted, t);
    hide Tells;
    hide Copies;
    hide SegmentOk;
    hide Genuine;
    forall i | 0 <= i < |t.done| ensures SentOrSilent(chunks, t.first.value + i, t.done[i]) {
      SegmentSent(accepted, chunks, t.first.value + i, t.done[i]);
    }
    if t.head != [] {
      HeadSent(accepted, chunks, t.first.value + |t.done|);
    }
  }

  lemma HeadSent(accepted: seq<Entry>, chunks: seq<seq<Frame>>, n: int)
    requires Copies(accepted, n) != [] && Genuine(accepted, chunks)
    ensures 0 <= n < |chunks| && Copies(accepted, n)[0] == chunks[n]
  {
    CopiesMember(accepted, n);
  }

  lemma SegmentSent(accepted: seq<Entry>, chunks: seq<seq<Frame>>, n: int, s: Segment)
    requires SegmentOk(accepted, n, s) && Genuine(accepted, chunks)
    ensures SentOrSilent(chunks, n, s)
  {
    if Copies(accepted, n) != [] {
      CopiesMember(accepted, n);
    }
  }

  // ---------------------------------------------------------------- losslessness

  ghost predicate NoGap(trace: seq<Action>) {
    forall a :: a in trace ==> !a.Gap?
  }

  lemma {:induction false} NoGapAllVoiced(trace: seq<Action>)
    requires NoGap(trace)
    ensures forall i :: 0 <= i < |TimelineOf(trace).done| ==> TimelineOf(trace).done[i].Voiced?
  {
    if trace != [] {
      assert trace[|trace| - 1] in trace;
      NoGapAllVoiced(trace[..|trace| - 1]);
    }
  }

  lemma {:induction false} VoicedJoin(done: seq<Segment>, chunks: seq<seq<Frame>>)
    requires |done| <= |chunks|
    requires forall i :: 0 <= i < |done| ==> done[i] == Voiced(chunks[i])
    ensures Flatten(done) == Joined(chunks[..|done|])
  {
    if done != [] {
      var n := |done| - 1;
      VoicedJoin(done[..n], chunks);
      assert chunks[..|done|][..n] == chunks[..n];
    }
  }

  lemma {:induction false} JoinedPrefix(chunks: seq<seq<Frame>>, n: nat)
    requires n <= |chunks|
    ensures Joined(chunks[..n]) <= Joined(chunks)
  {
    if n == |chunks| {
      assert chunks[..n] == chunks;
    } else {
      var rest := chunks[..|chunks| - 1];
      JoinedPrefix(rest, n);
      assert rest[..n] == chunks[..n];
    }
  }

  lemma VoicedIsPrefix(t: Timeline, chunks: seq<seq<Frame>>)
    requires forall i :: 0 <= i < |t.done| ==> SentOrSilent(chunks, i, t.done[i]) && t.done[i].Voiced?
    requires t.head != [] ==> |t.done| < |chunks| && t.head <= chunks[|t.done|]
    ensures Flatten(t.done) + t.head <= Joined(chunks)
  {
    hide Flatten;
    hide Joined;
    var n := |t.done|;
    if n > 0 {
      assert SentOrSilent(chunks, n - 1, t.done[n - 1]);
    }
    forall i | 0 <= i < n ensures t.done[i] == Voiced(chunks[i]) {
      assert SentOrSilent(chunks, i, t.done[i]);
    }
    VoicedJoin(t.done, chunks);
    JoinedPrefix(chunks, n);
    if t.head == [] {
      assert Flatten(t.done) + [] == Flatten(t.done);
    } else {
      JoinedPrefix(chunks, n + 1);
      JoinedSnoc(chunks[..n], chunks[n]);
      assert chunks[..n] + [chunks[n]] == chunks[..n + 1];
      PrefixOfSum(Joined(chunks[..n]), t.head, chunks[n], Joined(chunks));
    }
  }

  lemma PrefixOfSum(a: seq<Frame>, b: seq<Frame>, c: seq<Frame>, all: seq<Frame>)
    requires b <= c && a + c <= all
    ensures a + b <= all
  {
    assert c == b + c[|b|..];
    assert a + c == (a + b) + c[|b|..];
  }

  lemma {:induction false} JoinedSplit(chunks: seq<seq<Frame>>, k: nat)
    requires k <= |chunks|
    ensures Joined(chunks) == Joined(chunks[..k]) + Joined(chunks[k..])
  {
    if k == |chunks| {
      assert chunks[..k] == chunks;
    } else {
      var n := |chunks| - 1;
      JoinedSplit(chunks[..n], k);
      assert chunks[..n][..k] == chunks[..k];
      assert chunks[k..][..n - k] == chunks[..n][k..];
      Associative(Joined(chunks[..k]), Joined(chunks[..n][k..]), chunks[n]);
    }
  }

  /** The receiver has played a contiguous stretch of what the client wrote, from the start of a packet
      on; `k` packets were written before it began, none if its first cursor is the first packet. */
  ghost predicate Contiguous(l: Link, k: nat) {
    && k <= |l.chunks|
    && Interleaved(Joined(l.chunks[..k]) + Output(l.receiver.trace)) <= l.accepted
    && (TimelineOf(l.ideal.trace).first == Some(0) ==> k == 0)
  }

  lemma AllVoiced(l: Link)
    requires l.receiver == WrapRun(l.ideal) && NoGap(l.receiver.trace)
    ensures forall i :: 0 <= i < |TimelineOf(l.ideal.trace).done| ==> TimelineOf(l.ideal.trace).done[i].Voiced?
  {
    hide TimelineOf;
    forall a | a in l.ideal.trace ensures !a.Gap? {
      var i :| 0 <= i < |l.ideal.trace| && l.ideal.trace[i] == a;
      assert l.receiver.trace[i] == WrapAction(a);
      assert WrapAction(a) in l.receiver.trace;
    }
    NoGapAllVoiced(l.ideal.trace);
  }

  lemma FromFirst(t: Timeline, chunks: seq<seq<Frame>>, k: nat)
    requires k <= |chunks|
    requires forall i :: 0 <= i < |t.done| ==> SentOrSilent(chunks, k + i, t.done[i]) && t.done[i].Voiced?
    requires t.head != [] ==> k + |t.done| < |chunks| && t.head <= chunks[k + |t.done|]
    ensures Joined(chunks[..k]) + (Flatten(t.done) + t.head) <= Joined(chunks)
  {
    hide Flatten;
    hide Joined;
    forall i | 0 <= i < |t.done| ensures SentOrSilent(chunks[k..], i, t.done[i]) {
      assert SentOrSilent(chunks, k + i, t.done[i]);
    }
    VoicedIsPrefix(t, chunks[k..]);
    JoinedSplit(chunks, k);
  }

  lemma RunContiguous(output: seq<Frame>, t: Timeline, chunks: seq<seq<Frame>>) returns (k: nat)
    requires PlaysSent(output, t, chunks)
    requires forall i :: 0 <= i < |t.done| ==> t.done[i].Voiced?
    ensures k <= |chunks| && Joined(chunks[..k]) + output <= Joined(chunks)
    ensures t.first == Some(0) ==> k == 0
  {
    hide Flatten;
    hide Joined;
    if t.done == [] && t.head == [] {
      k := 0;
      NothingPlayed();
      assert chunks[..0] == [] && [] + output == [];
    } else {
      if t.done != [] {
        assert SentOrSilent(chunks, t.first.value + 0, t.done[0]);
      }
      k := t.first.value;
      FromFirst(t, chunks, k);
    }
  }

  lemma LinkContiguous(l: Link) returns (k: nat)
    requires SenderOk(l) && ReceiverOk(l) && NoGap(l.receiver.trace)
    ensures Contiguous(l, k)
  {
    hide TimelineOf;
    hide Output;
    hide Joined;
    hide PlaysSent;
    hide SenderOk;
    LinkPlays(l);
    AllVoiced(l);
    hide ReceiverOk;
    k := RunContiguous(Output(l.receiver.trace), TimelineOf(l.ideal.trace), l.chunks);
    SentWasAccepted(l, Joined(l.chunks[..k]) + Output(l.receiver.trace));
  }

  lemma NothingPlayed()
    ensures Flatten([]) + [] == [] && Joined<Frame>([]) == []
  {
  }

  /** End to end: if no pop met a missing number, the frames popped are a contiguous stretch of the frames
      `write_frames` accepted, beginning with the packet at the receiver's first cursor, however writes,
      wake-ups, deliveries and pops interleaved. */
  lemma LosslessFromFirst(capacity: nat, framesPerPacket: nat, startFill: nat, events: seq<Event>) returns (k: nat)
    requires 1 <= framesPerPacket <= MAX_FRAMES
    requires Windowed(NewLink(capacity, framesPerPacket, startFill), events)
    requires NoGap(Execute(NewLink(capacity, framesPerPacket, startFill), events).receiver.trace)
    ensures Contiguous(Execute(NewLink(capacity, framesPerPacket, startFill), events), k)
  {
    var l := NewLink(capacity, framesPerPacket, startFill);
    StartsOk(l);
    ExecuteKeeps(l, events);
    k := LinkContiguous(Execute(l, events));
  }

  /** In particular, if that first packet is the sender's first, the frames popped are a prefix of the
      frames accepted. */
  lemma Lossless(capacity: nat, framesPerPacket: nat, startFill: nat, events: seq<Event>)
    requires 1 <= framesPerPacket <= MAX_FRAMES
    requires Windowed(NewLink(capacity, framesPerPacket, startFill), events)
    requires var l := Execute(NewLink(capacity, framesPerPacket, startFill), events);
      NoGap(l.receiver.trace) && TimelineOf(l.ideal.trace).first == Some(0)
    ensures var l := Execute(NewLink(capacity, framesPerPacket, startFill), events);
      Interleaved(Output(l.receiver.trace)) <= l.accepted
  {
    var k := LosslessFromFirst(capacity, framesPerPacket, startFill, events);
    var l := Execute(NewLink(capacity, framesPerPacket, startFill), events);
    assert l.chunks[..0] == [];
    NothingPlayed();
    assert [] + Output(l.receiver.trace) == Output(l.receiver.trace);
  }

  // ---------------------------------------------------------------- whole calls

  lemma ExecuteCons(l: Link, e: Event, es: seq<Event>)
    ensures Execute(l, [e] + es) == Execute(Step(l, e), es)
  {
    hide Step;
    assert ([e] + es)[1..] == es;
  }

  lemma ExecuteConcat(l: Link, a: seq<Event>, b: seq<Event>)
    ensures Execute(l, a + b) == Execute(Execute(l, a), b)
  {
    hide Step;
    forall t, e, es ensures Execute(t, [e] + es) == Execute(Step(t, e), es) {
      ExecuteCons(t, e, es);
    }
    RunConcat(Execute, Step, l, a, b);
  }

  /** A whole call of `write_frames`. */
  function WriteCall(samples: seq<Sample>): seq<Event> { [Write(samples)] + Repeat(PushFrame, |samples| / 2) }

  /** A whole round of the network thread. */
  function TickCall(framesPerPacket: nat, timestampNs: U64): seq<Event> {
    [Wake] + Repeat(PopFrame, framesPerPacket + 1) + [Send(timestampNs)]
  }

  function Room(l: Link): nat { if l.capacity < |l.queue| then 0 else l.capacity - |l.queue| }

  /** A write call that nothing interrupts accepts the leading frames that fit. */
  function Written(l: Link, samples: seq<Sample>): Link {
    var k := Min(|samples| / 2, Room(l));
    l.(queue := l.queue + Deinterleave(samples)[..k], accepted := l.accepted + samples[..2 * k])
  }

  /** A round that nothing interrupts sends the oldest frames, up to a packet, if there are any. */
  function Ticked(l: Link, timestampNs: U64): Link {
    var read := Min(l.framesPerPacket, |l.queue|);
    if read == 0 then l
    else
      l.(queue := l.queue[read..], seqno := Wrap(l.seqno + 1),
         sent := l.sent + [PacketBytes(l.seqno, l.queue[..read], timestampNs)],
         chunks := l.chunks + [l.queue[..read]])
  }

  lemma {:induction false} Pushes(l: Link, n: nat)
    requires |l.writing| == 2 * n
    ensures var k := Min(n, Room(l));
      Execute(l, Repeat(PushFrame, n)) ==
      l.(queue := l.queue + Deinterleave(l.writing)[..k], accepted := l.accepted + l.writing[..2 * k], writing := [])
    decreases n
  {
    hide Step;
    hide Deinterleave;
    var k := Min(n, Room(l));
    NoTurnsLeft(l);
    if n > 0 {
      assert Repeat(PushFrame, n)[1..] == Repeat(PushFrame, n - 1);
    }
    if k > 0 {
      OnePush(l, k);
      Pushes(Step(l, PushFrame), n - 1);
    } else {
      assert l.queue + Deinterleave(l.writing)[..k] == l.queue && l.accepted + l.writing[..2 * k] == l.accepted;
      if n > 0 {
        FullPush(l);
        NoPushes(l.(writing := []), n - 1);
      } else {
        assert l.writing == [];
      }
    }
  }

  lemma NoTurnsLeft(l: Link)
    ensures Execute(l, []) == l && Repeat(PushFrame, 0) == []
  {
  }

  lemma FullPush(l: Link)
    requires |l.writing| >= 2 && Room(l) == 0
    ensures Step(l, PushFrame) == l.(writing := [])
  {
  }

  lemma OnePush(l: Link, k: nat)
    requires 2 * k <= |l.writing| && 0 < k <= Room(l)
    ensures var t := Step(l, PushFrame);
      && t == l.(queue := t.queue, accepted := t.accepted, writing := l.writing[2..]) && Room(t) == Room(l) - 1
      && t.queue + Deinterleave(t.writing)[..k - 1] == l.queue + Deinterleave(l.writing)[..k]
      && t.accepted + t.writing[..2 * (k - 1)] == l.accepted + l.writing[..2 * k]
  {
    FirstFrame(l.writing, k);
    FirstAndRest(l.queue, Deinterleave(l.writing), k);
    assert l.accepted + l.writing[..2 * k] == l.accepted + l.writing[..2] + l.writing[2..][..2 * (k - 1)];
  }

  lemma {:induction false} NoPushes(l: Link, n: nat)
    requires l.writing == []
    ensures Execute(l, Repeat(PushFrame, n)) == l
    decreases n
  {
    hide Receive;
    hide Advance;
    hide PacketBytes;
    if n > 0 {
      assert Repeat(PushFrame, n)[1..] == Repeat(PushFrame, n - 1);
      NoPushes(l, n - 1);
    }
  }

  lemma FirstFrame(samples: seq<Sample>, k: nat)
    requires 0 < k && 2 * k <= |samples|
    ensures Deinterleave(samples)[0] == Frame(samples[0], samples[1])
    ensures Deinterleave(samples)[1..] == Deinterleave(samples[2..])
  {
  }

  lemma FirstAndRest(a: seq<Frame>, b: seq<Frame>, k: nat)
    requires 0 < k <= |b|
    ensures a + b[..k] == a + [b[0]] + b[1..][..k - 1]
  {
  }

  lemma WholeWrite(l: Link, samples: seq<Sample>)
    requires l.writing == []
    ensures Execute(l, WriteCall(samples)) == Written(l, samples)
  {
    hide Deinterleave;
    var n := |samples| / 2;
    InterleaveOdd(samples);
    assert WriteCall(samples)[0] == Write(samples) && WriteCall(samples)[1..] == Repeat(PushFrame, n);
    Pushes(Step(l, Write(samples)), n);
    if n == 0 {
      assert samples[..0] == [];
    }
  }

  /** An odd last sample is ignored. */
  lemma InterleaveOdd(samples: seq<Sample>)
    ensures var even := samples[..2 * (|samples| / 2)];
      && Deinterleave(even) == Deinterleave(samples)
      && forall k :: 0 <= k <= |samples| / 2 ==> even[..2 * k] == samples[..2 * k]
  {
  }

  lemma {:induction false} Pops(l: Link, n: nat)
    requires l.reader.Reading? && |l.reader.frames| <= l.framesPerPacket
    requires n == l.framesPerPacket - |l.reader.frames| + 1
    ensures var k := Min(n - 1, |l.queue|);
      var frames := l.reader.frames + l.queue[..k];
      Execute(l, Repeat(PopFrame, n)) ==
      l.(queue := l.queue[k..], reader := if frames == [] then Waiting else Sending(frames))
    decreases n
  {
    hide PacketBytes;
    assert Repeat(PopFrame, n)[1..] == Repeat(PopFrame, n - 1);
    var t := Step(l, PopFrame);
    var k := Min(n - 1, |l.queue|);
    if k > 0 {
      Pops(t, n - 1);
      FirstAndRest(l.reader.frames, l.queue, k);
      assert l.queue[1..][k - 1..] == l.queue[k..];
    } else {
      assert l.queue[k..] == l.queue && l.reader.frames + l.queue[..k] == l.reader.frames;
      Idles(t, n - 1);
    }
  }

  lemma {:induction false} Idles(l: Link, n: nat)
    requires !l.reader.Reading?
    ensures Execute(l, Repeat(PopFrame, n)) == l
    decreases n
  {
    hide PacketBytes;
    hide Deinterleave;
    hide Receive;
    hide Advance;
    if n > 0 {
      assert Repeat(PopFrame, n)[1..] == Repeat(PopFrame, n - 1);
      Idles(l, n - 1);
    }
  }

  lemma OneEvent(l: Link, ev: Event)
    ensures Execute(l, [ev]) == Step(l, ev)
  {
    hide Step;
    assert Execute(Step(l, ev), [ev][1..]) == Step(l, ev);
  }

  /** The last step of a round, from what the pops have left. */
  lemma SendsTicked(l: Link, timestampNs: U64)
    requires l.reader.Waiting?
    ensures Step(l, Wake) == l.(reader := Reading([]))
    ensures var k := Min(l.framesPerPacket, |l.queue|);
      var frames := [] + l.queue[..k];
      var u := l.(queue := l.queue[k..], reader := if frames == [] then Waiting else Sending(frames));
      Step(u, Send(timestampNs)) == Ticked(l, timestampNs)
  {
    hide PacketBytes;
    var k := Min(l.framesPerPacket, |l.queue|);
    assert [] + l.queue[..k] == l.queue[..k];
    if k == 0 {
      assert l.queue[k..] == l.queue;
    }
  }

  lemma WholeTick(l: Link, timestampNs: U64)
    requires l.reader.Waiting?
    ensures Execute(l, TickCall(l.framesPerPacket, timestampNs)) == Ticked(l, timestampNs)
  {
    hide PacketBytes;
    hide Execute;
    hide Step;
    hide Ticked;
    hide Repeat;
    var pops := Repeat(PopFrame, l.framesPerPacket + 1);
    var t := l.(reader := Reading([]));
    ExecuteConcat(l, [Wake] + pops, [Send(timestampNs)]);
    ExecuteConcat(l, [Wake], pops);
    OneEvent(l, Wake);
    Pops(t, l.framesPerPacket + 1);
    OneEvent(Execute(t, pops), Send(timestampNs));
    SendsTicked(l, timestampNs);
  }
}
