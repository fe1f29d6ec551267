/** What a jitter buffer plays over a whole run, on unbounded sequence numbers: one segment for every
    number from the first cursor up to the current one, then a prefix of the cursor's packet. */
module JitterTimeline {
  import opened Audio
  import opened SeqNum
  import opened JitterSpec
  import opened JitterLedger

  /** What was played for one sequence number. */
  datatype Segment = Voiced(frames: seq<Frame>) | Silent(count: nat)

  /** The output so far: the first cursor, a segment per finished number, and what the cursor's packet gave. */
  datatype Timeline = Timeline(first: Option<int>, done: seq<Segment>, head: seq<Frame>)

  function Extend(t: Timeline, a: Action): Timeline {
    match a
    case Begin(n) => t.(first := Some(n))
    case Play(_, frames, finished) =>
      if finished then t.(done := t.done + [Voiced(t.head + frames)], head := [])
      else t.(head := t.head + frames)
    case Gap(_, count) => t.(done := t.done + [Silent(count)])
    case _ => t
  }

  function TimelineOf(trace: seq<Action>): Timeline {
    if trace == [] then Timeline(None, [], [])
    else Extend(TimelineOf(trace[..|trace| - 1]), trace[|trace| - 1])
  }

  function Flatten(segments: seq<Segment>): seq<Frame> {
    if segments == [] then []
    else
      var s := segments[|segments| - 1];
      Flatten(segments[..|segments| - 1]) + (if s.Voiced? then s.frames else Repeat(SILENCE, s.count))
  }

  /** Payloads of the entries numbered `n`, in order. */
  function Copies(s: seq<Entry>, n: int): seq<seq<Frame>> {
    if s == [] then []
    else (if s[0].seqno == n then [s[0].frames] else []) + Copies(s[1..], n)
  }

  ghost predicate Sorted(buf: seq<Entry>) {
    forall i, j :: 0 <= i < j < |buf| ==> buf[i].seqno <= buf[j].seqno
  }

  // ---------------------------------------------------------------- the invariant

  /** An accepted number is played whole, as its first copy; any other number is 1 to 240 silent frames. */
  ghost predicate SegmentOk(accepted: seq<Entry>, n: int, s: Segment) {
    var copies := Copies(accepted, n);
    if copies != [] then s == Voiced(copies[0])
    else s.Silent? && 1 <= s.count <= DEFAULT_FRAMES_PER_PACKET
  }

  /** The deque holds what was accepted for the numbers from `c` on, copies in arrival order;
      the first `head` frames of the packet numbered `c` are gone. */
  ghost predicate Holds(buf: seq<Entry>, accepted: seq<Entry>, c: int, head: seq<Frame>) {
    && (forall n :: n > c ==> Copies(buf, n) == Copies(accepted, n))
    && if head == [] then Copies(buf, c) == Copies(accepted, c)
       else buf != [] && buf[0].seqno == c &&
            Copies(accepted, c) == [head + buf[0].frames] + Copies(buf[1..], c)
  }

  ghost predicate Tells(st: Jitter, accepted: seq<Entry>, t: Timeline) {
    && Sorted(st.buf)
    && if t.first == None then
         && st.cursor == None && t.done == [] && t.head == []
         && (forall n :: Copies(st.buf, n) == Copies(accepted, n))
       else
         && st.cursor == Some(t.first.value + |t.done|)
         && (forall n :: n < t.first.value ==> Copies(accepted, n) == [])
         && Copies(accepted, t.first.value) != []
         && (forall i :: 0 <= i < |t.done| ==> SegmentOk(accepted, t.first.value + i, t.done[i]))
         && Holds(st.buf, accepted, st.cursor.value, t.head)
  }

  ghost predicate Told(r: Run) {
    var t := TimelineOf(r.trace);
    && Tells(r.st, Accepted(r.trace), t)
    && Output(r.trace) == Flatten(t.done) + t.head
    && (r.st.state == Filling <==> r.st.cursor == None)
  }

  // ---------------------------------------------------------------- deque facts

  lemma {:induction false} CopiesInsert(buf: seq<Entry>, e: Entry, n: int)
    requires Sorted(buf)
    ensures Copies(Insert(Unbounded, buf, e), n) == Copies(buf, n) + if e.seqno == n then [e.frames] else []
  {
    if buf == [] {
    } else if e.seqno < buf[0].seqno {
      assert ([e] + buf)[1..] == buf;
      if e.seqno == n {
        CopiesBelow(buf, n);
      }
    } else {
      CopiesInsert(buf[1..], e, n);
      assert Insert(Unbounded, buf, e)[1..] == Insert(Unbounded, buf[1..], e);
    }
  }

  lemma {:induction false} CopiesBelow(buf: seq<Entry>, n: int)
    requires forall i :: 0 <= i < |buf| ==> n < buf[i].seqno
    ensures Copies(buf, n) == []
  {
    if buf != [] {
      CopiesBelow(buf[1..], n);
    }
  }

  lemma CopiesCons(e: Entry, s: seq<Entry>, n: int)
    ensures Copies([e] + s, n) == (if e.seqno == n then [e.frames] else []) + Copies(s, n)
  {
    assert ([e] + s)[1..] == s;
  }

  lemma {:induction false} CopiesSnoc(s: seq<Entry>, e: Entry, n: int)
    ensures Copies(s + [e], n) == Copies(s, n) + if e.seqno == n then [e.frames] else []
  {
    if s == [] {
      assert s + [e] == [e];
    } else {
      hide Copies;
      var rest := s[1..];
      CopiesSnoc(rest, e, n);
      CopiesCons(s[0], rest, n);
      CopiesCons(s[0], rest + [e], n);
      assert [s[0]] + rest == s && [s[0]] + (rest + [e]) == s + [e];
      var front, last := if s[0].seqno == n then [s[0].frames] else [], if e.seqno == n then [e.frames] else [];
      Associative(front, Copies(rest, n), last);
    }
  }

  lemma {:induction false} CopiesMember(s: seq<Entry>, n: int)
    requires Copies(s, n) != []
    ensures Entry(n, Copies(s, n)[0]) in s
  {
    if s[0].seqno != n {
      CopiesMember(s[1..], n);
    }
  }

  lemma {:induction false} InsertSorted(buf: seq<Entry>, e: Entry, lo: int)
    requires Sorted(buf) && lo <= e.seqno
    requires forall i :: 0 <= i < |buf| ==> lo <= buf[i].seqno
    ensures Sorted(Insert(Unbounded, buf, e))
    ensures forall i :: 0 <= i < |Insert(Unbounded, buf, e)| ==> lo <= Insert(Unbounded, buf, e)[i].seqno
  {
    if buf != [] && buf[0].seqno <= e.seqno {
      InsertSorted(buf[1..], e, buf[0].seqno);
    }
  }

  lemma InsertKeepsSorted(buf: seq<Entry>, e: Entry)
    requires Sorted(buf)
    ensures Sorted(Insert(Unbounded, buf, e))
  {
    InsertSorted(buf, e, if buf == [] || e.seqno < buf[0].seqno then e.seqno else buf[0].seqno);
  }

  // ---------------------------------------------------------------- each step keeps it

  lemma AcceptCopies(buf: seq<Entry>, accepted: seq<Entry>, e: Entry, n: int)
    requires Sorted(buf) && Copies(buf, n) == Copies(accepted, n)
    ensures Copies(Insert(Unbounded, buf, e), n) == Copies(accepted + [e], n)
  {
    CopiesInsert(buf, e, n);
    CopiesSnoc(accepted, e, n);
  }

  lemma AcceptHolds(buf: seq<Entry>, accepted: seq<Entry>, c: int, head: seq<Frame>, e: Entry)
    requires Sorted(buf) && Holds(buf, accepted, c, head) && c <= e.seqno
    ensures Holds(Insert(Unbounded, buf, e), accepted + [e], c, head)
  {
    forall n | n > c ensures Copies(Insert(Unbounded, buf, e), n) == Copies(accepted + [e], n) {
      AcceptCopies(buf, accepted, e, n);
    }
    if head == [] {
      AcceptCopies(buf, accepted, e, c);
    } else {
      assert Insert(Unbounded, buf, e)[1..] == Insert(Unbounded, buf[1..], e);
      CopiesInsert(buf[1..], e, c);
      CopiesSnoc(accepted, e, c);
    }
  }

  lemma AcceptTells(st: Jitter, accepted: seq<Entry>, t: Timeline, e: Entry)
    requires Tells(st, accepted, t) && !Behind(Unbounded, st, e.seqno)
    ensures Tells(st.(buf := Insert(Unbounded, st.buf, e)), accepted + [e], t)
  {
    InsertKeepsSorted(st.buf, e);
    if t.first == None {
      forall n ensures Copies(Insert(Unbounded, st.buf, e), n) == Copies(accepted + [e], n) {
        AcceptCopies(st.buf, accepted, e, n);
      }
    } else {
      AcceptHolds(st.buf, accepted, st.cursor.value, t.head, e);
      CopiesSnoc(accepted, e, t.first.value);
      forall n | n < st.cursor.value ensures Copies(accepted + [e], n) == Copies(accepted, n) {
        CopiesSnoc(accepted, e, n);
      }
      forall i | 0 <= i < |t.done| ensures SegmentOk(accepted + [e], t.first.value + i, t.done[i]) {
        assert SegmentOk(accepted, t.first.value + i, t.done[i]);
      }
    }
  }

  lemma BeginTells(st: Jitter, accepted: seq<Entry>, t: Timeline)
    requires Tells(st, accepted, t) && t.first == None && st.buf != []
    ensures Tells(st.(cursor := Some(st.buf[0].seqno)), accepted, t.(first := Some(st.buf[0].seqno)))
  {
    forall n | n < st.buf[0].seqno ensures Copies(accepted, n) == [] {
      CopiesBelow(st.buf, n);
      assert Copies(st.buf, n) == Copies(accepted, n);
    }
  }

  lemma FrontCopies(buf: seq<Entry>, accepted: seq<Entry>, c: int, head: seq<Frame>)
    requires Holds(buf, accepted, c, head) && buf != [] && buf[0].seqno == c
    ensures Copies(accepted, c) == [head + buf[0].frames] + Copies(buf[1..], c)
    ensures forall n :: n > c ==> Copies(buf[1..], n) == Copies(accepted, n)
  {
    assert [] + buf[0].frames == buf[0].frames;
    forall n | n > c ensures Copies(buf[1..], n) == Copies(accepted, n) {
      assert Copies(buf, n) == Copies(buf[1..], n);
    }
  }

  lemma PartHolds(buf: seq<Entry>, accepted: seq<Entry>, c: int, head: seq<Frame>, take: nat)
    requires Holds(buf, accepted, c, head) && buf != [] && buf[0].seqno == c
    requires 0 < take < |buf[0].frames|
    ensures Holds([Entry(c, buf[0].frames[take..])] + buf[1..], accepted, c, head + buf[0].frames[..take])
  {
    FrontCopies(buf, accepted, c, head);
    var cut := [Entry(c, buf[0].frames[take..])] + buf[1..];
    assert cut[1..] == buf[1..];
    assert head + buf[0].frames[..take] + cut[0].frames == head + buf[0].frames;
    forall n | n > c ensures Copies(cut, n) == Copies(accepted, n) {
      assert Copies(cut, n) == Copies(buf[1..], n);
    }
  }

  lemma FinishTells(st: Jitter, accepted: seq<Entry>, t: Timeline)
    requires Tells(st, accepted, t) && t.first.Some?
    requires st.buf != [] && st.buf[0].seqno == st.cursor.value
    ensures Tells(st.(buf := st.buf[1..], cursor := Some(st.cursor.value + 1)), accepted,
                  Extend(t, Play(st.cursor.value, st.buf[0].frames, true)))
  {
    hide Copies;
    hide Flatten;
    var c := st.cursor.value;
    FrontCopies(st.buf, accepted, c, t.head);
    assert SegmentOk(accepted, c, Voiced(t.head + st.buf[0].frames));
    assert Holds(st.buf[1..], accepted, c + 1, []);
  }

  lemma PartTells(st: Jitter, accepted: seq<Entry>, t: Timeline, take: nat)
    requires Tells(st, accepted, t) && t.first.Some?
    requires st.buf != [] && st.buf[0].seqno == st.cursor.value
    requires 0 < take < |st.buf[0].frames|
    ensures Tells(st.(buf := [Entry(st.cursor.value, st.buf[0].frames[take..])] + st.buf[1..]), accepted,
                  Extend(t, Play(st.cursor.value, st.buf[0].frames[..take], false)))
  {
    hide Copies;
    hide Flatten;
    PartHolds(st.buf, accepted, st.cursor.value, t.head, take);
  }

  lemma PlayRound(st: Jitter, n: nat)
    requires n > 0 && st.buf != [] && st.cursor == Some(st.buf[0].seqno)
    ensures var Entry(c, frames) := st.buf[0];
      PopStep(Unbounded, st, n) ==
      if n < |frames| then (st.(buf := [Entry(c, frames[n..])] + st.buf[1..]), Play(c, frames[..n], false))
      else (st.(buf := st.buf[1..], cursor := Some(c + 1)), Play(c, frames, true))
  {
  }

  lemma PlayTells(st: Jitter, accepted: seq<Entry>, t: Timeline, n: nat)
    requires Tells(st, accepted, t) && t.first.Some? && n > 0
    requires st.buf != [] && st.buf[0].seqno == st.cursor.value
    ensures var (s, a) := PopStep(Unbounded, st, n);
      Tells(s, accepted, Extend(t, a))
  {
    assert st.cursor.Some?;
    hide Tells;
    hide Extend;
    PlayRound(st, n);
    hide PopStep;
    if n < |st.buf[0].frames| {
      PartTells(st, accepted, t, n);
    } else {
      FinishTells(st, accepted, t);
    }
  }

  lemma GapHolds(buf: seq<Entry>, accepted: seq<Entry>, c: int, head: seq<Frame>, count: nat)
    requires Sorted(buf) && Holds(buf, accepted, c, head) && buf != [] && c < buf[0].seqno
    requires 1 <= count <= DEFAULT_FRAMES_PER_PACKET
    ensures head == [] && SegmentOk(accepted, c, Silent(count)) && Holds(buf, accepted, c + 1, [])
  {
    CopiesBelow(buf, c);
  }

  lemma GapTells(st: Jitter, accepted: seq<Entry>, t: Timeline, n: nat)
    requires Tells(st, accepted, t) && t.first.Some? && n > 0
    requires st.buf != [] && st.cursor.value < st.buf[0].seqno
    ensures var (s, a) := PopStep(Unbounded, st, n);
      Tells(s, accepted, Extend(t, a)) && t.head == []
  {
    hide Holds;
    hide SegmentOk;
    GapHolds(st.buf, accepted, st.cursor.value, t.head, Min(n, DEFAULT_FRAMES_PER_PACKET));
  }

  lemma SkipHolds(buf: seq<Entry>, accepted: seq<Entry>, c: int, head: seq<Frame>)
    requires Holds(buf, accepted, c, head) && buf != [] && buf[0].seqno < c
    ensures Holds(buf[1..], accepted, c, head)
  {
    forall m | m >= c ensures Copies(buf[1..], m) == Copies(accepted, m) {
      assert Copies(buf, m) == Copies(buf[1..], m);
    }
  }

  lemma SkipTells(st: Jitter, accepted: seq<Entry>, t: Timeline, n: nat)
    requires Tells(st, accepted, t) && t.first.Some? && n > 0
    requires st.buf != [] && st.buf[0].seqno < st.cursor.value
    ensures var (s, a) := PopStep(Unbounded, st, n);
      Tells(s, accepted, Extend(t, a))
  {
    hide Holds;
    hide SegmentOk;
    SkipHolds(st.buf, accepted, st.cursor.value, t.head);
  }

  lemma ExtendOutput(t: Timeline, a: Action)
    requires a.Gap? ==> t.head == []
    ensures var u := Extend(t, a);
      Flatten(u.done) + u.head == Flatten(t.done) + t.head + Sound(a)
  {
    var u := Extend(t, a);
    if u.done != t.done {
      assert u.done[..|u.done| - 1] == t.done;
    }
  }

  lemma TimelineSnoc(trace: seq<Action>, a: Action)
    ensures TimelineOf(trace + [a]) == Extend(TimelineOf(trace), a)
  {
    assert (trace + [a])[..|trace|] == trace;
  }

  /** One action appended to a told run. */
  lemma Tell(r: Run, s: Jitter, a: Action)
    requires Told(r)
    requires var t := TimelineOf(r.trace);
      && Tells(s, Accepted(r.trace) + (if a.Accept? then [a.entry] else []), Extend(t, a))
      && (a.Gap? ==> t.head == [])
    requires s.state == Filling <==> s.cursor == None
    ensures Told(Run(s, r.trace + [a]))
  {
    TimelineSnoc(r.trace, a);
    OutputSnoc(r.trace, a);
    ExtendOutput(TimelineOf(r.trace), a);
  }

  lemma RefuseTold(r: Run, e: Entry)
    requires Told(r) && Behind(Unbounded, r.st, e.seqno)
    ensures Told(Advance(Unbounded, r, Arrive(e)))
  {
    assert Accepted(r.trace) + [] == Accepted(r.trace);
    Tell(r, Push(Unbounded, r.st, e).0, Refuse(e));
  }

  lemma AcceptTold(r: Run, e: Entry)
    requires Told(r) && !Behind(Unbounded, r.st, e.seqno)
    ensures Told(Advance(Unbounded, r, Arrive(e)))
  {
    hide Insert;
    hide TotalFrames;
    hide TimelineOf;
    hide Accepted;
    hide Output;
    hide Flatten;
    var acc := Accepted(r.trace);
    var t := TimelineOf(r.trace);
    var (s, actions) := Push(Unbounded, r.st, e);
    AcceptTells(r.st, acc, t, e);
    if |actions| == 1 {
      Tell(r, s, Accept(e));
    } else {
      // The cursor is set: first record the insertion, then the start.
      var mid := r.st.(received := r.st.received + 1, buf := Insert(Unbounded, r.st.buf, e));
      Tell(r, mid, Accept(e));
      var r1 := Run(mid, r.trace + [Accept(e)]);
      assert r1.trace + [actions[1]] == r.trace + actions;
      BeginTold(r1, s);
    }
  }

  lemma BeginTold(r: Run, s: Jitter)
    requires Told(r) && r.st.cursor == None && r.st.buf != []
    requires s == r.st.(state := Playing, cursor := Some(r.st.buf[0].seqno))
    ensures Told(Run(s, r.trace + [Begin(r.st.buf[0].seqno)]))
  {
    var acc := Accepted(r.trace);
    assert acc + [] == acc;
    BeginTells(r.st, acc, TimelineOf(r.trace));
    Tell(r, s, Begin(r.st.buf[0].seqno));
  }

  /** Which of the four branches of the pop loop a round takes, with the fields it leaves alone. */
  lemma RoundShape(st: Jitter, n: nat)
    requires n > 0 && st.cursor.Some?
    ensures var (s, a) := PopStep(Unbounded, st, n);
      && !a.Accept? && s.cursor.Some? && (s.state == st.state || s.state == Underrun)
      && (a.Gap? ==> st.buf != [] && st.cursor.value < st.buf[0].seqno)
      && (a.Starve? ==> s.buf == st.buf && s.cursor == st.cursor)
  {
  }

  lemma RoundTells(st: Jitter, accepted: seq<Entry>, t: Timeline, n: nat)
    requires Tells(st, accepted, t) && t.first.Some? && n > 0
    ensures Tells(PopStep(Unbounded, st, n).0, accepted, Extend(t, PopStep(Unbounded, st, n).1))
  {
    if st.buf == [] {
      RoundShape(st, n);
    } else if st.buf[0].seqno == st.cursor.value {
      PlayTells(st, accepted, t, n);
    } else if st.cursor.value < st.buf[0].seqno {
      GapTells(st, accepted, t, n);
    } else {
      SkipTells(st, accepted, t, n);
    }
  }

  lemma RoundTold(r: Run, n: nat)
    requires Told(r) && r.st.state == Playing && n > 0
    ensures Told(Run(PopStep(Unbounded, r.st, n).0, r.trace + [PopStep(Unbounded, r.st, n).1]))
  {
    assert Accepted(r.trace) + [] == Accepted(r.trace);
    RoundShape(r.st, n);
    RoundTells(r.st, Accepted(r.trace), TimelineOf(r.trace), n);
    Tell(r, PopStep(Unbounded, r.st, n).0, PopStep(Unbounded, r.st, n).1);
  }

  lemma ToldInductive()
    ensures Inductive(Unbounded, Told)
  {
    forall r: Run, e: Entry | Told(r) ensures Told(Advance(Unbounded, r, Arrive(e))) {
      if Behind(Unbounded, r.st, e.seqno) {
        RefuseTold(r, e);
      } else {
        AcceptTold(r, e);
      }
    }
    forall r: Run, n: nat | n > 0 && r.st.state == Playing && Told(r)
      ensures Told(Run(PopStep(Unbounded, r.st, n).0, r.trace + [PopStep(Unbounded, r.st, n).1]))
    {
      RoundTold(r, n);
    }
  }

  lemma AdvanceTold(r: Run, ev: Event)
    requires Told(r)
    ensures Told(Advance(Unbounded, r, ev))
  {
    ToldInductive();
    AdvanceKeeps(Unbounded, Told, r, ev);
  }

  /** Every run plays its accepted packets in number order, each once and whole, and silence for the rest. */
  lemma EveryRunTold(startFill: nat, events: seq<Event>)
    ensures Told(Execute(Unbounded, Start(startFill), events))
  {
    ToldInductive();
    ExecuteKeeps(Unbounded, Told, Start(startFill), events);
  }
}
