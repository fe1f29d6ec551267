/** The receiver's jitter buffer as a transition system: what each push and pop does to its state,
    and the actions each of them takes. The same transitions run on the code's wrapped sequence
    numbers and on the sender's unbounded ones. */
module JitterSpec {
  import opened Audio
  import opened SeqNum

  datatype Entry = Entry(seqno: int, frames: seq<Frame>)

  datatype Playback = Filling | Playing | Underrun

  datatype Jitter = Jitter(
    buf: seq<Entry>, state: Playback, startFill: nat, cursor: Option<int>,
    received: nat, dropped: nat, silence: nat, underruns: nat)

  /** One observable step of the buffer. */
  datatype Action =
    | Accept(entry: Entry)                                     // inserted in the deque
    | Refuse(entry: Entry)                                     // behind the cursor on arrival
    | Begin(seqno: int)                                        // the cursor gets its first value
    | Play(seqno: int, frames: seq<Frame>, finished: bool)     // frames of the cursor's packet
    | Gap(seqno: int, count: nat)                              // silence for a missing number
    | Skip(entry: Entry)                                       // found behind the cursor
    | Starve                                                   // ran dry

  function NewJitter(startFill: nat): Jitter {
    Jitter([], Filling, startFill, None, 0, 0, 0, 0)
  }

  /** Frames in a deque. */
  function TotalFrames(buf: seq<Entry>): nat {
    if buf == [] then 0 else |buf[0].frames| + TotalFrames(buf[1..])
  }

  // ---------------------------------------------------------------- push

  /** Inserts before the first entry that the new number precedes. */
  function Insert(nb: Numbering, buf: seq<Entry>, e: Entry): (r: seq<Entry>)
    ensures |r| == |buf| + 1
  {
    if buf == [] then [e]
    else if nb.Before(e.seqno, buf[0].seqno) then [e] + buf
    else [buf[0]] + Insert(nb, buf[1..], e)
  }

  predicate Behind(nb: Numbering, st: Jitter, seqno: int) {
    st.cursor.Some? && nb.Before(seqno, st.cursor.value)
  }

  function Push(nb: Numbering, st: Jitter, e: Entry): (Jitter, seq<Action>) {
    var s := st.(received := st.received + 1);
    if Behind(nb, st, e.seqno) then
      (s.(dropped := s.dropped + 1), [Refuse(e)])
    else
      var s := s.(buf := Insert(nb, s.buf, e));
      if s.state != Playing && TotalFrames(s.buf) >= s.startFill then
        if s.cursor.None? then
          (s.(state := Playing, cursor := Some(s.buf[0].seqno)), [Accept(e), Begin(s.buf[0].seqno)])
        else
          (s.(state := Playing), [Accept(e)])
      else
        (s, [Accept(e)])
  }

  // ---------------------------------------------------------------- pop

  /** The frames an action hands to the audio output. */
  function Sound(a: Action): seq<Frame> {
    match a
    case Play(_, frames, _) => frames
    case Gap(_, count) => Repeat(SILENCE, count)
    case _ => []
  }

  /** One round of the pop loop with `remaining` frames still wanted. */
  function PopStep(nb: Numbering, st: Jitter, remaining: nat): (r: (Jitter, Action))
    requires remaining > 0
    ensures |Sound(r.1)| <= remaining
    ensures r.1.Starve? <==> st.buf == []
    ensures st.buf != [] ==> |Sound(r.1)| > 0 || |r.0.buf| < |st.buf|
    ensures |r.0.buf| <= |st.buf|
  {
    if st.buf == [] then
      (st.(state := Underrun, underruns := st.underruns + 1), Starve)
    else
      var front := st.buf[0];
      var next := st.cursor.GetOr(front.seqno);
      if front.seqno == next then
        var take := Min(remaining, |front.frames|);
        if take < |front.frames| then
          (st.(buf := [Entry(front.seqno, front.frames[take..])] + st.buf[1..]),
           Play(next, front.frames[..take], false))
        else
          (st.(buf := st.buf[1..], cursor := Some(nb.Next(next))), Play(next, front.frames, true))
      else if nb.Before(next, front.seqno) then
        var count := Min(remaining, DEFAULT_FRAMES_PER_PACKET);
        (st.(silence := st.silence + count, cursor := Some(nb.Next(next))), Gap(next, count))
      else
        (st.(buf := st.buf[1..], dropped := st.dropped + 1), Skip(front))
  }

  /** The whole pop loop. It ends on every deque: each round either yields frames or removes an entry. */
  function PopLoop(nb: Numbering, st: Jitter, remaining: nat): (Jitter, seq<Action>)
    decreases remaining, |st.buf|
  {
    if remaining == 0 then (st, [])
    else
      var (s, a) := PopStep(nb, st, remaining);
      if a.Starve? then (s, [a])
      else
        var (s', rest) := PopLoop(nb, s, remaining - |Sound(a)|);
        (s', [a] + rest)
  }

  function Pop(nb: Numbering, st: Jitter, count: nat): (Jitter, seq<Action>) {
    if st.state != Playing then (st, []) else PopLoop(nb, st, count)
  }

  // ---------------------------------------------------------------- runs

  /** Receive and playback threads take the same mutex, so a run is any sequence of whole pushes and pops. */
  datatype Event = Arrive(packet: Entry) | Demand(count: nat)

  /** A state with the actions that led to it. */
  datatype Run = Run(st: Jitter, trace: seq<Action>)

  function Step(nb: Numbering, st: Jitter, ev: Event): (Jitter, seq<Action>) {
    match ev
    case Arrive(e) => Push(nb, st, e)
    case Demand(n) => Pop(nb, st, n)
  }

  function Advance(nb: Numbering, r: Run, ev: Event): Run {
    var (s, actions) := Step(nb, r.st, ev);
    Run(s, r.trace + actions)
  }

  function Execute(nb: Numbering, r: Run, events: seq<Event>): Run
    decreases |events|
  {
    if events == [] then r else Execute(nb, Advance(nb, r, events[0]), events[1..])
  }

  function Start(startFill: nat): Run { Run(NewJitter(startFill), []) }

  /** Everything handed to the audio output. */
  function Output(trace: seq<Action>): seq<Frame> {
    if trace == [] then [] else Output(trace[..|trace| - 1]) + Sound(trace[|trace| - 1])
  }

  /** The packets inserted in the deque, in arrival order. */
  function Accepted(trace: seq<Action>): seq<Entry> {
    if trace == [] then []
    else
      var a := trace[|trace| - 1];
      Accepted(trace[..|trace| - 1]) + if a.Accept? then [a.entry] else []
  }

  lemma OutputSnoc(t: seq<Action>, a: Action)
    ensures Output(t + [a]) == Output(t) + Sound(a)
    ensures Accepted(t + [a]) == Accepted(t) + if a.Accept? then [a.entry] else []
  {
    assert (t + [a])[..|t|] == t;
  }

  lemma {:induction false} OutputConcat(t: seq<Action>, u: seq<Action>)
    ensures Output(t + u) == Output(t) + Output(u)
  {
    if u == [] {
      assert t + u == t;
    } else {
      hide Output;
      var n := |u| - 1;
      OutputConcat(t, u[..n]);
      OutputGrow(t, u[..n], u[n]);
      assert u[..n] + [u[n]] == u;
    }
  }

  lemma OutputGrow(t: seq<Action>, u: seq<Action>, a: Action)
    requires Output(t + u) == Output(t) + Output(u)
    ensures Output(t + (u + [a])) == Output(t) + Output(u + [a])
  {
    Associative(t, u, [a]);
    OutputSnoc(t + u, a);
    OutputSnoc(u, a);
    Associative(Output(t), Output(u), Sound(a));
  }

  lemma {:induction false} AcceptedConcat(t: seq<Action>, u: seq<Action>)
    ensures Accepted(t + u) == Accepted(t) + Accepted(u)
  {
    if u == [] {
      assert t + u == t;
    } else {
      var v, a := u[..|u| - 1], u[|u| - 1];
      AcceptedConcat(t, v);
      assert v + [a] == u;
      AcceptedGrow(t, v, a);
    }
  }

  lemma AcceptedGrow(t: seq<Action>, u: seq<Action>, a: Action)
    requires Accepted(t + u) == Accepted(t) + Accepted(u)
    ensures Accepted(t + (u + [a])) == Accepted(t) + Accepted(u + [a])
  {
    hide Accepted;
    Associative(t, u, [a]);
    OutputSnoc(t + u, a);
    OutputSnoc(u, a);
    Associative(Accepted(t), Accepted(u), if a.Accept? then [a.entry] else []);
  }

  lemma OutputCons(a: Action, t: seq<Action>)
    ensures Output([a] + t) == Sound(a) + Output(t)
  {
    OutputConcat([a], t);
    OutputSnoc([], a);
    assert [] + [a] == [a];
  }
}
