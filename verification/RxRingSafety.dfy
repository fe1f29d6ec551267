/** Under every interleaving of the two receiver threads the ring is a FIFO of capacity 47999, and what
    is handed to ALSA, less the padding, is a prefix of the accepted packets. */
module RxRingSafety {
  import opened Audio
  import opened Runs
  import opened RxRing

  // ---------------------------------------------------------------- index arithmetic

  lemma UsedIs(w: nat, r: nat)
    requires r <= w <= r + CAPACITY
    ensures Used(w % RING_FRAMES, r % RING_FRAMES) == w - r
  {
    var n := RING_FRAMES;
    var q := w / n - r / n;
    assert w - r == n * q + (w % n - r % n);
    assert q == 0 || q == 1;
  }

  lemma SlotIs(index: nat, k: nat)
    requires k < RING_FRAMES
    ensures Slot(index % RING_FRAMES, k) == (index + k) % RING_FRAMES
  {
    var n := RING_FRAMES;
    var m := index % n;
    assert index + k == n * (index / n) + (m + k);
    if m + k < n {
      RemainderUnique(index + k, index / n, m + k);
    } else {
      RemainderUnique(index + k, index / n + 1, m + k - n);
    }
  }

  lemma RemainderUnique(x: nat, q: nat, rest: nat)
    requires x == RING_FRAMES * q + rest && rest < RING_FRAMES
    ensures x % RING_FRAMES == rest
  {
  }

  lemma AddModulo(x: nat, y: nat)
    ensures (x % RING_FRAMES + y) % RING_FRAMES == (x + y) % RING_FRAMES
  {
    var n := RING_FRAMES;
    var rest := (x % n + y) % n;
    RemainderUnique(x + y, x / n + (x % n + y) / n, rest);
  }

  lemma SlotsDiffer(i: nat, j: nat)
    requires i < j < i + RING_FRAMES
    ensures i % RING_FRAMES != j % RING_FRAMES
  {
    var n := RING_FRAMES;
    assert i == n * (i / n) + i % n && j == n * (j / n) + j % n;
  }

  // ---------------------------------------------------------------- invariant

  /** The buffers handed to ALSA with their padding erased. */
  function Erased(handed: seq<Buffer>): seq<Cell> {
    if handed == [] then []
    else
      var b := handed[|handed| - 1];
      Erased(handed[..|handed| - 1]) + b.cells[..Min(b.got, |b.cells|)]
  }

  /** One period of frames, silent beyond those that came from the ring. */
  predicate Proper(config: Config, b: Buffer) {
    && b.got <= |b.cells| == config.period
    && b.cells[b.got..] == Repeat(ZERO_CELL, config.period - b.got)
  }

  /** The frames published and not yet taken. */
  ghost function Queue(s: System): seq<Cell>
    requires |s.taken| <= |s.published|
  {
    s.published[|s.taken|..]
  }

  ghost predicate Indexed(s: System) {
    && |s.ring| == RING_FRAMES
    && s.w == |s.published| % RING_FRAMES && s.r == |s.taken| % RING_FRAMES
    && |s.taken| <= |s.published| <= |s.taken| + CAPACITY
    && s.taken == s.published[..|s.taken|]
    && s.published == Joined(s.accepted)
  }

  ghost predicate Stored(ring: seq<Cell>, from: nat, cells: seq<Cell>) {
    |ring| == RING_FRAMES && forall i :: 0 <= i < |cells| ==> ring[(from + i) % RING_FRAMES] == cells[i]
  }

  ghost predicate Room(s: System, p: seq<Cell>) {
    |s.published| + |p| <= |s.taken| + CAPACITY
  }

  ghost predicate ProducerOk(s: System) {
    match s.producer
    case LoadingR(_, w) => w == s.w
    case Reloading(p) => Room(s, p)
    case Copying(p, w, k) => w == s.w && Room(s, p) && k <= |p| && Stored(s.ring, |s.published|, p[..k])
    case _ => true
  }

  /** A loaded `w` may be stale, but only too small. */
  ghost predicate Seen(s: System, w: nat, seen: nat) {
    w == seen % RING_FRAMES && |s.taken| <= seen <= |s.published|
  }

  ghost predicate ConsumerOk(s: System) {
    && (forall b :: b in s.handed ==> Proper(s.config, b))
    && s.taken == Erased(s.handed) + (if s.consumer.Handing? then s.consumer.dst else [])
    && match s.consumer
       case ProbingW(stage) => !stage.Playback?
       case ProbingR(stage, w, seen) => !stage.Playback? && Seen(s, w, seen)
       case ReadingW(stage) => !stage.StartFill? && (stage.Prefill? ==> |s.taken| + s.config.period <= |s.published|)
       case ReadingR(stage, w, seen) =>
         !stage.StartFill? && Seen(s, w, seen) && (stage.Prefill? ==> |s.taken| + s.config.period <= seen)
       case ReloadingR(stage, n) => Reads(s, stage, n)
       case CopyingOut(stage, n, r, dst) =>
         r == s.r && Reads(s, stage, n) && |dst| <= n && dst == s.published[|s.taken|..|s.taken| + |dst|]
       case Handing(stage, dst) =>
         !stage.StartFill? && |dst| <= s.config.period && (stage.Prefill? ==> |dst| == s.config.period)
       case Stopped => true
  }

  ghost predicate Reads(s: System, stage: Stage, n: nat) {
    && !stage.StartFill? && n <= s.config.period && |s.taken| + n <= |s.published|
    && (stage.Prefill? ==> n == s.config.period)
  }

  ghost predicate Inv(s: System) {
    && s.config.Valid() && Indexed(s) && Stored(s.ring, |s.taken|, Queue(s))
    && ProducerOk(s) && ConsumerOk(s) && Shaped(s)
  }

  // ---------------------------------------------------------------- the receive thread keeps it

  /** The playback thread does not depend on where the receive thread is. */
  lemma ConsumerUnmoved(s: System, t: System)
    requires Inv(s) && t == s.(producer := t.producer)
    requires ProducerOk(t) && Shaped(t)
    ensures Inv(t)
  {
    hide Joined;
    hide Erased;
    hide Proper;
    hide Stored;
    hide ProducerOk;
    hide Room;
  }

  lemma LoadKeeps(s: System, packet: seq<Cell>)
    requires Inv(s) && !s.producer.Copying?
    ensures Inv(ProducerStep(s, packet))
  {
    hide Joined;
    hide ConsumerOk;
    var t := ProducerStep(s, packet);
    match s.producer {
      case LoadingR(p, w) =>
        UsedIs(|s.published|, |s.taken|);
      case Reloading(p) =>
        assert p[..0] == [];
      case _ =>
    }
    ConsumerUnmoved(s, t);
  }

  lemma CopyInKeeps(s: System, packet: seq<Cell>)
    requires Inv(s) && s.producer.Copying? && s.producer.k < |s.producer.packet|
    ensures Inv(ProducerStep(s, packet))
  {
    hide Joined;
    hide Erased;
    hide Proper;
    var Copying(p, w, k) := s.producer;
    var t := ProducerStep(s, packet);
    var from := |s.published|;
    SlotIs(from, k);
    CopyStored(s.ring, |s.taken|, Queue(s), from, p, k);
  }

  lemma CopyStored(ring: seq<Cell>, first: nat, queue: seq<Cell>, from: nat, p: seq<Cell>, k: nat)
    requires k < |p| && Stored(ring, first, queue) && Stored(ring, from, p[..k])
    requires from == first + |queue| && |queue| + |p| <= CAPACITY
    ensures Stored(ring[(from + k) % RING_FRAMES := p[k]], first, queue)
    ensures Stored(ring[(from + k) % RING_FRAMES := p[k]], from, p[..k + 1])
  {
    var after := ring[(from + k) % RING_FRAMES := p[k]];
    forall i | 0 <= i < |queue| ensures after[(first + i) % RING_FRAMES] == queue[i] {
      SlotsDiffer(first + i, from + k);
    }
    forall i | 0 <= i < k + 1 ensures after[(from + i) % RING_FRAMES] == p[i] {
      if i < k {
        SlotsDiffer(from + i, from + k);
        assert ring[(from + i) % RING_FRAMES] == p[..k][i];
      }
    }
  }

  lemma PublishKeeps(s: System, packet: seq<Cell>)
    requires Inv(s) && s.producer.Copying? && s.producer.k == |s.producer.packet|
    ensures Inv(ProducerStep(s, packet))
    ensures Queue(ProducerStep(s, packet)) == Queue(s) + s.producer.packet
  {
    hide Joined;
    hide Erased;
    hide Proper;
    hide Stored;
    var p := s.producer.packet;
    var t := ProducerStep(s, packet);
    assert p[..|p|] == p;
    assert Queue(t) == Queue(s) + p;
    PublishIndexed(s, p, t);
    AppendStored(s.ring, |s.taken|, Queue(s), p);
    PublishConsumerOk(s, p, t);
  }

  lemma AppendStored(ring: seq<Cell>, first: nat, queue: seq<Cell>, p: seq<Cell>)
    requires Stored(ring, first, queue) && Stored(ring, first + |queue|, p)
    ensures Stored(ring, first, queue + p)
  {
    forall i | 0 <= i < |queue + p| ensures ring[(first + i) % RING_FRAMES] == (queue + p)[i] {
      if i >= |queue| {
        assert ring[(first + |queue| + (i - |queue|)) % RING_FRAMES] == p[i - |queue|];
      }
    }
  }

  lemma PublishIndexed(s: System, p: seq<Cell>, t: System)
    requires Indexed(s) && Room(s, p)
    requires t.ring == s.ring && t.r == s.r && t.taken == s.taken && t.w == (s.w + |p|) % RING_FRAMES
    requires t.published == s.published + p && t.accepted == s.accepted + [p]
    ensures Indexed(t)
  {
    assert t.accepted[..|t.accepted| - 1] == s.accepted;
    assert t.taken == t.published[..|t.taken|];
    AddModulo(|s.published|, |p|);
  }

  lemma PublishConsumerOk(s: System, p: seq<Cell>, t: System)
    requires ConsumerOk(s) && |s.taken| <= |s.published|
    requires t.config == s.config && t.consumer == s.consumer && t.handed == s.handed
    requires t.taken == s.taken && t.r == s.r && t.published == s.published + p
    ensures ConsumerOk(t)
  {
  }

  // ---------------------------------------------------------------- the playback thread keeps it

  lemma ProbeKeeps(s: System, written: int)
    requires Inv(s)
    requires !s.consumer.CopyingOut? && !s.consumer.Handing?
    ensures Inv(ConsumerStep(s, written))
  {
    hide Joined;
    hide Erased;
    hide Proper;
    match s.consumer
    case ProbingR(_, _, seen) => UsedIs(seen, |s.taken|);
    case ReadingR(_, _, seen) => UsedIs(seen, |s.taken|);
    case _ =>
  }

  lemma CopyOutKeeps(s: System, written: int)
    requires Inv(s) && s.consumer.CopyingOut? && |s.consumer.dst| < s.consumer.n
    ensures Inv(ConsumerStep(s, written))
  {
    hide Joined;
    hide Erased;
    hide Proper;
    var CopyingOut(stage, n, r, dst) := s.consumer;
    SlotIs(|s.taken|, |dst|);
    assert s.ring[(|s.taken| + |dst|) % RING_FRAMES] == Queue(s)[|dst|] == s.published[|s.taken| + |dst|];
  }

  lemma TakeIndexed(s: System, dst: seq<Cell>, t: System)
    requires Indexed(s) && dst <= s.published[|s.taken|..]
    requires t.ring == s.ring && t.w == s.w && t.published == s.published && t.accepted == s.accepted
    requires t.taken == s.taken + dst && t.r == (s.r + |dst|) % RING_FRAMES
    ensures Indexed(t) && dst + Queue(t) == Queue(s)
  {
    hide Joined;
    assert t.taken == s.published[..|t.taken|];
    AddModulo(|s.taken|, |dst|);
  }

  lemma TakeKeeps(s: System, written: int)
    requires Inv(s) && s.consumer.CopyingOut? && |s.consumer.dst| == s.consumer.n
    ensures Inv(ConsumerStep(s, written))
    ensures s.consumer.dst + Queue(ConsumerStep(s, written)) == Queue(s)
  {
    hide Joined;
    hide Erased;
    hide Proper;
    hide Stored;
    var dst := s.consumer.dst;
    var t := ConsumerStep(s, written);
    assert dst <= s.published[|s.taken|..];
    TakeIndexed(s, dst, t);
    DropStored(s.ring, |s.taken|, dst, Queue(t));
    assert Erased(s.handed) + [] == Erased(s.handed);
  }

  lemma DropStored(ring: seq<Cell>, first: nat, dropped: seq<Cell>, kept: seq<Cell>)
    requires Stored(ring, first, dropped + kept)
    ensures Stored(ring, first + |dropped|, kept)
  {
    forall i | 0 <= i < |kept| ensures ring[(first + |dropped| + i) % RING_FRAMES] == kept[i] {
      assert ring[(first + (|dropped| + i)) % RING_FRAMES] == (dropped + kept)[|dropped| + i];
    }
  }

  lemma HandKeeps(s: System, written: int)
    requires Inv(s) && s.consumer.Handing?
    ensures Inv(ConsumerStep(s, written))
  {
    var dst := s.consumer.dst;
    var t := ConsumerStep(s, written);
    var b := t.handed[|t.handed| - 1];
    assert t.handed == s.handed + [b];
    assert t.handed[..|t.handed| - 1] == s.handed;
    assert b.cells[..|dst|] == dst;
    assert Erased(t.handed) + [] == Erased(t.handed) == Erased(s.handed) + dst;
    assert Proper(s.config, b);
  }

  lemma ProducerKeeps(s: System, packet: seq<Cell>)
    requires Inv(s)
    ensures Inv(ProducerStep(s, packet))
  {
    if !s.producer.Copying? {
      LoadKeeps(s, packet);
    } else if s.producer.k < |s.producer.packet| {
      CopyInKeeps(s, packet);
    } else {
      PublishKeeps(s, packet);
    }
  }

  lemma ConsumerKeeps(s: System, written: int)
    requires Inv(s)
    ensures Inv(ConsumerStep(s, written))
  {
    if s.consumer.Handing? {
      HandKeeps(s, written);
    } else if !s.consumer.CopyingOut? {
      ProbeKeeps(s, written);
    } else if |s.consumer.dst| < s.consumer.n {
      CopyOutKeeps(s, written);
    } else {
      TakeKeeps(s, written);
    }
  }

  // ---------------------------------------------------------------- every interleaving

  /** The scheduler's choice: which thread takes its next step, and what the outside answers. */
  datatype Turn = Receive(packet: seq<Cell>) | Play(written: int)

  ghost function TakeTurn(s: System, turn: Turn): System {
    if !Shaped(s) then s
    else
      match turn
      case Receive(packet) => ProducerStep(s, packet)
      case Play(written) => ConsumerStep(s, written)
  }

  ghost function Interleave(s: System, turns: seq<Turn>): System
    decreases |turns|
  {
    if turns == [] then s else Interleave(TakeTurn(s, turns[0]), turns[1..])
  }

  lemma {:induction false} InterleaveKeeps(s: System, turns: seq<Turn>)
    requires Inv(s)
    ensures Inv(Interleave(s, turns)) && Interleave(s, turns).config == s.config
    decreases |turns|
  {
    hide Indexed;
    hide Stored;
    hide ProducerOk;
    hide ConsumerOk;
    if turns != [] {
      match turns[0] {
        case Receive(packet) => ProducerKeeps(s, packet);
        case Play(written) => ConsumerKeeps(s, written);
      }
      InterleaveKeeps(TakeTurn(s, turns[0]), turns[1..]);
    }
  }

  lemma StartsOk(config: Config)
    requires config.Valid()
    ensures Inv(NewSystem(config))
  {
  }

  // ---------------------------------------------------------------- single steps

  /** A stutter, an enqueue of one whole packet or a dequeue of the frames it returns, on a queue that never
      exceeds the capacity. */
  ghost predicate QueueStep(s: System, turn: Turn) {
    var t := TakeTurn(s, turn);
    && |s.taken| <= |s.published| && |t.taken| <= |t.published| && |Queue(s)| <= CAPACITY
    && if turn.Receive? && s.producer.Copying? && s.producer.k == |s.producer.packet| then
         Queue(t) == Queue(s) + s.producer.packet && t.accepted == s.accepted + [s.producer.packet]
         && t.taken == s.taken
       else if turn.Play? && s.consumer.CopyingOut? && |s.consumer.dst| == s.consumer.n then
         Queue(s) == s.consumer.dst + Queue(t) && t.taken == s.taken + s.consumer.dst && t.accepted == s.accepted
       else
         Queue(t) == Queue(s) && t.accepted == s.accepted && t.taken == s.taken
  }

  lemma StepIsQueueStep(s: System, turn: Turn)
    requires Inv(s)
    ensures QueueStep(s, turn)
  {
    hide Joined;
    hide Erased;
    hide Proper;
    hide Stored;
    match turn
    case Receive(packet) =>
      if s.producer.Copying? && s.producer.k == |s.producer.packet| {
        PublishKeeps(s, packet);
      }
    case Play(written) =>
      if s.consumer.CopyingOut? && |s.consumer.dst| == s.consumer.n {
        TakeKeeps(s, written);
      }
  }

  predicate CopyingIn(s: System) { s.producer.Copying? && s.producer.k < |s.producer.packet| }

  predicate CopyingOutNow(s: System) { s.consumer.CopyingOut? && |s.consumer.dst| < s.consumer.n }

  /** The next copy into the ring hits no unread frame, the next copy out reads a published one, and the two
      use different slots. */
  ghost predicate NextCopiesSafe(s: System) {
    && |s.ring| == RING_FRAMES
    && (CopyingIn(s) ==>
          forall j :: |s.taken| <= j < |s.published| ==> Slot(s.producer.w, s.producer.k) != j % RING_FRAMES)
    && (CopyingOutNow(s) ==>
          var j := |s.taken| + |s.consumer.dst|;
          && j < |s.published| && Slot(s.consumer.r, |s.consumer.dst|) == j % RING_FRAMES
          && s.ring[j % RING_FRAMES] == s.published[j])
    && (CopyingIn(s) && CopyingOutNow(s) ==>
          Slot(s.producer.w, s.producer.k) != Slot(s.consumer.r, |s.consumer.dst|))
  }

  lemma CopiesSafeHere(s: System)
    requires Inv(s)
    ensures NextCopiesSafe(s)
  {
    hide Joined;
    hide Erased;
    hide Proper;
    if CopyingIn(s) {
      SlotIs(|s.published|, s.producer.k);
      forall j | |s.taken| <= j < |s.published| ensures Slot(s.producer.w, s.producer.k) != j % RING_FRAMES {
        SlotsDiffer(j, |s.published| + s.producer.k);
      }
    }
    if CopyingOutNow(s) {
      SlotIs(|s.taken|, |s.consumer.dst|);
      assert s.ring[(|s.taken| + |s.consumer.dst|) % RING_FRAMES] == Queue(s)[|s.consumer.dst|];
    }
  }

  /** How the next step decides, in terms of the queue. */
  ghost predicate DecidesExactly(s: System, turn: Turn) {
    var t := TakeTurn(s, turn);
    && |s.taken| <= |s.published|
    && (turn.Receive? && s.producer.LoadingR? ==>
          (t.producer.Receiving? <==> |Queue(s)| + |s.producer.packet| > CAPACITY))
    && (turn.Play? && (s.consumer.ReadingW? || s.consumer.ProbingW?) ==>
          (t.consumer.ReadingR? || t.consumer.ProbingR?) && t.consumer.seen == |s.taken| + |Queue(s)|)
    && (s.consumer.ProbingR? || s.consumer.ReadingR? ==> |s.taken| <= s.consumer.seen <= |s.published|)
    && (turn.Play? && s.consumer.ReadingR? ==>
          t.consumer == ReloadingR(s.consumer.stage, Min(s.config.period, s.consumer.seen - |s.taken|)))
    && (turn.Play? && s.consumer.ProbingR? && s.consumer.stage.StartFill? ==>
          t.consumer ==
          if s.consumer.seen - |s.taken| < s.config.startFill then ProbingW(StartFill)
          else if s.config.period <= s.config.alsaBuffer then ProbingW(Prefill(0))
          else ReadingW(Playback))
    && (turn.Play? && s.consumer.ProbingR? && s.consumer.stage.Prefill? ==>
          t.consumer ==
          ReadingW(if s.consumer.seen - |s.taken| < s.config.period then Playback else s.consumer.stage))
    && (turn.Play? && s.consumer.Handing? && s.consumer.stage.Prefill? ==>
          var prefilled := s.consumer.stage.prefilled + turn.written;
          var more := turn.written > 0 && prefilled + s.config.period <= s.config.alsaBuffer;
          t.consumer == if more then ProbingW(Prefill(prefilled)) else ReadingW(Playback))
  }

  lemma DecidesHere(s: System, turn: Turn)
    requires Inv(s)
    ensures DecidesExactly(s, turn)
  {
    hide Joined;
    hide Erased;
    hide Proper;
    hide Stored;
    if s.producer.LoadingR? {
      UsedIs(|s.published|, |s.taken|);
    }
    if s.consumer.ProbingR? || s.consumer.ReadingR? {
      UsedIs(s.consumer.seen, |s.taken|);
    }
  }

  // ---------------------------------------------------------------- theorems

  lemma Reachable(config: Config, turns: seq<Turn>)
    requires config.Valid()
    ensures Inv(Interleave(NewSystem(config), turns))
  {
    StartsOk(config);
    InterleaveKeeps(NewSystem(config), turns);
  }

  /** In every interleaving, every step is a step of a bounded queue. */
  lemma FifoRefinement(config: Config, turns: seq<Turn>, turn: Turn)
    requires config.Valid()
    ensures QueueStep(Interleave(NewSystem(config), turns), turn)
  {
    Reachable(config, turns);
    StepIsQueueStep(Interleave(NewSystem(config), turns), turn);
  }

  /** In every interleaving, no copy destroys an unread frame, reads an unpublished one or meets the other
      thread's copy in a slot. */
  lemma CopiesAreSafe(config: Config, turns: seq<Turn>)
    requires config.Valid()
    ensures NextCopiesSafe(Interleave(NewSystem(config), turns))
  {
    Reachable(config, turns);
    CopiesSafeHere(Interleave(NewSystem(config), turns));
  }

  /** In every interleaving, stale views decide as the queue would: a packet is refused exactly when it does
      not fit at the instant the producer loads `r`, and a read or a test sees exactly the frames that were
      queued at the instant the consumer loaded `w`; so playback waits for the start-fill, and the prefill
      stops as soon as less than a period is there. */
  lemma DecisionsAreExact(config: Config, turns: seq<Turn>, turn: Turn)
    requires config.Valid()
    ensures DecidesExactly(Interleave(NewSystem(config), turns), turn)
  {
    Reachable(config, turns);
    DecidesHere(Interleave(NewSystem(config), turns), turn);
  }

  /** In every interleaving, what one thread has learnt stays true while only the other one runs: the room
      the producer found and the frames the consumer found do not shrink. */
  lemma ViewsAreStable(config: Config, turns: seq<Turn>, turn: Turn)
    requires config.Valid()
    ensures var s := Interleave(NewSystem(config), turns);
      var t := TakeTurn(s, turn);
      && |s.taken| <= |s.published| && |t.taken| <= |t.published|
      && (turn.Play? ==> |Queue(t)| <= |Queue(s)|)
      && (turn.Receive? ==> Queue(s) <= Queue(t))
  {
    FifoRefinement(config, turns, turn);
  }

  /** Over every interleaving: frames taken are a prefix of the accepted packets; so are the buffers
      handed to ALSA with their padding erased, and only the frames of a read in progress separate the
      two; each buffer is one period; and the prefill never sees a short read. */
  lemma EveryInterleaving(config: Config, turns: seq<Turn>)
    requires config.Valid()
    ensures var t := Interleave(NewSystem(config), turns);
      && t.taken <= Joined(t.accepted)
      && Erased(t.handed) <= t.taken
      && (!t.consumer.Handing? ==> Erased(t.handed) == t.taken)
      && (forall b :: b in t.handed ==> Proper(config, b))
      && (t.consumer.Handing? && t.consumer.stage.Prefill? ==> |t.consumer.dst| == config.period)
  {
    hide Joined;
    hide Erased;
    hide Proper;
    hide Inv;
    StartsOk(config);
    InterleaveKeeps(NewSystem(config), turns);
    StreamHere(Interleave(NewSystem(config), turns));
  }

  lemma StreamHere(t: System)
    requires Inv(t)
    ensures t.taken <= Joined(t.accepted) && Erased(t.handed) <= t.taken
    ensures !t.consumer.Handing? ==> Erased(t.handed) == t.taken
    ensures forall b :: b in t.handed ==> Proper(t.config, b)
    ensures t.consumer.Handing? && t.consumer.stage.Prefill? ==> |t.consumer.dst| == t.config.period
  {
    hide Joined;
    hide Erased;
    hide Proper;
    hide Stored;
    hide ProducerOk;
    if !t.consumer.Handing? {
      assert Erased(t.handed) + [] == Erased(t.handed);
    }
  }

  // ---------------------------------------------------------------- what was handed over stays

  lemma InterleaveCons(s: System, e: Turn, es: seq<Turn>)
    ensures Interleave(s, [e] + es) == Interleave(TakeTurn(s, e), es)
  {
    hide TakeTurn;
    assert ([e] + es)[1..] == es;
  }

  lemma InterleaveConcat(s: System, a: seq<Turn>, b: seq<Turn>)
    ensures Interleave(s, a + b) == Interleave(Interleave(s, a), b)
  {
    hide TakeTurn;
    forall t, e, es ensures Interleave(t, [e] + es) == Interleave(TakeTurn(t, e), es) {
      InterleaveCons(t, e, es);
    }
    RunConcat(Interleave, TakeTurn, s, a, b);
  }

  lemma InterleaveSnoc(s: System, turns: seq<Turn>, turn: Turn)
    ensures Interleave(s, turns + [turn]) == TakeTurn(Interleave(s, turns), turn)
  {
    InterleaveConcat(s, turns, [turn]);
    assert [turn] == [turn] + [];
    InterleaveCons(Interleave(s, turns), turn, []);
  }

  /** A step hands over at most one buffer and takes none back. */
  lemma HandsOver(s: System, turn: Turn)
    ensures s.handed <= TakeTurn(s, turn).handed
    ensures s.accepted <= TakeTurn(s, turn).accepted
  {
  }

  lemma {:induction false} HandedGrows(s: System, turns: seq<Turn>)
    ensures s.handed <= Interleave(s, turns).handed && s.accepted <= Interleave(s, turns).accepted
    decreases |turns|
  {
    hide TakeTurn;
    if turns != [] {
      HandsOver(s, turns[0]);
      HandedGrows(TakeTurn(s, turns[0]), turns[1..]);
    }
  }

  lemma {:induction false} ErasedPrefix(handed: seq<Buffer>, n: nat)
    requires n <= |handed|
    ensures Erased(handed[..n]) <= Erased(handed)
  {
    if n < |handed| {
      var rest := handed[..|handed| - 1];
      ErasedPrefix(rest, n);
      assert rest[..n] == handed[..n];
    } else {
      assert handed[..n] == handed;
    }
  }

  /** However a run goes on, what ALSA was given before stays given: the stream it is handed, padding erased,
      only grows at its end. */
  lemma StreamOnlyGrows(config: Config, turns: seq<Turn>, more: seq<Turn>)
    ensures var s := Interleave(NewSystem(config), turns);
      var t := Interleave(NewSystem(config), turns + more);
      s.handed <= t.handed && s.accepted <= t.accepted && Erased(s.handed) <= Erased(t.handed)
  {
    InterleaveConcat(NewSystem(config), turns, more);
    var s := Interleave(NewSystem(config), turns);
    var t := Interleave(s, more);
    HandedGrows(s, more);
    ErasedPrefix(t.handed, |s.handed|);
    assert t.handed[..|s.handed|] == s.handed;
  }
}
