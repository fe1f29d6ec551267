/** The sender's ring between an audio callback and a paced network thread: how full it can get. */
module Backlog {
  import opened Audio
  import opened Pacing

  /** Times are in milliseconds. The network thread's wake-up `k` is due at `start + k * interval` and
      happens at most `lateness` after that. */
  datatype Setup = Setup(start: real, interval: real, framesPerPacket: nat, lateness: real, capacity: nat) {
    predicate Valid() {
      0.0 <= interval && 0.0 <= lateness && 48.0 * interval <= framesPerPacket as real
    }

    function Due(k: nat): real { start + k as real * interval }
  }

  datatype Burst = Burst(at: real, frames: nat)

  /** The ring's occupancy, the wake-ups so far, the clock, the arrivals, and the frames dropped and read. */
  datatype Ring = Ring(level: nat, wakes: nat, now: real, arrivals: seq<Burst>, dropped: nat, read: nat)

  datatype Event = Write(burst: Burst) | Wake(at: real)

  /** A write is tail-dropped at the capacity; a wake-up reads up to one packet. */
  function Step(p: Setup, q: Ring, ev: Event): Ring
    requires q.level <= p.capacity
  {
    match ev
    case Write(b) =>
      var kept := Min(b.frames, p.capacity - q.level);
      Ring(q.level + kept, q.wakes, b.at, q.arrivals + [b], q.dropped + b.frames - kept, q.read)
    case Wake(t) =>
      var taken := Min(q.level, p.framesPerPacket);
      Ring(q.level - taken, q.wakes + 1, t, q.arrivals, q.dropped, q.read + taken)
  }

  function Frames(bursts: seq<Burst>): nat {
    if bursts == [] then 0 else Frames(bursts[..|bursts| - 1]) + bursts[|bursts| - 1].frames
  }

  /** Over any `t` milliseconds at most `48 t + 128` frames arrive. */
  ghost predicate Steady(arrivals: seq<Burst>) {
    forall i, j :: 0 <= i <= j < |arrivals| ==>
      Frames(arrivals[i..j + 1]) as real <= 48.0 * (arrivals[j].at - arrivals[i].at) + 128.0
  }

  function At(ev: Event): real { if ev.Write? then ev.burst.at else ev.at }

  /** Time moves forward, no wake-up is early, and none is still due `lateness` after its deadline. */
  ghost predicate Timely(p: Setup, q: Ring, ev: Event) {
    && q.now <= At(ev) <= p.Due(q.wakes) + p.lateness
    && (ev.Wake? ==> p.Due(q.wakes) <= ev.at)
  }

  ghost predicate Admissible(p: Setup, q: Ring, events: seq<Event>)
    requires q.level <= p.capacity
    decreases |events|
  {
    if events == [] then Steady(q.arrivals)
    else Timely(p, q, events[0]) && Admissible(p, Step(p, q, events[0]), events[1..])
  }

  function Execute(p: Setup, q: Ring, events: seq<Event>): Ring
    requires q.level <= p.capacity
    decreases |events|
  {
    if events == [] then q else Execute(p, Step(p, q, events[0]), events[1..])
  }

  /** The occupancy that is never exceeded. */
  function Limit(p: Setup, initial: nat): real {
    (if initial < p.framesPerPacket then p.framesPerPacket else initial) as real + 128.0 + 48.0 * p.lateness
  }

  // ---------------------------------------------------------------- invariant

  /** The last moment the ring was known to be empty, or the start: when it was, what the ring held, and
      how many arrivals and wake-ups had been. */
  datatype Anchor = Anchor(at: real, base: nat, arrivals: nat, wakes: nat)

  ghost predicate Anchored(p: Setup, q: Ring, initial: nat, a: Anchor) {
    && a.arrivals <= |q.arrivals| && a.wakes <= q.wakes
    && a.at <= q.now <= p.Due(q.wakes) + p.lateness
    && (forall i :: a.arrivals <= i < |q.arrivals| ==> a.at <= q.arrivals[i].at <= q.now)
    && a.base as real + 48.0 * (p.Due(q.wakes) - a.at) - (p.framesPerPacket * (q.wakes - a.wakes)) as real
       <= Limit(p, initial) - 128.0 - 48.0 * p.lateness
  }

  /** Nothing was dropped and the ring holds what came in since the anchor less what went out. */
  ghost predicate Lossless(p: Setup, q: Ring, a: Anchor)
    requires a.arrivals <= |q.arrivals| && a.wakes <= q.wakes
  {
    && q.dropped == 0
    && q.level == a.base + Frames(q.arrivals[a.arrivals..]) - p.framesPerPacket * (q.wakes - a.wakes)
  }

  lemma LevelBound(p: Setup, q: Ring, initial: nat, a: Anchor)
    requires p.Valid() && Anchored(p, q, initial, a) && Steady(q.arrivals)
    ensures var level := a.base + Frames(q.arrivals[a.arrivals..]) - p.framesPerPacket * (q.wakes - a.wakes);
      level as real <= Limit(p, initial)
  {
    var since := q.arrivals[a.arrivals..];
    if since != [] {
      var j := |q.arrivals| - 1;
      assert q.arrivals[a.arrivals..j + 1] == since;
      assert Frames(since) as real <= 48.0 * (q.arrivals[j].at - q.arrivals[a.arrivals].at) + 128.0;
    }
  }

  lemma DueNext(p: Setup, k: nat)
    ensures p.Due(k + 1) == p.Due(k) + p.interval
  {
    assert (k + 1) as real * p.interval == k as real * p.interval + p.interval;
  }

  lemma FramesSnoc(bursts: seq<Burst>, b: Burst)
    ensures Frames(bursts + [b]) == Frames(bursts) + b.frames
  {
    assert (bursts + [b])[..|bursts|] == bursts;
  }

  lemma WriteKeeps(p: Setup, q: Ring, initial: nat, a: Anchor, b: Burst)
    requires p.Valid() && Anchored(p, q, initial, a) && Lossless(p, q, a) && q.level <= p.capacity
    requires Timely(p, q, Write(b)) && Steady(q.arrivals + [b]) && Limit(p, initial) <= p.capacity as real
    ensures var r := Step(p, q, Write(b)); Anchored(p, r, initial, a) && Lossless(p, r, a)
  {
    hide Frames;
    hide Steady;
    var r := Ring(q.level + b.frames, q.wakes, b.at, q.arrivals + [b], 0, q.read);
    var since := q.arrivals[a.arrivals..];
    assert r.arrivals[a.arrivals..] == since + [b];
    FramesSnoc(since, b);
    LevelBound(p, r, initial, a);
  }

  function NextAnchor(p: Setup, q: Ring, a: Anchor, t: real): Anchor {
    if q.level <= p.framesPerPacket then Anchor(t, 0, |q.arrivals|, q.wakes + 1) else a
  }

  lemma WakeKeeps(p: Setup, q: Ring, initial: nat, a: Anchor, t: real)
    requires p.Valid() && Anchored(p, q, initial, a) && Lossless(p, q, a) && q.level <= p.capacity
    requires Timely(p, q, Wake(t))
    ensures var r := Step(p, q, Wake(t)); var a' := NextAnchor(p, q, a, t);
      Anchored(p, r, initial, a') && Lossless(p, r, a')
  {
    DueNext(p, q.wakes);
    if q.level > p.framesPerPacket {
      assert p.framesPerPacket * (q.wakes + 1 - a.wakes) == p.framesPerPacket * (q.wakes - a.wakes) + p.framesPerPacket;
    }
  }

  lemma {:induction false} SteadyPrefix(arrivals: seq<Burst>, n: nat)
    requires Steady(arrivals) && n <= |arrivals|
    ensures Steady(arrivals[..n])
  {
    forall i, j | 0 <= i <= j < n
      ensures Frames(arrivals[..n][i..j + 1]) as real <= 48.0 * (arrivals[j].at - arrivals[i].at) + 128.0
    {
      assert arrivals[..n][i..j + 1] == arrivals[i..j + 1];
    }
  }

  lemma {:induction false} ArrivalsGrow(p: Setup, q: Ring, events: seq<Event>)
    requires q.level <= p.capacity && Admissible(p, q, events)
    ensures Steady(q.arrivals)
    decreases |events|
  {
    if events != [] {
      var r := Step(p, q, events[0]);
      ArrivalsGrow(p, r, events[1..]);
      SteadyPrefix(r.arrivals, |q.arrivals|);
      assert r.arrivals[..|q.arrivals|] == q.arrivals;
    }
  }

  lemma {:induction false} RunKeeps(p: Setup, q: Ring, initial: nat, a: Anchor, events: seq<Event>)
    requires p.Valid() && q.level <= p.capacity && Limit(p, initial) <= p.capacity as real
    requires Anchored(p, q, initial, a) && Lossless(p, q, a) && Admissible(p, q, events)
    ensures var r := Execute(p, q, events);
      r.dropped == 0 && r.level as real <= Limit(p, initial)
    decreases |events|
  {
    ArrivalsGrow(p, q, events);
    if events == [] {
      LevelBound(p, q, initial, a);
    } else {
      var r := Step(p, q, events[0]);
      ArrivalsGrow(p, r, events[1..]);
      match events[0] {
        case Write(b) =>
          WriteKeeps(p, q, initial, a, b);
          RunKeeps(p, r, initial, a, events[1..]);
        case Wake(t) =>
          WakeKeeps(p, q, initial, a, t);
          RunKeeps(p, r, initial, NextAnchor(p, q, a, t), events[1..]);
      }
    }
  }

  lemma StepCounts(p: Setup, q: Ring, ev: Event)
    requires q.level <= p.capacity
    ensures var r := Step(p, q, ev);
      && r.level + r.read + r.dropped + Frames(q.arrivals) == q.level + q.read + q.dropped + Frames(r.arrivals)
      && (r.dropped > q.dropped ==> r.level == p.capacity)
  {
    if ev.Write? {
      FramesSnoc(q.arrivals, ev.burst);
    }
  }

  /** Over every run, whatever its timing, each frame that was there or arrived is in the ring, was read or was
      dropped; and none is dropped while there is room. */
  lemma {:induction false} FramesConserved(p: Setup, q: Ring, events: seq<Event>)
    requires q.level <= p.capacity
    ensures var r := Execute(p, q, events);
      r.level + r.read + r.dropped + Frames(q.arrivals) == q.level + q.read + q.dropped + Frames(r.arrivals)
    ensures forall k :: 0 <= k < |events| ==>
      var s, t := Execute(p, q, events[..k]), Execute(p, q, events[..k + 1]);
      t.dropped > s.dropped ==> t.level == p.capacity
    decreases |events|
  {
    hide Frames;
    if events != [] {
      hide Step;
      StepFits(p, q, events[0]);
      StepCounts(p, q, events[0]);
      var r := Step(p, q, events[0]);
      FramesConserved(p, r, events[1..]);
      forall k | 0 <= k < |events|
        ensures var s, t := Execute(p, q, events[..k]), Execute(p, q, events[..k + 1]);
          t.dropped > s.dropped ==> t.level == p.capacity
      {
        assert events[..k + 1][1..] == events[1..][..k];
        if k > 0 {
          assert events[..k][1..] == events[1..][..k - 1];
        } else {
          assert events[..0] == [];
        }
      }
    }
  }

  lemma StepFits(p: Setup, q: Ring, ev: Event)
    requires q.level <= p.capacity
    ensures Step(p, q, ev).level <= p.capacity
  {
  }

  lemma {:induction false} WithinCapacity(p: Setup, q: Ring, events: seq<Event>)
    requires q.level <= p.capacity
    ensures Execute(p, q, events).level <= p.capacity
    decreases |events|
  {
    if events != [] {
      WithinCapacity(p, Step(p, q, events[0]), events[1..]);
    }
  }

  /** The backlog bound: from any initial backlog the occupancy stays within
      max(initial, one packet) + 128 + 48 * lateness, and no frame is dropped if the ring holds that much. */
  lemma BacklogBound(p: Setup, initial: nat, events: seq<Event>)
    requires p.Valid() && initial <= p.capacity
    requires Admissible(p, Ring(initial, 0, p.start, [], 0, 0), events)
    ensures var r := Execute(p, Ring(initial, 0, p.start, [], 0, 0), events);
      && r.level as real <= Limit(p, initial)
      && (Limit(p, initial) <= p.capacity as real ==> r.dropped == 0)
  {
    var q := Ring(initial, 0, p.start, [], 0, 0);
    if Limit(p, initial) <= p.capacity as real {
      RunKeeps(p, q, initial, Anchor(p.start, initial, 0, 0), events);
    } else {
      WithinCapacity(p, q, events);
    }
  }

  /** The engine's own settings meet the bound's hypothesis on the interval, in milliseconds and, on
      macOS, in timer ticks of `numer / denom` nanoseconds. */
  lemma IntervalsQualify(framesPerPacket: nat, numer: nat, denom: nat)
    requires numer > 0 && denom > 0
    ensures var ms := PacketDurationMs(framesPerPacket);
      && 48.0 * ms as real <= framesPerPacket as real
      && 48.0 * (IntervalTicks(ms, numer, denom) as real * numer as real / denom as real / 1_000_000.0)
         <= framesPerPacket as real
  {
    var ms := PacketDurationMs(framesPerPacket);
    IntervalFits(framesPerPacket);
    TicksFit(ms, numer, denom);
    var ticks := IntervalTicks(ms, numer, denom);
    assert (ticks * numer) as real <= (ms * 1_000_000 * denom) as real;
    QuotientBound((ticks * numer) as real, ms as real * 1_000_000.0, denom as real);
    assert ticks as real * numer as real == (ticks * numer) as real;
  }

  lemma QuotientBound(x: real, y: real, d: real)
    requires d > 0.0 && x <= y * d
    ensures x / d <= y
  {
    assert (y * d - x) / d >= 0.0;
    assert (y * d - x) / d == y - x / d;
  }
}
