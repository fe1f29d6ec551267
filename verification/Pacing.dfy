/** The packet interval and the pacer's absolute deadlines. */
module Pacing {
  import opened Audio

  /** Milliseconds of audio in a packet, truncated. */
  function PacketDurationMs(framesPerPacket: nat): nat {
    framesPerPacket * 1000 / SAMPLE_RATE
  }

  /** Truncation only shortens the interval: a packet covers its interval at 48 frames per millisecond,
      and would not cover one millisecond more. */
  lemma IntervalFits(framesPerPacket: nat)
    ensures var ms := PacketDurationMs(framesPerPacket);
      48 * ms <= framesPerPacket < 48 * (ms + 1)
  {
  }

  /** The interval in timer ticks, truncated again. */
  function IntervalTicks(ms: nat, numer: nat, denom: nat): nat
    requires numer > 0
  {
    ms * 1_000_000 * denom / numer
  }

  /** In ticks the interval is never longer than in milliseconds, and short by less than one tick. */
  lemma TicksFit(ms: nat, numer: nat, denom: nat)
    requires numer > 0
    ensures var ticks := IntervalTicks(ms, numer, denom);
      ticks * numer <= ms * 1_000_000 * denom < (ticks + 1) * numer
  {
    var x := ms * 1_000_000 * denom;
    assert x == numer * (x / numer) + x % numer;
  }

  /** The portable pacer. The clock's answers are parameters: `now` is read on entry, `woken` is when a
      sleep ends. */
  class Pacer {
    var next: Option<int>
    const interval: nat
    ghost var baseline: int
    ghost var waits: nat

    ghost function Deadline(k: nat): int
      reads this
    {
      baseline + k * interval
    }

    ghost predicate Valid()
      reads this
    {
      next == if waits == 0 then None else Some(Deadline(waits))
    }

    constructor (interval: nat)
      ensures Valid() && waits == 0 && this.interval == interval
    {
      this.interval := interval;
      next, waits := None, 0;
    }

    /** Wait number `k` returns no earlier than `baseline + k * interval`, without sleeping if that has
        passed; however late it returns, the next deadline is exactly one interval further on. */
    method Wait(now: int, woken: int) returns (wake: int)
      requires Valid()
      requires waits > 0 ==> Deadline(waits) <= woken
      modifies this
      ensures Valid() && waits == old(waits) + 1
      ensures baseline == if old(waits) == 0 then now else old(baseline)
      ensures wake == if old(waits) > 0 && now < Deadline(old(waits)) then woken else now
      ensures Deadline(old(waits)) <= wake
      ensures next == Some(Deadline(waits))
    {
      match next {
        case None =>
          next := Some(now + interval);
          baseline := now;
          wake := now;
        case Some(deadline) =>
          wake := if deadline > now then woken else now;
          next := Some(deadline + interval);
      }
      waits := waits + 1;
      assert Deadline(waits) == Deadline(waits - 1) + interval;
    }
  }

  /** The macOS pacer: the deadline in ticks, zero until the first wait. */
  class MacPacer {
    var nextAbs: nat
    const intervalAbs: nat
    ghost var baseline: nat
    ghost var waits: nat

    ghost function Deadline(k: nat): nat
      reads this
    {
      baseline + k * intervalAbs
    }

    ghost predicate Valid()
      reads this
    {
      if waits == 0 then nextAbs == 0 else baseline > 0 && nextAbs == Deadline(waits)
    }

    constructor (intervalMs: nat, numer: nat, denom: nat)
      requires numer > 0
      ensures Valid() && waits == 0 && intervalAbs == IntervalTicks(intervalMs, numer, denom)
    {
      intervalAbs := IntervalTicks(intervalMs, numer, denom);
      nextAbs, waits := 0, 0;
    }

    /** As for the portable pacer, on a clock that has left zero. */
    method Wait(now: nat, woken: nat) returns (wake: nat)
      requires Valid() && now > 0
      requires waits > 0 ==> Deadline(waits) <= woken
      modifies this
      ensures Valid() && waits == old(waits) + 1
      ensures baseline == if old(waits) == 0 then now else old(baseline)
      ensures wake == if old(waits) == 0 then now else woken
      ensures Deadline(old(waits)) <= wake
      ensures nextAbs == Deadline(waits)
    {
      if nextAbs == 0 {
        nextAbs := now + intervalAbs;
        baseline := now;
        wake := now;
      } else {
        wake := woken;
        nextAbs := nextAbs + intervalAbs;
      }
      waits := waits + 1;
      assert Deadline(waits) == Deadline(waits - 1) + intervalAbs;
    }
  }
}
