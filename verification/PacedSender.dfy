/** The network thread on its pacer: the waits themselves give the wake-ups that bound the sender's backlog. */
module PacedSender {
  import opened Pacing
  import opened Backlog

  /** Nanoseconds, as the pacer counts them, in milliseconds. */
  function Ms(t: int): real { t as real / 1_000_000.0 }

  lemma MsAdds(a: int, k: nat, b: nat)
    ensures Ms(a + k * b) == Ms(a) + k as real * Ms(b)
  {
    assert (k * b) as real == k as real * b as real;
    assert (k as real * b as real) / 1_000_000.0 == k as real * (b as real / 1_000_000.0);
  }

  lemma MsKeepsOrder(a: int, b: int)
    requires a <= b
    ensures Ms(a) <= Ms(b)
  {
  }

  /** The ring at the first wake-up, with `initial` frames already written. */
  function First(p: Setup, initial: nat): Ring { Ring(initial, 0, p.start, [], 0, 0) }

  lemma {:induction false} ExecuteSnoc(p: Setup, q: Ring, events: seq<Event>, ev: Event)
    requires q.level <= p.capacity && Admissible(p, q, events)
    requires Execute(p, q, events).level <= p.capacity
    requires Timely(p, Execute(p, q, events), ev) && Steady(Step(p, Execute(p, q, events), ev).arrivals)
    ensures Execute(p, q, events + [ev]) == Step(p, Execute(p, q, events), ev)
    ensures Admissible(p, q, events + [ev])
    decreases |events|
  {
    hide Step;
    hide Timely;
    hide Steady;
    if events == [] {
      assert [] + [ev] == [ev] && [ev][1..] == [];
      StepFits(p, q, ev);
      assert Admissible(p, Step(p, q, ev), []);
    } else {
      StepFits(p, q, events[0]);
      ExecuteSnoc(p, Step(p, q, events[0]), events[1..], ev);
      assert (events + [ev])[1..] == events[1..] + [ev];
    }
  }

  lemma {:induction false} SteadyAfter(p: Setup, q: Ring, events: seq<Event>)
    requires q.level <= p.capacity && Admissible(p, q, events)
    ensures Steady(Execute(p, q, events).arrivals)
    decreases |events|
  {
    if events != [] {
      SteadyAfter(p, Step(p, q, events[0]), events[1..]);
    }
  }

  /** A network thread that wakes by its pacer, with the history of the ring it drains. */
  class PacedSender {
    const pacer: Pacer
    ghost const framesPerPacket: nat
    ghost const capacity: nat
    ghost const initial: nat
    ghost const lateness: nat              // nanoseconds
    ghost var ring: Ring
    ghost var events: seq<Event>

    ghost function Plan(): Setup
      reads this, pacer
    {
      Setup(Ms(pacer.baseline), Ms(pacer.interval), framesPerPacket, Ms(lateness), capacity)
    }

    /** The history is an admissible run of the ring. */
    ghost predicate Consistent()
      reads this, pacer
    {
      && initial <= capacity && ring.level <= capacity
      && Admissible(Plan(), First(Plan(), initial), events)
      && ring == Execute(Plan(), First(Plan(), initial), events)
    }

    ghost predicate Valid()
      reads this, pacer
    {
      && pacer.Valid() && pacer.waits > 0 && pacer.interval == PacketDurationMs(framesPerPacket) * 1_000_000
      && ring.wakes == pacer.waits && Consistent()
    }

    /** The network thread's first wait returns at once, at `now`. */
    constructor (now: int, framesPerPacket: nat, capacity: nat, initial: nat, lateness: nat)
      requires initial <= capacity
      ensures Valid() && Plan().start == Ms(now) && Plan().lateness == Ms(lateness)
      ensures this.framesPerPacket == framesPerPacket && this.capacity == capacity && this.initial == initial
      ensures fresh(pacer)
    {
      this.framesPerPacket, this.capacity := framesPerPacket, capacity;
      this.initial, this.lateness := initial, lateness;
      pacer := new Pacer(PacketDurationMs(framesPerPacket) * 1_000_000);
      ring := Ring(initial, 0, Ms(now), [], 0, 0);
      events := [];
      new;
      var wake := pacer.Wait(now, now);
      MsAdds(now, 0, 0);
      Record(Event.Wake(Ms(wake)));
    }

    ghost method Record(ev: Event)
      requires Consistent() && Timely(Plan(), ring, ev) && Steady(Step(Plan(), ring, ev).arrivals)
      modifies this`ring, this`events
      ensures Consistent() && ring == Step(Plan(), old(ring), ev) && events == old(events) + [ev]
    {
      hide Step;
      hide Steady;
      hide Timely;
      hide Admissible;
      hide Execute;
      ExecuteSnoc(Plan(), First(Plan(), initial), events, ev);
      StepFits(Plan(), ring, ev);
      ring := Step(Plan(), ring, ev);
      events := events + [ev];
    }

    /** The audio callback writes `burst`, before the next wake-up is overdue. */
    ghost method Arrive(burst: Burst)
      requires Valid() && Steady(ring.arrivals + [burst])
      requires ring.now <= burst.at <= Ms(pacer.Deadline(pacer.waits) + lateness)
      modifies this`ring, this`events
      ensures Valid() && ring == Step(Plan(), old(ring), Write(burst)) && events == old(events) + [Write(burst)]
    {
      DueIs();
      Record(Write(burst));
    }

    lemma DueIs()
      ensures forall k: nat :: Plan().Due(k) == Ms(pacer.Deadline(k))
      ensures forall k: nat :: Plan().Due(k) + Plan().lateness == Ms(pacer.Deadline(k) + lateness)
    {
      forall k: nat
        ensures Plan().Due(k) == Ms(pacer.Deadline(k))
        ensures Plan().Due(k) + Plan().lateness == Ms(pacer.Deadline(k) + lateness)
      {
        MsAdds(pacer.baseline, k, pacer.interval);
        MsAdds(pacer.Deadline(k), 1, lateness);
      }
    }

    /** One wait and the read after it: the thread comes to the wait and out of its sleep at most `lateness`
        after the deadline, and no sleep ends early. */
    method Wake(now: int, woken: int) returns (wake: int)
      requires Valid() && ring.now <= Ms(now) && now <= woken
      requires pacer.Deadline(pacer.waits) <= woken
      requires (if now < pacer.Deadline(pacer.waits) then woken else now) <= pacer.Deadline(pacer.waits) + lateness
      modifies this`ring, this`events, pacer
      ensures Valid() && pacer.waits == old(pacer.waits) + 1 && Plan() == old(Plan())
      ensures ring == Step(Plan(), old(ring), Event.Wake(Ms(wake)))
      ensures events == old(events) + [Event.Wake(Ms(wake))]
    {
      ghost var p := Plan();
      ghost var k := pacer.waits;
      DueIs();
      SteadyAfter(p, First(p, initial), events);
      wake := pacer.Wait(now, woken);
      assert Plan() == p;
      MsKeepsOrder(now, wake);
      MsKeepsOrder(pacer.Deadline(k), wake);
      MsKeepsOrder(wake, pacer.Deadline(k) + lateness);
      Record(Event.Wake(Ms(wake)));
    }
  }

  /** The backlog bound, of the paced sender: at every moment the ring holds at most the larger of its initial
      backlog and one packet, 128 frames, and 48 frames per millisecond of lateness; and nothing is dropped if
      it can hold that much. */
  lemma PacedBound(s: PacedSender)
    requires s.Valid()
    ensures var most := Limit(s.Plan(), s.initial);
      s.ring.level as real <= most && (most <= s.capacity as real ==> s.ring.dropped == 0)
    ensures Limit(s.Plan(), s.initial) ==
      (if s.initial < s.framesPerPacket then s.framesPerPacket else s.initial) as real
      + 128.0 + 48.0 * s.lateness as real / 1_000_000.0
  {
    var ms := PacketDurationMs(s.framesPerPacket);
    IntervalsQualify(s.framesPerPacket, 1, 1);
    MsAdds(0, ms, 1_000_000);
    BacklogBound(s.Plan(), s.initial, s.events);
  }
}
