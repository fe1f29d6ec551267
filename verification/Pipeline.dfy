/** The pipeline as objects: the sender's ring, packetizer and network round, and the receiver's jitter
    buffer, driven call by call. Each call is a run of the end-to-end system, so its theorems hold of the
    objects. */
module Pipeline {
  import opened Audio
  import opened Wire
  import opened SenderRing
  import opened JitterSpec
  import opened EndToEnd
  import opened EndToEndDelivery
  import opened SeqNum
  import Engine = Lifecycle
  import Receiver = JitterBuffer

  class Pipeline {
    const machine: Engine.StateMachine
    const sender: Sender
    const receiver: Receiver.JitterBuffer
    var producer: FrameRing?               // the client's end of the sender's ring, if the engine holds one
    var sent: seq<seq<Byte>>
    ghost const start: Link
    ghost var events: seq<EndToEnd.Event>
    ghost var link: Link

    ghost predicate Separate()
      reads this
    {
      var samples := sender.drift.samples;
      && this as object !in {machine as object, sender.ring, sender.packetizer, sender.frameBuf, sender.drift, samples}
      && receiver as object !in
         {this as object, machine, sender.ring, sender.packetizer, sender.frameBuf, sender.drift, samples}
      && sender.ring as object !in {machine as object, sender.packetizer, sender.frameBuf, sender.drift, samples}
      && machine as object !in {sender.packetizer as object, sender.frameBuf, sender.drift, samples}
    }

    /** The objects hold what the end-to-end system says they hold, and no call is in progress. */
    ghost predicate Valid()
      reads this, sender, sender.ring, sender.packetizer, sender.drift, sender.drift.samples, receiver
    {
      && Separate() && sender.Valid() && receiver.Valid()
      && (producer != null ==> producer == sender.ring)
      && link.queue == sender.ring.queue && link.capacity == sender.ring.capacity
      && link.writing == [] && link.reader.Waiting?
      && link.framesPerPacket == sender.frameBuf.Length && link.seqno == sender.packetizer.seqno
      && link.sent == sent && |link.chunks| == |sent|
      && link.receiver == Run(receiver.Model(), receiver.trace)
      && start == NewLink(link.capacity, link.framesPerPacket, receiver.startFillFrames)
      && link == EndToEnd.Execute(start, events)
    }

    /** More events of the history. */
    ghost method Record(more: seq<EndToEnd.Event>)
      requires link == EndToEnd.Execute(start, events)
      modifies this`link, this`events
      ensures link == EndToEnd.Execute(old(link), more) && events == old(events) + more
      ensures link == EndToEnd.Execute(start, events)
    {
      hide EndToEnd.Execute;
      ExecuteConcat(start, events, more);
      link := EndToEnd.Execute(link, more);
      events := events + more;
    }

    /** An engine that has just been started. */
    constructor (capacity: nat, framesPerPacket: nat, startFillMs: U32)
      ensures Valid() && events == [] && machine.state == Engine.Starting && producer == sender.ring
      ensures start == NewLink(capacity, framesPerPacket, startFillMs * SAMPLE_RATE / 1000)
    {
      machine := new Engine.StateMachine();
      sender := new Sender(capacity, framesPerPacket);
      receiver := new Receiver.JitterBuffer(startFillMs);
      sent := [];
      start := NewLink(capacity, framesPerPacket, startFillMs * SAMPLE_RATE / 1000);
      link := NewLink(capacity, framesPerPacket, startFillMs * SAMPLE_RATE / 1000);
      events := [];
      new;
      producer := sender.ring;
      var started := machine.Start();
    }

    /** What `stop` does to the client's end of the ring. */
    method DropProducer()
      requires Valid()
      modifies this`producer
      ensures Valid() && producer == null
    {
      producer := null;
    }

    /** Accepts nothing unless the engine is Starting or Running and holds a producer; then it is an
        uninterrupted write call. */
    method Write(samples: seq<Sample>) returns (written: nat)
      requires Valid()
      modifies this`link, this`events, sender.ring
      ensures Valid()
      ensures if (machine.state == Engine.Starting || machine.state == Engine.Running) && producer != null then
                && events == old(events) + WriteCall(samples) && link == Written(old(link), samples)
                && written == Min(|samples| / 2, old(link.capacity - |link.queue|))
              else
                written == 0 && events == old(events) && link == old(link)
      ensures link.accepted == old(link.accepted) + samples[..2 * written]
    {
      hide Deinterleave;
      hide EndToEnd.Execute;
      hide WriteCall;
      if !machine.IsAcceptingAudio() || producer == null {
        assert link.accepted + samples[..0] == link.accepted;
        return 0;
      }
      WholeWrite(link, samples);
      written := producer.WriteFrames(samples);
      Record(WriteCall(samples));
    }

    /** A round of the network thread. */
    method Tick(timestampNs: U64)
      requires Valid()
      modifies this`link, this`events, this`sent
      modifies sender.ring, sender.packetizer, sender.frameBuf, sender.drift, sender.drift.samples
      ensures Valid() && link == Ticked(old(link), timestampNs)
      ensures events == old(events) + TickCall(link.framesPerPacket, timestampNs)
    {
      hide PacketBytes;
      hide EndToEnd.Execute;
      WholeTick(link, timestampNs);
      var packet := sender.Round(timestampNs);
      if packet.Some? {
        sent := sent + [packet.value];
      }
      Record(TickCall(link.framesPerPacket, timestampNs));
    }

    method Deliver(index: nat)
      requires Valid()
      modifies this`link, this`events, receiver
      ensures Valid() && link == EndToEnd.Step(old(link), EndToEnd.Deliver(index))
      ensures events == old(events) + [EndToEnd.Deliver(index)] && sent == old(sent)
      ensures index >= |sent| ==> receiver.Model() == old(receiver.Model()) && receiver.trace == old(receiver.trace)
      ensures index < |sent| && 1 <= sender.frameBuf.Length <= MAX_FRAMES ==>
        var pushed := JitterSpec.Push(Wrapped, old(receiver.Model()), Entry(Wrap(index), old(link.chunks)[index]));
        receiver.Model() == pushed.0 && receiver.trace == old(receiver.trace) + pushed.1
    {
      hide Parse;
      hide Push;
      hide EndToEnd.Execute;
      OneEvent(link, EndToEnd.Deliver(index));
      if 1 <= sender.frameBuf.Length <= MAX_FRAMES {
        SentParses(start, events, index);
      }
      if index < |sent| {
        receiver.Push(Received(sent[index]));
      }
      Record([EndToEnd.Deliver(index)]);
    }

    /** What is handed to the audio output is what the system's output grows by. */
    method Play(count: nat) returns (out: seq<Frame>)
      requires Valid()
      modifies this`link, this`events, receiver
      ensures Valid() && link == EndToEnd.Step(old(link), EndToEnd.Play(count))
      ensures events == old(events) + [EndToEnd.Play(count)]
      ensures receiver.Model() == Pop(Wrapped, old(receiver.Model()), count).0
      ensures out == Output(Pop(Wrapped, old(receiver.Model()), count).1)
      ensures Output(link.receiver.trace) == Output(old(link.receiver.trace)) + out
    {
      hide Pop;
      hide Output;
      hide EndToEnd.Execute;
      ghost var before := receiver.Model();
      OneEvent(link, EndToEnd.Play(count));
      OutputConcat(receiver.trace, Pop(Wrapped, before, count).1);
      out := receiver.PopFrames(count);
      Record([EndToEnd.Play(count)]);
    }
  }

  /** Whatever was sent parses to its number and frames. */
  lemma SentParses(start: Link, events: seq<EndToEnd.Event>, i: nat)
    requires 1 <= start.framesPerPacket <= MAX_FRAMES
    requires exists capacity, startFill :: start == NewLink(capacity, start.framesPerPacket, startFill)
    ensures var l := EndToEnd.Execute(start, events);
      i < |l.sent| ==> i < |l.chunks| && Parse(Received(l.sent[i])) == Packet(Wrap(i), l.chunks[i])
  {
    hide Parse;
    hide EndToEnd.Execute;
    hide EndToEnd.IsPacket;
    EndToEnd.StartsOk(start);
    SenderRuns(start, events);
    var l := EndToEnd.Execute(start, events);
    if i < |l.sent| {
      DeliveredParses(l.sent[i], i, l.chunks[i]);
    }
  }

  /** However the calls were interleaved, and whatever the network did to the datagrams: if they arrived
      within the window, no pop met a missing number and playback began with the first packet, then all
      that was ever played is a prefix of all that was ever accepted. */
  lemma PlayedIsPrefixOfWritten(p: Pipeline)
    requires p.Valid() && 1 <= p.link.framesPerPacket <= MAX_FRAMES && EndToEnd.Windowed(p.start, p.events)
    requires NoGap(p.receiver.trace) && JitterTimeline.TimelineOf(p.link.ideal.trace).first == Some(0)
    ensures Interleaved(Output(p.receiver.trace)) <= p.link.accepted
  {
    Lossless(p.link.capacity, p.link.framesPerPacket, p.receiver.startFillFrames, p.events);
  }

  /** And the other way round: when each of the first `n` packets was delivered in time, and then a playing
      receiver was asked for what remained of them, what was played begins with the samples they carry. */
  lemma DeliveredIsHeard(p: Pipeline, before: seq<EndToEnd.Event>, n: nat, count: nat)
    requires p.Valid() && 1 <= p.link.framesPerPacket <= MAX_FRAMES && n > 0
    requires p.events == before + [EndToEnd.Play(count)] && EndToEnd.Windowed(p.start, before)
    requires forall i :: 0 <= i < n ==> InTime(p.start, before, i)
    ensures var l := EndToEnd.Execute(p.start, before);
      && n <= |l.chunks|
      && var whole := |Joined(l.chunks[..n])|;
         (l.receiver.st.state == Playing && |Output(l.receiver.trace)| + count >= whole ==>
            2 * whole <= |l.accepted| && l.accepted[..2 * whole] <= Interleaved(Output(p.receiver.trace)))
  {
    hide EndToEnd.Execute;
    hide InTime;
    DeliveredIsPlayed(p.link.capacity, p.link.framesPerPacket, p.receiver.startFillFrames, before, n, count);
  }
}
