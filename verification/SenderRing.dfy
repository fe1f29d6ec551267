/** The sender's frame ring over an atomic bounded queue, and one round of the network thread. */
module SenderRing {
  import opened Audio
  import opened Wire
  import opened Drift

  /** Interleaved samples as frames; an odd last sample is ignored. */
  function Deinterleave(samples: seq<Sample>): (frames: seq<Frame>)
    ensures |frames| == |samples| / 2
  {
    seq(|samples| / 2, i requires 0 <= i < |samples| / 2 => Frame(samples[2 * i], samples[2 * i + 1]))
  }

  /** The samples keep their order. */
  lemma {:induction false} DeinterleaveIs(samples: seq<Sample>, n: nat)
    requires 2 * n <= |samples|
    ensures Interleaved(Deinterleave(samples)[..n]) == samples[..2 * n]
    decreases n
  {
    if n > 0 {
      var frames := Deinterleave(samples);
      DeinterleaveIs(samples, n - 1);
      assert frames[..n] == frames[..n - 1] + [frames[n - 1]];
      InterleavedSnoc(frames[..n - 1], frames[n - 1]);
      assert samples[..2 * n] == samples[..2 * (n - 1)] + [samples[2 * n - 2], samples[2 * n - 1]];
    }
  }

  class FrameRing {
    var queue: seq<Frame>
    const capacity: nat

    ghost predicate Valid()
      reads this
    {
      |queue| <= capacity
    }

    constructor (capacity: nat)
      ensures Valid() && queue == [] && this.capacity == capacity
    {
      this.capacity := capacity;
      queue := [];
    }

    method Push(frame: Frame) returns (ok: bool)
      requires Valid()
      modifies this
      ensures Valid() && ok == (|old(queue)| < capacity)
      ensures queue == if ok then old(queue) + [frame] else old(queue)
    {
      ok := |queue| < capacity;
      if ok {
        queue := queue + [frame];
      }
    }

    method Pop() returns (r: Option<Frame>)
      requires Valid()
      modifies this
      ensures Valid()
      ensures if old(queue) == [] then r == None && queue == []
              else r == Some(old(queue)[0]) && queue == old(queue)[1..]
    {
      if queue == [] {
        r := None;
      } else {
        r := Some(queue[0]);
        queue := queue[1..];
      }
    }

    /** Appends as many leading frames as fit and drops the rest. */
    method WriteFrames(interleaved: seq<Sample>) returns (written: nat)
      requires Valid()
      modifies this
      ensures Valid() && written == Min(|interleaved| / 2, capacity - |old(queue)|)
      ensures queue == old(queue) + Deinterleave(interleaved)[..written]
      ensures Interleaved(queue[|old(queue)|..]) == interleaved[..2 * written]
    {
      var frameCount := |interleaved| / 2;
      written := 0;
      ghost var frames := Deinterleave(interleaved);
      for i := 0 to frameCount
        invariant Valid() && written == i
        invariant queue == old(queue) + frames[..i]
      {
        var ok := Push(Frame(interleaved[i * 2], interleaved[i * 2 + 1]));
        if !ok {
          break;
        }
        assert frames[..i + 1] == frames[..i] + [frames[i]];
        written := written + 1;
      }
      DeinterleaveIs(interleaved, written);
      assert queue[|old(queue)|..] == frames[..written];
    }

    /** Moves up to `out.Length` frames, oldest first; the rest of `out` keeps its content. */
    method ReadFrames(out: array<Frame>) returns (read: nat)
      requires Valid()
      modifies this, out
      ensures Valid() && read == Min(out.Length, |old(queue)|)
      ensures out[..] == old(queue[..read]) + old(out[read..])
      ensures queue == old(queue[read..])
    {
      read := 0;
      for i := 0 to out.Length
        invariant Valid() && read == i <= |old(queue)|
        invariant queue == old(queue)[i..]
        invariant forall k :: 0 <= k < i ==> out[k] == old(queue)[k]
        invariant forall k :: i <= k < out.Length ==> out[k] == old(out[k])
      {
        var frame := Pop();
        if frame.None? {
          break;
        }
        out[i] := frame.value;
        read := read + 1;
      }
    }
  }

  /** The sender: its ring, its packetizer, and the network thread's frame buffer and drift estimator. */
  class Sender {
    const ring: FrameRing
    const packetizer: Packetizer
    const frameBuf: array<Frame>
    const drift: DriftEstimator

    ghost predicate Valid()
      reads this, ring, drift, drift.samples
    {
      ring.Valid() && drift.Valid()
    }

    constructor (capacity: nat, framesPerPacket: nat)
      ensures Valid() && ring.queue == [] && ring.capacity == capacity
      ensures packetizer.seqno == 0 && frameBuf.Length == framesPerPacket && drift.history == []
      ensures fresh(ring) && fresh(packetizer) && fresh(frameBuf) && fresh(drift) && fresh(drift.samples)
    {
      ring := new FrameRing(capacity);
      packetizer := new Packetizer();
      frameBuf := new Frame[framesPerPacket](_ => SILENCE);
      drift := new DriftEstimator();
    }

    /** One wake-up: at most one packet, holding the oldest frames of the ring; a packet makes the drift
        estimator record what is left. */
    method Round(timestampNs: U64) returns (packet: Option<seq<Byte>>)
      requires Valid()
      modifies ring, packetizer, frameBuf, drift, drift.samples
      ensures Valid()
      ensures var read := Min(frameBuf.Length, |old(ring.queue)|);
        && ring.queue == old(ring.queue)[read..]
        && if read == 0 then
             packet == None && packetizer.seqno == old(packetizer.seqno) && drift.history == old(drift.history)
           else
             && packet == Some(PacketBytes(old(packetizer.seqno), old(ring.queue)[..read], timestampNs))
             && packetizer.seqno == (old(packetizer.seqno) + 1) % 0x1_0000_0000
             && drift.history == old(drift.history) + [|ring.queue| as real]
    {
      var read := ring.ReadFrames(frameBuf);
      packet := None;
      if read > 0 {
        assert frameBuf[..read] == old(ring.queue)[..read];
        var bytes := packetizer.BuildPacket(frameBuf[..read], timestampNs);
        packet := Some(bytes);
        drift.Push(|ring.queue|);
      }
    }
  }
}
