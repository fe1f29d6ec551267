/** The receiver's jitter buffer, with a ghost history of its actions. */
module JitterBuffer {
  import opened Audio
  import opened SeqNum
  import opened Wire
  import opened JitterSpec
  import opened JitterLedger

  class JitterBuffer {
    var buf: seq<Entry>
    var state: Playback
    const startFillFrames: nat
    var nextPlaySeq: Option<int>
    var packetsReceived: nat
    var packetsDropped: nat
    var silenceFramesInserted: nat
    var underruns: nat
    var badMagicCount: nat
    var versionMismatchCount: nat
    ghost var trace: seq<Action>

    ghost function Model(): Jitter
      reads this
    {
      Jitter(buf, state, startFillFrames, nextPlaySeq,
             packetsReceived, packetsDropped, silenceFramesInserted, underruns)
    }

    ghost predicate Valid()
      reads this
    {
      PlaybackOk(Model()) && Balanced(Run(Model(), trace))
    }

    constructor (startFillMs: U32)
      ensures Valid() && trace == []
      ensures Model() == NewJitter(startFillMs * SAMPLE_RATE / 1000)
      ensures badMagicCount == 0 && versionMismatchCount == 0
    {
      startFillFrames := startFillMs * SAMPLE_RATE / 1000;
      buf, state, nextPlaySeq := [], Filling, None;
      packetsReceived, packetsDropped, silenceFramesInserted, underruns := 0, 0, 0, 0;
      badMagicCount, versionMismatchCount := 0, 0;
      trace := [];
    }

    /** Accepts a datagram: a well-formed packet takes one push of the transition system; anything else
        only moves the counter of its kind. */
    method Push(raw: seq<Byte>)
      requires Valid()
      modifies this
      ensures Valid()
      ensures match Parse(raw)
        case Packet(n, frames) =>
          && Model() == JitterSpec.Push(Wrapped, old(Model()), Entry(n, frames)).0
          && trace == old(trace) + JitterSpec.Push(Wrapped, old(Model()), Entry(n, frames)).1
          && badMagicCount == old(badMagicCount) && versionMismatchCount == old(versionMismatchCount)
        case other =>
          && Model() == old(Model()) && trace == old(trace)
          && badMagicCount == old(badMagicCount) + (if other.BadMagic? then 1 else 0)
          && versionMismatchCount == old(versionMismatchCount) + (if other.BadVersion? then 1 else 0)
    {
      hide Balanced;
      hide PlaybackOk;
      if |raw| < HEADER_BYTES {
        return;
      }
      var header := FromBytes(raw[..HEADER_BYTES]);
      if header.None? {
        badMagicCount := badMagicCount + 1;
        return;
      }
      var hdr := header.value;
      if hdr.version > PROTO_VERSION {
        versionMismatchCount := versionMismatchCount + 1;
        return;
      }
      var payload := raw[HEADER_BYTES..];
      if |payload| < hdr.frames * 4 {
        return;
      }
      var frames := [];
      for i := 0 to hdr.frames
        invariant frames == DecodeFrames(payload, i)
        invariant unchanged(this)
      {
        var offset := i * 4;
        var l := SampleAt(payload[offset], payload[offset + 1]);
        var r := SampleAt(payload[offset + 2], payload[offset + 3]);
        frames := frames + [Frame(l, r)];
      }
      assert Parse(raw) == Packet(hdr.seqno, frames);
      Receive(Entry(hdr.seqno, frames));
    }

    /** The part of a push that follows parsing. */
    method Receive(entry: Entry)
      requires Valid()
      modifies this
      ensures Valid()
      ensures Model() == JitterSpec.Push(Wrapped, old(Model()), entry).0
      ensures trace == old(trace) + JitterSpec.Push(Wrapped, old(Model()), entry).1
      ensures badMagicCount == old(badMagicCount) && versionMismatchCount == old(versionMismatchCount)
    {
      hide Insert;
      hide TotalFrames;
      hide Balanced;
      ghost var before := Model();
      PushPlaybackOk(Wrapped, before, entry);
      PushBalanced(Wrapped, Run(before, trace), entry);
      trace := trace + JitterSpec.Push(Wrapped, before, entry).1;

      packetsReceived := packetsReceived + 1;
      if nextPlaySeq.Some? && SeqBefore(entry.seqno, nextPlaySeq.value) {
        packetsDropped := packetsDropped + 1;
        return;
      }
      var pos := 0;
      while pos < |buf| && !SeqBefore(entry.seqno, buf[pos].seqno)
        invariant 0 <= pos <= |buf|
        invariant forall k :: 0 <= k < pos ==> !SeqBefore(entry.seqno, buf[k].seqno)
      {
        pos := pos + 1;
      }
      SpliceIsInsert(buf, entry, pos);
      buf := buf[..pos] + [entry] + buf[pos..];
      if state == Filling || state == Underrun {
        if TotalFrames(buf) >= startFillFrames {
          state := Playing;
          if nextPlaySeq.None? {
            nextPlaySeq := Some(buf[0].seqno);
          }
        }
      }
    }

    /** Pops up to `count` frames: the whole pop loop of the transition system. The result is short
        exactly when the buffer runs dry. */
    method PopFrames(count: nat) returns (out: seq<Frame>)
      requires Valid()
      modifies this
      ensures Valid()
      ensures Model() == Pop(Wrapped, old(Model()), count).0
      ensures trace == old(trace) + Pop(Wrapped, old(Model()), count).1
      ensures out == Output(Pop(Wrapped, old(Model()), count).1)
      ensures old(state) == Playing ==> |out| <= count && (|out| < count <==> state == Underrun)
      ensures badMagicCount == old(badMagicCount) && versionMismatchCount == old(versionMismatchCount)
    {
      hide PopLoop;
      hide Output;
      hide Balanced;
      ghost var before := Run(Model(), trace);
      PopKeepsBooks(before, count);
      if state != Playing {
        assert trace + [] == trace;
        assert Output([]) == [] by { EmptyOutput(); }
        return [];
      }
      ShortPop(Wrapped, before.st, count);
      out := [];
      var remaining := count;
      ghost var all := PopLoop(Wrapped, before.st, count);
      ghost var left := all.1;
      EmptyOutput();
      while remaining > 0
        invariant 0 <= remaining
        invariant PopLoop(Wrapped, Model(), remaining) == (all.0, left)
        invariant Output(all.1) == out + Output(left)
        invariant startFillFrames == before.st.startFill
        invariant unchanged(`badMagicCount) && unchanged(`versionMismatchCount) && unchanged(`trace)
        decreases remaining, |buf|
      {
        ghost var a := PopStep(Wrapped, Model(), remaining).1;
        Unroll(Model(), remaining, out);
        if |buf| > 0 {
          var front := buf[0];
          var nextSeq := nextPlaySeq.GetOr(front.seqno);
          if front.seqno == nextSeq {
            var entry := buf[0];
            buf := buf[1..];
            var take := Min(remaining, |entry.frames|);
            out := out + entry.frames[..take];
            remaining := remaining - take;
            if take < |entry.frames| {
              buf := [Entry(entry.seqno, entry.frames[take..])] + buf;
            } else {
              assert entry.frames[..take] == entry.frames;
              nextPlaySeq := Some(Wrap(nextSeq + 1));
            }
          } else if SeqBefore(nextSeq, front.seqno) {
            var silenceCount := Min(remaining, DEFAULT_FRAMES_PER_PACKET);
            out := out + Repeat(SILENCE, silenceCount);
            remaining := remaining - silenceCount;
            silenceFramesInserted := silenceFramesInserted + silenceCount;
            nextPlaySeq := Some(Wrap(nextSeq + 1));
          } else {
            buf := buf[1..];
            packetsDropped := packetsDropped + 1;
            assert out + [] == out;
          }
          left := left[1..];
        } else {
          state := Underrun;
          underruns := underruns + 1;
          assert out + [] == out;
          break;
        }
      }
      if remaining == 0 {
        NothingLeft(Model());
        assert out + [] == out;
      }
      assert Model() == all.0;
      trace := trace + all.1;
    }
  }

  lemma {:induction false} SpliceIsInsert(buf: seq<Entry>, e: Entry, pos: nat)
    requires pos <= |buf|
    requires forall k :: 0 <= k < pos ==> !SeqBefore(e.seqno, buf[k].seqno)
    requires pos < |buf| ==> SeqBefore(e.seqno, buf[pos].seqno)
    ensures Insert(Wrapped, buf, e) == buf[..pos] + [e] + buf[pos..]
  {
    if pos > 0 {
      SpliceIsInsert(buf[1..], e, pos - 1);
      assert buf[..pos] == [buf[0]] + buf[1..][..pos - 1];
    }
  }

  lemma EmptyOutput()
    ensures Output([]) == []
  {
  }

  lemma NothingLeft(st: Jitter)
    ensures PopLoop(Wrapped, st, 0) == (st, []) && Output([]) == []
  {
  }

  /** One round of the loop, in terms of what is still to come. */
  lemma Unroll(st: Jitter, n: nat, out: seq<Frame>)
    requires n > 0
    ensures var (s, a) := PopStep(Wrapped, st, n);
      var all := PopLoop(Wrapped, st, n);
      if a.Starve? then all == (s, [a]) && Output(all.1) == []
      else
        var rest := PopLoop(Wrapped, s, n - |Sound(a)|);
        && all == (rest.0, [a] + rest.1) && all.1[1..] == rest.1
        && out + Output(all.1) == out + Sound(a) + Output(rest.1)
  {
    EmptyOutput();
    hide Output;
    var (s, a) := PopStep(Wrapped, st, n);
    if a.Starve? {
      OutputCons(a, []);
      assert [a] + [] == [a];
    } else {
      var rest := PopLoop(Wrapped, s, n - |Sound(a)|);
      OutputCons(a, rest.1);
      Associative(out, Sound(a), Output(rest.1));
    }
  }

  lemma PopKeepsBooks(r: Run, count: nat)
    requires PlaybackOk(r.st) && Balanced(r)
    ensures var (s, actions) := Pop(Wrapped, r.st, count);
      PlaybackOk(s) && Balanced(Run(s, r.trace + actions))
  {
    hide PopLoop;
    hide Balanced;
    PlaybackInductive(Wrapped);
    BalancedInductive(Wrapped);
    AdvanceKeeps(Wrapped, (q: Run) => PlaybackOk(q.st), r, Demand(count));
    AdvanceKeeps(Wrapped, Balanced, r, Demand(count));
  }
}
