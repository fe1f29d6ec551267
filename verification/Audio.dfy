/** The audio format and the machine integers shared by the whole pipeline. */
module Audio {

  datatype Option<+T> = None | Some(value: T) {
    function GetOr(default: T): T {
      match this
      case Some(v) => v
      case None => default
    }
  }

  type Byte = x: int | 0 <= x < 0x100
  type Sample = x: int | -0x8000 <= x < 0x8000
  type U32 = x: int | 0 <= x < 0x1_0000_0000
  type U64 = x: int | 0 <= x < 0x1_0000_0000_0000_0000

  /** One stereo frame of signed 16-bit samples. */
  datatype Frame = Frame(left: Sample, right: Sample)

  const SILENCE := Frame(0, 0)

  const SAMPLE_RATE: nat := 48000
  const BYTES_PER_FRAME: nat := 4
  const DEFAULT_FRAMES_PER_PACKET: nat := 240
  const HEADER_BYTES: nat := 20
  const PROTO_MAGIC: nat := 0x5A4B
  const PROTO_VERSION: nat := 1

  /** Frames as interleaved samples: left, then right. */
  function Interleaved(frames: seq<Frame>): (samples: seq<Sample>)
    ensures |samples| == 2 * |frames|
  {
    if frames == [] then []
    else
      var last := frames[|frames| - 1];
      Interleaved(frames[..|frames| - 1]) + [last.left, last.right]
  }

  lemma InterleavedSnoc(frames: seq<Frame>, f: Frame)
    ensures Interleaved(frames + [f]) == Interleaved(frames) + [f.left, f.right]
  {
    assert (frames + [f])[..|frames|] == frames;
  }

  lemma {:induction false} InterleavedConcat(a: seq<Frame>, b: seq<Frame>)
    ensures Interleaved(a + b) == Interleaved(a) + Interleaved(b)
  {
    if b == [] {
      assert a + b == a;
    } else {
      var front, last := b[..|b| - 1], b[|b| - 1];
      assert b == front + [last];
      hide Interleaved;
      InterleavedConcat(a, front);
      Associative(a, front, [last]);
      InterleavedSnoc(a + front, last);
      InterleavedSnoc(front, last);
      Associative(Interleaved(a), Interleaved(front), [last.left, last.right]);
    }
  }

  lemma InterleavedPrefix(a: seq<Frame>, b: seq<Frame>)
    requires a <= b
    ensures Interleaved(a) <= Interleaved(b)
  {
    InterleavedConcat(a, b[|a|..]);
    assert a + b[|a|..] == b;
  }

  /** The format in bytes and time: a frame is two 16-bit samples, and a full packet plays for 5 ms. */
  lemma FormatIs(frames: seq<Frame>)
    ensures BYTES_PER_FRAME * |frames| == 2 * |Interleaved(frames)|
    ensures DEFAULT_FRAMES_PER_PACKET * 1000 == 5 * SAMPLE_RATE
    ensures Interleaved([SILENCE]) == [0, 0]
  {
    assert Interleaved([]) == [] && [] + [SILENCE] == [SILENCE];
    InterleavedSnoc([], SILENCE);
  }

  function Min(a: nat, b: nat): nat { if a < b then a else b }

  function Repeat<T>(x: T, n: nat): seq<T> { seq(n, _ => x) }

  lemma Associative<T>(a: seq<T>, b: seq<T>, c: seq<T>)
    ensures a + (b + c) == a + b + c
  {
  }

  /** The parts of a sequence of sequences, one after the other. */
  function Joined<T>(parts: seq<seq<T>>): seq<T> {
    if parts == [] then [] else Joined(parts[..|parts| - 1]) + parts[|parts| - 1]
  }

  lemma JoinedSnoc<T>(parts: seq<seq<T>>, last: seq<T>)
    ensures Joined(parts + [last]) == Joined(parts) + last
  {
    assert (parts + [last])[..|parts|] == parts;
  }

  /** `cells` with `src` copied over them from index `at` on. */
  function Pasted<T>(cells: seq<T>, at: nat, src: seq<T>): seq<T>
    requires at + |src| <= |cells|
  {
    cells[..at] + src + cells[at + |src|..]
  }

  method CopyAt<T>(dst: array<T>, at: nat, src: seq<T>)
    requires at + |src| <= dst.Length
    modifies dst
    ensures dst[..] == Pasted(old(dst[..]), at, src)
  {
    forall i | 0 <= i < |src| {
      dst[at + i] := src[i];
    }
  }

  lemma PastedFront<T>(cells: seq<T>, a: seq<T>)
    requires |a| <= |cells|
    ensures Pasted(cells, 0, a) == a + cells[|a|..]
  {
  }

  lemma PastedNext<T>(cells: seq<T>, a: seq<T>, b: seq<T>)
    requires |a| + |b| <= |cells|
    ensures Pasted(Pasted(cells, 0, a), |a|, b) == a + b + cells[|a| + |b|..]
  {
    var first := a + cells[|a|..];
    PastedFront(cells, a);
    assert first[..|a|] == a && first[|a| + |b|..] == cells[|a| + |b|..];
  }
}
