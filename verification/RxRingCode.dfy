/** The C ring's two operations on the shared array, run without interference: the FIFO they implement. */
module RxRingCode {
  import opened Audio
  import opened RxRing
  import opened RxRingSafety

  class Ring {
    const ring: array<Cell>
    var wpos: nat
    var rpos: nat
    ghost var contents: seq<Cell>

    ghost predicate Valid()
      reads this, ring
    {
      && ring.Length == RING_FRAMES && rpos < RING_FRAMES && |contents| <= CAPACITY
      && wpos == (rpos + |contents|) % RING_FRAMES
      && Stored(ring[..], rpos, contents)
    }

    constructor ()
      ensures Valid() && contents == [] && fresh(ring)
    {
      ring := new Cell[RING_FRAMES](_ => ZERO_CELL);
      wpos, rpos, contents := 0, 0, [];
    }

    method UsedFrames() returns (n: nat)
      requires Valid()
      ensures n == |contents|
    {
      UsedIs(rpos + |contents|, rpos);
      n := if wpos >= rpos then wpos - rpos else RING_FRAMES - (rpos - wpos);
    }

    /** Appends the whole packet, or nothing when it does not fit. */
    method WriteFrames(src: seq<Cell>)
      requires Valid()
      modifies this, ring
      ensures Valid() && rpos == old(rpos)
      ensures contents == if |old(contents)| + |src| <= CAPACITY then old(contents) + src else old(contents)
    {
      var used := UsedFrames();
      if |src| > CAPACITY - used {
        return;
      }
      hide Stored;
      var w := wpos;
      CopyIn(ring, w, src);
      wpos := (w + |src|) % RING_FRAMES;
      WrittenIsStored(old(ring[..]), rpos, contents, src);
      contents := contents + src;
    }

    /** Takes up to `frames` frames, oldest first; the rest of `dst` keeps its content. */
    method ReadFrames(dst: array<Cell>, frames: nat) returns (got: nat)
      requires Valid() && frames <= dst.Length && dst != ring
      modifies this, dst
      ensures Valid() && got == Min(frames, |old(contents)|)
      ensures dst[..] == old(contents[..got]) + old(dst[got..])
      ensures contents == old(contents[got..])
    {
      got := UsedFrames();
      if frames < got {
        got := frames;
      }
      hide Stored;
      var r := rpos;
      CopyOut(ring, r, dst, got);
      CutOutIsStored(ring[..], r, contents, got);
      AdvanceStored(ring[..], r, contents, got);
      rpos := (r + got) % RING_FRAMES;
      contents := contents[got..];
    }
  }

  /** The copies of `rb_write_frames`: one, or two when the packet reaches past the end. */
  method CopyIn(ring: array<Cell>, w: nat, src: seq<Cell>)
    requires ring.Length == RING_FRAMES && w < RING_FRAMES && |src| <= CAPACITY
    modifies ring
    ensures ring[..] == Spliced(old(ring[..]), w, src)
  {
    var tail := RING_FRAMES - w;
    if |src| <= tail {
      CopyAt(ring, w, src);
    } else {
      SplicedTwice(ring[..], w, src);
      CopyAt(ring, w, src[..tail]);
      CopyAt(ring, 0, src[tail..]);
    }
  }

  lemma SplicedTwice(ring: seq<Cell>, w: nat, src: seq<Cell>)
    requires |ring| == RING_FRAMES && w < RING_FRAMES && RING_FRAMES - w < |src| <= CAPACITY
    ensures var tail := RING_FRAMES - w;
      Pasted(Pasted(ring, w, src[..tail]), 0, src[tail..]) == Spliced(ring, w, src)
  {
    var tail := RING_FRAMES - w;
    var first := Pasted(ring, w, src[..tail]);
    assert first == ring[..w] + src[..tail];
    assert first[|src| - tail..] == ring[|src| - tail..w] + src[..tail];
    assert first[..0] == [];
  }

  /** The copies of `rb_read_frames`. */
  method CopyOut(ring: array<Cell>, r: nat, dst: array<Cell>, n: nat)
    requires ring.Length == RING_FRAMES && r < RING_FRAMES && n <= CAPACITY && n <= dst.Length && dst != ring
    modifies dst
    ensures dst[..] == CutOut(ring[..], r, n) + old(dst[n..])
  {
    var tail := RING_FRAMES - r;
    hide Pasted;
    if n <= tail {
      PastedFront(dst[..], ring[r..r + n]);
      CopyAt(dst, 0, ring[r..r + n]);
    } else {
      PastedNext(dst[..], ring[r..], ring[..n - tail]);
      CopyAt(dst, 0, ring[r..]);
      CopyAt(dst, tail, ring[..n - tail]);
    }
  }

  /** The ring after the one or two copies of a write at index `w`. */
  function Spliced(ring: seq<Cell>, w: nat, src: seq<Cell>): (r: seq<Cell>)
    requires |ring| == RING_FRAMES && w < RING_FRAMES && |src| <= RING_FRAMES
    ensures |r| == RING_FRAMES
  {
    var tail := RING_FRAMES - w;
    if |src| <= tail then ring[..w] + src + ring[w + |src|..]
    else src[tail..] + ring[|src| - tail..w] + src[..tail]
  }

  /** The frames the one or two copies of a read at index `r` deliver. */
  function CutOut(ring: seq<Cell>, r: nat, n: nat): (cells: seq<Cell>)
    requires |ring| == RING_FRAMES && r < RING_FRAMES && n <= RING_FRAMES
    ensures |cells| == n
  {
    var tail := RING_FRAMES - r;
    if n <= tail then ring[r..r + n] else ring[r..] + ring[..n - tail]
  }

  /** How far a slot lies behind index `w`, going round. */
  function Offset(w: nat, slot: nat): int { if slot >= w then slot - w else slot + RING_FRAMES - w }

  lemma SplicedAt(ring: seq<Cell>, w: nat, src: seq<Cell>, slot: nat)
    requires |ring| == RING_FRAMES && w < RING_FRAMES && |src| <= RING_FRAMES && slot < RING_FRAMES
    ensures var k := Offset(w, slot);
      Spliced(ring, w, src)[slot] == if k < |src| then src[k] else ring[slot]
  {
  }

  lemma OffsetIs(w: nat, x: nat)
    requires x < w + RING_FRAMES && w < x + RING_FRAMES
    ensures Offset(w % RING_FRAMES, x % RING_FRAMES) == if x >= w then x - w else x - w + RING_FRAMES
  {
    var n := RING_FRAMES;
    assert x - w == n * (x / n - w / n) + (x % n - w % n);
    assert -1 <= x / n - w / n <= 1;
  }

  /** A write puts `src` behind the unread frames and leaves those alone. */
  lemma WrittenIsStored(ring: seq<Cell>, r: nat, contents: seq<Cell>, src: seq<Cell>)
    requires Stored(ring, r, contents) && |contents| + |src| <= CAPACITY
    ensures Stored(Spliced(ring, (r + |contents|) % RING_FRAMES, src), r, contents + src)
    ensures ((r + |contents|) % RING_FRAMES + |src|) % RING_FRAMES == (r + |contents + src|) % RING_FRAMES
  {
    var from := r + |contents|;
    AddModulo(from, |src|);
    hide Spliced;
    forall i | 0 <= i < |contents + src|
      ensures Spliced(ring, from % RING_FRAMES, src)[(r + i) % RING_FRAMES] == (contents + src)[i]
    {
      WrittenAt(ring, r, contents, src, i);
    }
  }

  lemma WrittenAt(ring: seq<Cell>, r: nat, contents: seq<Cell>, src: seq<Cell>, i: nat)
    requires Stored(ring, r, contents) && |contents| + |src| <= CAPACITY && i < |contents| + |src|
    ensures Spliced(ring, (r + |contents|) % RING_FRAMES, src)[(r + i) % RING_FRAMES] == (contents + src)[i]
  {
    hide Spliced;
    var w, slot := (r + |contents|) % RING_FRAMES, (r + i) % RING_FRAMES;
    SplicedAt(ring, w, src, slot);
    OffsetIs(r + |contents|, r + i);
    if i < |contents| {
      assert ring[(r + i) % RING_FRAMES] == contents[i];
    }
  }

  lemma CutOutIsStored(ring: seq<Cell>, r: nat, contents: seq<Cell>, n: nat)
    requires Stored(ring, r, contents) && r < RING_FRAMES && n <= |contents| <= CAPACITY
    ensures CutOut(ring, r, n) == contents[..n]
  {
    forall k | 0 <= k < n ensures CutOut(ring, r, n)[k] == contents[..n][k] {
      CutOutAt(ring, r, n, k);
      hide CutOut;
      SlotIs(r, k);
      RemainderUnique(r, 0, r);
      assert ring[(r + k) % RING_FRAMES] == contents[k];
    }
  }

  lemma CutOutAt(ring: seq<Cell>, r: nat, n: nat, k: nat)
    requires |ring| == RING_FRAMES && r < RING_FRAMES && k < n <= RING_FRAMES
    ensures CutOut(ring, r, n)[k] == ring[Slot(r, k)]
  {
  }

  lemma AdvanceStored(ring: seq<Cell>, r: nat, contents: seq<Cell>, n: nat)
    requires Stored(ring, r, contents) && n <= |contents|
    ensures Stored(ring, (r + n) % RING_FRAMES, contents[n..])
    ensures ((r + n) % RING_FRAMES + |contents[n..]|) % RING_FRAMES == (r + |contents|) % RING_FRAMES
  {
    AddModulo(r + n, |contents| - n);
    forall i | 0 <= i < |contents[n..]|
      ensures ring[((r + n) % RING_FRAMES + i) % RING_FRAMES] == contents[n..][i]
    {
      AddModulo(r + n, i);
      assert ring[(r + (n + i)) % RING_FRAMES] == contents[n + i];
    }
  }
}
