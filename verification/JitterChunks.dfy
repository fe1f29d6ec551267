/** Chunk independence: splitting one pop into two changes nothing exactly when the buffered numbers
    leave no gap from the cursor on. */
module JitterChunks {
  import opened Audio
  import opened SeqNum
  import opened JitterSpec

  /** The pop loop, from cursor `c` on, never meets a missing number. */
  predicate GapFree(nb: Numbering, buf: seq<Entry>, c: int) {
    buf == [] ||
    if buf[0].seqno == c then GapFree(nb, buf[1..], nb.Next(c))
    else !nb.Before(c, buf[0].seqno) && GapFree(nb, buf[1..], c)
  }

  /** Popping `a` and then `b` frames gives the output, final state and counters of popping `a + b`. */
  ghost predicate Chunked(nb: Numbering, st: Jitter, a: nat, b: nat) {
    var first := Pop(nb, st, a);
    var second := Pop(nb, first.0, b);
    var whole := Pop(nb, st, a + b);
    second.0 == whole.0 && Output(first.1) + Output(second.1) == Output(whole.1)
  }

  /** The packet at the cursor, played whole or in part. */
  function Played(nb: Numbering, st: Jitter): Jitter
    requires st.buf != [] && st.cursor.Some?
  {
    st.(buf := st.buf[1..], cursor := Some(nb.Next(st.cursor.value)))
  }

  function PartlyPlayed(st: Jitter, n: nat): Jitter
    requires st.buf != [] && n <= |st.buf[0].frames|
  {
    st.(buf := [Entry(st.buf[0].seqno, st.buf[0].frames[n..])] + st.buf[1..])
  }

  function Skipped(st: Jitter): Jitter
    requires st.buf != []
  {
    st.(buf := st.buf[1..], dropped := st.dropped + 1)
  }

  ghost predicate AtCursor(st: Jitter) {
    st.state == Playing && st.buf != [] && st.cursor == Some(st.buf[0].seqno)
  }

  ghost predicate Stale(nb: Numbering, st: Jitter) {
    && st.state == Playing && st.buf != [] && st.cursor.Some? && st.cursor.value != st.buf[0].seqno
    && !nb.Before(st.cursor.value, st.buf[0].seqno)
  }

  lemma LoopWhole(nb: Numbering, st: Jitter, n: nat)
    requires AtCursor(st) && |st.buf[0].frames| <= n && n > 0
    ensures var rest := PopLoop(nb, Played(nb, st), n - |st.buf[0].frames|);
      && PopLoop(nb, st, n).0 == rest.0
      && Output(PopLoop(nb, st, n).1) == st.buf[0].frames + Output(rest.1)
  {
    hide Output;
    OutputCons(Play(st.cursor.value, st.buf[0].frames, true),
               PopLoop(nb, Played(nb, st), n - |st.buf[0].frames|).1);
  }

  lemma LoopPart(nb: Numbering, st: Jitter, n: nat)
    requires AtCursor(st) && 0 < n < |st.buf[0].frames|
    ensures PopLoop(nb, st, n).0 == PartlyPlayed(st, n)
    ensures Output(PopLoop(nb, st, n).1) == st.buf[0].frames[..n]
  {
    var a := Play(st.cursor.value, st.buf[0].frames[..n], false);
    OutputCons(a, []);
    assert [a] + [] == [a];
  }

  lemma LoopStale(nb: Numbering, st: Jitter, n: nat)
    requires Stale(nb, st) && n > 0
    ensures PopLoop(nb, st, n).0 == PopLoop(nb, Skipped(st), n).0
    ensures Output(PopLoop(nb, st, n).1) == Output(PopLoop(nb, Skipped(st), n).1)
  {
    hide Output;
    OutputCons(Skip(st.buf[0]), PopLoop(nb, Skipped(st), n).1);
  }

  lemma PopNothing(nb: Numbering, st: Jitter)
    ensures Pop(nb, st, 0) == (st, [])
  {
  }

  // ---------------------------------------------------------------- no gap, so independent

  lemma PartWithinPart(nb: Numbering, st: Jitter, a: nat, b: nat)
    requires AtCursor(st) && 0 < a && 0 < b && a + b < |st.buf[0].frames|
    ensures Chunked(nb, st, a, b)
  {
    hide PopLoop;
    hide Output;
    var frames := st.buf[0].frames;
    LoopPart(nb, st, a);
    LoopPart(nb, st, a + b);
    LoopPart(nb, PartlyPlayed(st, a), b);
    assert frames[a..][b..] == frames[a + b..];
    assert frames[..a] + frames[a..][..b] == frames[..a + b];
  }

  lemma PartThenWhole(nb: Numbering, st: Jitter, a: nat, b: nat)
    requires AtCursor(st) && 0 < a < |st.buf[0].frames| <= a + b
    ensures Chunked(nb, st, a, b)
  {
    hide PopLoop;
    var frames := st.buf[0].frames;
    var p := PartlyPlayed(st, a);
    assert Played(nb, p) == Played(nb, st) by {
      assert p.buf[1..] == st.buf[1..];
    }
    var rest := PopLoop(nb, Played(nb, st), a + b - |frames|);
    ResultPart(nb, st, a);
    ResultWhole(nb, st, a + b, rest.0, Output(rest.1));
    ResultWhole(nb, p, b, rest.0, Output(rest.1));
    ChunkedAs(nb, st, a, b, p, frames[..a], rest.0, frames[a..] + Output(rest.1), frames + Output(rest.1));
    assert frames[..a] + frames[a..] == frames;
    Associative(frames[..a], frames[a..], Output(rest.1));
  }

  /** What a pop of `n` frames leaves and gives. */
  ghost predicate Result(nb: Numbering, st: Jitter, n: nat, s: Jitter, sound: seq<Frame>) {
    Pop(nb, st, n).0 == s && Output(Pop(nb, st, n).1) == sound
  }

  lemma ResultPart(nb: Numbering, st: Jitter, n: nat)
    requires AtCursor(st) && 0 < n < |st.buf[0].frames|
    ensures Result(nb, st, n, PartlyPlayed(st, n), st.buf[0].frames[..n])
  {
    LoopPart(nb, st, n);
  }

  lemma ResultWhole(nb: Numbering, st: Jitter, n: nat, s: Jitter, sound: seq<Frame>)
    requires AtCursor(st) && |st.buf[0].frames| <= n && n > 0
    requires Result(nb, Played(nb, st), n - |st.buf[0].frames|, s, sound)
    ensures Result(nb, st, n, s, st.buf[0].frames + sound)
  {
    LoopWhole(nb, st, n);
  }

  lemma ChunkedAs(nb: Numbering, st: Jitter, a: nat, b: nat,
                  s: Jitter, x: seq<Frame>, s': Jitter, y: seq<Frame>, z: seq<Frame>)
    requires Result(nb, st, a, s, x) && Result(nb, s, b, s', y)
    requires Output(Pop(nb, st, a + b).1) == z
    ensures Chunked(nb, st, a, b) <==> s' == Pop(nb, st, a + b).0 && x + y == z
  {
  }

  lemma ChunkedTrivially(nb: Numbering, st: Jitter, a: nat, b: nat)
    requires a == 0 || b == 0 || st.buf == []
    ensures Chunked(nb, st, a, b)
  {
    PopNothing(nb, st);
    PopNothing(nb, Pop(nb, st, a).0);
  }

  lemma StaleChunks(nb: Numbering, st: Jitter, a: nat, b: nat)
    requires Stale(nb, st) && a > 0
    ensures Chunked(nb, st, a, b) <==> Chunked(nb, Skipped(st), a, b)
  {
    LoopStale(nb, st, a);
    LoopStale(nb, st, a + b);
  }

  lemma {:induction false} NoGapChunks(nb: Numbering, st: Jitter, a: nat, b: nat)
    requires st.state == Playing && st.cursor.Some? && GapFree(nb, st.buf, st.cursor.value)
    ensures Chunked(nb, st, a, b)
    decreases |st.buf|
  {
    if a == 0 || b == 0 || st.buf == [] {
      ChunkedTrivially(nb, st, a, b);
    } else if AtCursor(st) {
      var n := |st.buf[0].frames|;
      if n <= a {
        NoGapChunks(nb, Played(nb, st), a - n, b);
        WholeThenChunks(nb, st, a, b);
      } else if a + b < n {
        PartWithinPart(nb, st, a, b);
      } else {
        PartThenWhole(nb, st, a, b);
      }
    } else {
      NoGapChunks(nb, Skipped(st), a, b);
      StaleChunks(nb, st, a, b);
    }
  }

  /** Past a whole packet the question is the same for the rest. */
  lemma WholeThenChunks(nb: Numbering, st: Jitter, a: nat, b: nat)
    requires AtCursor(st) && |st.buf[0].frames| <= a && a > 0
    ensures Chunked(nb, st, a, b) <==> Chunked(nb, Played(nb, st), a - |st.buf[0].frames|, b)
  {
    hide PopLoop;
    var f := st.buf[0].frames;
    var s := Played(nb, st);
    var first := Pop(nb, s, a - |f|);
    var second := Pop(nb, first.0, b);
    var whole := Pop(nb, s, a - |f| + b);
    ResultWhole(nb, st, a, first.0, Output(first.1));
    ResultWhole(nb, st, a + b, whole.0, Output(whole.1));
    ChunkedAs(nb, st, a, b, first.0, f + Output(first.1), second.0, Output(second.1), f + Output(whole.1));
    CancelPrefix(f, Output(first.1), Output(second.1), Output(whole.1));
  }

  lemma CancelPrefix<T>(f: seq<T>, x: seq<T>, y: seq<T>, z: seq<T>)
    ensures f + x + y == f + z <==> x + y == z
  {
    Associative(f, x, y);
    assert (f + (x + y))[|f|..] == x + y && (f + z)[|f|..] == z;
  }

  // ---------------------------------------------------------------- a gap, so not independent

  /** One more silent frame always leaves a trace besides the silence counter. */
  lemma {:induction false} SilenceMoves(nb: Numbering, st: Jitter)
    requires st.cursor.Some?
    ensures var s := PopLoop(nb, st, 1).0;
      && |s.buf| <= |st.buf| && st.silence <= s.silence <= st.silence + 1
      && (s.silence == st.silence + 1 ==> |s.buf| < |st.buf| || s.cursor != st.cursor)
    decreases |st.buf|
  {
    var (s, a) := PopStep(nb, st, 1);
    if !a.Starve? && |Sound(a)| == 0 {
      SilenceMoves(nb, s);
    }
  }

  lemma GapSplits(nb: Numbering, st: Jitter)
    requires st.state == Playing && st.buf != [] && st.cursor.Some?
    requires st.cursor.value != st.buf[0].seqno && nb.Before(st.cursor.value, st.buf[0].seqno)
    ensures !Chunked(nb, st, 1, 1)
  {
    var c := nb.Next(st.cursor.value);
    var s := st.(cursor := Some(c), silence := st.silence + 1);
    assert PopLoop(nb, st, 1).0 == s;
    assert PopLoop(nb, st, 2).0 == s.(silence := st.silence + 2);
    SilenceMoves(nb, s);
  }

  /** A frame count after which a split shows. */
  lemma {:induction false} GapShows(nb: Numbering, st: Jitter) returns (a: nat)
    requires st.state == Playing && st.cursor.Some? && !GapFree(nb, st.buf, st.cursor.value)
    ensures a > 0 && !Chunked(nb, st, a, 1)
    decreases |st.buf|
  {
    if AtCursor(st) {
      var n := |st.buf[0].frames|;
      a := GapShows(nb, Played(nb, st));
      a := a + n;
      WholeThenChunks(nb, st, a, 1);
    } else if Stale(nb, st) {
      a := GapShows(nb, Skipped(st));
      StaleChunks(nb, st, a, 1);
    } else {
      a := 1;
      GapSplits(nb, st);
    }
  }

  /** The exact condition under which the size of the playback chunks does not matter. */
  lemma ChunkIndependence(nb: Numbering, st: Jitter)
    requires st.state == Playing && st.cursor.Some?
    ensures (forall a: nat, b: nat :: Chunked(nb, st, a, b)) <==> GapFree(nb, st.buf, st.cursor.value)
  {
    if GapFree(nb, st.buf, st.cursor.value) {
      forall a: nat, b: nat ensures Chunked(nb, st, a, b) {
        NoGapChunks(nb, st, a, b);
      }
    } else {
      var a := GapShows(nb, st);
    }
  }
}
