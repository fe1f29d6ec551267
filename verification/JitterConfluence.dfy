/** Arrival-order confluence: exactly when the order in which packets arrive leaves no trace in the buffer. */
module JitterConfluence {
  import opened Audio
  import opened SeqNum
  import opened JitterSpec
  import opened JitterLedger
  import opened JitterTimeline
  import opened JitterWrap

  /** The state after pushing the packets one after the other. */
  function PushAll(nb: Numbering, st: Jitter, ps: seq<Entry>): Jitter {
    if ps == [] then st
    else Push(nb, PushAll(nb, st, ps[..|ps| - 1]), ps[|ps| - 1]).0
  }

  /** The code's buffer after the packets. */
  function After(st: Jitter, ps: seq<Entry>): Jitter { PushAll(Wrapped, WrapState(st), WrapBuf(ps)) }

  ghost predicate Permuted(ps: seq<Entry>, qs: seq<Entry>) { multiset(ps) == multiset(qs) }

  /** No two packets share a number. */
  ghost predicate Distinct(ps: seq<Entry>) {
    forall i, j :: 0 <= i < j < |ps| ==> ps[i].seqno != ps[j].seqno
  }

  /** No packet is behind the cursor, and all numbers share one half window. */
  ghost predicate Admissible(st: Jitter, ps: seq<Entry>) {
    && Live(st.buf + ps, st.cursor)
    && (st.cursor.Some? ==> forall x :: x in ps ==> st.cursor.value <= x.seqno)
  }

  /** The packet with the least number. */
  function Least(ps: seq<Entry>): (m: Entry)
    requires ps != []
    ensures m in ps && forall x :: x in ps ==> m.seqno <= x.seqno
  {
    var last := ps[|ps| - 1];
    if |ps| == 1 then last
    else
      var m := Least(ps[..|ps| - 1]);
      assert ps == ps[..|ps| - 1] + [last];
      if last.seqno < m.seqno then last else m
  }

  /** The cursor is set; or the number at the front is below all that arrive; or the deque with all packets
      but the least-numbered one does not reach the start-fill. */
  ghost predicate OrderFree(st: Jitter, ps: seq<Entry>) {
    || |ps| < 2
    || st.cursor.Some?
    || (st.buf != [] && forall x :: x in ps ==> st.buf[0].seqno <= x.seqno)
    || TotalFrames(st.buf) + TotalFrames(ps) < st.startFill + |Least(ps).frames|
  }

  // ---------------------------------------------------------------- insertion of a list

  function InsertAll(buf: seq<Entry>, ps: seq<Entry>): seq<Entry> {
    if ps == [] then buf else Insert(Unbounded, InsertAll(buf, ps[..|ps| - 1]), ps[|ps| - 1])
  }

  lemma {:induction false} InsertMultiset(buf: seq<Entry>, e: Entry)
    ensures multiset(Insert(Unbounded, buf, e)) == multiset(buf) + multiset{e}
  {
    if buf != [] && buf[0].seqno <= e.seqno {
      InsertMultiset(buf[1..], e);
      assert buf == [buf[0]] + buf[1..];
    }
  }

  lemma InsertMembers(buf: seq<Entry>, e: Entry)
    ensures forall x :: x in Insert(Unbounded, buf, e) <==> x == e || x in buf
  {
    InsertMultiset(buf, e);
    forall x ensures x in Insert(Unbounded, buf, e) <==> x == e || x in buf {
      assert x in Insert(Unbounded, buf, e) <==> x in multiset(Insert(Unbounded, buf, e));
    }
  }

  lemma {:induction false} InsertAllMembers(buf: seq<Entry>, ps: seq<Entry>)
    ensures forall x :: x in InsertAll(buf, ps) <==> x in buf || x in ps
    ensures multiset(InsertAll(buf, ps)) == multiset(buf) + multiset(ps)
  {
    if ps != [] {
      var qs, e := ps[..|ps| - 1], ps[|ps| - 1];
      assert ps == qs + [e];
      InsertAllMembers(buf, qs);
      InsertMembers(InsertAll(buf, qs), e);
      InsertMultiset(InsertAll(buf, qs), e);
    }
  }

  lemma {:induction false} InsertAllTotal(buf: seq<Entry>, ps: seq<Entry>)
    ensures TotalFrames(InsertAll(buf, ps)) == TotalFrames(buf) + TotalFrames(ps)
    ensures |InsertAll(buf, ps)| == |buf| + |ps|
  {
    if ps != [] {
      var qs, e := ps[..|ps| - 1], ps[|ps| - 1];
      InsertAllTotal(buf, qs);
      InsertTotal(Unbounded, InsertAll(buf, qs), e);
      TotalSnoc(qs, e);
      assert qs + [e] == ps;
    }
  }

  /** Sorted insertion keeps the deque sorted, packets of one number in the order of their arrival. */
  lemma {:induction false} InsertAllSorted(buf: seq<Entry>, ps: seq<Entry>)
    requires Sorted(buf)
    ensures Sorted(InsertAll(buf, ps))
    ensures forall n :: Copies(InsertAll(buf, ps), n) == Copies(buf, n) + Copies(ps, n)
  {
    hide Copies;
    hide Insert;
    hide Sorted;
    if ps == [] {
      NoCopies();
    } else {
      var qs, e := ps[..|ps| - 1], ps[|ps| - 1];
      assert ps == qs + [e];
      InsertAllSorted(buf, qs);
      InsertKeepsSorted(InsertAll(buf, qs), e);
      forall n ensures Copies(InsertAll(buf, ps), n) == Copies(buf, n) + Copies(ps, n) {
        CopiesInsert(InsertAll(buf, qs), e, n);
        CopiesSnoc(qs, e, n);
        Associative(Copies(buf, n), Copies(qs, n), if e.seqno == n then [e.frames] else []);
      }
    }
  }

  lemma NoCopies()
    ensures forall n :: Copies([], n) == []
  {
  }

  lemma FrontIsLeast(buf: seq<Entry>, e: Entry)
    requires Sorted(buf) && e in buf
    ensures buf[0].seqno <= e.seqno
  {
    var i :| 0 <= i < |buf| && buf[i] == e;
    if i > 0 {
      assert buf[0].seqno <= buf[i].seqno;
    }
  }

  /** A sorted deque is determined by the packets of each number, in order. */
  lemma {:induction false} SortedUnique(a: seq<Entry>, b: seq<Entry>)
    requires Sorted(a) && Sorted(b) && forall n :: Copies(a, n) == Copies(b, n)
    ensures a == b
  {
    hide Copies;
    if a == [] {
      NoCopies();
      if b != [] {
        FrontCopy(b);
      }
    } else {
      SameFront(a, b);
      forall n ensures Copies(a[1..], n) == Copies(b[1..], n) {
        CopiesCons(a[0], a[1..], n);
        CopiesCons(b[0], b[1..], n);
        assert [a[0]] + a[1..] == a && [b[0]] + b[1..] == b;
        CancelFront(if a[0].seqno == n then [a[0].frames] else [], Copies(a[1..], n), Copies(b[1..], n));
      }
      SortedUnique(a[1..], b[1..]);
      assert a == [a[0]] + a[1..] && b == [b[0]] + b[1..];
    }
  }

  lemma CancelFront<T>(a: seq<T>, b: seq<T>, c: seq<T>)
    requires a + b == a + c
    ensures b == c
  {
    assert (a + b)[|a|..] == b && (a + c)[|a|..] == c;
  }

  lemma FrontCopy(s: seq<Entry>)
    requires s != []
    ensures Copies(s, s[0].seqno) != [] && Copies(s, s[0].seqno)[0] == s[0].frames
  {
  }

  lemma SameFront(a: seq<Entry>, b: seq<Entry>)
    requires Sorted(a) && Sorted(b) && a != [] && forall n :: Copies(a, n) == Copies(b, n)
    ensures b != [] && a[0] == b[0]
  {
    hide Copies;
    FrontCopy(a);
    var n := a[0].seqno;
    assert Copies(a, n) == Copies(b, n);
    CopiesMember(b, n);
    FrontIsLeast(b, Entry(n, Copies(b, n)[0]));
    FrontCopy(b);
    var k := b[0].seqno;
    assert Copies(a, k) == Copies(b, k);
    CopiesMember(a, k);
    FrontIsLeast(a, Entry(k, Copies(a, k)[0]));
  }

  // ---------------------------------------------------------------- permutations

  lemma {:induction false} TotalSnoc(s: seq<Entry>, e: Entry)
    ensures TotalFrames(s + [e]) == TotalFrames(s) + |e.frames|
  {
    if s == [] {
      assert s + [e] == [e];
    } else {
      assert (s + [e])[1..] == s[1..] + [e];
      TotalSnoc(s[1..], e);
    }
  }

  lemma {:induction false} TotalConcat(a: seq<Entry>, b: seq<Entry>)
    ensures TotalFrames(a + b) == TotalFrames(a) + TotalFrames(b)
  {
    if a == [] {
      assert a + b == b;
    } else {
      assert (a + b)[1..] == a[1..] + b;
      TotalConcat(a[1..], b);
    }
  }

  lemma {:induction false} TotalMember(s: seq<Entry>, e: Entry)
    requires e in s
    ensures |e.frames| <= TotalFrames(s)
  {
    if s[0] != e {
      TotalMember(s[1..], e);
    }
  }

  /** `s` without its element at `i`. */
  function Without(s: seq<Entry>, i: nat): seq<Entry>
    requires i < |s|
  {
    s[..i] + s[i + 1..]
  }

  lemma WithoutIs(s: seq<Entry>, i: nat)
    requires i < |s|
    ensures multiset(s) == multiset(Without(s, i)) + multiset{s[i]}
    ensures TotalFrames(s) == TotalFrames(Without(s, i)) + |s[i].frames|
  {
    var a, b := s[..i], s[i + 1..];
    assert s == a + ([s[i]] + b);
    TotalConcat(a, [s[i]] + b);
    TotalConcat([s[i]], b);
    TotalConcat(a, b);
    assert [s[i]][1..] == [];
  }

  lemma {:induction false} TotalPermuted(a: seq<Entry>, b: seq<Entry>)
    requires Permuted(a, b)
    ensures TotalFrames(a) == TotalFrames(b)
  {
    assert |multiset(a)| == |a| && |multiset(b)| == |b|;
    if a != [] {
      hide TotalFrames;
      var e := a[|a| - 1];
      assert a == a[..|a| - 1] + [e];
      assert multiset(a) == multiset(a[..|a| - 1]) + multiset{e};
      assert e in multiset(b);
      var i :| 0 <= i < |b| && b[i] == e;
      WithoutIs(b, i);
      CancelOne(multiset(a[..|a| - 1]), multiset(Without(b, i)), e);
      TotalPermuted(a[..|a| - 1], Without(b, i));
      TotalSnoc(a[..|a| - 1], e);
    }
  }

  lemma CancelOne(a: multiset<Entry>, b: multiset<Entry>, e: Entry)
    requires a + multiset{e} == b + multiset{e}
    ensures a == b
  {
    assert a == a + multiset{e} - multiset{e} && b == b + multiset{e} - multiset{e};
  }

  lemma PermutedMembers(ps: seq<Entry>, qs: seq<Entry>)
    requires Permuted(ps, qs)
    ensures |ps| == |qs|
    ensures forall x :: x in ps <==> x in qs
  {
    assert |multiset(ps)| == |ps| && |multiset(qs)| == |qs|;
    forall x ensures x in ps <==> x in qs {
      assert x in ps <==> x in multiset(ps);
      assert x in qs <==> x in multiset(qs);
    }
  }

  lemma CountsOf(s: seq<Entry>, i: nat, j: nat)
    requires i < j < |s| && s[i] == s[j]
    ensures multiset(s)[s[i]] >= 2
  {
    assert s == s[..j] + s[j..];
    assert s[i] in s[..j] && s[j] in s[j..];
    assert s[i] in multiset(s[..j]) && s[j] in multiset(s[j..]);
  }

  lemma {:induction false} DistinctCounts(s: seq<Entry>, x: Entry)
    requires Distinct(s)
    ensures multiset(s)[x] <= 1
  {
    if s != [] {
      assert forall i :: 0 <= i < |s[1..]| ==> s[1..][i] == s[i + 1];
      DistinctCounts(s[1..], x);
      assert s == [s[0]] + s[1..];
      assert s[0] !in s[1..];
      assert s[0] !in multiset(s[1..]);
    }
  }

  /** Distinctness and the window do not depend on the order. */
  lemma OrderIrrelevant(st: Jitter, ps: seq<Entry>, qs: seq<Entry>)
    requires Permuted(ps, qs) && Admissible(st, ps) && Distinct(ps)
    ensures Admissible(st, qs) && Distinct(qs)
  {
    PermutedMembers(ps, qs);
    assert forall x :: x in st.buf + qs ==> x in st.buf + ps;
    forall i, j | 0 <= i < j < |qs| ensures qs[i].seqno != qs[j].seqno {
      if qs[i] == qs[j] {
        CountsOf(qs, i, j);
        DistinctCounts(ps, qs[i]);
      }
      assert qs[i] in ps && qs[j] in ps;
    }
  }

  lemma {:induction false} CopiesDistinct(ps: seq<Entry>, n: int)
    requires Distinct(ps)
    ensures forall p :: p in ps && p.seqno == n ==> Copies(ps, n) == [p.frames]
    ensures (forall p :: p in ps ==> p.seqno != n) ==> Copies(ps, n) == []
  {
    if ps != [] {
      var rest := ps[1..];
      assert forall i :: 0 <= i < |rest| ==> rest[i] == ps[i + 1];
      CopiesDistinct(rest, n);
      assert ps == [ps[0]] + rest;
      if ps[0].seqno == n {
        assert forall p :: p in rest ==> p.seqno != n;
      }
    }
  }

  lemma CopiesPermuted(ps: seq<Entry>, qs: seq<Entry>, n: int)
    requires Permuted(ps, qs) && Distinct(ps) && Distinct(qs)
    ensures Copies(ps, n) == Copies(qs, n)
  {
    hide Copies;
    PermutedMembers(ps, qs);
    CopiesDistinct(ps, n);
    CopiesDistinct(qs, n);
    if p :| p in ps && p.seqno == n {
      assert p in qs;
    }
  }

  lemma InsertAllPermuted(buf: seq<Entry>, ps: seq<Entry>, qs: seq<Entry>)
    requires Sorted(buf) && Permuted(ps, qs) && Distinct(ps) && Distinct(qs)
    ensures InsertAll(buf, ps) == InsertAll(buf, qs)
  {
    hide Copies;
    hide InsertAll;
    hide Sorted;
    InsertAllSorted(buf, ps);
    InsertAllSorted(buf, qs);
    forall n ensures Copies(InsertAll(buf, ps), n) == Copies(InsertAll(buf, qs), n) {
      CopiesPermuted(ps, qs, n);
    }
    SortedUnique(InsertAll(buf, ps), InsertAll(buf, qs));
  }

  // ---------------------------------------------------------------- an order that drops nothing

  /** `st` after `n` more packets have made its deque `buf`, none of them refused. */
  function Landed(st: Jitter, buf: seq<Entry>, n: nat): Jitter {
    var s := st.(received := st.received + n, buf := buf);
    if st.state != Playing && n > 0 && buf != [] && TotalFrames(buf) >= st.startFill then
      s.(state := Playing, cursor := Some(st.cursor.GetOr(buf[0].seqno)))
    else s
  }

  /** Once the packets so far reach the start-fill, the next one is not below them all. */
  ghost predicate Safe(st: Jitter, qs: seq<Entry>) {
    forall k :: 0 < k < |qs| ==> SafeAt(st, InsertAll(st.buf, qs[..k]), qs[k])
  }

  ghost predicate SafeAt(st: Jitter, buf: seq<Entry>, e: Entry) {
    st.cursor == None && buf != [] && TotalFrames(buf) >= st.startFill ==> buf[0].seqno <= e.seqno
  }

  lemma InsertFront(buf: seq<Entry>, e: Entry)
    requires buf != [] && buf[0].seqno <= e.seqno
    ensures Insert(Unbounded, buf, e)[0] == buf[0]
  {
  }

  lemma PushLands(st: Jitter, buf: seq<Entry>, n: nat, e: Entry)
    requires PlaybackOk(st) && (n == 0 ==> buf == st.buf)
    requires st.cursor.Some? ==> st.cursor.value <= e.seqno
    requires n > 0 ==> SafeAt(st, buf, e)
    ensures Push(Unbounded, Landed(st, buf, n), e).0 == Landed(st, Insert(Unbounded, buf, e), n + 1)
  {
    InsertTotal(Unbounded, buf, e);
    if buf != [] && buf[0].seqno <= e.seqno {
      InsertFront(buf, e);
    }
  }

  lemma {:induction false} PushAllLands(st: Jitter, ps: seq<Entry>)
    requires PlaybackOk(st) && Safe(st, ps)
    requires st.cursor.Some? ==> forall x :: x in ps ==> st.cursor.value <= x.seqno
    ensures PushAll(Unbounded, st, ps) == Landed(st, InsertAll(st.buf, ps), |ps|)
  {
    hide Insert;
    hide Push;
    hide Safe;
    hide SafeAt;
    if ps == [] {
      assert Landed(st, st.buf, 0) == st;
    } else {
      hide TotalFrames;
      hide Landed;
      hide PlaybackOk;
      var qs, e := ps[..|ps| - 1], ps[|ps| - 1];
      assert qs + [e] == ps && e in ps;
      SafePrefix(st, qs, e);
      PushAllLands(st, qs);
      PushLands(st, InsertAll(st.buf, qs), |qs|, e);
    }
  }

  lemma SafePrefix(st: Jitter, qs: seq<Entry>, e: Entry)
    requires Safe(st, qs + [e])
    ensures Safe(st, qs)
    ensures |qs| > 0 ==> SafeAt(st, InsertAll(st.buf, qs), e)
  {
    hide SafeAt;
    var ps := qs + [e];
    forall k | 0 < k < |qs| ensures SafeAt(st, InsertAll(st.buf, qs[..k]), qs[k]) {
      assert ps[..k] == qs[..k] && SafeAt(st, InsertAll(st.buf, ps[..k]), ps[k]);
    }
    if |qs| > 0 {
      assert ps[..|qs|] == qs && SafeAt(st, InsertAll(st.buf, ps[..|qs|]), ps[|qs|]);
    }
  }

  /** Whatever is not below some member of the deque is not below its front. */
  lemma SafeAbove(st: Jitter, qs: seq<Entry>, k: nat, m: Entry)
    requires Sorted(st.buf) && k < |qs| && (m in st.buf || m in qs[..k]) && m.seqno <= qs[k].seqno
    ensures SafeAt(st, InsertAll(st.buf, qs[..k]), qs[k])
  {
    hide Copies;
    hide Sorted;
    InsertAllSorted(st.buf, qs[..k]);
    InsertAllMembers(st.buf, qs[..k]);
    FrontIsLeast(InsertAll(st.buf, qs[..k]), m);
  }

  /** If the other packets stay below the start-fill, playback cannot begin before the least one is in. */
  lemma LeastIsIn(st: Jitter, qs: seq<Entry>, k: nat, m: Entry)
    requires k < |qs| && m in qs
    requires TotalFrames(st.buf) + TotalFrames(qs) < st.startFill + |m.frames|
    requires TotalFrames(InsertAll(st.buf, qs[..k])) >= st.startFill
    ensures m in qs[..k]
  {
    InsertAllTotal(st.buf, qs[..k]);
    assert qs == qs[..k] + qs[k..];
    TotalConcat(qs[..k], qs[k..]);
    if m in qs[k..] {
      TotalMember(qs[k..], m);
    }
  }

  lemma FreeIsSafe(st: Jitter, ps: seq<Entry>, qs: seq<Entry>)
    requires PlaybackOk(st) && Sorted(st.buf) && OrderFree(st, ps) && Permuted(ps, qs)
    ensures Safe(st, qs)
  {
    hide InsertAll;
    PermutedMembers(ps, qs);
    TotalPermuted(ps, qs);
    forall k | 0 < k < |qs| ensures SafeAt(st, InsertAll(st.buf, qs[..k]), qs[k]) {
      var mid := InsertAll(st.buf, qs[..k]);
      assert qs[k] in qs;
      if st.cursor == None && mid != [] && TotalFrames(mid) >= st.startFill {
        if st.buf != [] && st.buf[0].seqno <= qs[k].seqno {
          SafeAbove(st, qs, k, st.buf[0]);
        } else {
          LeastIsIn(st, qs, k, Least(ps));
          SafeAbove(st, qs, k, Least(ps));
        }
      }
    }
  }

  // ---------------------------------------------------------------- every order, on wrapped numbers

  /** A push stays within the numbers at hand, never unsets the cursor and never undoes a drop. */
  lemma {:induction false} PushAllStays(st: Jitter, qs: seq<Entry>)
    ensures var s := PushAll(Unbounded, st, qs);
      && s.dropped >= st.dropped && s.startFill == st.startFill
      && (forall x :: x in s.buf ==> x in st.buf + qs)
      && (st.cursor.Some? ==> s.cursor == st.cursor)
      && (st.cursor.None? && s.cursor.Some? ==> exists x :: x in st.buf + qs && x.seqno == s.cursor.value)
  {
    hide Insert;
    hide TotalFrames;
    if qs != [] {
      var rest, e := qs[..|qs| - 1], qs[|qs| - 1];
      assert qs == rest + [e];
      PushAllStays(st, rest);
      var s := PushAll(Unbounded, st, rest);
      InsertMembers(s.buf, e);
      var t := Push(Unbounded, s, e).0;
      assert forall x :: x in st.buf + rest ==> x in st.buf + qs;
      assert e in st.buf + qs;
      if s.cursor.None? && t.cursor.Some? {
        assert t.buf[0] in t.buf;
      }
    }
  }

  lemma NextInWindow(st: Jitter, qs: seq<Entry>, e: Entry)
    requires Admissible(st, qs + [e])
    ensures Admissible(st, qs)
    ensures ArrivesInWindow(PushAll(Unbounded, st, qs), e.seqno)
  {
    hide PushAll;
    PushAllStays(st, qs);
    var all := st.buf + (qs + [e]);
    assert forall x :: x in st.buf + qs ==> x in all;
    assert e in all;
  }

  lemma {:induction false} PushAllWraps(st: Jitter, ps: seq<Entry>)
    requires Admissible(st, ps)
    ensures After(st, ps) == WrapState(PushAll(Unbounded, st, ps))
  {
    hide Push;
    if ps != [] {
      var qs, e := ps[..|ps| - 1], ps[|ps| - 1];
      assert ps == qs + [e];
      WrapBufSnoc(qs, e);
      NextInWindow(st, qs, e);
      PushAllWraps(st, qs);
      PushWraps(PushAll(Unbounded, st, qs), e);
    }
  }

  lemma {:induction false} WrapBufSnoc(s: seq<Entry>, e: Entry)
    ensures WrapBuf(s + [e]) == WrapBuf(s) + [WrapEntry(e)]
  {
    if s == [] {
      assert s + [e] == [e];
    } else {
      assert (s + [e])[1..] == s[1..] + [e];
      WrapBufSnoc(s[1..], e);
    }
  }

  // ---------------------------------------------------------------- an order that drops the least packet

  /** While the cursor is not set nothing has been refused and playback has not begun. */
  lemma {:induction false} NotBegun(st: Jitter, qs: seq<Entry>)
    requires PlaybackOk(st) && PushAll(Unbounded, st, qs).cursor == None
    ensures var s := PushAll(Unbounded, st, qs);
      s.state == Filling && s.buf == InsertAll(st.buf, qs) && s.startFill == st.startFill
  {
    hide Insert;
    hide TotalFrames;
    if qs != [] {
      NotBegun(st, qs[..|qs| - 1]);
    }
  }

  lemma HasBegun(st: Jitter, qs: seq<Entry>)
    requires PlaybackOk(st) && qs != [] && TotalFrames(st.buf) + TotalFrames(qs) >= st.startFill
    ensures PushAll(Unbounded, st, qs).cursor.Some?
  {
    hide Insert;
    hide TotalFrames;
    if PushAll(Unbounded, st, qs).cursor == None {
      var rest, e := qs[..|qs| - 1], qs[|qs| - 1];
      NotBegun(st, qs);
      InsertAllTotal(st.buf, qs);
      if PushAll(Unbounded, st, rest).cursor == None {
        NotBegun(st, rest);
      }
    }
  }

  lemma LeastRefused(st: Jitter, rest: seq<Entry>, m: Entry)
    requires PlaybackOk(st) && st.cursor == None && rest != []
    requires TotalFrames(st.buf) + TotalFrames(rest) >= st.startFill
    requires forall x :: x in st.buf + rest ==> m.seqno < x.seqno
    ensures PushAll(Unbounded, st, rest + [m]).dropped > st.dropped
  {
    hide PushAll;
    HasBegun(st, rest);
    PushAllStays(st, rest);
    PushSnoc(st, rest, m);
  }

  lemma PushSnoc(st: Jitter, rest: seq<Entry>, m: Entry)
    ensures PushAll(Unbounded, st, rest + [m]) == Push(Unbounded, PushAll(Unbounded, st, rest), m).0
  {
    assert (rest + [m])[..|rest|] == rest;
  }

  lemma LeastFirstIsSafe(st: Jitter, rest: seq<Entry>, m: Entry)
    requires Sorted(st.buf) && forall x :: x in rest ==> m.seqno < x.seqno
    ensures Safe(st, [m] + rest)
  {
    var qs := [m] + rest;
    forall k | 0 < k < |qs| ensures SafeAt(st, InsertAll(st.buf, qs[..k]), qs[k]) {
      assert qs[k] == rest[k - 1] && qs[k] in rest;
      assert qs[..k][0] == m;
      SafeAbove(st, qs, k, m);
    }
  }

  /** Two orders that end in different states. */
  lemma OrderShows(st: Jitter, ps: seq<Entry>) returns (qs: seq<Entry>, rs: seq<Entry>)
    requires PlaybackOk(st) && Sorted(st.buf) && Admissible(st, ps) && Distinct(ps) && !OrderFree(st, ps)
    ensures Permuted(ps, qs) && Permuted(ps, rs) && After(st, qs) != After(st, rs)
  {
    hide PushAll;
    hide InsertAll;
    hide After;
    hide Sorted;
    hide Admissible;
    hide Distinct;
    var m := Least(ps);
    var i :| 0 <= i < |ps| && ps[i] == m;
    var rest := Without(ps, i);
    WithoutIs(ps, i);
    qs, rs := [m] + rest, rest + [m];
    AboveLeast(st, ps, i);
    LeastFirstKeeps(st, ps, qs, rest, m);
    OrderIrrelevant(st, ps, rs);
    LeastRefused(st, rest, m);
    PushAllWraps(st, rs);
    assert After(st, qs).dropped == st.dropped < After(st, rs).dropped;
  }

  lemma LeastFirstKeeps(st: Jitter, ps: seq<Entry>, qs: seq<Entry>, rest: seq<Entry>, m: Entry)
    requires PlaybackOk(st) && Sorted(st.buf) && Admissible(st, ps) && Distinct(ps) && Permuted(ps, qs)
    requires qs == [m] + rest && forall x :: x in rest ==> m.seqno < x.seqno
    ensures After(st, qs).dropped == st.dropped
  {
    hide PushAll;
    hide InsertAll;
    hide After;
    OrderIrrelevant(st, ps, qs);
    LeastFirstIsSafe(st, rest, m);
    PushAllLands(st, qs);
    PushAllWraps(st, qs);
  }

  lemma OtherIndex(ps: seq<Entry>, i: nat, x: Entry) returns (k: nat)
    requires i < |ps| && x in Without(ps, i)
    ensures k < |ps| && k != i && ps[k] == x
  {
    var j :| 0 <= j < |Without(ps, i)| && Without(ps, i)[j] == x;
    k := if j < i then j else j + 1;
  }

  lemma AboveLeast(st: Jitter, ps: seq<Entry>, i: nat)
    requires Sorted(st.buf) && Distinct(ps) && i < |ps| && ps[i] == Least(ps)
    requires st.buf != [] ==> exists x :: x in ps && x.seqno < st.buf[0].seqno
    ensures forall x :: x in st.buf + Without(ps, i) ==> ps[i].seqno < x.seqno
  {
    var rest := Without(ps, i);
    forall x | x in st.buf + rest ensures ps[i].seqno < x.seqno {
      if x in st.buf {
        FrontIsLeast(st.buf, x);
      } else {
        var k := OtherIndex(ps, i, x);
        assert ps[k] in ps;
      }
    }
  }

  // ---------------------------------------------------------------- theorems

  /** What the code's buffer holds after the packets in any order, when the order is free: nothing is refused,
      and the deque is the sorted one with packets of one number in the order of their arrival. */
  lemma ArrivalResult(st: Jitter, ps: seq<Entry>, qs: seq<Entry>)
    requires PlaybackOk(st) && Sorted(st.buf) && Admissible(st, ps) && Distinct(ps)
    requires OrderFree(st, ps) && Permuted(ps, qs)
    ensures var sorted := InsertAll(st.buf, ps);
      && After(st, qs) == WrapState(Landed(st, sorted, |ps|))
      && Sorted(sorted) && multiset(sorted) == multiset(st.buf) + multiset(ps)
      && forall n :: Copies(sorted, n) == Copies(st.buf, n) + Copies(ps, n)
  {
    hide PushAll;
    hide InsertAll;
    hide After;
    hide Copies;
    hide OrderFree;
    OrderIrrelevant(st, ps, qs);
    PermutedMembers(ps, qs);
    InsertAllSorted(st.buf, ps);
    InsertAllMembers(st.buf, ps);
    InsertAllPermuted(st.buf, ps, qs);
    FreeIsSafe(st, ps, qs);
    PushAllLands(st, qs);
    PushAllWraps(st, qs);
  }

  /** All orders in which packets of distinct numbers arrive leave the code's buffer in the same state if and
      only if the order is free. */
  lemma ArrivalOrder(st: Jitter, ps: seq<Entry>)
    requires PlaybackOk(st) && Sorted(st.buf) && Admissible(st, ps) && Distinct(ps)
    ensures (forall qs, rs :: Permuted(ps, qs) && Permuted(ps, rs) ==> After(st, qs) == After(st, rs))
      <==> OrderFree(st, ps)
  {
    hide OrderFree;
    hide After;
    if OrderFree(st, ps) {
      forall qs, rs | Permuted(ps, qs) && Permuted(ps, rs) ensures After(st, qs) == After(st, rs) {
        ArrivalResult(st, ps, qs);
        ArrivalResult(st, ps, rs);
      }
    } else {
      var qs, rs := OrderShows(st, ps);
    }
  }

  /** The smallest instance in which it is not: the packet that begins playback shuts out an earlier one. */
  lemma ArrivalOrderMatters()
    ensures var st := NewJitter(1);
      var p, q := Entry(0, [SILENCE]), Entry(1, [SILENCE]);
      && PushAll(Wrapped, st, [p, q]).buf == [p, q]
      && PushAll(Wrapped, st, [q, p]).buf == [q]
  {
    var st := NewJitter(1);
    var p, q := Entry(0, [SILENCE]), Entry(1, [SILENCE]);
    assert [p, q][..1] == [p] && [q, p][..1] == [q] && [p][..0] == [] && [q][..0] == [];
    assert PushAll(Wrapped, st, [p]) == Push(Wrapped, st, p).0;
    assert PushAll(Wrapped, st, [q]) == Push(Wrapped, st, q).0;
    assert Insert(Wrapped, [p], q) == [p] + Insert(Wrapped, [], q);
  }
}
