/** Sequence numbers: the receiver's wrapping 32-bit comparison and the unbounded order it stands for. */
module SeqNum {
  import opened Audio

  const MODULUS: nat := 0x1_0000_0000

  /** Largest distance at which the wrapped comparison agrees with the unbounded one. */
  const HALF_WINDOW: nat := 0x7FFF_FFFE

  function Wrap(n: int): U32 { n % MODULUS }

  /** The receiver's `seq_before` on two 32-bit numbers. */
  predicate SeqBefore(a: int, b: int) {
    var diff := (b - a) % MODULUS;
    0 < diff < 0xFFFF_FFFF / 2
  }

  predicate Near(a: int, b: int) { a <= b + HALF_WINDOW && b <= a + HALF_WINDOW }

  /** The two ways a buffer can number its packets: as the code does, and as the sender counts. */
  datatype Numbering = Wrapped | Unbounded {
    predicate Before(a: int, b: int) {
      if Wrapped? then SeqBefore(a, b) else a < b
    }

    function Next(n: int): int {
      if Wrapped? then Wrap(n + 1) else n + 1
    }
  }

  /** Within half a window the wrapped order is the unbounded order, across every wrap. */
  lemma WrappedOrder(a: int, b: int)
    requires Near(a, b)
    ensures SeqBefore(Wrap(a), Wrap(b)) <==> a < b
    ensures Wrap(a) == Wrap(b) <==> a == b
  {
    var m := MODULUS;
    assert Wrap(a) == a - m * (a / m) && Wrap(b) == b - m * (b / m);
    var diff := (Wrap(b) - Wrap(a)) % m;
    var q := b / m - a / m;
    assert Wrap(b) - Wrap(a) == (b - a) - m * q;
    if a <= b {
      ModUnique(Wrap(b) - Wrap(a), -q, b - a);
    } else {
      ModUnique(Wrap(b) - Wrap(a), -q - 1, b - a + m);
    }
  }

  lemma ModUnique(x: int, q: int, r: int)
    requires x == q * MODULUS + r && 0 <= r < MODULUS
    ensures x % MODULUS == r
  {
    assert x == (x / MODULUS) * MODULUS + x % MODULUS;
  }

  lemma WrapNext(n: int)
    ensures Wrapped.Next(Wrap(n)) == Wrap(n + 1)
  {
  }

  /** Two distinct numbers are unordered both ways exactly at the three middle distances; at all
      other distances exactly one precedes the other. */
  lemma Unordered(a: U32, b: U32)
    requires a != b
    ensures !(SeqBefore(a, b) && SeqBefore(b, a))
    ensures !SeqBefore(a, b) && !SeqBefore(b, a) <==> (b - a) % MODULUS in {0x7FFF_FFFF, 0x8000_0000, 0x8000_0001}
  {
    var d := (b - a) % MODULUS;
    assert (a - b) % MODULUS == MODULUS - d;
  }
}
