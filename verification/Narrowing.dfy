/** The driver's conversion of 32-bit float samples to 16-bit integers inside one shared buffer. */
module Narrowing {
  import opened Audio
  import opened Wire

  /** How four bytes of the buffer read as a float; the encoding itself is not modelled. */
  type Decoder = (Byte, Byte, Byte, Byte) -> real

  function Gain(volumeScalar: real, muted: bool): real {
    if muted then 0.0 else volumeScalar * volumeScalar
  }

  function Clamp(x: real): real {
    if x > 1.0 then 1.0 else if x < -1.0 then -1.0 else x
  }

  /** The conversion from real to integer: towards zero. */
  function Truncate(x: real): int {
    if x >= 0.0 then x.Floor else -((-x).Floor)
  }

  function Convert(x: real): int { Truncate(Clamp(x) * 32767.0) }

  /** The result fits 16 bits with room to spare, saturates outside [-1, 1], and is within one step of
      the exact value inside. */
  lemma ConvertRange(x: real)
    ensures -32767 <= Convert(x) <= 32767
    ensures x >= 1.0 <==> Convert(x) == 32767
    ensures x <= -1.0 <==> Convert(x) == -32767
    ensures -1.0 <= x <= 1.0 ==> -1.0 < Convert(x) as real - x * 32767.0 < 1.0
    ensures -1.0 <= x <= 1.0 ==> (if x >= 0.0 then 0.0 <= Convert(x) as real <= x * 32767.0
                                  else x * 32767.0 <= Convert(x) as real <= 0.0)
  {
  }

  lemma ConvertMonotone(x: real, y: real)
    requires x <= y
    ensures Convert(x) <= Convert(y)
    ensures Convert(-x) == -Convert(x)
  {
  }

  function Scale(x: real, gain: real): real { x * gain }

  function Magnitude(n: int): nat { if n < 0 then -n else n }

  /** A volume between silence and full: a higher one never makes a sample smaller, and none changes its sign. */
  lemma VolumeMonotone(x: real, low: real, high: real)
    requires 0.0 <= low <= high <= 1.0
    ensures Magnitude(Convert(x * (low * low))) <= Magnitude(Convert(x * (high * high)))
    ensures Convert(x * (low * low)) == 0 || (Convert(x * (low * low)) > 0 <==> x > 0.0)
  {
    hide Convert;
    SquaresGrow(low, high);
    var a, b := low * low, high * high;
    GainMonotone(x, a, b);
    SameConvert(x * (low * low), x * a);
    SameConvert(x * (high * high), x * b);
  }

  lemma SameConvert(a: real, b: real)
    requires a == b
    ensures Convert(a) == Convert(b)
  {
  }

  lemma SquaresGrow(low: real, high: real)
    requires 0.0 <= low <= high
    ensures 0.0 <= low * low <= high * high
  {
    assert high * high - low * low == (high - low) * (high + low);
    NotNegative(high - low, high + low);
    NotNegative(low, low);
  }

  lemma NotNegative(a: real, b: real)
    requires 0.0 <= a && 0.0 <= b
    ensures 0.0 <= a * b
  {
  }

  lemma GainMonotone(x: real, a: real, b: real)
    requires 0.0 <= a <= b
    ensures Magnitude(Convert(x * a)) <= Magnitude(Convert(x * b))
    ensures Convert(x * a) == 0 || (Convert(x * a) > 0 <==> x > 0.0)
  {
    hide Convert;
    assert x * b - x * a == x * (b - a);
    ConvertZero();
    if x >= 0.0 {
      NotNegative(x, a);
      NotNegative(x, b - a);
      ConvertMonotone(x * a, x * b);
      ConvertMonotone(0.0, x * a);
      if x == 0.0 {
        assert x * a == 0.0;
      }
    } else {
      NotNegative(-x, a);
      NotNegative(-x, b - a);
      ConvertMonotone(x * b, x * a);
      ConvertMonotone(x * a, 0.0);
    }
  }

  lemma ConvertZero()
    ensures Convert(0.0) == 0
  {
  }

  /** Sample `i` of the buffer as a float. */
  function FloatAt(bytes: seq<Byte>, i: nat, decode: Decoder): real
    requires 4 * i + 4 <= |bytes|
  {
    decode(bytes[4 * i], bytes[4 * i + 1], bytes[4 * i + 2], bytes[4 * i + 3])
  }

  /** A 32-bit float as it lies in memory. */
  datatype Float32 = Float32(b0: Byte, b1: Byte, b2: Byte, b3: Byte)

  function FloatBytes(floats: seq<Float32>): (bytes: seq<Byte>)
    ensures |bytes| == 4 * |floats|
  {
    if floats == [] then []
    else
      var last := floats[|floats| - 1];
      FloatBytes(floats[..|floats| - 1]) + [last.b0, last.b1, last.b2, last.b3]
  }

  /** Reading a buffer of floats one after the other gives each its own four bytes, in order. */
  lemma {:induction false} FloatRead(floats: seq<Float32>, rest: seq<Byte>, i: nat, decode: Decoder)
    requires i < |floats|
    ensures var f := floats[i];
      FloatAt(FloatBytes(floats) + rest, i, decode) == decode(f.b0, f.b1, f.b2, f.b3)
  {
    var n := |floats| - 1;
    var last := floats[n];
    var bytes := [last.b0, last.b1, last.b2, last.b3];
    Associative(FloatBytes(floats[..n]), bytes, rest);
    if i < n {
      FloatRead(floats[..n], bytes + rest, i, decode);
    }
  }

  /** The same, scaled and narrowed. */
  function NarrowedAt(bytes: seq<Byte>, i: nat, decode: Decoder, gain: real): Sample
    requires 4 * i + 4 <= |bytes|
  {
    ConvertRange(Scale(FloatAt(bytes, i, decode), gain));
    Convert(Scale(FloatAt(bytes, i, decode), gain))
  }

  /** The out-of-place conversion of the first `n` samples. */
  function Narrowed(bytes: seq<Byte>, n: nat, decode: Decoder, gain: real): (samples: seq<Sample>)
    requires 4 * n <= |bytes|
    ensures |samples| == n
  {
    seq(n, i requires 0 <= i < n => NarrowedAt(bytes, i, decode, gain))
  }

  /** 16-bit samples as they lie in memory. */
  function ShortBytes(samples: seq<Sample>): (bytes: seq<Byte>)
    ensures |bytes| == 2 * |samples|
  {
    if samples == [] then []
    else ShortBytes(samples[..|samples| - 1]) + SampleBytes(samples[|samples| - 1])
  }

  /** Reading the front of the buffer as 16-bit samples gives back exactly those stored there. */
  lemma {:induction false} ShortBytesRead(samples: seq<Sample>, rest: seq<Byte>, i: nat)
    requires i < |samples|
    ensures var bytes := ShortBytes(samples) + rest; SampleAt(bytes[2 * i], bytes[2 * i + 1]) == samples[i]
  {
    hide SampleAt;
    hide SampleBytes;
    var n := |samples| - 1;
    var last := SampleBytes(samples[n]);
    Associative(ShortBytes(samples[..n]), last, rest);
    if i < n {
      ShortBytesRead(samples[..n], last + rest, i);
    } else {
      SampleRoundTrip(samples[n]);
    }
  }

  /** The arithmetic of one round of the loop. */
  method ClampAndTruncate(scaled: real) returns (narrowed: Sample)
    ensures narrowed == Convert(scaled)
  {
    var sample := scaled;
    if sample > 1.0 {
      sample := 1.0;
    }
    if sample < -1.0 {
      sample := -1.0;
    }
    ConvertRange(scaled);
    narrowed := Truncate(sample * 32767.0);
  }

  /** The in-place loop leaves at the front of the buffer the samples of the out-of-place conversion and
      everything behind them untouched. */
  method NarrowInPlace(buf: array<Byte>, frameCount: nat, decode: Decoder, volumeScalar: real, muted: bool)
    requires 8 * frameCount <= buf.Length
    modifies buf
    ensures buf[..] ==
      ShortBytes(Narrowed(old(buf[..]), 2 * frameCount, decode, Gain(volumeScalar, muted))) + old(buf[4 * frameCount..])
    ensures muted ==> forall b :: 0 <= b < 4 * frameCount ==> buf[b] == 0
    ensures forall i :: 0 <= i < 2 * frameCount ==>
      Sounds(FloatAt(old(buf[..]), i, decode), volumeScalar, muted, SampleAt(buf[2 * i], buf[2 * i + 1]))
  {
    hide Convert;
    hide SampleBytes;
    hide ShortBytes;
    hide Scale;
    hide Narrowed;
    hide Sounds;
    hide SampleAt;
    var gain := Gain(volumeScalar, muted);
    var sampleCount := frameCount * 2;
    ghost var before := buf[..];
    NothingNarrowed(before, decode, gain);
    for i := 0 to sampleCount
      invariant buf[..] == ShortBytes(Narrowed(before, i, decode, gain)) + before[2 * i..]
    {
      // The four bytes of sample `i` start at or behind the first byte not yet written.
      assert FloatAt(buf[..], i, decode) == FloatAt(before, i, decode) by {
        ReadsBehind(buf[..], ShortBytes(Narrowed(before, i, decode, gain)), before, i, decode);
      }
      var sample := decode(buf[4 * i], buf[4 * i + 1], buf[4 * i + 2], buf[4 * i + 3]);
      var narrowed := ClampAndTruncate(Scale(sample, gain));
      assert narrowed == NarrowedAt(before, i, decode, gain);
      StoredBehind(buf[..], ShortBytes(Narrowed(before, i, decode, gain)), before, i, SampleBytes(narrowed));
      StoreShort(buf, i, narrowed);
      NarrowOneMore(before, i, decode, gain);
    }
    NarrowedSounds(before, buf[..], 2 * frameCount, decode, volumeScalar, muted);
  }

  /** A converted sample: silent if muted, else the decoded float times the volume squared, clamped and
      truncated; at full volume the decoded float alone. */
  ghost predicate Sounds(decoded: real, volume: real, muted: bool, sample: Sample) {
    && sample == (if muted then 0 else Convert(decoded * (volume * volume)))
    && (!muted && volume == 1.0 ==> sample == Convert(decoded))
  }

  lemma NarrowedSounds(before: seq<Byte>, after: seq<Byte>, n: nat, decode: Decoder, volume: real, muted: bool)
    requires 4 * n <= |before|
    requires after == ShortBytes(Narrowed(before, n, decode, Gain(volume, muted))) + before[2 * n..]
    ensures |after| == |before|
    ensures forall i :: 0 <= i < n ==>
      Sounds(FloatAt(before, i, decode), volume, muted, SampleAt(after[2 * i], after[2 * i + 1]))
    ensures muted ==> forall b :: 0 <= b < 2 * n ==> after[b] == 0
  {
    hide ShortBytes;
    hide Convert;
    hide SampleAt;
    hide Narrowed;
    hide Sounds;
    hide Gain;
    var samples := Narrowed(before, n, decode, Gain(volume, muted));
    forall i | 0 <= i < n
      ensures Sounds(FloatAt(before, i, decode), volume, muted, SampleAt(after[2 * i], after[2 * i + 1]))
    {
      ShortBytesRead(samples, before[2 * n..], i);
      SampleIs(before, n, i, decode, volume, muted);
    }
    if muted {
      forall i | 0 <= i < n ensures samples[i] == 0 {
        SampleIs(before, n, i, decode, volume, muted);
        SilentIfMuted(FloatAt(before, i, decode), volume, samples[i]);
      }
      SilentBytes(samples);
    }
  }

  lemma SilentIfMuted(decoded: real, volume: real, sample: Sample)
    requires Sounds(decoded, volume, true, sample)
    ensures sample == 0
  {
  }

  lemma SampleIs(before: seq<Byte>, n: nat, i: nat, decode: Decoder, volume: real, muted: bool)
    requires i < n && 4 * n <= |before|
    ensures Sounds(FloatAt(before, i, decode), volume, muted, Narrowed(before, n, decode, Gain(volume, muted))[i])
  {
    hide Convert;
    hide Scale;
    hide Gain;
    hide FloatAt;
    GainIs(FloatAt(before, i, decode), volume, muted);
  }

  lemma GainIs(x: real, volume: real, muted: bool)
    ensures -0x8000 <= Convert(Scale(x, Gain(volume, muted))) < 0x8000
    ensures Sounds(x, volume, muted, Convert(Scale(x, Gain(volume, muted))))
  {
    ConvertRange(Scale(x, Gain(volume, muted)));
    hide Convert;
    ConvertZero();
    NoGain(x);
    if muted {
      SameConvert(Scale(x, Gain(volume, muted)), 0.0);
    } else {
      SameConvert(Scale(x, Gain(volume, muted)), x * (volume * volume));
      if volume == 1.0 {
        FullVolume(x, volume);
        SameConvert(x * (volume * volume), x);
      }
    }
  }

  lemma FullVolume(x: real, volume: real)
    requires volume == 1.0
    ensures x * (volume * volume) == x
  {
  }

  lemma NoGain(x: real)
    ensures x * 0.0 == 0.0 && x * 1.0 == x
  {
  }

  lemma {:induction false} SilentBytes(samples: seq<Sample>)
    requires forall i :: 0 <= i < |samples| ==> samples[i] == 0
    ensures forall b :: 0 <= b < 2 * |samples| ==> ShortBytes(samples)[b] == 0
  {
    if samples != [] {
      SilentBytes(samples[..|samples| - 1]);
      assert SampleBytes(0) == [0, 0] by {
        SilentSample();
      }
    }
  }

  lemma SilentSample()
    ensures SampleBytes(0) == [0, 0]
  {
    assert ToLe(0, 0) == [] && ToLe(0, 1) == [0] && ToLe(0, 2) == [0] + ToLe(0, 1);
  }

  lemma StoredBehind(bytes: seq<Byte>, written: seq<Byte>, before: seq<Byte>, i: nat, short: seq<Byte>)
    requires |written| == 2 * i && 2 * i + 2 <= |before| && bytes == written + before[2 * i..]
    ensures bytes[..2 * i] + short + bytes[2 * i + 2..] == written + short + before[2 * (i + 1)..]
  {
  }

  lemma ReadsBehind(bytes: seq<Byte>, written: seq<Byte>, before: seq<Byte>, i: nat, decode: Decoder)
    requires |written| == 2 * i && 4 * i + 4 <= |before| && bytes == written + before[2 * i..]
    ensures FloatAt(bytes, i, decode) == FloatAt(before, i, decode)
  {
    forall b | 2 * i <= b < |before| ensures bytes[b] == before[b] {
      assert bytes[b] == before[2 * i..][b - 2 * i];
    }
  }

  method StoreShort(buf: array<Byte>, i: nat, s: Sample)
    requires 2 * i + 2 <= buf.Length
    modifies buf
    ensures buf[..] == old(buf[..2 * i]) + SampleBytes(s) + old(buf[2 * i + 2..])
  {
    var bytes := SampleBytes(s);
    buf[2 * i] := bytes[0];
    buf[2 * i + 1] := bytes[1];
  }

  lemma NothingNarrowed(bytes: seq<Byte>, decode: Decoder, gain: real)
    ensures ShortBytes(Narrowed(bytes, 0, decode, gain)) + bytes == bytes
  {
  }

  lemma NarrowOneMore(bytes: seq<Byte>, i: nat, decode: Decoder, gain: real)
    requires 4 * i + 4 <= |bytes|
    ensures ShortBytes(Narrowed(bytes, i + 1, decode, gain))
      == ShortBytes(Narrowed(bytes, i, decode, gain)) + SampleBytes(NarrowedAt(bytes, i, decode, gain))
  {
    hide SampleBytes;
    var samples := Narrowed(bytes, i + 1, decode, gain);
    assert samples[..i] == Narrowed(bytes, i, decode, gain);
  }
}
