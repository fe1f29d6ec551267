/** The wire format: header, payload, the sender's packet builder and both receivers' parsers. */
module Wire {
  import opened Audio

  // ---------------------------------------------------------------- little-endian integers

  function Pow256(k: nat): nat { if k == 0 then 1 else 256 * Pow256(k - 1) }

  function ToLe(n: nat, k: nat): (b: seq<Byte>)
    ensures |b| == k
  {
    if k == 0 then [] else [n % 256] + ToLe(n / 256, k - 1)
  }

  function FromLe(b: seq<Byte>): nat {
    if b == [] then 0 else b[0] + 256 * FromLe(b[1..])
  }

  lemma LowByte(low: Byte, rest: nat)
    ensures (low + 256 * rest) % 256 == low && (low + 256 * rest) / 256 == rest
  {
  }

  lemma {:induction false} FromLeToLe(n: nat, k: nat)
    requires n < Pow256(k)
    ensures FromLe(ToLe(n, k)) == n
  {
    if k > 0 {
      FromLeToLe(n / 256, k - 1);
      assert ToLe(n, k)[1..] == ToLe(n / 256, k - 1);
    }
  }

  lemma {:induction false} ToLeFromLe(b: seq<Byte>)
    ensures FromLe(b) < Pow256(|b|)
    ensures ToLe(FromLe(b), |b|) == b
  {
    if b != [] {
      ToLeFromLe(b[1..]);
      LowByte(b[0], FromLe(b[1..]));
    }
  }

  lemma TwoBytes(u: nat)
    requires u < 0x1_0000
    ensures ToLe(u, 2) == [u % 256, u / 256]
    ensures u == u % 256 + 256 * (u / 256)
  {
    assert u / 256 < 256;
    assert ToLe(u / 256, 1) == [(u / 256) % 256] + ToLe(u / 256 / 256, 0);
  }

  lemma Widths()
    ensures Pow256(2) == 0x1_0000 && Pow256(4) == 0x1_0000_0000
    ensures Pow256(8) == 0x1_0000_0000_0000_0000
  {
    assert Pow256(3) == 0x100_0000;
    assert Pow256(5) == 0x100_0000_0000;
    assert Pow256(7) == 0x100_0000_0000_0000;
  }

  // ---------------------------------------------------------------- header

  datatype PacketHeader = PacketHeader(version: Byte, flags: Byte, seqno: U32, frames: U32, timestampNs: U64)

  function HeaderBytes(h: PacketHeader): (b: seq<Byte>)
    ensures |b| == HEADER_BYTES
  {
    ToLe(PROTO_MAGIC, 2) + [h.version, h.flags] + ToLe(h.seqno, 4) + ToLe(h.frames, 4) + ToLe(h.timestampNs, 8)
  }

  function FromBytes(b: seq<Byte>): Option<PacketHeader>
    requires |b| == HEADER_BYTES
  {
    if FromLe(b[..2]) != PROTO_MAGIC then None
    else
      ToLeFromLe(b[4..8]); ToLeFromLe(b[8..12]); ToLeFromLe(b[12..20]); Widths();
      Some(PacketHeader(b[2], b[3], FromLe(b[4..8]), FromLe(b[8..12]), FromLe(b[12..20])))
  }

  /** Fills a zeroed 20-byte buffer field by field. */
  method ToBytes(h: PacketHeader) returns (buf: array<Byte>)
    ensures fresh(buf) && buf[..] == HeaderBytes(h)
  {
    hide ToLe;
    buf := new Byte[20](_ => 0);
    CopyAt(buf, 0, ToLe(PROTO_MAGIC, 2));
    buf[2] := h.version;
    buf[3] := h.flags;
    ghost var front := ToLe(PROTO_MAGIC, 2) + [h.version, h.flags];
    assert buf[..4] == front;
    CopyAt(buf, 4, ToLe(h.seqno, 4));
    front := front + ToLe(h.seqno, 4);
    assert buf[..8] == front;
    CopyAt(buf, 8, ToLe(h.frames, 4));
    front := front + ToLe(h.frames, 4);
    assert buf[..12] == front;
    CopyAt(buf, 12, ToLe(h.timestampNs, 8));
    assert buf[20..] == [];
  }

  /** `FromBytes` undoes `HeaderBytes`. */
  lemma HeaderRoundTrip(h: PacketHeader)
    ensures FromBytes(HeaderBytes(h)) == Some(h)
  {
    Widths();
    var b := HeaderBytes(h);
    assert b[..2] == ToLe(PROTO_MAGIC, 2);
    assert b[4..8] == ToLe(h.seqno, 4);
    assert b[8..12] == ToLe(h.frames, 4);
    assert b[12..20] == ToLe(h.timestampNs, 8);
    FromLeToLe(PROTO_MAGIC, 2);
    FromLeToLe(h.seqno, 4);
    FromLeToLe(h.frames, 4);
    FromLeToLe(h.timestampNs, 8);
  }

  lemma MagicIs(b: seq<Byte>)
    requires |b| == 2
    ensures ToLe(PROTO_MAGIC, 2) == [0x4B, 0x5A]
    ensures FromLe(b) == PROTO_MAGIC <==> b == [0x4B, 0x5A]
  {
    TwoBytes(PROTO_MAGIC);
    hide FromLe;
    hide ToLe;
    ToLeFromLe(b);
    Widths();
    FromLeToLe(PROTO_MAGIC, 2);
  }

  /** `HeaderBytes` undoes `FromBytes`, and `FromBytes` fails exactly on a wrong magic. */
  lemma BytesRoundTrip(b: seq<Byte>)
    requires |b| == HEADER_BYTES
    ensures FromBytes(b).Some? <==> b[..2] == [0x4B, 0x5A]
    ensures FromBytes(b).Some? ==> HeaderBytes(FromBytes(b).value) == b
  {
    hide FromLe;
    hide ToLe;
    MagicIs(b[..2]);
    if FromBytes(b).Some? {
      ToLeFromLe(b[4..8]);
      ToLeFromLe(b[8..12]);
      ToLeFromLe(b[12..20]);
      assert b == b[..2] + [b[2], b[3]] + b[4..8] + b[8..12] + b[12..20];
    }
  }

  function LittleEndian32(b: seq<Byte>, at: nat): nat
    requires at + 4 <= |b|
  {
    var b0: int, b1: int, b2: int, b3: int := b[at], b[at + 1], b[at + 2], b[at + 3];
    b0 + 0x100 * b1 + 0x1_0000 * b2 + 0x100_0000 * b3
  }

  lemma Peel(b: seq<Byte>, i: nat)
    requires i < |b|
    ensures FromLe(b[i..]) == b[i] + 256 * FromLe(b[i + 1..])
  {
    assert b[i..][1..] == b[i + 1..];
  }

  lemma FromLe4(b: seq<Byte>, i: nat)
    requires i + 4 <= |b|
    ensures FromLe(b[i..]) == LittleEndian32(b, i) + 0x1_0000_0000 * FromLe(b[i + 4..])
  {
    hide FromLe;
    Peel(b, i);
    Peel(b, i + 1);
    Peel(b, i + 2);
    Peel(b, i + 3);
  }

  /** Where each field lies, byte by byte. */
  lemma HeaderLayout(h: PacketHeader)
    ensures var b := HeaderBytes(h);
      && b[0] == 0x4B && b[1] == 0x5A && b[2] == h.version && b[3] == h.flags
      && LittleEndian32(b, 4) == h.seqno
      && LittleEndian32(b, 8) == h.frames
      && LittleEndian32(b, 12) + 0x1_0000_0000 * LittleEndian32(b, 16) == h.timestampNs
  {
    var b := HeaderBytes(h);
    HeaderRoundTrip(h);
    BytesRoundTrip(b);
    FieldValue(b, 4, 8);
    FieldValue(b, 8, 12);
    FieldValue(b, 12, 20);
  }

  lemma FieldValue(b: seq<Byte>, from: nat, to: nat)
    requires from + 4 == to <= |b| || from + 8 == to <= |b|
    ensures FromLe(b[from..to]) == LittleEndian32(b, from)
      + if to == from + 4 then 0 else 0x1_0000_0000 * LittleEndian32(b, from + 4)
  {
    var f := b[from..to];
    assert f[0..] == f && f[|f|..] == [] && FromLe([]) == 0;
    hide FromLe;
    FromLe4(f, 0);
    if to == from + 8 {
      FromLe4(f, 4);
    }
  }

  // ---------------------------------------------------------------- PCM payload

  function SampleBytes(s: Sample): (b: seq<Byte>)
    ensures |b| == 2
  {
    ToLe(if s < 0 then s + 0x1_0000 else s, 2)
  }

  function SampleAt(lo: Byte, hi: Byte): Sample {
    var v := lo + 256 * hi;
    if v >= 0x8000 then v - 0x1_0000 else v
  }

  function Payload(frames: seq<Frame>): (b: seq<Byte>)
    ensures |b| == 4 * |frames|
  {
    if frames == [] then []
    else Payload(frames[..|frames| - 1]) + FrameBytes(frames[|frames| - 1])
  }

  function FrameBytes(f: Frame): (b: seq<Byte>)
    ensures |b| == 4
  {
    SampleBytes(f.left) + SampleBytes(f.right)
  }

  function FrameAt(payload: seq<Byte>, i: nat): Frame
    requires 4 * i + 4 <= |payload|
  {
    Frame(SampleAt(payload[4 * i], payload[4 * i + 1]), SampleAt(payload[4 * i + 2], payload[4 * i + 3]))
  }

  function DecodeFrames(payload: seq<Byte>, n: nat): (frames: seq<Frame>)
    requires 4 * n <= |payload|
    ensures |frames| == n
  {
    seq(n, i requires 0 <= i < n => FrameAt(payload, i))
  }

  lemma SampleRoundTrip(s: Sample)
    ensures SampleAt(SampleBytes(s)[0], SampleBytes(s)[1]) == s
  {
    TwoBytes(if s < 0 then s + 0x1_0000 else s);
  }

  lemma FrameRoundTrip(f: Frame)
    ensures FrameAt(FrameBytes(f), 0) == f
  {
    SampleRoundTrip(f.left);
    SampleRoundTrip(f.right);
  }

  lemma {:induction false} PayloadRoundTrip(frames: seq<Frame>)
    ensures DecodeFrames(Payload(frames), |frames|) == frames
  {
    if frames != [] {
      var n := |frames| - 1;
      var p := Payload(frames);
      PayloadRoundTrip(frames[..n]);
      forall i | 0 <= i < |frames| ensures FrameAt(p, i) == frames[i] {
        if i < n {
          assert FrameAt(p, i) == FrameAt(Payload(frames[..n]), i);
          assert DecodeFrames(Payload(frames[..n]), n)[i] == frames[i];
        } else {
          assert p[4 * n..] == FrameBytes(frames[n]);
          assert FrameAt(p, n) == FrameAt(p[4 * n..], 0);
          FrameRoundTrip(frames[n]);
        }
      }
    }
  }

  // ---------------------------------------------------------------- sender

  /** The header of a packet; the frame count is truncated to 32 bits as in the code. */
  function SentHeader(seqno: U32, count: nat, timestampNs: U64): (h: PacketHeader)
    ensures h.version == PROTO_VERSION && h.seqno == seqno
    ensures count < 0x1_0000_0000 ==> h.frames == count
  {
    PacketHeader(PROTO_VERSION, 0, seqno, count % 0x1_0000_0000, timestampNs)
  }

  function PacketBytes(seqno: U32, frames: seq<Frame>, timestampNs: U64): seq<Byte> {
    HeaderBytes(SentHeader(seqno, |frames|, timestampNs)) + Payload(frames)
  }

  /** A built packet: what its header says, and its payload behind it. */
  lemma BuiltPacket(seqno: U32, frames: seq<Frame>, timestampNs: U64)
    ensures var packet := PacketBytes(seqno, frames, timestampNs);
      && |packet| == HEADER_BYTES + BYTES_PER_FRAME * |frames|
      && FromBytes(packet[..HEADER_BYTES]) ==
           Some(PacketHeader(1, 0, seqno, |frames| % 0x1_0000_0000, timestampNs))
      && DecodeFrames(packet[HEADER_BYTES..], |frames|) == frames
  {
    hide FromBytes;
    hide HeaderBytes;
    hide Payload;
    var h := SentHeader(seqno, |frames|, timestampNs);
    var packet := PacketBytes(seqno, frames, timestampNs);
    HeaderRoundTrip(h);
    PayloadRoundTrip(frames);
    assert packet[..HEADER_BYTES] == HeaderBytes(h) && packet[HEADER_BYTES..] == Payload(frames);
  }

  class Packetizer {
    var seqno: U32

    constructor ()
      ensures seqno == 0
    {
      seqno := 0;
    }

    method BuildPacket(frames: seq<Frame>, timestampNs: U64) returns (packet: seq<Byte>)
      modifies this
      ensures packet == PacketBytes(old(seqno), frames, timestampNs)
      ensures seqno == (old(seqno) + 1) % 0x1_0000_0000
    {
      var header := SentHeader(seqno, |frames|, timestampNs);
      seqno := (seqno + 1) % 0x1_0000_0000;
      var bytes := ToBytes(header);
      packet := bytes[..];
      for i := 0 to |frames|
        invariant packet == HeaderBytes(header) + Payload(frames[..i])
      {
        packet := packet + SampleBytes(frames[i].left);
        packet := packet + SampleBytes(frames[i].right);
        assert frames[..i + 1][..i] == frames[..i];
      }
      assert frames[..|frames|] == frames;
    }
  }

  // ---------------------------------------------------------------- receivers

  const RECEIVE_BUFFER: nat := 2048

  /** What `recv` puts in a receiver's 2048-byte buffer. */
  function Received(datagram: seq<Byte>): seq<Byte> {
    datagram[..Min(|datagram|, RECEIVE_BUFFER)]
  }

  /** How the Rust receiver classifies a datagram. */
  datatype Parsed = Ignored | BadMagic | BadVersion | Packet(seqno: U32, frames: seq<Frame>)

  function Parse(raw: seq<Byte>): Parsed {
    if |raw| < HEADER_BYTES then Ignored
    else
      match FromBytes(raw[..HEADER_BYTES])
      case None => BadMagic
      case Some(h) =>
        if h.version > PROTO_VERSION then BadVersion
        else if |raw| - HEADER_BYTES < h.frames * 4 then Ignored
        else Packet(h.seqno, DecodeFrames(raw[HEADER_BYTES..], h.frames))
  }

  /** How a datagram is classified, from its bytes: too short for a header, then wrong magic, then a version above
      1, then a payload shorter than the frame count announces. */
  lemma ParseIs(raw: seq<Byte>)
    ensures |raw| < 20 ==> Parse(raw) == Ignored
    ensures |raw| >= 20 ==>
      if raw[0] != 0x4B || raw[1] != 0x5A then Parse(raw) == BadMagic
      else if raw[2] > 1 then Parse(raw) == BadVersion
      else if |raw| < 20 + 4 * LittleEndian32(raw, 8) then Parse(raw) == Ignored
      else Parse(raw).Packet? && Parse(raw).seqno == LittleEndian32(raw, 4)
           && Parse(raw).frames == DecodeFrames(raw[20..], LittleEndian32(raw, 8))
  {
    if |raw| >= 20 {
      HeaderFields(raw);
    }
  }

  lemma HeaderFields(raw: seq<Byte>)
    requires |raw| >= HEADER_BYTES
    ensures var h := FromBytes(raw[..HEADER_BYTES]);
      && (h.None? <==> raw[0] != 0x4B || raw[1] != 0x5A)
      && (h.None? <==> (raw[0] as int) + 256 * (raw[1] as int) != PROTO_MAGIC)
      && (h.Some? ==> h.value.version == raw[2] && h.value.seqno == LittleEndian32(raw, 4)
                      && h.value.frames == LittleEndian32(raw, 8))
  {
    var b := raw[..HEADER_BYTES];
    MagicIs(b[..2]);
    assert b[..2] == [raw[0], raw[1]] && b[2] == raw[2];
    FieldValue(b, 4, 8);
    FieldValue(b, 8, 12);
    hide FromLe;
    assert (raw[0] as int) + 256 * (raw[1] as int) == PROTO_MAGIC <==> raw[0] == 0x4B && raw[1] == 0x5A;
  }

  /** The bytes the C receiver hands to its ring, if any. */
  function CPayload(raw: seq<Byte>): Option<seq<Byte>> {
    if |raw| <= HEADER_BYTES then None
    else if (raw[0] as int) + 256 * (raw[1] as int) != PROTO_MAGIC then None
    else if raw[2] > PROTO_VERSION then None
    else if (|raw| - HEADER_BYTES) % BYTES_PER_FRAME != 0 then None
    else Some(raw[HEADER_BYTES..])
  }

  /** What the C receiver takes, from the bytes: whole frames behind a header with the magic and version 1 or
      less. */
  lemma CPayloadIs(raw: seq<Byte>)
    ensures CPayload(raw) ==
      if |raw| > 20 && raw[0] == 0x4B && raw[1] == 0x5A && raw[2] <= 1 && |raw| % 4 == 0 then Some(raw[20..]) else None
  {
    if |raw| > 20 {
      assert (raw[0] as int) + 256 * (raw[1] as int) == PROTO_MAGIC <==> raw[0] == 0x4B && raw[1] == 0x5A;
    }
  }

  /** Most frames a receive buffer holds behind a header. */
  const MAX_FRAMES: nat := 507

  lemma MaxFramesIs()
    ensures HEADER_BYTES + BYTES_PER_FRAME * MAX_FRAMES <= RECEIVE_BUFFER
                         < HEADER_BYTES + BYTES_PER_FRAME * (MAX_FRAMES + 1)
  {
  }

  /** Cutting a datagram at the receive buffer's size cuts only its payload. */
  lemma ReceivedSplit(header: seq<Byte>, payload: seq<Byte>)
    requires |header| == HEADER_BYTES && |payload| % 4 == 0
    ensures var raw := Received(header + payload);
      var kept := 4 * Min(|payload| / 4, MAX_FRAMES);
      |raw| == HEADER_BYTES + kept && raw[..HEADER_BYTES] == header && raw[HEADER_BYTES..] == payload[..kept]
  {
  }

  /** The Rust receiver recovers exactly the sender's frames when they fit the receive buffer,
      and silently ignores the datagram when they do not. */
  lemma RustReceiverAgrees(seqno: U32, frames: seq<Frame>, timestampNs: U64)
    requires |frames| < 0x1_0000_0000
    ensures |frames| <= MAX_FRAMES ==>
      Parse(Received(PacketBytes(seqno, frames, timestampNs))) == Packet(seqno, frames)
    ensures |frames| > MAX_FRAMES ==>
      Parse(Received(PacketBytes(seqno, frames, timestampNs))) == Ignored
  {
    hide FromBytes;
    hide HeaderBytes;
    hide Payload;
    hide DecodeFrames;
    var h := SentHeader(seqno, |frames|, timestampNs);
    ReceivedSplit(HeaderBytes(h), Payload(frames));
    HeaderRoundTrip(h);
    if |frames| <= MAX_FRAMES {
      assert Payload(frames)[..4 * |frames|] == Payload(frames);
      PayloadRoundTrip(frames);
    }
  }

  /** The C receiver hands its ring exactly the payload for 1 to 507 frames, nothing for an
      empty packet, and only the first 507 frames of a longer one. */
  lemma CReceiverAgrees(seqno: U32, frames: seq<Frame>, timestampNs: U64)
    requires |frames| < 0x1_0000_0000
    ensures var r := CPayload(Received(PacketBytes(seqno, frames, timestampNs)));
      if |frames| == 0 then r == None
      else r == Some(Payload(frames)[..4 * Min(|frames|, MAX_FRAMES)])
    ensures CPayload(Received(PacketBytes(seqno, frames, timestampNs))) == Some(Payload(frames))
      <==> 1 <= |frames| <= MAX_FRAMES
  {
    var h := SentHeader(seqno, |frames|, timestampNs);
    var header := HeaderBytes(h);
    assert header[0] == 0x4B && header[1] == 0x5A && header[2] == PROTO_VERSION by {
      HeaderLayout(h);
    }
    CReceiverKeeps(header, Payload(frames), |frames|);
  }

  lemma CReceiverKeeps(header: seq<Byte>, payload: seq<Byte>, n: nat)
    requires |header| == HEADER_BYTES && |payload| == 4 * n
    requires header[0] == 0x4B && header[1] == 0x5A && header[2] == PROTO_VERSION
    ensures var r := CPayload(Received(header + payload));
      if n == 0 then r == None else r == Some(payload[..4 * Min(n, MAX_FRAMES)])
    ensures CPayload(Received(header + payload)) == Some(payload) <==> 1 <= n <= MAX_FRAMES
  {
    var raw := Received(header + payload);
    ReceivedSplit(header, payload);
    assert forall i | 0 <= i < 3 :: raw[i] == header[i];
    var kept := 4 * Min(n, MAX_FRAMES);
    assert payload[..kept] == payload <==> kept == |payload|;
  }

  /** The receivers agree: what the Rust one rejects for its magic or version the C one ignores, and a
      datagram that holds exactly the frames its header announces gives both the same frames. */
  lemma ReceiversAgree(raw: seq<Byte>)
    ensures Parse(raw).BadMagic? || Parse(raw).BadVersion? ==> CPayload(raw) == None
    ensures CPayload(raw).Some? ==> Parse(raw).Ignored? || Parse(raw).Packet?
    ensures Parse(raw).Packet? && |raw| - HEADER_BYTES == 4 * |Parse(raw).frames| ==>
      var frames := Parse(raw).frames;
      && (frames == [] <==> CPayload(raw) == None)
      && (frames != [] ==>
            CPayload(raw) == Some(raw[HEADER_BYTES..]) && frames == DecodeFrames(CPayload(raw).value, |frames|))
  {
    hide FromBytes;
    if |raw| >= HEADER_BYTES {
      HeaderFields(raw);
    }
  }
}
