/** The sender and the C receiver together: what ALSA is given, in terms of the frames the client wrote. */
module CStream {
  import opened Audio
  import opened SeqNum
  import opened Wire
  import opened RxRing
  import opened RxRingSafety
  import EndToEnd

  // ---------------------------------------------------------------- cells and frames

  /** The payload bytes as the ring holds them. */
  function CellsIn(raw: seq<Byte>): (cells: seq<Cell>)
    ensures |cells| == |raw| / 4
  {
    seq(|raw| / 4, i requires 0 <= i < |raw| / 4 => Cell(raw[4 * i], raw[4 * i + 1], raw[4 * i + 2], raw[4 * i + 3]))
  }

  /** What a cell sounds as: little-endian 16-bit samples, left first. */
  function CellFrame(c: Cell): Frame { Frame(SampleAt(c.b0, c.b1), SampleAt(c.b2, c.b3)) }

  function FramesOf(cells: seq<Cell>): (frames: seq<Frame>)
    ensures |frames| == |cells|
  {
    seq(|cells|, i requires 0 <= i < |cells| => CellFrame(cells[i]))
  }

  lemma CellsDecode(raw: seq<Byte>)
    ensures FramesOf(CellsIn(raw)) == DecodeFrames(raw, |raw| / 4)
  {
  }

  lemma FramesOfConcat(a: seq<Cell>, b: seq<Cell>)
    ensures FramesOf(a + b) == FramesOf(a) + FramesOf(b)
  {
  }

  lemma FramesOfPrefix(a: seq<Cell>, b: seq<Cell>)
    requires a <= b
    ensures FramesOf(a) <= FramesOf(b)
  {
    FramesOfConcat(a, b[|a|..]);
    assert a + b[|a|..] == b;
  }

  /** The chunks of the given numbers, one after the other. */
  function Picked(chunks: seq<seq<Frame>>, numbers: seq<nat>): (r: seq<seq<Frame>>)
    requires forall i :: 0 <= i < |numbers| ==> numbers[i] < |chunks|
    ensures |r| == |numbers|
  {
    seq(|numbers|, i requires 0 <= i < |numbers| => chunks[numbers[i]])
  }

  // ---------------------------------------------------------------- what the ring accepted was sent

  /** The packets accepted are the payloads of the datagrams with these numbers. */
  ghost predicate Came(accepted: seq<seq<Cell>>, sent: seq<seq<Byte>>, numbers: seq<nat>) {
    && |numbers| == |accepted|
    && (forall i :: 0 <= i < |numbers| ==> numbers[i] < |sent| && Carries(sent[numbers[i]], accepted[i]))
  }

  ghost predicate Carries(datagram: seq<Byte>, packet: seq<Cell>) {
    var raw := CPayload(Received(datagram));
    raw.Some? && packet == CellsIn(raw.value)
  }

  /** Whatever the socket yields is the payload of a datagram that was sent. */
  ghost predicate Genuine(turns: seq<Turn>, sent: seq<seq<Byte>>) {
    forall turn :: turn in turns && turn.Receive? ==> WasSent(turn.packet, sent)
  }

  ghost predicate WasSent(packet: seq<Cell>, sent: seq<seq<Byte>>) {
    exists n :: 0 <= n < |sent| && Carries(sent[n], packet)
  }

  /** All that the receive thread holds or has put in the ring was sent. */
  ghost predicate HoldsSent(s: System, sent: seq<seq<Byte>>) {
    && (!s.producer.Receiving? ==> WasSent(s.producer.packet, sent))
    && (forall p :: p in s.accepted ==> WasSent(p, sent))
  }

  lemma {:induction false} AllWereSent(s: System, turns: seq<Turn>, sent: seq<seq<Byte>>)
    requires HoldsSent(s, sent) && Genuine(turns, sent)
    ensures HoldsSent(Interleave(s, turns), sent)
    decreases |turns|
  {
    hide WasSent;
    if turns != [] {
      assert turns[0] in turns;
      assert forall turn :: turn in turns[1..] ==> turn in turns;
      SentStep(s, turns[0], sent);
      AllWereSent(TakeTurn(s, turns[0]), turns[1..], sent);
    }
  }

  lemma SentStep(s: System, turn: Turn, sent: seq<seq<Byte>>)
    requires HoldsSent(s, sent) && (turn.Receive? ==> WasSent(turn.packet, sent))
    ensures HoldsSent(TakeTurn(s, turn), sent)
  {
    hide WasSent;
  }

  lemma {:induction false} Numbers(accepted: seq<seq<Cell>>, sent: seq<seq<Byte>>) returns (numbers: seq<nat>)
    requires forall p :: p in accepted ==> WasSent(p, sent)
    ensures Came(accepted, sent, numbers)
  {
    hide Carries;
    if accepted == [] {
      numbers := [];
    } else {
      var last := accepted[|accepted| - 1];
      assert last in accepted;
      numbers := Numbers(accepted[..|accepted| - 1], sent);
      var n: nat :| n < |sent| && Carries(sent[n], last);
      numbers := numbers + [n];
    }
  }

  // ---------------------------------------------------------------- and sounds as it was written

  lemma DatagramSounds(datagram: seq<Byte>, n: nat, chunk: seq<Frame>, packet: seq<Cell>)
    requires EndToEnd.IsPacket(datagram, n, chunk) && Carries(datagram, packet)
    ensures FramesOf(packet) == chunk
  {
    hide PacketBytes;
    hide CPayload;
    hide CellsIn;
    var t: U64 :| datagram == PacketBytes(Wrap(n), chunk, t);
    CReceiverAgrees(Wrap(n), chunk, t);
    CellsDecode(Payload(chunk));
    PayloadRoundTrip(chunk);
  }

  lemma {:induction false} AcceptedSound(accepted: seq<seq<Cell>>, l: EndToEnd.Link, numbers: seq<nat>)
    requires EndToEnd.SenderOk(l) && Came(accepted, l.sent, numbers)
    ensures FramesOf(Joined(accepted)) == Joined(Picked(l.chunks, numbers))
  {
    hide Carries;
    hide FramesOf;
    hide EndToEnd.IsPacket;
    if accepted == [] {
      NothingSounds();
    } else {
      var k := |accepted| - 1;
      var front, rest := accepted[..k], numbers[..k];
      CameFront(accepted, l.sent, numbers);
      AcceptedSound(front, l, rest);
      assert Picked(l.chunks, numbers)[..k] == Picked(l.chunks, rest);
      LastSounds(accepted, l, numbers);
      FramesOfConcat(Joined(front), accepted[k]);
    }
  }

  lemma CameFront(accepted: seq<seq<Cell>>, sent: seq<seq<Byte>>, numbers: seq<nat>)
    requires Came(accepted, sent, numbers) && accepted != []
    ensures Came(accepted[..|accepted| - 1], sent, numbers[..|accepted| - 1])
  {
    hide Carries;
  }

  lemma LastSounds(accepted: seq<seq<Cell>>, l: EndToEnd.Link, numbers: seq<nat>)
    requires EndToEnd.SenderOk(l) && Came(accepted, l.sent, numbers) && accepted != []
    ensures var k := |accepted| - 1; FramesOf(accepted[k]) == l.chunks[numbers[k]]
  {
    hide Carries;
    hide FramesOf;
    hide Joined;
    hide EndToEnd.IsPacket;
    var k := |accepted| - 1;
    DatagramSounds(l.sent[numbers[k]], numbers[k], l.chunks[numbers[k]], accepted[k]);
  }

  lemma NothingSounds()
    ensures FramesOf([]) == []
  {
  }

  /** For every run of the sender and every interleaving of the C receiver's threads, with any loss, reordering
      and duplication on the way and any refusal by the ring: the frames handed to ALSA, padding erased, are a
      prefix of whole packets as they were sent, in the order in which the ring accepted them. */
  lemma PlaysAsAccepted(capacity: nat, framesPerPacket: nat, startFill: nat, events: seq<EndToEnd.Event>,
      config: Config, turns: seq<Turn>) returns (numbers: seq<nat>)
    requires 1 <= framesPerPacket <= MAX_FRAMES && config.Valid()
    requires Genuine(turns, EndToEnd.Execute(EndToEnd.NewLink(capacity, framesPerPacket, startFill), events).sent)
    ensures var l := EndToEnd.Execute(EndToEnd.NewLink(capacity, framesPerPacket, startFill), events);
      var s := Interleave(NewSystem(config), turns);
      && Came(s.accepted, l.sent, numbers) && |l.chunks| == |l.sent|
      && FramesOf(Erased(s.handed)) <= Joined(Picked(l.chunks, numbers))
  {
    var start := EndToEnd.NewLink(capacity, framesPerPacket, startFill);
    var l := EndToEnd.Execute(start, events);
    EndToEnd.StartsOk(start);
    EndToEnd.SenderRuns(start, events);
    AllWereSent(NewSystem(config), turns, l.sent);
    numbers := Numbers(Interleave(NewSystem(config), turns).accepted, l.sent);
    SystemSounds(l, config, turns, numbers);
  }

  lemma SystemSounds(l: EndToEnd.Link, config: Config, turns: seq<Turn>, numbers: seq<nat>)
    requires EndToEnd.SenderOk(l) && config.Valid()
    requires Came(Interleave(NewSystem(config), turns).accepted, l.sent, numbers)
    ensures FramesOf(Erased(Interleave(NewSystem(config), turns).handed)) <= Joined(Picked(l.chunks, numbers))
  {
    hide Interleave;
    hide FramesOf;
    hide Proper;
    var s := Interleave(NewSystem(config), turns);
    EveryInterleaving(config, turns);
    AcceptedSound(s.accepted, l, numbers);
    FramesOfPrefix(Erased(s.handed), Joined(s.accepted));
  }

  /** The first datagrams, each once and in order. */
  ghost predicate InOrder(accepted: seq<seq<Cell>>, sent: seq<seq<Byte>>) {
    |accepted| <= |sent| && forall i :: 0 <= i < |accepted| ==> Carries(sent[i], accepted[i])
  }

  /** If the datagrams come in order and none is lost or refused, the frames handed to ALSA, padding erased,
      are, sample by sample, a prefix of what `write_frames` accepted. */
  lemma PlaysPrefixOfWritten(capacity: nat, framesPerPacket: nat, startFill: nat, events: seq<EndToEnd.Event>,
      config: Config, turns: seq<Turn>)
    requires 1 <= framesPerPacket <= MAX_FRAMES && config.Valid()
    requires InOrder(Interleave(NewSystem(config), turns).accepted,
                     EndToEnd.Execute(EndToEnd.NewLink(capacity, framesPerPacket, startFill), events).sent)
    ensures var l := EndToEnd.Execute(EndToEnd.NewLink(capacity, framesPerPacket, startFill), events);
      Interleaved(FramesOf(Erased(Interleave(NewSystem(config), turns).handed))) <= l.accepted
  {
    hide Interleave;
    hide EndToEnd.Execute;
    hide InOrder;
    hide FramesOf;
    hide Carries;
    hide Joined;
    hide Interleaved;
    hide EndToEnd.IsPacket;
    var start := EndToEnd.NewLink(capacity, framesPerPacket, startFill);
    var l := EndToEnd.Execute(start, events);
    EndToEnd.StartsOk(start);
    EndToEnd.SenderRuns(start, events);
    var numbers := FirstOnes(Interleave(NewSystem(config), turns).accepted, l);
    SystemSounds(l, config, turns, numbers);
    var played := FramesOf(Erased(Interleave(NewSystem(config), turns).handed));
    InterleavedPrefix(played, Joined(Picked(l.chunks, numbers)));
  }

  lemma FirstOnes(accepted: seq<seq<Cell>>, l: EndToEnd.Link) returns (numbers: seq<nat>)
    requires EndToEnd.SenderOk(l) && InOrder(accepted, l.sent)
    ensures Came(accepted, l.sent, numbers) && Interleaved(Joined(Picked(l.chunks, numbers))) <= l.accepted
  {
    hide Carries;
    hide Joined;
    hide EndToEnd.IsPacket;
    var k := |accepted|;
    numbers := seq(k, i requires 0 <= i < k => i as nat);
    assert Picked(l.chunks, numbers) == l.chunks[..k];
    EndToEnd.JoinedPrefix(l.chunks, k);
    EndToEnd.SentWasAccepted(l, Joined(l.chunks[..k]));
  }
}
