/** The C receiver: its single-producer single-consumer ring and the two threads around it, at the
    grain of single index loads, single frame copies and single index stores. A release store and the
    acquire load that reads it are one sequentially consistent step. */
module RxRing {
  import opened Audio

  const RING_FRAMES: nat := 48000
  const CAPACITY: nat := RING_FRAMES - 1

  /** Frames the playback thread's `out` buffer holds. */
  const OUT_FRAMES: nat := 1024

  /** One frame as it lies in the ring: four bytes. */
  datatype Cell = Cell(b0: Byte, b1: Byte, b2: Byte, b3: Byte)

  const ZERO_CELL := Cell(0, 0, 0, 0)

  /** The receive thread: which packet it handles and how far it is in `rb_write_frames`. */
  datatype Producer =
    | Receiving
    | LoadingW(packet: seq<Cell>)
    | LoadingR(packet: seq<Cell>, w: nat)
    | Reloading(packet: seq<Cell>)
    | Copying(packet: seq<Cell>, w: nat, k: nat)

  /** Where the playback thread is in `main`. */
  datatype Stage = StartFill | Prefill(prefilled: nat) | Playback

  /** The playback thread: its stage and how far it is in `rb_used_frames` or `rb_read_frames`. The
      counter `seen` is the unbounded index behind the loaded `w`; no step computes with it. */
  datatype Consumer =
    | ProbingW(stage: Stage)
    | ProbingR(stage: Stage, w: nat, seen: nat)
    | ReadingW(stage: Stage)
    | ReadingR(stage: Stage, w: nat, seen: nat)
    | ReloadingR(stage: Stage, n: nat)
    | CopyingOut(stage: Stage, n: nat, r: nat, dst: seq<Cell>)
    | Handing(stage: Stage, dst: seq<Cell>)
    | Stopped

  /** A buffer handed to ALSA, of which `got` frames came from the ring. */
  datatype Buffer = Buffer(cells: seq<Cell>, got: nat)

  datatype Config = Config(startFill: nat, period: nat, alsaBuffer: nat) {
    predicate Valid() { 0 < period }
  }

  /** The shared memory, both threads, and the history: packets accepted, frames published, frames
      taken and buffers handed over. */
  datatype System = System(
    config: Config, ring: seq<Cell>, w: nat, r: nat, producer: Producer, consumer: Consumer,
    accepted: seq<seq<Cell>>, published: seq<Cell>, taken: seq<Cell>, handed: seq<Buffer>)

  function NewSystem(config: Config): System {
    System(config, Repeat(ZERO_CELL, RING_FRAMES), 0, 0, Receiving, ProbingW(StartFill), [], [], [], [])
  }

  /** `rb_used_frames` on two loaded indices. */
  function Used(w: nat, r: nat): int {
    if w >= r then w - r else RING_FRAMES - (r - w)
  }

  /** Where the two `memcpy` calls of one transfer put or take its `k`-th frame. */
  function Slot(index: nat, k: nat): int {
    var tail := RING_FRAMES - index;
    if k < tail then index + k else k - tail
  }

  // ---------------------------------------------------------------- the receive thread

  /** One step of the receive thread; `packet` is what the socket yields if it is waiting for one. */
  function ProducerStep(s: System, packet: seq<Cell>): System
    requires Shaped(s)
  {
    match s.producer
    case Receiving => s.(producer := LoadingW(packet))
    case LoadingW(p) => s.(producer := LoadingR(p, s.w))
    case LoadingR(p, w) =>
      if |p| > CAPACITY - Used(w, s.r) then s.(producer := Receiving)
      else s.(producer := Reloading(p))
    case Reloading(p) => s.(producer := Copying(p, s.w, 0))
    case Copying(p, w, k) =>
      if k < |p| then s.(ring := s.ring[Slot(w, k) := p[k]], producer := Copying(p, w, k + 1))
      else s.(w := (w + |p|) % RING_FRAMES, producer := Receiving,
              accepted := s.accepted + [p], published := s.published + p)
  }

  // ---------------------------------------------------------------- the playback thread

  /** The head of the prefill loop. */
  function PrefillOrPlay(config: Config, prefilled: nat): Consumer {
    if prefilled + config.period <= config.alsaBuffer then ProbingW(Prefill(prefilled)) else ReadingW(Playback)
  }

  function Padded(config: Config, dst: seq<Cell>): Buffer {
    Buffer(dst + Repeat(ZERO_CELL, if |dst| < config.period then config.period - |dst| else 0), |dst|)
  }

  /** One step of the playback thread; `written` is what ALSA answers if it is handed a buffer. */
  function ConsumerStep(s: System, written: int): System
    requires Shaped(s)
  {
    match s.consumer
    case ProbingW(stage) => s.(consumer := ProbingR(stage, s.w, |s.published|))
    case ProbingR(stage, w, _) =>
      if stage.StartFill? then
        if Used(w, s.r) < s.config.startFill then s.(consumer := ProbingW(StartFill))
        else s.(consumer := PrefillOrPlay(s.config, 0))
      else if Used(w, s.r) < s.config.period then s.(consumer := ReadingW(Playback))
      else s.(consumer := ReadingW(stage))
    case ReadingW(stage) => s.(consumer := ReadingR(stage, s.w, |s.published|))
    case ReadingR(stage, w, _) =>
      s.(consumer := ReloadingR(stage, if Used(w, s.r) < s.config.period then Used(w, s.r) else s.config.period))
    case ReloadingR(stage, n) => s.(consumer := CopyingOut(stage, n, s.r, []))
    case CopyingOut(stage, n, r, dst) =>
      if |dst| < n then s.(consumer := CopyingOut(stage, n, r, dst + [s.ring[Slot(r, |dst|)]]))
      else s.(r := (r + n) % RING_FRAMES, consumer := Handing(stage, dst), taken := s.taken + dst)
    case Handing(stage, dst) =>
      if stage.Prefill? then
        if |dst| < s.config.period then s.(consumer := ReadingW(Playback))   // the prefill loop's second break
        else
          s.(handed := s.handed + [Buffer(dst, |dst|)],
             consumer := if written > 0 then PrefillOrPlay(s.config, stage.prefilled + written) else ReadingW(Playback))
      else
        s.(handed := s.handed + [Padded(s.config, dst)],
           consumer := if written < 0 then Stopped else ReadingW(Playback))
    case Stopped => s
  }

  /** What the steps need in order to be defined: indices in range, counts not negative. */
  ghost predicate Shaped(s: System) {
    && |s.ring| == RING_FRAMES && s.w < RING_FRAMES && s.r < RING_FRAMES
    && (match s.producer
        case LoadingR(_, w) => w < RING_FRAMES
        case Copying(p, w, k) => w < RING_FRAMES && k <= |p| && |p| <= CAPACITY
        case _ => true)
    && (match s.consumer
        case ProbingR(_, w, _) => w < RING_FRAMES
        case ReadingR(_, w, _) => w < RING_FRAMES
        case ReloadingR(_, n) => n <= CAPACITY
        case CopyingOut(_, n, r, dst) => r < RING_FRAMES && |dst| <= n <= CAPACITY
        case _ => true)
  }
}
