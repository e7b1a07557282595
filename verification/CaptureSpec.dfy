/**
 The behaviour of one mobile capture stream and of the registry that owns the streams
 (mobile/bridge/capture.go), as functions on values. Every exported bridge call is one step.
 */
module CaptureSpec {
  import opened Common

  datatype Output = Output(width: nat, height: nat)

  datatype Kind = H264 | VP8

  datatype Frame =
    | Status(kind: Kind, width: nat, height: nat)
    | Begin(timestamp: int)
    | Coded(kind: Kind, layer: nat, width: nat, height: nat, data: Bytes, timestamp: int, duration: int, key: bool)
    | LayerUnavailable(layer: nat)
    | Pcm(data: Bytes)

  /** Why a stream's context is done. */
  datatype Cause = SourceCanceled | OtherCause

  const QUEUE := 8
  const MAX_ACCESS_UNIT_BYTES := 4 * 1024 * 1024
  const PCM_BYTES := 3840

  /**
   A stream. `codec` is 0 until one is committed, 1 for H.264 and 2 for VP8; `format` packs the
   committed size, 0 until there is one. `pushed`, `delivered` and `supplied` record every frame
   accepted, every frame read and every capture time given so far; `readyAt` is the number of
   times given when the input became ready.
   */
  datatype Stream = Stream(
    outputs: seq<Output>, requested: string, codec: nat, format: nat,
    hasInput: bool, firstInput: int, input: int, inputReady: bool,
    queue: seq<Frame>, cause: Option<Cause>, closed: bool,
    pushed: seq<Frame>, delivered: seq<Frame>, supplied: seq<int>, readyAt: nat)

  function NewStream(outputs: seq<Output>, requested: string): Stream {
    Stream(outputs, requested, 0, 0, false, 0, 0, false, [], None, false, [], [], [], 0)
  }

  // ---------------------------------------------------------------- numbers

  const TWO_63 := 0x8000_0000_0000_0000
  const TWO_64 := 0x1_0000_0000_0000_0000
  const TWO_32 := 0x1_0000_0000

  /** A 64-bit signed product keeps the low 64 bits. */
  function Wrap64(x: int): (w: int)
    ensures -TWO_63 <= w < TWO_63
  {
    (x + TWO_63) % TWO_64 - TWO_63
  }

  /** Microseconds as the nanoseconds of a `time.Duration`. */
  function Nanos(micros: int): int {
    Wrap64(micros * 1000)
  }

  /** For times that are not negative the conversion is exact up to one bound, and only up to it. */
  lemma NanosExactIff(micros: nat)
    requires micros < TWO_63
    ensures Nanos(micros) == micros * 1000 <==> micros <= 9223372036854775
  {
  }

  /** Just above the bound a capture time turns negative, and so falls below every earlier one. */
  lemma NanosWrapsToNegative()
    ensures Nanos(9223372036854776) < 0 <= Nanos(9223372036854775)
  {
  }

  function Pack(width: nat, height: nat): nat {
    width * TWO_32 + height
  }

  lemma PackInverts(width: nat, height: nat)
    requires height < TWO_32
    ensures Pack(width, height) / TWO_32 == width && Pack(width, height) % TWO_32 == height
  {
  }

  predicate ValidVideoSize(width: nat, height: nat) {
    && 2 <= width <= 8192 && width % 2 == 0
    && 2 <= height <= 8192 && height % 2 == 0
    && (width + 15) / 16 * ((height + 15) / 16) * 256 <= 36864 * 16 * 16
  }

  /** `min(1, len(outputs)-1)` */
  function PrimaryLayer(outputs: seq<Output>): (layer: nat)
    requires outputs != []
    ensures layer < |outputs|
  {
    if |outputs| == 1 then 0 else 1
  }

  predicate FitsOutput(outputs: seq<Output>, layer: nat, width: int, height: int)
    requires layer < |outputs|
  {
    && 2 <= width <= outputs[layer].width && 2 <= height <= outputs[layer].height
    && ValidVideoSize(width, height)
  }

  // ---------------------------------------------------------------- queue and lifecycle

  /** How a push is resolved where Go leaves a choice: it goes through, or the context ends first. */
  datatype Turn = Proceed | Ended(cause: Cause)

  function Deliver(s: Stream): Stream
    requires s.queue != []
  {
    s.(queue := s.queue[1..], delivered := s.delivered + [s.queue[0]])
  }

  function Cancel(s: Stream, cause: Cause): Stream {
    if s.cause.Some? then s else s.(cause := Some(cause))
  }

  /**
   `push`: on an open stream with room it succeeds. A full queue waits for a reader or for the
   end of the context, and with a context already done either outcome is possible.
   */
  function Push(s: Stream, frame: Frame, turn: Turn): (r: (Stream, bool)) {
    if turn.Proceed? || (s.cause.None? && |s.queue| < QUEUE) then
      var room := if |s.queue| < QUEUE then s else Deliver(s);
      (room.(queue := room.queue + [frame], pushed := s.pushed + [frame]), true)
    else (Cancel(s, turn.cause), false)
  }

  function Close(s: Stream): Stream {
    if s.closed then s else Cancel(s, OtherCause).(closed := true)
  }

  datatype ReadResult = Got(frame: Frame) | Canceled | Eof | Blocked

  /** `Read`: `take` chooses a queued frame over a context that is done. */
  function Read(s: Stream, take: bool): (Stream, ReadResult) {
    if s.queue != [] && (take || s.cause.None?) then (Deliver(s), Got(s.queue[0]))
    else if s.cause.None? then (s, Blocked)
    else (s, if s.cause.value == SourceCanceled then Canceled else Eof)
  }

  // ---------------------------------------------------------------- bridge calls on an open stream

  function KindCode(codec: string): nat {
    if codec == "vp8" then 2 else 1
  }

  function KindOf(code: nat): Kind {
    if code == 2 then VP8 else H264
  }

  /** `supported` is the verdict on an H.264 profile, which is not modelled. */
  predicate ProfileFits(codec: string, profile: string, supported: bool) {
    !(codec == "h264" && !supported) && !(codec == "vp8" && profile != "")
  }

  predicate CodecAllowed(s: Stream, codec: string) {
    (codec == "h264" || codec == "vp8") && (s.requested == "auto" || s.requested == codec)
  }

  /** The first readiness publishes the capture times given before it: the first and the latest. */
  function StartInput(s: Stream, second: Turn, third: Turn): (Stream, bool) {
    if s.inputReady then (s, true)
    else
      var ready := s.(inputReady := true, readyAt := |s.supplied|);
      if !s.hasInput then (ready, true)
      else
        var (begun, ok) := Push(ready, Begin(s.firstInput), second);
        if ok && s.input > s.firstInput then Push(begun, Begin(s.input), third) else (begun, ok)
  }

  function VideoReady(s: Stream, codec: string, width: int, height: int, profile: string, supported: bool,
                      turns: (Turn, Turn, Turn)): (Stream, bool) {
    if s.outputs == [] then (s, false)
    else if !CodecAllowed(s, codec) || (s.codec != 0 && s.codec != KindCode(codec)) then (Close(s), false)
    else if !FitsOutput(s.outputs, PrimaryLayer(s.outputs), width, height) || !ProfileFits(codec, profile, supported) then (s, false)
    else
      var kind := KindCode(codec);
      var committed := s.(codec := kind, format := Pack(width, height));
      var (published, ok) := Push(committed, Status(KindOf(kind), width, height), turns.0);
      if ok then StartInput(published, turns.1, turns.2) else (published, false)
  }

  function VideoInput(s: Stream, ptsMicros: int, turn: Turn): Stream {
    if ptsMicros < 0 then s
    else
      var pts := Nanos(ptsMicros);
      var given := s.(supplied := s.supplied + [pts]);
      if s.hasInput && pts <= s.input then given
      else
        var advanced := given.(firstInput := if s.hasInput then s.firstInput else pts, hasInput := true, input := pts);
        if s.inputReady then Push(advanced, Begin(pts), turn).0 else advanced
  }

  predicate UnitBounds(data: Bytes, ptsMicros: int, durationMicros: int) {
    0 < |data| <= MAX_ACCESS_UNIT_BYTES && ptsMicros >= 0 && durationMicros > 0
  }

  predicate LayerAccepts(s: Stream, layer: int, data: Bytes, ptsMicros: int, durationMicros: int, width: int, height: int) {
    0 <= layer < |s.outputs| && s.format != 0 && UnitBounds(data, ptsMicros, durationMicros)
    && FitsOutput(s.outputs, layer, width, height)
  }

  function VideoLayer(s: Stream, layer: int, data: Bytes, ptsMicros: int, durationMicros: int,
                      width: int, height: int, key: bool, turn: Turn): Stream {
    if !LayerAccepts(s, layer, data, ptsMicros, durationMicros, width, height) then Close(s)
    else
      Push(s, Coded(KindOf(s.codec), layer, width, height, data, Nanos(ptsMicros), Nanos(durationMicros), key), turn).0
  }

  function Video(s: Stream, data: Bytes, ptsMicros: int, durationMicros: int, key: bool, turns: (Turn, Turn)): Stream {
    if s.format == 0 || !UnitBounds(data, ptsMicros, durationMicros) then Close(s)
    else
      var fed := VideoInput(s, ptsMicros, turns.0);
      VideoLayer(fed, if |s.outputs| <= 1 then |s.outputs| - 1 else 1, data, ptsMicros, durationMicros,
                 s.format / TWO_32, s.format % TWO_32, key, turns.1)
  }

  function VideoLayerUnavailable(s: Stream, layer: int, turn: Turn): Stream {
    if layer < 0 || layer >= |s.outputs| then s
    else if layer == PrimaryLayer(s.outputs) then Close(s)
    else Push(s, LayerUnavailable(layer), turn).0
  }

  function Audio(s: Stream, data: Bytes, turn: Turn): Stream {
    if |data| != PCM_BYTES then Close(s) else Push(s, Pcm(data), turn).0
  }

  function CaptureCanceled(s: Stream): Stream {
    Close(Cancel(s, SourceCanceled))
  }

  // ---------------------------------------------------------------- the registry

  /** Every stream ever opened, by id, and the ids the platform was told to stop. */
  datatype Registry = Registry(next: nat, all: map<nat, Stream>, stops: seq<nat>)

  predicate IsLive(r: Registry, id: nat) {
    id in r.all && !r.all[id].closed
  }

  datatype Call =
    | Ready(codec: string, width: int, height: int, profile: string, supported: bool, turns: (Turn, Turn, Turn))
    | Unit(data: Bytes, ptsMicros: int, durationMicros: int, key: bool, pair: (Turn, Turn))
    | Input(ptsMicros: int, turn: Turn)
    | Layer(layer: int, data: Bytes, ptsMicros: int, durationMicros: int, width: int, height: int, key: bool, turn: Turn)
    | Unavailable(layer: int, turn: Turn)
    | Sound(data: Bytes, turn: Turn)
    | UserCanceled
    | SourceEnded

  function Respond(s: Stream, call: Call): Stream {
    match call
    case Ready(codec, width, height, profile, supported, turns) =>
      VideoReady(s, codec, width, height, profile, supported, turns).0
    case Unit(data, pts, duration, key, pair) => Video(s, data, pts, duration, key, pair)
    case Input(pts, turn) => VideoInput(s, pts, turn)
    case Layer(layer, data, pts, duration, width, height, key, turn) =>
      VideoLayer(s, layer, data, pts, duration, width, height, key, turn)
    case Unavailable(layer, turn) => VideoLayerUnavailable(s, layer, turn)
    case Sound(data, turn) => Audio(s, data, turn)
    case UserCanceled => CaptureCanceled(s)
    case SourceEnded => Close(s)
  }

  /** What happens to the registry: bridge calls by id, and what consumers and parents do. */
  datatype Event =
    | Open(outputs: seq<Output>, requested: string)
    | Bridge(id: nat, call: Call)
    | ReadOne(id: nat, take: bool)
    | CloseOne(id: nat)
    | ParentCancel(id: nat, cause: Cause)

  /** Stores the new state of a stream; closing one stops it on the platform. */
  function Put(r: Registry, id: nat, s: Stream): Registry
    requires id in r.all
  {
    r.(all := r.all[id := s], stops := if s.closed && !r.all[id].closed then r.stops + [id] else r.stops)
  }

  function Step(r: Registry, e: Event): Registry {
    match e
    case Open(outputs, requested) =>
      Registry(r.next + 1, r.all[r.next + 1 := NewStream(outputs, requested)], r.stops)
    case Bridge(id, call) => if IsLive(r, id) then Put(r, id, Respond(r.all[id], call)) else r
    case ReadOne(id, take) => if id in r.all then Put(r, id, Read(r.all[id], take).0) else r
    case CloseOne(id) => if id in r.all then Put(r, id, Close(r.all[id])) else r
    case ParentCancel(id, cause) => if id in r.all then Put(r, id, Cancel(r.all[id], cause)) else r
  }

  const EMPTY := Registry(0, map[], [])

  function Run(events: seq<Event>): Registry {
    if events == [] then EMPTY else Step(Run(events[..|events| - 1]), events[|events| - 1])
  }
}
