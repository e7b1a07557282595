/**
 The mobile capture bridge (mobile/bridge/capture.go): streams updated in place by exported
 calls, and the registry that finds them by id. Each method is tied to `CaptureSpec`.
 */
module MobileCapture {
  import opened Common
  import opened CaptureSpec

  class CaptureStream {
    const id: nat
    const outputs: seq<Output>
    const requested: string
    var codec: nat
    var format: nat
    var hasInput: bool
    var firstInput: int
    var input: int
    var inputReady: bool
    var queue: seq<Frame>
    var cause: Option<Cause>
    var closed: bool
    ghost var pushed: seq<Frame>
    ghost var delivered: seq<Frame>
    ghost var supplied: seq<int>
    ghost var readyAt: nat

    ghost function State(): Stream
      reads this
    {
      Stream(outputs, requested, codec, format, hasInput, firstInput, input, inputReady,
             queue, cause, closed, pushed, delivered, supplied, readyAt)
    }

    constructor (id: nat, outputs: seq<Output>, requested: string)
      ensures this.id == id && !closed && State() == NewStream(outputs, requested)
    {
      this.id, this.outputs, this.requested := id, outputs, requested;
      codec, format, hasInput, firstInput, input, inputReady := 0, 0, false, 0, 0, false;
      queue, cause, closed := [], None, false;
      pushed, delivered, supplied, readyAt := [], [], [], 0;
    }

    method TakeFrame() returns (frame: Frame)
      requires queue != []
      modifies this
      ensures State() == Deliver(old(State())) && frame == old(queue[0])
    {
      frame := queue[0];
      queue, delivered := queue[1..], delivered + [frame];
    }

    method CancelWith(reason: Cause)
      modifies this
      ensures State() == Cancel(old(State()), reason)
    {
      if cause.None? {
        cause := Some(reason);
      }
    }

    /** The part of `Close` that concerns the stream; the registry retires it afterwards. */
    method CloseOnce()
      modifies this
      ensures State() == Close(old(State()))
    {
      if !closed {
        CancelWith(OtherCause);
        closed := true;
      }
    }

    method PushFrame(frame: Frame, turn: Turn) returns (ok: bool)
      modifies this
      ensures (State(), ok) == Push(old(State()), frame, turn)
    {
      if turn.Proceed? || (cause.None? && |queue| < QUEUE) {
        if |queue| >= QUEUE {
          var _ := TakeFrame();
        }
        queue, pushed := queue + [frame], pushed + [frame];
        return true;
      }
      CancelWith(turn.cause);
      return false;
    }

    method ReadFrame(take: bool) returns (r: ReadResult)
      modifies this
      ensures (State(), r) == Read(old(State()), take)
    {
      if queue != [] && (take || cause.None?) {
        var frame := TakeFrame();
        return Got(frame);
      }
      if cause.None? {
        return Blocked;
      }
      return if cause.value == SourceCanceled then Canceled else Eof;
    }

    method Start(second: Turn, third: Turn) returns (ok: bool)
      modifies this
      ensures (State(), ok) == StartInput(old(State()), second, third)
    {
      if inputReady {
        return true;
      }
      inputReady, readyAt := true, |supplied|;
      if !hasInput {
        return true;
      }
      ok := PushFrame(Begin(firstInput), second);
      if ok && input > firstInput {
        ok := PushFrame(Begin(input), third);
      }
    }

    method Ready(codecName: string, width: int, height: int, profile: string, supported: bool,
                 turns: (Turn, Turn, Turn)) returns (ok: bool)
      modifies this
      ensures (State(), ok) == VideoReady(old(State()), codecName, width, height, profile, supported, turns)
    {
      hide Push, StartInput, ValidVideoSize;
      if outputs == [] {
        return false;
      }
      if (codecName != "h264" && codecName != "vp8") || (requested != "auto" && requested != codecName) {
        CloseOnce();
        return false;
      }
      var kind := KindCode(codecName);
      if codec != 0 && codec != kind {
        CloseOnce();
        return false;
      }
      if !FitsOutput(outputs, PrimaryLayer(outputs), width, height) || !ProfileFits(codecName, profile, supported) {
        return false;
      }
      codec, format := kind, Pack(width, height);
      ok := PushFrame(Status(KindOf(kind), width, height), turns.0);
      if ok {
        ok := Start(turns.1, turns.2);
      }
    }

    method Input(ptsMicros: int, turn: Turn)
      modifies this
      ensures State() == VideoInput(old(State()), ptsMicros, turn)
    {
      hide Push, Nanos;
      if ptsMicros < 0 {
        return;
      }
      var pts := Nanos(ptsMicros);
      supplied := supplied + [pts];
      if hasInput && pts <= input {
        return;
      }
      if !hasInput {
        firstInput := pts;
      }
      hasInput, input := true, pts;
      if inputReady {
        var _ := PushFrame(Begin(pts), turn);
      }
    }

    method Layer(layer: int, data: Bytes, ptsMicros: int, durationMicros: int, width: int, height: int, key: bool, turn: Turn)
      modifies this
      ensures State() == VideoLayer(old(State()), layer, data, ptsMicros, durationMicros, width, height, key, turn)
    {
      hide Push, Nanos, ValidVideoSize;
      if layer < 0 || layer >= |outputs| || format == 0 || !UnitBounds(data, ptsMicros, durationMicros)
        || !FitsOutput(outputs, layer, width, height) {
        CloseOnce();
        return;
      }
      var _ := PushFrame(Coded(KindOf(codec), layer, width, height, data, Nanos(ptsMicros), Nanos(durationMicros), key), turn);
    }

    method Unit(data: Bytes, ptsMicros: int, durationMicros: int, key: bool, turns: (Turn, Turn))
      modifies this
      ensures State() == Video(old(State()), data, ptsMicros, durationMicros, key, turns)
    {
      hide VideoInput, VideoLayer;
      var committed := format;
      if committed == 0 || !UnitBounds(data, ptsMicros, durationMicros) {
        CloseOnce();
        return;
      }
      Input(ptsMicros, turns.0);
      Layer(if |outputs| <= 1 then |outputs| - 1 else 1, data, ptsMicros, durationMicros,
            committed / TWO_32, committed % TWO_32, key, turns.1);
    }

    method Unavailable(layer: int, turn: Turn)
      modifies this
      ensures State() == VideoLayerUnavailable(old(State()), layer, turn)
    {
      hide Push;
      if layer < 0 || layer >= |outputs| {
        return;
      }
      if layer == PrimaryLayer(outputs) {
        CloseOnce();
        return;
      }
      var _ := PushFrame(LayerUnavailable(layer), turn);
    }

    method Sound(data: Bytes, turn: Turn)
      modifies this
      ensures State() == Audio(old(State()), data, turn)
    {
      hide Push;
      if |data| != PCM_BYTES {
        CloseOnce();
        return;
      }
      var _ := PushFrame(Pcm(data), turn);
    }

    /** One bridge call on this stream. */
    method Serve(call: Call)
      modifies this
      ensures State() == Respond(old(State()), call)
    {
      hide VideoReady, Video, VideoInput, VideoLayer, VideoLayerUnavailable, Audio;
      match call
      case Ready(codecName, width, height, profile, supported, turns) =>
        var _ := Ready(codecName, width, height, profile, supported, turns);
      case Unit(data, pts, duration, key, pair) => Unit(data, pts, duration, key, pair);
      case Input(pts, turn) => Input(pts, turn);
      case Layer(layer, data, pts, duration, width, height, key, turn) =>
        Layer(layer, data, pts, duration, width, height, key, turn);
      case Unavailable(layer, turn) => Unavailable(layer, turn);
      case Sound(data, turn) => Sound(data, turn);
      case UserCanceled =>
        CancelWith(SourceCanceled);
        CloseOnce();
      case SourceEnded => CloseOnce();
    }
  }

  /** The registry: `streams` finds the live ones; `all` remembers those a consumer may still hold. */
  class Capture {
    var next: nat
    var streams: map<nat, CaptureStream>
    var stops: seq<nat>
    ghost var all: map<nat, CaptureStream>

    ghost predicate Valid()
      reads this, all.Values
    {
      && (forall id | id in all :: all[id].id == id && id <= next)
      && (forall id | id in streams :: id in all && streams[id] == all[id])
      && (forall id | id in all :: id in streams <==> !all[id].closed)
    }

    /** Valid, except that stream `busy` may just have closed without being forgotten. */
    ghost predicate ValidBut(busy: nat)
      reads this, all.Values
    {
      && (forall id | id in all :: all[id].id == id && id <= next)
      && (forall id | id in streams :: id in all && streams[id] == all[id])
      && (forall id | id in all :: id in streams <==> id == busy || !all[id].closed)
    }

    ghost function Current(): Registry
      reads this, all.Values
    {
      Registry(next, map id | id in all :: all[id].State(), stops)
    }

    constructor ()
      ensures Valid() && Current() == EMPTY && fresh(all.Values)
    {
      next, streams, stops, all := 0, map[], [], map[];
    }

    /** `capture.stream` */
    method OpenStream(outputs: seq<Output>, requested: string) returns (s: CaptureStream)
      requires Valid()
      modifies this
      ensures Valid() && fresh(s) && s.id == next && all == old(all)[next := s]
      ensures Current() == Step(old(Current()), Open(outputs, requested))
    {
      hide Current, NewStream, Step, CaptureStream.State;
      CurrentHolds();
      next := next + 1;
      s := new CaptureStream(next, outputs, requested);
      streams, all := streams[next := s], all[next := s];
      CurrentIsOpened(old(Current()), outputs, requested);
    }

    lemma CurrentIsOpened(before: Registry, outputs: seq<Output>, requested: string)
      requires next == before.next + 1 && stops == before.stops && all.Keys == before.all.Keys + {next}
      requires next !in before.all && forall j | j in before.all :: all[j].State() == before.all[j]
      requires all[next].State() == NewStream(outputs, requested)
      ensures Current() == Step(before, Open(outputs, requested))
    {
    }

    lemma CurrentHolds()
      ensures var r := Current();
        && r.next == next && r.stops == stops && r.all.Keys == all.Keys
        && forall j | j in all :: r.all[j] == all[j].State()
    {
    }

    /** Only stream `id`, and the stops, may differ from `before`. */
    ghost predicate OthersKept(before: Registry, id: nat)
      reads this, all.Values
    {
      && id in all && id in before.all && all.Keys == before.all.Keys
      && next == before.next
      && forall j | j in all && j != id :: all[j].State() == before.all[j]
    }

    lemma CurrentIsPut(before: Registry, id: nat)
      requires OthersKept(before, id)
      requires stops == before.stops + if all[id].closed && !before.all[id].closed then [id] else []
      ensures Current() == Put(before, id, all[id].State())
    {
    }

    /** The registry's part of `Close`: forget the stream and stop it on the platform, once. */
    method Retire(s: CaptureStream, ghost before: Registry)
      requires s.id in all && all[s.id] == s && ValidBut(s.id)
      requires OthersKept(before, s.id) && stops == before.stops && !before.all[s.id].closed
      modifies this
      ensures Valid() && all == old(all) && next == old(next)
      ensures stops == old(stops) + if s.closed then [s.id] else []
      ensures Current() == Put(before, s.id, s.State())
    {
      hide Put, Current, CaptureStream.State;
      if s.closed {
        streams := map id | id in streams && id != s.id :: streams[id];
        stops := stops + [s.id];
      }
      assert OthersKept(before, s.id);
      CurrentIsPut(before, s.id);
    }

    /** The call itself, on a live stream that stays in the map until it is retired. */
    method ServeLive(s: CaptureStream, call: Call)
      requires Valid() && s.id in streams && streams[s.id] == s
      modifies s
      ensures ValidBut(s.id) && s.State() == Respond(old(s.State()), call)
      ensures OthersKept(old(Current()), s.id) && !old(Current()).all[s.id].closed
    {
      hide Respond;
      assert forall j | j in all && j != s.id :: all[j] != s;
      s.Serve(call);
    }

    /** Every bridge call: a stream that is gone is not served. */
    method Bridged(id: nat, call: Call)
      requires Valid()
      modifies this, all.Values
      ensures Valid() && all == old(all)
      ensures Current() == Step(old(Current()), Bridge(id, call))
    {
      hide Respond, Put, Current, OthersKept, ValidBut;
      CurrentHolds();
      if id !in streams {
        return;
      }
      var s := streams[id];
      ServeLive(s, call);
      Retire(s, old(Current()));
    }

    /** `Read` by the consumer that holds the stream, closed or not. */
    method ReadOne(s: CaptureStream, take: bool) returns (r: ReadResult)
      requires Valid() && s.id in all && all[s.id] == s
      modifies s
      ensures Valid()
      ensures Current() == Step(old(Current()), Event.ReadOne(s.id, take))
      ensures r == Read(old(s.State()), take).1
    {
      hide Put, Current;
      CurrentHolds();
      assert forall j | j in all && j != s.id :: all[j] != s;
      r := s.ReadFrame(take);
      CurrentIsPut(old(Current()), s.id);
    }

    method CloseLive(s: CaptureStream)
      requires Valid() && s.id in all && all[s.id] == s
      modifies s
      ensures ValidBut(s.id) || old(s.closed)
      ensures old(s.closed) ==> Valid()
      ensures s.State() == Close(old(s.State()))
      ensures OthersKept(old(Current()), s.id) && old(Current()).all[s.id] == old(s.State())
    {
      assert forall j | j in all && j != s.id :: all[j] != s;
      s.CloseOnce();
    }

    /** `Close`, by a consumer or by the watcher of a context that is done. */
    method CloseOne(s: CaptureStream)
      requires Valid() && s.id in all && all[s.id] == s
      modifies this, s
      ensures Valid() && all == old(all)
      ensures Current() == Step(old(Current()), Event.CloseOne(s.id))
    {
      hide Close, Put, Current;
      CurrentHolds();
      var once := !s.closed;
      CloseLive(s);
      if once {
        Retire(s, old(Current()));
      } else {
        CurrentIsPut(old(Current()), s.id);
      }
    }

    /** The parent's context is done: the stream's is too, with the parent's cause. */
    method ParentCanceled(s: CaptureStream, reason: Cause)
      requires Valid() && s.id in all && all[s.id] == s
      modifies s
      ensures Valid()
      ensures Current() == Step(old(Current()), ParentCancel(s.id, reason))
    {
      hide Put, Current;
      CurrentHolds();
      assert forall j | j in all && j != s.id :: all[j] != s;
      s.CancelWith(reason);
      CurrentIsPut(old(Current()), s.id);
    }
  }
}
