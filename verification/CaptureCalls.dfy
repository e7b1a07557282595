/**
 What each bridge call of a mobile capture does to a live stream: exactly which calls close it, and
 exactly what a call changes on an open stream whose queue has room.
 */
module CaptureCalls {
  import opened Common
  import opened CaptureSpec
  import opened CaptureLaws

  // ---------------------------------------------------------------- which calls close

  /** The layer whose loss ends the capture: `min(1, len(outputs)-1)`. */
  predicate IsPrimary(s: Stream, layer: int) {
    0 <= layer < |s.outputs| && layer == if |s.outputs| == 1 then 0 else 1
  }

  predicate UnitRefused(data: Bytes, ptsMicros: int, durationMicros: int) {
    |data| == 0 || |data| > 4194304 || ptsMicros < 0 || durationMicros <= 0
  }

  predicate Misfits(s: Stream, layer: int, width: int, height: int) {
    || layer < 0 || layer >= |s.outputs| || width < 2 || height < 2
    || width > s.outputs[layer].width || height > s.outputs[layer].height || !ValidVideoSize(width, height)
  }

  /** A codec that was not asked for, or not the one committed. */
  predicate CodecRefused(s: Stream, codec: string) {
    || codec !in {"h264", "vp8"} || (s.requested != "auto" && s.requested != codec)
    || (s.codec == 1 && codec == "vp8") || (s.codec == 2 && codec == "h264")
  }

  /** The calls that close a live stream, by their arguments and what the stream has committed. */
  predicate Closes(s: Stream, call: Call) {
    match call
    case Ready(codec, _, _, _, _, _) => s.outputs != [] && CodecRefused(s, codec)
    case Unit(data, pts, duration, _, _) => s.format == 0 || UnitRefused(data, pts, duration)
    case Input(_, _) => false
    case Layer(layer, data, pts, duration, width, height, _, _) =>
      s.format == 0 || UnitRefused(data, pts, duration) || Misfits(s, layer, width, height)
    case Unavailable(layer, _) => IsPrimary(s, layer)
    case Sound(data, _) => |data| != 3840
    case UserCanceled => true
    case SourceEnded => true
  }

  lemma ReadyClosesIff(s: Stream, codec: string, width: int, height: int, profile: string, supported: bool,
                       turns: (Turn, Turn, Turn))
    requires Committed(s) && !s.closed
    ensures VideoReady(s, codec, width, height, profile, supported, turns).0.closed
       <==> s.outputs != [] && CodecRefused(s, codec)
  {
    hide Push, StartInput, ValidVideoSize;
    if s.outputs != [] && FitsOutput(s.outputs, PrimaryLayer(s.outputs), width, height) {
      var committed := s.(codec := KindCode(codec), format := Pack(width, height));
      var status := Status(KindOf(committed.codec), width, height);
      PushFrame(committed, status, turns.0);
      StartKeepsOpen(Push(committed, status, turns.0).0, turns.1, turns.2);
    }
  }

  lemma InputKeepsOpen(s: Stream, ptsMicros: int, turn: Turn)
    ensures VideoInput(s, ptsMicros, turn).closed == s.closed
  {
    hide Nanos;
  }

  lemma LayerClosesIff(s: Stream, layer: int, data: Bytes, pts: int, duration: int, width: int, height: int, key: bool,
                       turn: Turn)
    requires !s.closed
    ensures VideoLayer(s, layer, data, pts, duration, width, height, key, turn).closed
       <==> s.format == 0 || UnitRefused(data, pts, duration) || Misfits(s, layer, width, height)
  {
    hide Nanos, ValidVideoSize;
  }

  lemma UnitClosesIff(s: Stream, data: Bytes, pts: int, duration: int, key: bool, turns: (Turn, Turn))
    requires FormatFits(s) && !s.closed
    ensures Video(s, data, pts, duration, key, turns).closed <==> s.format == 0 || UnitRefused(data, pts, duration)
  {
    hide VideoInput, VideoLayer, Nanos, ValidVideoSize;
    if s.format != 0 && !UnitRefused(data, pts, duration) {
      InputSupplies(s, pts, turns.0);
      LayerClosesIff(VideoInput(s, pts, turns.0), PrimaryLayer(s.outputs), data, pts, duration,
                     s.format / TWO_32, s.format % TWO_32, key, turns.1);
    }
  }

  /** A bridge call closes a live stream if and only if it is one of these. */
  lemma RespondClosesIff(s: Stream, call: Call)
    requires StreamInv(s) && FormatFits(s) && !s.closed
    ensures Respond(s, call).closed <==> Closes(s, call)
  {
    hide VideoReady, Video, VideoInput, VideoLayer, FormatFits, ClockInv, AllFit, InOrder, Ordered;
    match call
    case Ready(codec, width, height, profile, supported, turns) =>
      ReadyClosesIff(s, codec, width, height, profile, supported, turns);
    case Unit(data, pts, duration, key, pair) => UnitClosesIff(s, data, pts, duration, key, pair);
    case Input(pts, turn) => InputKeepsOpen(s, pts, turn);
    case Layer(layer, data, pts, duration, width, height, key, turn) =>
      LayerClosesIff(s, layer, data, pts, duration, width, height, key, turn);
    case Unavailable(_, _) =>
    case Sound(_, _) =>
    case UserCanceled =>
    case SourceEnded =>
  }

  /** A closing call does nothing else: the stream keeps everything, and a user's dismissal is its own cause. */
  lemma ClosingOnlyCloses(s: Stream, call: Call)
    requires StreamInv(s) && FormatFits(s) && !s.closed && Closes(s, call)
    ensures Respond(s, call)
      == s.(closed := true,
            cause := if s.cause.Some? then s.cause else Some(if call.UserCanceled? then SourceCanceled else OtherCause))
  {
    hide ClockInv, AllFit, InOrder, Ordered, ValidVideoSize, Push, Nanos;
  }

  // ---------------------------------------------------------------- what the other calls change

  /** An open context, and room for this many frames in the queue. */
  predicate Room(s: Stream, n: nat) {
    s.cause.None? && |s.queue| + n <= 8
  }

  /** These frames, and nothing else, are added behind the others. */
  function Added(s: Stream, frames: seq<Frame>): Stream {
    s.(queue := s.queue + frames, pushed := s.pushed + frames)
  }

  lemma PushAdds(s: Stream, f: Frame, turn: Turn)
    requires Room(s, 1)
    ensures Push(s, f, turn) == (Added(s, [f]), true)
  {
  }

  /** The loss of a layer that is in range but not the primary is one frame more; one out of range is nothing. */
  lemma UnavailableAdds(s: Stream, layer: int, turn: Turn)
    requires Room(s, 1) && !IsPrimary(s, layer)
    ensures Respond(s, Unavailable(layer, turn))
      == if 0 <= layer < |s.outputs| then Added(s, [LayerUnavailable(layer)]) else s
  {
  }

  /** A whole frame of sound is one frame more. */
  lemma SoundAdds(s: Stream, data: Bytes, turn: Turn)
    requires Room(s, 1) && |data| == 3840
    ensures Respond(s, Sound(data, turn)) == Added(s, [Pcm(data)])
  {
  }

  /** An accepted layer is one coded frame more, of the committed codec and in nanoseconds. */
  lemma LayerAdds(s: Stream, layer: int, data: Bytes, pts: int, duration: int, width: int, height: int, key: bool, turn: Turn)
    requires Room(s, 1) && !Closes(s, Layer(layer, data, pts, duration, width, height, key, turn))
    ensures Respond(s, Layer(layer, data, pts, duration, width, height, key, turn))
      == Added(s, [Coded(if s.codec == 2 then VP8 else H264, layer, width, height, data, Nanos(pts), Nanos(duration), key)])
  {
    hide Nanos, ValidVideoSize;
  }

  /** What the stream remembers of a capture time, and whether that time is news. */
  function Supplied(s: Stream, t: int): Stream {
    if s.hasInput && t <= s.input then s.(supplied := s.supplied + [t])
    else
      s.(supplied := s.supplied + [t], hasInput := true, firstInput := if s.hasInput then s.firstInput else t, input := t)
  }

  /** A new capture time is remembered, and announced once the input is ready; an old or negative one is not. */
  lemma InputAdds(s: Stream, pts: int, turn: Turn)
    requires Room(s, 1)
    ensures Respond(s, Input(pts, turn)) ==
      if pts < 0 then s
      else if s.inputReady && (!s.hasInput || Nanos(pts) > s.input) then Added(Supplied(s, Nanos(pts)), [Begin(Nanos(pts))])
      else Supplied(s, Nanos(pts))
  {
    hide Nanos;
  }

  /** An access unit is its capture time and then its frame, on the primary layer in the committed size. */
  lemma UnitAdds(s: Stream, data: Bytes, pts: int, duration: int, key: bool, turns: (Turn, Turn))
    requires FormatFits(s) && !s.closed && Room(s, 2) && !Closes(s, Unit(data, pts, duration, key, turns))
    ensures var layer := if |s.outputs| == 1 then 0 else 1;
      Respond(s, Unit(data, pts, duration, key, turns))
      == Added(Respond(s, Input(pts, turns.0)),
               [Coded(if s.codec == 2 then VP8 else H264, layer, s.format / 0x1_0000_0000, s.format % 0x1_0000_0000,
                      data, Nanos(pts), Nanos(duration), key)])
  {
    hide Push, Nanos, ValidVideoSize;
    InputSupplies(s, pts, turns.0);
    InputAdds(s, pts, turns.0);
    var fed := VideoInput(s, pts, turns.0);
    var layer := if |s.outputs| == 1 then 0 else 1;
    var f := Coded(KindOf(s.codec), layer, s.format / TWO_32, s.format % TWO_32, data, Nanos(pts), Nanos(duration), key);
    PushAdds(fed, f, turns.1);
  }

  /** A readiness that is not closing commits if there are outputs, the size fits the primary one, and the profile its codec. */
  predicate Commits(s: Stream, codec: string, width: int, height: int, profile: string, supported: bool) {
    && s.outputs != [] && !CodecRefused(s, codec)
    && !Misfits(s, if |s.outputs| == 1 then 0 else 1, width, height)
    && (if codec == "vp8" then profile == "" else supported)
  }

  /** The times the first readiness announces. */
  function FirstTimes(s: Stream): seq<Frame> {
    if s.inputReady || !s.hasInput then []
    else if s.input > s.firstInput then [Begin(s.firstInput), Begin(s.input)]
    else [Begin(s.firstInput)]
  }

  lemma StartAdds(s: Stream, second: Turn, third: Turn)
    requires Room(s, 2)
    ensures StartInput(s, second, third)
      == (Added(s, FirstTimes(s)).(inputReady := true, readyAt := if s.inputReady then s.readyAt else |s.supplied|), true)
  {
    var ready := s.(inputReady := true, readyAt := |s.supplied|);
    if !s.inputReady && s.hasInput {
      PushAdds(ready, Begin(s.firstInput), second);
      if s.input > s.firstInput {
        PushAdds(Added(ready, [Begin(s.firstInput)]), Begin(s.input), third);
        assert ready.queue + [Begin(s.firstInput)] + [Begin(s.input)] == ready.queue + FirstTimes(s);
        assert ready.pushed + [Begin(s.firstInput)] + [Begin(s.input)] == ready.pushed + FirstTimes(s);
      }
    } else {
      assert s.queue + [] == s.queue && s.pushed + [] == s.pushed;
    }
    hide Push;
  }

  /**
   A readiness that commits stores codec and size, pushes a Status that says so and the times waiting
   for it, and answers true. One that neither commits nor closes changes nothing and answers false.
   */
  lemma ReadyAdds(s: Stream, codec: string, width: int, height: int, profile: string, supported: bool,
                  turns: (Turn, Turn, Turn))
    requires Committed(s) && Room(s, 3) && !Closes(s, Ready(codec, width, height, profile, supported, turns))
    ensures var (r, ok) := VideoReady(s, codec, width, height, profile, supported, turns);
      && ok == Commits(s, codec, width, height, profile, supported)
      && (ok ==> width >= 0 && height >= 0)
      && r == if !ok then s
              else
                Added(s, [Status(if codec == "vp8" then VP8 else H264, width, height)] + FirstTimes(s))
                .(codec := if codec == "vp8" then 2 else 1, format := width * 0x1_0000_0000 + height,
                  inputReady := true, readyAt := if s.inputReady then s.readyAt else |s.supplied|)
  {
    hide Push, StartInput, ValidVideoSize;
    if Commits(s, codec, width, height, profile, supported) {
      var committed := s.(codec := KindCode(codec), format := Pack(width, height));
      var status := Status(KindOf(committed.codec), width, height);
      PushAdds(committed, status, turns.0);
      StartAdds(Added(committed, [status]), turns.1, turns.2);
      assert s.queue + [status] + FirstTimes(s) == s.queue + ([status] + FirstTimes(s));
      assert s.pushed + [status] + FirstTimes(s) == s.pushed + ([status] + FirstTimes(s));
    }
  }

  // ---------------------------------------------------------------- pushing, reading, ending

  /**
   A push goes through exactly when it is let, or the context is open with room; a full queue makes
   room by a read. Otherwise it changes no frame, and the context is done, with its first cause.
   */
  lemma PushDecides(s: Stream, f: Frame, turn: Turn)
    ensures var (r, ok) := Push(s, f, turn);
      && (ok <==> turn.Proceed? || Room(s, 1))
      && (ok ==> r.pushed == s.pushed + [f] && r.delivered + r.queue == s.delivered + s.queue + [f] && r.cause == s.cause
                 && (|s.queue| < 8 ==> r.delivered == s.delivered) && (|s.queue| >= 8 ==> |r.delivered| == |s.delivered| + 1))
      && (!ok ==> r == s.(cause := if s.cause.Some? then s.cause else Some(turn.cause)))
  {
    if |s.queue| >= 8 {
      assert s.queue == [s.queue[0]] + s.queue[1..];
    }
  }

  /**
   A read waits exactly on an open stream without frames. It gives the oldest frame not read yet, and
   always while the context is open; when it does not, it tells a dismissal from any other end.
   */
  lemma ReadDecides(s: Stream, take: bool)
    requires InOrder(s.pushed, s.delivered, s.queue)
    ensures var (r, got) := Read(s, take);
      && (got.Blocked? <==> s.cause.None? && s.queue == [])
      && (got.Got? <==> s.queue != [] && (take || s.cause.None?))
      && (got.Got? ==> |s.delivered| < |s.pushed| && got.frame == s.pushed[|s.delivered|]
                       && r == s.(queue := s.queue[1..], delivered := s.delivered + [got.frame]))
      && (got.Canceled? ==> s.cause == Some(SourceCanceled)) && (got.Eof? ==> s.cause == Some(OtherCause))
      && (!got.Got? ==> r == s)
  {
  }

  /** The committed size has even sides of 2 to 8192, and at most 36864 macroblocks of 16 by 16. */
  lemma SizeIff(width: nat, height: nat, columns: nat, rows: nat)
    requires 16 * columns >= width > 16 * columns - 16 && 16 * rows >= height > 16 * rows - 16
    ensures ValidVideoSize(width, height) <==>
            && width % 2 == 0 && height % 2 == 0 && 2 <= width <= 8192 && 2 <= height <= 8192
            && columns * rows <= 36864
  {
    assert (width + 15) / 16 == columns && (height + 15) / 16 == rows;
  }
}
