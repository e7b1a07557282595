/** What every run of a mobile capture stream and of its registry keeps. */
module CaptureLaws {
  import opened Common
  import opened CaptureSpec

  // ---------------------------------------------------------------- the capture clock

  /** The timestamps of the Begin frames, in order. */
  function BeginTimes(frames: seq<Frame>): seq<int> {
    if frames == [] then []
    else
      var last := frames[|frames| - 1];
      BeginTimes(frames[..|frames| - 1]) + if last.Begin? then [last.timestamp] else []
  }

  ghost predicate Increasing(times: seq<int>) {
    forall i, j | 0 <= i < j < |times| :: times[i] < times[j]
  }

  function Highest(times: seq<int>): int
    requires times != []
  {
    var last := times[|times| - 1];
    if |times| == 1 then last
    else
      var rest := Highest(times[..|times| - 1]);
      if rest < last then last else rest
  }

  lemma {:induction false} HighestIsMaximum(times: seq<int>)
    requires times != []
    ensures Highest(times) in times && forall t | t in times :: t <= Highest(times)
  {
    if |times| > 1 {
      HighestIsMaximum(times[..|times| - 1]);
      assert times == times[..|times| - 1] + [times[|times| - 1]];
    }
  }

  /** The reference clock: of the first `n` times the first and the highest, then every new maximum. */
  function Clock(times: seq<int>, n: nat): seq<int>
    requires n <= |times|
  {
    if times == [] then []
    else if |times| == n then
      [times[0]] + if Highest(times) > times[0] then [Highest(times)] else []
    else
      var before, last := times[..|times| - 1], times[|times| - 1];
      Clock(before, n) + if before == [] || last > Highest(before) then [last] else []
  }

  lemma IncreasingGrows(times: seq<int>, t: int)
    requires Increasing(times) && (times != [] ==> times[|times| - 1] < t)
    ensures Increasing(times + [t])
  {
  }

  lemma HighestGrows(times: seq<int>, t: int)
    ensures Highest(times + [t]) == if times == [] || Highest(times) < t then t else Highest(times)
  {
  }

  lemma ClockGrows(times: seq<int>, t: int, n: nat)
    requires n <= |times|
    ensures Clock(times + [t], n) == Clock(times, n) + if times == [] || t > Highest(times) then [t] else []
  {
  }

  lemma ClockAtReady(times: seq<int>)
    ensures Clock(times, |times|)
      == if times == [] then [] else if Highest(times) > times[0] then [times[0], Highest(times)] else [times[0]]
  {
  }

  /** The reference clock strictly increases and ends at the highest time; ready input alone gives at most two times. */
  lemma {:induction false} ClockIncreases(times: seq<int>, n: nat)
    requires n <= |times|
    ensures Increasing(Clock(times, n))
    ensures times != [] ==> Clock(times, n) != [] && Clock(times, n)[|Clock(times, n)| - 1] == Highest(times)
    ensures n == |times| ==> |Clock(times, n)| <= 2
  {
    hide Clock, Highest;
    if |times| > n {
      var before, last := times[..|times| - 1], times[|times| - 1];
      assert times == before + [last];
      ClockIncreases(before, n);
      ClockGrows(before, last, n);
      HighestGrows(before, last);
      var clock := Clock(before, n);
      if before == [] || last > Highest(before) {
        EmptyClock(before, n);
        IncreasingGrows(clock, last);
        assert Clock(times, n) == clock + [last];
      } else {
        assert Clock(times, n) == clock;
      }
    } else {
      ClockAtReady(times);
      if times != [] {
        HighestIsMaximum(times);
        assert times[0] in times;
      }
    }
  }

  lemma EmptyClock(times: seq<int>, n: nat)
    requires n <= |times|
    ensures times == [] ==> Clock(times, n) == []
  {
  }

  lemma BeginTimesGrow(frames: seq<Frame>, f: Frame)
    ensures BeginTimes(frames + [f]) == BeginTimes(frames) + if f.Begin? then [f.timestamp] else []
  {
  }

  ghost predicate ClockInv(s: Stream) {
    var begins := BeginTimes(s.pushed);
    && (s.hasInput <==> s.supplied != [])
    && (s.hasInput ==> s.firstInput == s.supplied[0] && s.input == Highest(s.supplied))
    && s.readyAt <= |s.supplied|
    && (!s.inputReady ==> begins == [])
    && Increasing(begins) && (begins != [] ==> s.hasInput && begins[|begins| - 1] <= s.input)
    && (s.cause.None? && s.inputReady ==> begins == Clock(s.supplied, s.readyAt))
  }

  /** Frames leave in the order they were pushed, and at most eight wait. */
  ghost predicate InOrder(pushed: seq<Frame>, delivered: seq<Frame>, queue: seq<Frame>) {
    pushed == delivered + queue && |queue| <= QUEUE
  }

  // ---------------------------------------------------------------- codec and order of frames

  ghost predicate HasStatus(frames: seq<Frame>) {
    frames != [] && (frames[|frames| - 1].Status? || HasStatus(frames[..|frames| - 1]))
  }

  /** Every Begin, and with `coded` every coded frame, comes after a Status. */
  ghost predicate AfterStatus(frames: seq<Frame>, coded: bool) {
    frames != [] ==>
      var before, last := frames[..|frames| - 1], frames[|frames| - 1];
      AfterStatus(before, coded) && (last.Begin? || (coded && last.Coded?) ==> HasStatus(before))
  }

  /** A coded frame is in the committed codec and inside its layer's output. */
  ghost predicate CodedFits(outputs: seq<Output>, codec: nat, f: Frame) {
    f.Coded? ==>
      && codec != 0 && f.kind == KindOf(codec)
      && f.layer < |outputs| && FitsOutput(outputs, f.layer, f.width, f.height)
      && 0 < |f.data| <= MAX_ACCESS_UNIT_BYTES
  }

  ghost predicate AllFit(outputs: seq<Output>, codec: nat, frames: seq<Frame>) {
    frames != [] ==>
      AllFit(outputs, codec, frames[..|frames| - 1]) && CodedFits(outputs, codec, frames[|frames| - 1])
  }

  /** A committed format comes with a codec, and the codec is one that was asked for. */
  ghost predicate Committed(s: Stream) {
    && s.codec in {0, 1, 2}
    && (s.codec != 0 ==> s.requested == "auto" || KindCode(s.requested) == s.codec)
    && (s.format != 0 ==> s.codec != 0 && s.outputs != [])
  }

  /** A committed size fits the primary output. */
  ghost predicate FormatFits(s: Stream) {
    s.format != 0 ==>
      s.outputs != [] && FitsOutput(s.outputs, PrimaryLayer(s.outputs), s.format / TWO_32, s.format % TWO_32)
  }

  /** A Begin always follows a Status; a coded frame does on every stream whose context is not done. */
  ghost predicate Ordered(s: Stream) {
    (s.inputReady ==> HasStatus(s.pushed)) && AfterStatus(s.pushed, s.cause.None?)
  }

  /** Everything but the clock. */
  ghost predicate RestInv(s: Stream) {
    && InOrder(s.pushed, s.delivered, s.queue) && Committed(s) && AllFit(s.outputs, s.codec, s.pushed) && Ordered(s)
    && (s.closed ==> s.cause.Some?)
  }

  /** The invariant that also holds between the pushes of one call. */
  ghost predicate BaseInv(s: Stream) {
    ClockInv(s) && RestInv(s)
  }

  /** The invariant between calls: a committed format means that the input is ready. */
  ghost predicate StreamInv(s: Stream) {
    BaseInv(s) && (s.cause.None? && s.format != 0 ==> s.inputReady)
  }

  lemma FramesGrow(frames: seq<Frame>, f: Frame)
    ensures (frames + [f])[..|frames|] == frames
  {
  }

  lemma {:induction false} AfterStatusWeakens(frames: seq<Frame>, coded: bool)
    requires AfterStatus(frames, coded)
    ensures AfterStatus(frames, false)
  {
    if frames != [] {
      AfterStatusWeakens(frames[..|frames| - 1], coded);
    }
  }

  /** Before a codec is committed there are no coded frames, so any codec fits them. */
  lemma {:induction false} NothingCodedYet(outputs: seq<Output>, codec: nat, frames: seq<Frame>)
    requires AllFit(outputs, 0, frames)
    ensures AllFit(outputs, codec, frames)
  {
    if frames != [] {
      NothingCodedYet(outputs, codec, frames[..|frames| - 1]);
    }
  }

  /** What a push does not touch, and what its answer means. */
  lemma PushFrame(s: Stream, f: Frame, turn: Turn)
    ensures var (r, ok) := Push(s, f, turn);
      && r == s.(queue := r.queue, cause := r.cause, pushed := r.pushed, delivered := r.delivered)
      && (ok ==> r.cause == s.cause && r.pushed == s.pushed + [f])
      && (!ok ==> r.cause.Some? && r.pushed == s.pushed)
  {
  }

  /** A push keeps the order of frames and at most eight of them waiting. */
  lemma PushKeepsQueue(s: Stream, f: Frame, turn: Turn)
    requires InOrder(s.pushed, s.delivered, s.queue)
    ensures var r := Push(s, f, turn).0; InOrder(r.pushed, r.delivered, r.queue)
  {
  }

  lemma PushKeepsFit(s: Stream, f: Frame, turn: Turn)
    requires AllFit(s.outputs, s.codec, s.pushed) && CodedFits(s.outputs, s.codec, f)
    ensures AllFit(s.outputs, s.codec, Push(s, f, turn).0.pushed)
  {
  }

  lemma PushKeepsOrder(s: Stream, f: Frame, turn: Turn)
    requires Ordered(s)
    requires f.Begin? || (f.Coded? && s.cause.None?) ==> HasStatus(s.pushed)
    ensures Ordered(Push(s, f, turn).0)
    ensures Push(s, f, turn).1 && f.Status? ==> HasStatus(Push(s, f, turn).0.pushed)
  {
    FramesGrow(s.pushed, f);
    AfterStatusWeakens(s.pushed, s.cause.None?);
  }

  /** A frame that is no Begin leaves the clock alone. */
  lemma PushKeepsClock(s: Stream, f: Frame, turn: Turn)
    requires ClockInv(s) && !f.Begin?
    ensures ClockInv(Push(s, f, turn).0)
  {
    hide Push, BeginTimes, Clock, Highest;
    PushFrame(s, f, turn);
    BeginTimesGrow(s.pushed, f);
    assert BeginTimes(s.pushed) + [] == BeginTimes(s.pushed);
  }

  lemma PushKeepsRest(s: Stream, f: Frame, turn: Turn)
    requires RestInv(s) && CodedFits(s.outputs, s.codec, f)
    requires f.Begin? || (f.Coded? && s.cause.None?) ==> HasStatus(s.pushed)
    ensures RestInv(Push(s, f, turn).0)
  {
    PushKeepsQueue(s, f, turn);
    PushKeepsFit(s, f, turn);
    PushKeepsOrder(s, f, turn);
    PushFrame(s, f, turn);
    hide Push, AllFit, InOrder, AfterStatus, HasStatus, CodedFits;
  }

  lemma PushKeepsInv(s: Stream, f: Frame, turn: Turn)
    requires BaseInv(s) && !f.Begin? && CodedFits(s.outputs, s.codec, f)
    requires f.Coded? && s.cause.None? ==> HasStatus(s.pushed)
    ensures BaseInv(Push(s, f, turn).0)
  {
    PushKeepsRest(s, f, turn);
    PushKeepsClock(s, f, turn);
  }

  lemma CancelKeepsInv(s: Stream, cause: Cause)
    requires BaseInv(s)
    ensures BaseInv(Cancel(s, cause))
  {
    AfterStatusWeakens(s.pushed, s.cause.None?);
  }

  lemma CloseKeepsInv(s: Stream)
    requires StreamInv(s)
    ensures StreamInv(Close(s))
  {
    CancelKeepsInv(s, OtherCause);
  }

  /** The clock but for its equality with the reference, which a failed push ends. */
  ghost predicate LooseClock(s: Stream) {
    ClockInv(s.(cause := Some(OtherCause)))
  }

  /** A Begin above every earlier one goes in behind them. */
  lemma PushBegin(s: Stream, t: int, turn: Turn)
    requires LooseClock(s) && s.inputReady && s.hasInput && t <= s.input
    requires BeginTimes(s.pushed) != [] ==> BeginTimes(s.pushed)[|BeginTimes(s.pushed)| - 1] < t
    ensures var (r, ok) := Push(s, Begin(t), turn);
      LooseClock(r) && (ok ==> BeginTimes(r.pushed) == BeginTimes(s.pushed) + [t])
  {
    BeginTimesGrow(s.pushed, Begin(t));
    IncreasingGrows(BeginTimes(s.pushed), t);
    PushFrame(s, Begin(t), turn);
    hide Push, BeginTimes;
  }

  lemma VideoInputKeepsClock(s: Stream, ptsMicros: int, turn: Turn)
    requires ClockInv(s)
    ensures ClockInv(VideoInput(s, ptsMicros, turn))
  {
    hide Push, Highest, Clock, BeginTimes, Nanos;
    if ptsMicros >= 0 {
      var pts := Nanos(ptsMicros);
      ClockGrows(s.supplied, pts, s.readyAt);
      HighestGrows(s.supplied, pts);
      if !(s.hasInput && pts <= s.input) && s.inputReady {
        var advanced := s.(supplied := s.supplied + [pts],
                           firstInput := if s.hasInput then s.firstInput else pts, hasInput := true, input := pts);
        PushFrame(advanced, Begin(pts), turn);
        PushBegin(advanced, pts, turn);
      }
    }
  }

  lemma VideoInputKeepsRest(s: Stream, ptsMicros: int, turn: Turn)
    requires RestInv(s) && (s.cause.None? && s.format != 0 ==> s.inputReady)
    ensures var r := VideoInput(s, ptsMicros, turn); RestInv(r) && (r.cause.None? && r.format != 0 ==> r.inputReady)
  {
    hide Push, InOrder, AfterStatus, AllFit, Nanos;
    if ptsMicros >= 0 {
      var pts := Nanos(ptsMicros);
      var advanced := s.(supplied := s.supplied + [pts],
                         firstInput := if s.hasInput then s.firstInput else pts, hasInput := true, input := pts);
      if s.inputReady {
        PushFrame(advanced, Begin(pts), turn);
        PushKeepsRest(advanced, Begin(pts), turn);
      }
    }
  }

  lemma VideoInputKeepsInv(s: Stream, ptsMicros: int, turn: Turn)
    requires StreamInv(s)
    ensures StreamInv(VideoInput(s, ptsMicros, turn))
  {
    VideoInputKeepsClock(s, ptsMicros, turn);
    VideoInputKeepsRest(s, ptsMicros, turn);
    hide VideoInput, ClockInv, RestInv;
  }

  /** The second of the two times published when the input becomes ready. */
  lemma SecondBeginKeepsClock(s: Stream, third: Turn)
    requires LooseClock(s) && s.inputReady && s.hasInput && s.readyAt == |s.supplied|
    requires BeginTimes(s.pushed) == [s.firstInput] && s.firstInput < s.input
    ensures ClockInv(Push(s, Begin(s.input), third).0)
  {
    hide Push, Highest, Clock, BeginTimes;
    ClockAtReady(s.supplied);
    PushFrame(s, Begin(s.input), third);
    PushBegin(s, s.input, third);
    assert [s.firstInput] + [s.input] == [s.firstInput, s.input];
  }

  lemma FirstBeginKeepsClock(s: Stream, second: Turn)
    requires LooseClock(s) && s.inputReady && s.hasInput && s.readyAt == |s.supplied| && BeginTimes(s.pushed) == []
    ensures var (r, ok) := Push(s, Begin(s.firstInput), second);
      && LooseClock(r) && (ok ==> BeginTimes(r.pushed) == [s.firstInput])
      && (!ok || s.input <= s.firstInput ==> ClockInv(r))
  {
    hide Push, Highest, Clock, BeginTimes;
    ClockAtReady(s.supplied);
    HighestIsMaximum(s.supplied);
    assert s.supplied[0] in s.supplied;
    PushFrame(s, Begin(s.firstInput), second);
    PushBegin(s, s.firstInput, second);
    assert [] + [s.firstInput] == [s.firstInput];
  }

  lemma StartInputKeepsClock(s: Stream, second: Turn, third: Turn)
    requires ClockInv(s)
    ensures ClockInv(StartInput(s, second, third).0)
  {
    hide Push, Highest, Clock, BeginTimes;
    ClockAtReady(s.supplied);
    if !s.inputReady && s.hasInput {
      var ready := s.(inputReady := true, readyAt := |s.supplied|);
      FirstBeginKeepsClock(ready, second);
      PushFrame(ready, Begin(s.firstInput), second);
      var (begun, ok) := Push(ready, Begin(s.firstInput), second);
      if ok && s.input > s.firstInput {
        SecondBeginKeepsClock(begun, third);
      }
    }
  }

  lemma StartInputKeepsRest(s: Stream, second: Turn, third: Turn)
    requires RestInv(s) && HasStatus(s.pushed)
    ensures var (r, ok) := StartInput(s, second, third); RestInv(r) && (r.cause.None? ==> r.inputReady)
  {
    hide Push, InOrder, AfterStatus, AllFit;
    if !s.inputReady && s.hasInput {
      var ready := s.(inputReady := true, readyAt := |s.supplied|);
      PushFrame(ready, Begin(s.firstInput), second);
      PushKeepsRest(ready, Begin(s.firstInput), second);
      var (begun, ok) := Push(ready, Begin(s.firstInput), second);
      if ok && s.input > s.firstInput {
        PushFrame(begun, Begin(s.input), third);
        PushKeepsRest(begun, Begin(s.input), third);
      }
    }
  }

  /** Committing a codec and a size, with the Status that says so. */
  lemma CommitKeepsInv(s: Stream, kind: nat, width: nat, height: nat, turn: Turn)
    requires StreamInv(s) && s.outputs != [] && kind in {1, 2} && (s.codec == 0 || s.codec == kind)
    requires s.requested == "auto" || KindCode(s.requested) == kind
    ensures var (r, ok) := Push(s.(codec := kind, format := Pack(width, height)), Status(KindOf(kind), width, height), turn);
      BaseInv(r) && (ok ==> HasStatus(r.pushed)) && (!ok ==> r.cause.Some?)
  {
    var committed := s.(codec := kind, format := Pack(width, height));
    if s.codec == 0 {
      NothingCodedYet(s.outputs, kind, s.pushed);
    }
    var status := Status(KindOf(kind), width, height);
    PushFrame(committed, status, turn);
    PushKeepsInv(committed, status, turn);
    PushKeepsOrder(committed, status, turn);
    hide Push, AllFit, InOrder, AfterStatus, Clock, BeginTimes, Highest;
  }

  lemma VideoReadyKeepsInv(s: Stream, codec: string, width: int, height: int, profile: string, supported: bool,
                           turns: (Turn, Turn, Turn))
    requires StreamInv(s)
    ensures StreamInv(VideoReady(s, codec, width, height, profile, supported, turns).0)
  {
    hide Push, StartInput, ClockInv, RestInv, Close, ValidVideoSize;
    if s.outputs != [] && CodecAllowed(s, codec) && (s.codec == 0 || s.codec == KindCode(codec))
      && FitsOutput(s.outputs, PrimaryLayer(s.outputs), width, height) && ProfileFits(codec, profile, supported) {
      var kind := KindCode(codec);
      CommitKeepsInv(s, kind, width, height, turns.0);
      var (published, ok) :=
        Push(s.(codec := kind, format := Pack(width, height)), Status(KindOf(kind), width, height), turns.0);
      if ok {
        StartInputKeepsClock(published, turns.1, turns.2);
        StartInputKeepsRest(published, turns.1, turns.2);
      }
    }
    CloseKeepsInv(s);
  }

  lemma PushKeepsStreamInv(s: Stream, f: Frame, turn: Turn)
    requires StreamInv(s) && !f.Begin? && CodedFits(s.outputs, s.codec, f)
    requires f.Coded? && s.cause.None? ==> HasStatus(s.pushed)
    ensures StreamInv(Push(s, f, turn).0)
  {
    PushKeepsInv(s, f, turn);
    PushFrame(s, f, turn);
    hide Push, BaseInv;
  }

  lemma VideoLayerKeepsInv(s: Stream, layer: int, data: Bytes, ptsMicros: int, durationMicros: int,
                           width: int, height: int, key: bool, turn: Turn)
    requires StreamInv(s)
    ensures StreamInv(VideoLayer(s, layer, data, ptsMicros, durationMicros, width, height, key, turn))
  {
    if LayerAccepts(s, layer, data, ptsMicros, durationMicros, width, height) {
      var f := Coded(KindOf(s.codec), layer, width, height, data, Nanos(ptsMicros), Nanos(durationMicros), key);
      PushKeepsStreamInv(s, f, turn);
    } else {
      CloseKeepsInv(s);
    }
  }

  lemma RespondKeepsInv(s: Stream, call: Call)
    requires StreamInv(s)
    ensures StreamInv(Respond(s, call))
  {
    hide StreamInv, VideoReady, VideoInput, VideoLayer, Push, Close, Cancel;
    CloseKeepsInv(s);
    match call
    case Ready(codec, width, height, profile, supported, turns) =>
      VideoReadyKeepsInv(s, codec, width, height, profile, supported, turns);
    case Unit(data, pts, duration, key, pair) =>
      var layer := if |s.outputs| <= 1 then |s.outputs| - 1 else 1;
      VideoInputKeepsInv(s, pts, pair.0);
      VideoLayerKeepsInv(VideoInput(s, pts, pair.0), layer, data, pts, duration,
                         s.format / TWO_32, s.format % TWO_32, key, pair.1);
    case Input(pts, turn) => VideoInputKeepsInv(s, pts, turn);
    case Layer(layer, data, pts, duration, width, height, key, turn) =>
      VideoLayerKeepsInv(s, layer, data, pts, duration, width, height, key, turn);
    case Unavailable(layer, turn) => PushKeepsStreamInv(s, LayerUnavailable(if layer < 0 then 0 else layer), turn);
    case Sound(data, turn) => PushKeepsStreamInv(s, Pcm(data), turn);
    case UserCanceled => CanceledKeepsInv(s);
    case SourceEnded =>
  }

  lemma CanceledKeepsInv(s: Stream)
    requires StreamInv(s)
    ensures StreamInv(CaptureCanceled(s))
  {
    CancelKeepsInv(s, SourceCanceled);
    CloseKeepsInv(Cancel(s, SourceCanceled));
  }

  lemma ReadKeepsInv(s: Stream, take: bool)
    requires StreamInv(s)
    ensures StreamInv(Read(s, take).0)
  {
    hide Clock, Highest, BeginTimes, AfterStatus, AllFit, Increasing;
    assert s.queue != [] ==> s.queue == [s.queue[0]] + s.queue[1..];
  }

  // ---------------------------------------------------------------- committed sizes

  /** `s'` has the codec and format fields of `s`. */
  ghost predicate SameFormat(s: Stream, s': Stream) {
    s' == s'.(outputs := s.outputs, requested := s.requested, codec := s.codec, format := s.format)
  }

  lemma InputKeepsFormat(s: Stream, ptsMicros: int, turn: Turn)
    ensures SameFormat(s, VideoInput(s, ptsMicros, turn))
  {
    hide Nanos;
  }

  lemma LayerKeepsFormat(s: Stream, layer: int, data: Bytes, ptsMicros: int, durationMicros: int,
                         width: int, height: int, key: bool, turn: Turn)
    ensures SameFormat(s, VideoLayer(s, layer, data, ptsMicros, durationMicros, width, height, key, turn))
  {
    hide Nanos, ValidVideoSize;
  }

  lemma StartKeepsFormat(s: Stream, second: Turn, third: Turn)
    ensures SameFormat(s, StartInput(s, second, third).0)
  {
    var ready := s.(inputReady := true, readyAt := |s.supplied|);
    PushFrame(ready, Begin(s.firstInput), second);
    PushFrame(Push(ready, Begin(s.firstInput), second).0, Begin(s.input), third);
    hide Push;
  }

  lemma StartKeepsOpen(s: Stream, second: Turn, third: Turn)
    ensures StartInput(s, second, third).0.closed == s.closed
  {
    var ready := s.(inputReady := true, readyAt := |s.supplied|);
    PushFrame(ready, Begin(s.firstInput), second);
    PushFrame(Push(ready, Begin(s.firstInput), second).0, Begin(s.input), third);
    hide Push;
  }

  /** Only a readiness commits a size, and it checks the size first. */
  lemma RespondKeepsFormatFits(s: Stream, call: Call)
    requires FormatFits(s)
    ensures FormatFits(Respond(s, call))
  {
    hide VideoReady, VideoInput, VideoLayer, ValidVideoSize;
    match call
    case Ready(codec, width, height, profile, supported, turns) =>
      ReadyKeepsFormatFits(s, codec, width, height, profile, supported, turns);
    case Unit(data, pts, duration, key, pair) =>
      var layer := if |s.outputs| <= 1 then |s.outputs| - 1 else 1;
      InputKeepsFormat(s, pts, pair.0);
      LayerKeepsFormat(VideoInput(s, pts, pair.0), layer, data, pts, duration,
                       s.format / TWO_32, s.format % TWO_32, key, pair.1);
    case Input(pts, turn) => InputKeepsFormat(s, pts, turn);
    case Layer(layer, data, pts, duration, width, height, key, turn) =>
      LayerKeepsFormat(s, layer, data, pts, duration, width, height, key, turn);
    case Unavailable(_, _) =>
    case Sound(_, _) =>
    case UserCanceled =>
    case SourceEnded =>
  }

  lemma ReadyKeepsFormatFits(s: Stream, codec: string, width: int, height: int, profile: string, supported: bool,
                             turns: (Turn, Turn, Turn))
    requires FormatFits(s)
    ensures FormatFits(VideoReady(s, codec, width, height, profile, supported, turns).0)
  {
    if s.outputs != [] && FitsOutput(s.outputs, PrimaryLayer(s.outputs), width, height) {
      PackInverts(width, height);
      var committed := s.(codec := KindCode(codec), format := Pack(width, height));
      var status := Status(KindOf(committed.codec), width, height);
      PushFrame(committed, status, turns.0);
      StartKeepsFormat(Push(committed, status, turns.0).0, turns.1, turns.2);
    }
    hide Push, StartInput, ValidVideoSize;
  }

  // ---------------------------------------------------------------- what the invariant means

  lemma {:induction false} StatusSomewhere(frames: seq<Frame>) returns (j: nat)
    requires HasStatus(frames)
    ensures j < |frames| && frames[j].Status?
  {
    j := |frames| - 1;
    if !frames[j].Status? {
      j := StatusSomewhere(frames[..j]);
    }
  }

  lemma {:induction false} StatusComesFirst(frames: seq<Frame>, coded: bool, i: nat)
    requires AfterStatus(frames, coded) && i < |frames|
    requires frames[i].Begin? || (coded && frames[i].Coded?)
    ensures exists j :: 0 <= j < i && frames[j].Status?
  {
    if i == |frames| - 1 {
      var j := StatusSomewhere(frames[..i]);
      assert frames[j].Status?;
    } else {
      var before := frames[..|frames| - 1];
      StatusComesFirst(before, coded, i);
      var j :| 0 <= j < i && before[j].Status?;
      assert frames[j].Status?;
    }
  }

  lemma {:induction false} CodedFrameFits(outputs: seq<Output>, codec: nat, frames: seq<Frame>, i: nat)
    requires AllFit(outputs, codec, frames) && i < |frames|
    ensures CodedFits(outputs, codec, frames[i])
  {
    if i < |frames| - 1 {
      CodedFrameFits(outputs, codec, frames[..|frames| - 1], i);
    }
  }

  /**
   The capture clock of an open, ready stream: its Begins are the reference clock of the times it
   was given, so they strictly increase and the last is the highest time given.
   */
  lemma OpenStreamClock(s: Stream)
    requires StreamInv(s) && s.cause.None? && s.inputReady
    ensures BeginTimes(s.pushed) == Clock(s.supplied, s.readyAt)
    ensures Increasing(BeginTimes(s.pushed))
    ensures s.supplied != [] ==>
      BeginTimes(s.pushed) != [] && BeginTimes(s.pushed)[|BeginTimes(s.pushed)| - 1] == Highest(s.supplied)
  {
    ClockIncreases(s.supplied, s.readyAt);
  }

  /** Over every run, cancelled or not, the Begins of every stream strictly increase. */
  lemma BeginsIncrease(events: seq<Event>, id: nat)
    requires id in Run(events).all
    ensures Increasing(BeginTimes(Run(events).all[id].pushed))
  {
    RunKeepsInv(events);
    assert StreamInv(Run(events).all[id]);
    hide Run, FormatFits, RestInv;
  }

  lemma {:induction false} HighestBounds(times: seq<int>, t: int)
    requires times != [] && times[|times| - 1] == t
    ensures t <= Highest(times)
  {
  }

  /**
   An access unit `Video` accepts passes every check of `VideoLayer`, and on a stream that is not
   cancelled afterwards it went in behind a Begin at its own time or a later one.
   */
  lemma AcceptedUnitIsClocked(s: Stream, data: Bytes, pts: int, duration: int, key: bool, turns: (Turn, Turn))
    requires StreamInv(s) && FormatFits(s) && s.format != 0 && UnitBounds(data, pts, duration)
    ensures var r := Video(s, data, pts, duration, key, turns);
      && r.closed == s.closed
      && (r.cause.None? ==>
            && r.pushed != [] && r.pushed[|r.pushed| - 1] == Coded(KindOf(s.codec), PrimaryLayer(s.outputs),
                 s.format / TWO_32, s.format % TWO_32, data, Nanos(pts), Nanos(duration), key)
            && BeginTimes(r.pushed) != [] && Nanos(pts) <= BeginTimes(r.pushed)[|BeginTimes(r.pushed)| - 1])
  {
    hide Push, VideoInput, Nanos, ValidVideoSize, Clock, Highest, BeginTimes, RestInv, ClockInv;
    var fed := VideoInput(s, pts, turns.0);
    VideoInputKeepsInv(s, pts, turns.0);
    InputSupplies(s, pts, turns.0);
    var f := Coded(KindOf(fed.codec), PrimaryLayer(s.outputs), s.format / TWO_32, s.format % TWO_32, data,
                   Nanos(pts), Nanos(duration), key);
    PushFrame(fed, f, turns.1);
    BeginTimesGrow(fed.pushed, f);
    if fed.cause.None? {
      OpenStreamClock(fed);
      HighestBounds(fed.supplied, Nanos(pts));
    }
  }

  lemma InputSupplies(s: Stream, pts: int, turn: Turn)
    requires pts >= 0
    ensures var fed := VideoInput(s, pts, turn);
      && fed.supplied == s.supplied + [Nanos(pts)] && fed.closed == s.closed
      && SameFormat(s, fed)
  {
    hide Nanos;
  }

  // ---------------------------------------------------------------- the registry

  /** Ids count up from one, every stream keeps its invariant, and exactly the closed ones were stopped, once. */
  ghost predicate RegistryInv(r: Registry) {
    && (forall id :: id in r.all <==> 1 <= id <= r.next)
    && (forall id | id in r.all :: StreamInv(r.all[id]) && FormatFits(r.all[id]))
    && NoRepeats(r.stops)
    && (forall id :: id in r.stops <==> id in r.all && r.all[id].closed)
  }

  ghost predicate Succeeds(s: Stream, s': Stream) {
    StreamInv(s') && FormatFits(s') && Follows(s, s')
  }

  lemma RespondSucceeds(s: Stream, call: Call)
    requires StreamInv(s) && FormatFits(s)
    ensures Succeeds(s, Respond(s, call))
  {
    RespondKeepsInv(s, call);
    RespondKeepsFormatFits(s, call);
    RespondKeepsCause(s, call);
    hide Respond, StreamInv, FormatFits;
  }

  /** Closing is final and the first cause stays. */
  ghost predicate Follows(s: Stream, s': Stream) {
    (s.closed ==> s'.closed) && (s.cause.Some? ==> s'.cause == s.cause)
  }

  lemma PushFollows(s: Stream, f: Frame, turn: Turn)
    ensures Follows(s, Push(s, f, turn).0)
  {
  }

  lemma InputFollows(s: Stream, ptsMicros: int, turn: Turn)
    ensures Follows(s, VideoInput(s, ptsMicros, turn))
  {
    hide Nanos;
  }

  lemma LayerFollows(s: Stream, layer: int, data: Bytes, ptsMicros: int, durationMicros: int,
                     width: int, height: int, key: bool, turn: Turn)
    ensures Follows(s, VideoLayer(s, layer, data, ptsMicros, durationMicros, width, height, key, turn))
  {
    hide Nanos, LayerAccepts;
  }

  lemma ReadyFollows(s: Stream, codec: string, width: int, height: int, profile: string, supported: bool,
                     turns: (Turn, Turn, Turn))
    ensures Follows(s, VideoReady(s, codec, width, height, profile, supported, turns).0)
  {
    hide Push, ValidVideoSize, ProfileFits;
    if width >= 0 && height >= 0 {
      var committed := s.(codec := KindCode(codec), format := Pack(width, height));
      var status := Status(KindOf(committed.codec), width, height);
      PushFollows(committed, status, turns.0);
      var published := Push(committed, status, turns.0).0;
      var ready := published.(inputReady := true, readyAt := |published.supplied|);
      PushFollows(ready, Begin(ready.firstInput), turns.1);
      PushFrame(ready, Begin(ready.firstInput), turns.1);
      PushFollows(Push(ready, Begin(ready.firstInput), turns.1).0, Begin(ready.input), turns.2);
    }
  }

  /** Once a stream has a cause to end, no call replaces it. */
  lemma RespondKeepsCause(s: Stream, call: Call)
    ensures Follows(s, Respond(s, call))
  {
    hide VideoReady, VideoInput, VideoLayer, Push;
    match call
    case Ready(codec, width, height, profile, supported, turns) =>
      ReadyFollows(s, codec, width, height, profile, supported, turns);
    case Unit(data, pts, duration, key, pair) =>
      var layer := if |s.outputs| <= 1 then |s.outputs| - 1 else 1;
      InputFollows(s, pts, pair.0);
      LayerFollows(VideoInput(s, pts, pair.0), layer, data, pts, duration,
                   s.format / TWO_32, s.format % TWO_32, key, pair.1);
    case Input(pts, turn) => InputFollows(s, pts, turn);
    case Layer(layer, data, pts, duration, width, height, key, turn) =>
      LayerFollows(s, layer, data, pts, duration, width, height, key, turn);
    case Unavailable(layer, turn) => PushFollows(s, LayerUnavailable(if layer < 0 then 0 else layer), turn);
    case Sound(data, turn) => PushFollows(s, Pcm(data), turn);
    case UserCanceled =>
    case SourceEnded =>
  }

  lemma PutKeepsInv(r: Registry, id: nat, s: Stream)
    requires RegistryInv(r) && id in r.all && Succeeds(r.all[id], s)
    ensures RegistryInv(Put(r, id, s))
  {
    hide StreamInv, FormatFits;
    var stops := Put(r, id, s).stops;
    assert s.closed && !r.all[id].closed ==> stops == r.stops + [id] && id !in r.stops;
  }

  /** The new state of the stream an event is about. */
  ghost function Next(s: Stream, e: Event): Stream {
    match e
    case Open(_, _) => s
    case Bridge(_, call) => if s.closed then s else Respond(s, call)
    case ReadOne(_, take) => Read(s, take).0
    case CloseOne(_) => Close(s)
    case ParentCancel(_, cause) => Cancel(s, cause)
  }

  lemma NextSucceeds(s: Stream, e: Event)
    requires StreamInv(s) && FormatFits(s)
    ensures Succeeds(s, Next(s, e))
  {
    hide Respond, StreamInv, FormatFits;
    match e
    case Open(_, _) =>
    case Bridge(_, call) => RespondSucceeds(s, call);
    case ReadOne(_, take) => ReadSucceeds(s, take);
    case CloseOne(_) => CloseSucceeds(s);
    case ParentCancel(_, cause) => CancelSucceeds(s, cause);
  }

  lemma ReadSucceeds(s: Stream, take: bool)
    requires StreamInv(s) && FormatFits(s)
    ensures Succeeds(s, Read(s, take).0)
  {
    ReadKeepsInv(s, take);
    hide StreamInv, FormatFits;
  }

  lemma CloseSucceeds(s: Stream)
    requires StreamInv(s) && FormatFits(s)
    ensures Succeeds(s, Close(s))
  {
    CloseKeepsInv(s);
    hide StreamInv, FormatFits;
  }

  lemma CancelSucceeds(s: Stream, cause: Cause)
    requires StreamInv(s) && FormatFits(s)
    ensures Succeeds(s, Cancel(s, cause))
  {
    CancelKeepsInv(s, cause);
    hide BaseInv, FormatFits;
  }

  lemma StepIsPut(r: Registry, e: Event)
    requires !e.Open?
    ensures Step(r, e) == if e.id in r.all then Put(r, e.id, Next(r.all[e.id], e)) else r
  {
    hide Respond, Read, Close, Cancel;
    if e.id in r.all {
      assert r.all[e.id := r.all[e.id]] == r.all;
    }
  }

  lemma StepKeepsInv(r: Registry, e: Event)
    requires RegistryInv(r)
    ensures RegistryInv(Step(r, e))
  {
    if e.Open? {
      NewStreamInv(e.outputs, e.requested);
    } else {
      StepIsPut(r, e);
      if e.id in r.all {
        NextSucceeds(r.all[e.id], e);
        PutKeepsInv(r, e.id, Next(r.all[e.id], e));
      }
    }
    hide Next, Put, StreamInv, FormatFits;
  }

  lemma NewStreamInv(outputs: seq<Output>, requested: string)
    ensures StreamInv(NewStream(outputs, requested)) && FormatFits(NewStream(outputs, requested))
  {
  }

  /** Every run of opens, bridge calls, reads, closes and cancellations keeps the registry's invariant. */
  lemma {:induction false} RunKeepsInv(events: seq<Event>)
    ensures RegistryInv(Run(events))
  {
    if events != [] {
      RunKeepsInv(events[..|events| - 1]);
      StepKeepsInv(Run(events[..|events| - 1]), events[|events| - 1]);
    }
  }

  /** Streams are never forgotten or reopened, and the first cause to end one is the one it keeps. */
  lemma StepKeepsStream(r: Registry, e: Event, id: nat)
    requires RegistryInv(r) && id in r.all
    ensures id in Step(r, e).all && r.next <= Step(r, e).next
    ensures Follows(r.all[id], Step(r, e).all[id])
  {
    if !e.Open? {
      StepIsPut(r, e);
      if e.id in r.all {
        NextSucceeds(r.all[e.id], e);
      }
    }
    hide Next, StreamInv, FormatFits;
  }

  lemma {:induction false} RunKeepsStream(events: seq<Event>, more: seq<Event>, id: nat)
    requires id in Run(events).all
    ensures id in Run(events + more).all && Run(events).next <= Run(events + more).next
    ensures Follows(Run(events).all[id], Run(events + more).all[id])
    decreases |more|
  {
    hide RegistryInv, Step;
    if more == [] {
      assert events + more == events;
    } else {
      var n := |more| - 1;
      assert (events + more)[..|events| + n] == events + more[..n];
      RunKeepsStream(events, more[..n], id);
      RunKeepsInv(events + more[..n]);
      StepKeepsStream(Run(events + more[..n]), more[n], id);
    }
  }

  /** What ends a stream that nothing has ended yet, and why. */
  ghost function Terminates(e: Event, id: nat): Option<Cause> {
    match e
    case CloseOne(i) => if i == id then Some(OtherCause) else None
    case ParentCancel(i, cause) => if i == id then Some(cause) else None
    case Bridge(i, call) =>
      if i == id && call.UserCanceled? then Some(SourceCanceled)
      else if i == id && call.SourceEnded? then Some(OtherCause)
      else None
    case _ => None
  }

  /**
   The first terminator alone decides how reading ends, whatever happens afterwards: with the
   source-cancelled error exactly when it was a user cancellation or a parent's with that cause.
   */
  lemma FirstTerminatorDecides(events: seq<Event>, e: Event, more: seq<Event>, id: nat)
    requires id in Run(events).all && !Run(events).all[id].closed && Run(events).all[id].cause.None?
    requires Terminates(e, id).Some?
    ensures id in Run(events + [e] + more).all
    ensures Read(Run(events + [e] + more).all[id], false).1
         == if Terminates(e, id).value == SourceCanceled then Canceled else Eof
  {
    hide RegistryInv, StreamInv, FormatFits;
    RunExtends(events, e);
    RunKeepsStream(events + [e], more, id);
  }

  lemma RunExtends(events: seq<Event>, e: Event)
    ensures Run(events + [e]) == Step(Run(events), e)
  {
  }
}
