/**
 When the coded frames of a mobile capture stream follow a Status, and access units a Begin. A
 context that is done can lose a Status or a Begin and still let a coded frame in; this module says
 exactly when.
 */
module CaptureOrder {
  import opened Common
  import opened CaptureSpec
  import opened CaptureLaws

  /** Every Begin and every coded frame ever pushed comes after a Status. */
  ghost predicate InSequence(s: Stream) {
    AfterStatus(s.pushed, true)
  }

  /** Some readiness can still commit a format: a codec is allowed and the primary output holds a picture. */
  predicate CanCommit(s: Stream) {
    && s.outputs != [] && s.requested in {"auto", "h264", "vp8"}
    && s.outputs[PrimaryLayer(s.outputs)].width >= 2 && s.outputs[PrimaryLayer(s.outputs)].height >= 2
  }

  // ---------------------------------------------------------------- one call

  /** Nothing but the queue, the cause and the frames differs. */
  ghost predicate SameSetup(s: Stream, t: Stream) {
    t.outputs == s.outputs && t.requested == s.requested && t.format == s.format
  }

  /** A frame keeps the sequence if a Begin or a coded frame finds a Status before it. */
  lemma PushKeepsSequence(s: Stream, f: Frame, turn: Turn)
    requires InSequence(s) && (f.Begin? || f.Coded? ==> HasStatus(s.pushed))
    ensures var r := Push(s, f, turn).0;
      InSequence(r) && SameSetup(s, r) && (HasStatus(s.pushed) ==> HasStatus(r.pushed))
  {
    PushFrame(s, f, turn);
    FramesGrow(s.pushed, f);
    hide Push;
  }

  lemma InputKeepsSequence(s: Stream, ptsMicros: int, turn: Turn)
    requires InSequence(s) && (s.inputReady ==> HasStatus(s.pushed))
    ensures var r := VideoInput(s, ptsMicros, turn);
      InSequence(r) && SameSetup(s, r) && (HasStatus(s.pushed) ==> HasStatus(r.pushed))
  {
    hide Push, Nanos, AfterStatus, HasStatus;
    if ptsMicros >= 0 {
      var pts := Nanos(ptsMicros);
      var advanced := s.(supplied := s.supplied + [pts],
                         firstInput := if s.hasInput then s.firstInput else pts, hasInput := true, input := pts);
      if s.inputReady {
        PushKeepsSequence(advanced, Begin(pts), turn);
      }
    }
  }

  lemma LayerKeepsSequence(s: Stream, layer: int, data: Bytes, ptsMicros: int, durationMicros: int,
                           width: int, height: int, key: bool, turn: Turn)
    requires InSequence(s) && (s.format == 0 || HasStatus(s.pushed))
    ensures var r := VideoLayer(s, layer, data, ptsMicros, durationMicros, width, height, key, turn);
      InSequence(r) && SameSetup(s, r) && (HasStatus(s.pushed) ==> HasStatus(r.pushed))
  {
    hide Push, Nanos, AfterStatus, HasStatus, ValidVideoSize;
    if LayerAccepts(s, layer, data, ptsMicros, durationMicros, width, height) {
      var f := Coded(KindOf(s.codec), layer, width, height, data, Nanos(ptsMicros), Nanos(durationMicros), key);
      PushKeepsSequence(s, f, turn);
    }
  }

  lemma StartKeepsSequence(s: Stream, second: Turn, third: Turn)
    requires InSequence(s) && HasStatus(s.pushed)
    ensures var r := StartInput(s, second, third).0; InSequence(r) && SameSetup(s, r) && HasStatus(r.pushed)
  {
    hide Push, AfterStatus, HasStatus;
    var ready := s.(inputReady := true, readyAt := |s.supplied|);
    PushKeepsSequence(ready, Begin(s.firstInput), second);
    PushFrame(ready, Begin(s.firstInput), second);
    PushKeepsSequence(Push(ready, Begin(s.firstInput), second).0, Begin(s.input), third);
  }

  /** A readiness that answers true has pushed a Status; one on a stream that cannot commit changes no format. */
  lemma ReadyKeepsSequence(s: Stream, codec: string, width: int, height: int, profile: string, supported: bool,
                           turns: (Turn, Turn, Turn))
    requires InSequence(s)
    ensures var (r, ok) := VideoReady(s, codec, width, height, profile, supported, turns);
      && InSequence(r) && r.outputs == s.outputs && r.requested == s.requested
      && (HasStatus(s.pushed) || ok ==> HasStatus(r.pushed))
      && (!CanCommit(s) ==> r.format == s.format)
  {
    hide Push, StartInput, AfterStatus, HasStatus, ValidVideoSize;
    if s.outputs != [] && FitsOutput(s.outputs, PrimaryLayer(s.outputs), width, height) {
      var committed := s.(codec := KindCode(codec), format := Pack(width, height));
      var status := Status(KindOf(committed.codec), width, height);
      PushKeepsSequence(committed, status, turns.0);
      var (published, ok) := Push(committed, status, turns.0);
      if ok {
        PushedStatus(committed, status, turns.0);
        StartKeepsSequence(published, turns.1, turns.2);
      }
    }
  }

  lemma PushedStatus(s: Stream, f: Frame, turn: Turn)
    requires f.Status? && Push(s, f, turn).1
    ensures HasStatus(Push(s, f, turn).0.pushed)
  {
  }

  /** What a call does to the sequence of a stream that has no format or has announced it. */
  lemma RespondKeepsSequence(s: Stream, call: Call)
    requires StreamInv(s) && InSequence(s) && (s.format == 0 || HasStatus(s.pushed))
    ensures var r := Respond(s, call);
      && InSequence(r) && r.outputs == s.outputs && r.requested == s.requested
      && (HasStatus(s.pushed) ==> HasStatus(r.pushed))
      && (!CanCommit(s) ==> r.format == s.format)
  {
    hide VideoReady, VideoInput, VideoLayer, Push, ClockInv, AfterStatus, HasStatus, AllFit, InOrder;
    match call
    case Ready(codec, width, height, profile, supported, turns) =>
      ReadyKeepsSequence(s, codec, width, height, profile, supported, turns);
    case Unit(data, pts, duration, key, pair) =>
      var layer := if |s.outputs| <= 1 then |s.outputs| - 1 else 1;
      InputKeepsSequence(s, pts, pair.0);
      LayerKeepsSequence(VideoInput(s, pts, pair.0), layer, data, pts, duration,
                         s.format / TWO_32, s.format % TWO_32, key, pair.1);
    case Input(pts, turn) => InputKeepsSequence(s, pts, turn);
    case Layer(layer, data, pts, duration, width, height, key, turn) =>
      LayerKeepsSequence(s, layer, data, pts, duration, width, height, key, turn);
    case Unavailable(layer, turn) => PushKeepsSequence(s, LayerUnavailable(if layer < 0 then 0 else layer), turn);
    case Sound(data, turn) => PushKeepsSequence(s, Pcm(data), turn);
    case UserCanceled =>
    case SourceEnded =>
  }

  /** An access unit that fits any format. */
  const UNIT := Unit([0], 0, 1, true, (Proceed, Proceed))

  /** The frame of `UNIT` in the committed format. */
  ghost function UnitFrame(s: Stream): Frame
    requires s.outputs != []
  {
    Coded(KindOf(s.codec), PrimaryLayer(s.outputs), s.format / TWO_32, s.format % TWO_32, [0], Nanos(0), Nanos(1), true)
  }

  lemma UnitIsPushed(s: Stream)
    requires FormatFits(s) && s.format != 0
    ensures Respond(s, UNIT) == Push(VideoInput(s, 0, Proceed), UnitFrame(s), Proceed).0
  {
    hide VideoInput, Push, Nanos, ValidVideoSize;
    InputSupplies(s, 0, Proceed);
  }

  /** A format without a Status lets the next access unit in unannounced. */
  lemma UnannouncedUnitGoesIn(s: Stream)
    requires StreamInv(s) && FormatFits(s) && s.format != 0 && !HasStatus(s.pushed)
    ensures var r := Respond(s, UNIT); !InSequence(r)
  {
    hide Respond, ClockInv, FormatFits, AllFit, InOrder, Nanos;
    UnitIsPushed(s);
    var fed := VideoInput(s, 0, Proceed);
    assert fed.pushed == s.pushed;
    PushFrame(fed, UnitFrame(s), Proceed);
    FramesGrow(s.pushed, UnitFrame(s));
  }

  /** After any call the sequence holds if and only if the stream has no format or has announced it. */
  lemma OneCallKeepsSequenceIff(s: Stream)
    requires StreamInv(s) && FormatFits(s) && InSequence(s)
    ensures (forall call :: InSequence(Respond(s, call))) <==> s.format == 0 || HasStatus(s.pushed)
  {
    hide Respond, StreamInv, FormatFits, InSequence;
    if s.format == 0 || HasStatus(s.pushed) {
      forall call ensures InSequence(Respond(s, call)) {
        RespondKeepsSequence(s, call);
      }
    } else {
      UnannouncedUnitGoesIn(s);
    }
  }

  // ---------------------------------------------------------------- every run

  /** The stream of this id, if there is one, has its frames in sequence. */
  ghost predicate RunInSequence(events: seq<Event>, id: nat) {
    id in Run(events).all ==> InSequence(Run(events).all[id])
  }

  /** The stream of this id has a format and no Status that says so. */
  ghost predicate Unannounced(events: seq<Event>, id: nat) {
    id in Run(events).all && Run(events).all[id].format != 0 && !HasStatus(Run(events).all[id].pushed)
  }

  /** Whatever comes next keeps the sequence of such a stream, and leaves it such a stream. */
  ghost predicate Settled(s: Stream) {
    InSequence(s) && (HasStatus(s.pushed) || s.closed || (s.format == 0 && !CanCommit(s)))
  }

  /** What an event that is no bridge call leaves alone. */
  lemma QuietStep(s: Stream, e: Event)
    requires !e.Bridge? || s.closed
    ensures var t := Next(s, e);
      t.pushed == s.pushed && SameSetup(s, t) && (s.closed ==> t.closed)
  {
    hide Respond;
  }

  lemma NextKeepsSettled(s: Stream, e: Event)
    requires StreamInv(s) && Settled(s)
    ensures Settled(Next(s, e))
  {
    hide Respond, StreamInv, AfterStatus, HasStatus;
    if e.Bridge? && !s.closed {
      RespondKeepsSequence(s, e.call);
    } else {
      QuietStep(s, e);
    }
  }

  lemma NextKeepsSequence(s: Stream, e: Event)
    requires StreamInv(s) && InSequence(s) && (s.format == 0 || HasStatus(s.pushed))
    ensures InSequence(Next(s, e))
  {
    hide Respond, StreamInv, AfterStatus, HasStatus;
    if e.Bridge? && !s.closed {
      RespondKeepsSequence(s, e.call);
    } else {
      QuietStep(s, e);
    }
  }

  /** A stream after one more event: opened by it, or the next state of what it was. */
  lemma StepOfStream(events: seq<Event>, e: Event, id: nat)
    ensures RegistryInv(Run(events))
    ensures var r, t := Run(events), Run(events + [e]);
      && (id in r.all ==>
            && StreamInv(r.all[id]) && FormatFits(r.all[id]) && id in t.all
            && t.all[id] == if !e.Open? && e.id == id then Next(r.all[id], e) else r.all[id])
      && (id in t.all && id !in r.all ==> e.Open? && t.all[id] == NewStream(e.outputs, e.requested))
  {
    hide StreamInv, FormatFits, Next, Put, NoRepeats;
    RunKeepsInv(events);
    RunExtends(events, e);
    if !e.Open? {
      StepIsPut(Run(events), e);
      if e.id in Run(events).all {
        PutStores(Run(events), e.id, Next(Run(events).all[e.id], e));
      }
    }
  }

  lemma PutStores(r: Registry, id: nat, s: Stream)
    requires id in r.all
    ensures Put(r, id, s).all == r.all[id := s]
  {
  }

  lemma {:induction false} RunKeepsSettled(events: seq<Event>, more: seq<Event>, id: nat)
    requires id in Run(events).all && Settled(Run(events).all[id])
    ensures id in Run(events + more).all && Settled(Run(events + more).all[id])
    decreases |more|
  {
    hide Settled, Run, Next, StreamInv, FormatFits, RegistryInv;
    if more == [] {
      assert events + more == events;
    } else {
      var n := |more| - 1;
      assert events + more == events + more[..n] + [more[n]];
      RunKeepsSettled(events, more[..n], id);
      StepOfStream(events + more[..n], more[n], id);
      NextKeepsSettled(Run(events + more[..n]).all[id], more[n]);
    }
  }

  /** The only way out of sequence: some moment of the run at which a format was committed without its Status. */
  lemma {:induction false} OnlyLostStatusBreaks(events: seq<Event>, id: nat)
    requires forall n: nat | n <= |events| :: !Unannounced(events[..n], id)
    ensures RunInSequence(events, id)
  {
    hide Run, Next, StreamInv, FormatFits, RegistryInv, HasStatus;
    if events == [] {
      assert id !in Run([]).all by { NothingYet(); }
    } else {
      var n := |events| - 1;
      assert events == events[..n] + [events[n]];
      assert forall m: nat | m <= n :: events[..n][..m] == events[..m];
      OnlyLostStatusBreaks(events[..n], id);
      assert !Unannounced(events[..n], id);
      StepOfStream(events[..n], events[n], id);
      if id in Run(events[..n]).all {
        NextKeepsSequence(Run(events[..n]).all[id], events[n]);
      }
    }
  }

  lemma NothingYet()
    ensures Run([]) == EMPTY
  {
  }

  /** The codec a readiness can ask for on a stream that can commit. */
  function AllowedCodec(s: Stream): string {
    if s.requested == "vp8" || s.codec == 2 then "vp8" else "h264"
  }

  /** A readiness whose Status is lost to a context that is done. */
  function LostReady(s: Stream): Call {
    Ready(AllowedCodec(s), 2, 2, "", true, (Ended(OtherCause), Proceed, Proceed))
  }

  lemma LostReadyCommits(s: Stream)
    requires StreamInv(s) && CanCommit(s) && s.cause.Some? && !s.closed
    ensures var r := Respond(s, LostReady(s)); r.format != 0 && r.pushed == s.pushed && !r.closed
  {
    hide ClockInv, AllFit, InOrder, AfterStatus;
    assert s.codec == 0 || s.codec == KindCode(AllowedCodec(s));
  }

  /** From an unannounced stream, or one that can still commit, some further events break the sequence. */
  lemma SomeRunBreaks(events: seq<Event>, id: nat) returns (more: seq<Event>)
    requires IsLive(Run(events), id) && !HasStatus(Run(events).all[id].pushed)
    requires Run(events).all[id].format != 0 || CanCommit(Run(events).all[id])
    ensures !RunInSequence(events + more, id)
  {
    hide Run, Respond, StreamInv, FormatFits, RegistryInv, HasStatus, InSequence, CanCommit;
    var s, unit := Run(events).all[id], Bridge(id, UNIT);
    if s.format != 0 {
      more := [unit];
      StepOfStream(events, unit, id);
      UnannouncedUnitGoesIn(s);
    } else {
      var cancel, canceled := ParentCancel(id, OtherCause), Cancel(s, OtherCause);
      var ready := Bridge(id, LostReady(canceled));
      more := [cancel, ready, unit];
      StepOfStream(events, cancel, id);
      StepOfStream(events + [cancel], ready, id);
      StepOfStream(events + [cancel] + [ready], unit, id);
      assert events + more == events + [cancel] + [ready] + [unit];
      assert CanCommit(canceled) by { CancelKeepsCanCommit(s, OtherCause); }
      LostReadyCommits(canceled);
      UnannouncedUnitGoesIn(Respond(canceled, LostReady(canceled)));
    }
  }

  lemma CancelKeepsCanCommit(s: Stream, cause: Cause)
    ensures CanCommit(Cancel(s, cause)) == CanCommit(s)
  {
  }

  /**
   The exact condition. A stream whose frames are in sequence so far stays in sequence through every
   further run if and only if its Status went in, or it is closed, or no format was or can be committed.
   */
  lemma StaysInSequenceIff(events: seq<Event>, id: nat)
    requires id in Run(events).all && InSequence(Run(events).all[id])
    ensures var s := Run(events).all[id];
      (forall more :: RunInSequence(events + more, id))
      <==> HasStatus(s.pushed) || s.closed || (s.format == 0 && !CanCommit(s))
  {
    hide Run, HasStatus, CanCommit, InSequence;
    var s := Run(events).all[id];
    if Settled(s) {
      forall more ensures RunInSequence(events + more, id) {
        RunKeepsSettled(events, more, id);
      }
    } else {
      var more := SomeRunBreaks(events, id);
    }
  }

  // ---------------------------------------------------------------- streams that announced themselves

  /** Before a codec is committed no frame is coded. */
  lemma {:induction false} UncommittedIsInSequence(outputs: seq<Output>, frames: seq<Frame>)
    requires AllFit(outputs, 0, frames) && AfterStatus(frames, false)
    ensures AfterStatus(frames, true)
  {
    if frames != [] {
      UncommittedIsInSequence(outputs, frames[..|frames| - 1]);
    }
  }

  /**
   The first readiness to commit a codec decides: every coded frame ever pushed follows a Status,
   whatever happens afterwards, if and only if its Status went in, and it did if it answered true.
   */
  lemma FirstReadinessDecides(events: seq<Event>, id: nat, codec: string, width: int, height: int,
                              profile: string, supported: bool, turns: (Turn, Turn, Turn))
    requires IsLive(Run(events), id) && Run(events).all[id].codec == 0
    requires VideoReady(Run(events).all[id], codec, width, height, profile, supported, turns).0.codec != 0
    ensures var (r, ok) := VideoReady(Run(events).all[id], codec, width, height, profile, supported, turns);
      var ready := Bridge(id, Ready(codec, width, height, profile, supported, turns));
      && ((forall more :: RunInSequence(events + [ready] + more, id)) <==> HasStatus(r.pushed))
      && (ok ==> HasStatus(r.pushed))
  {
    hide Run, VideoReady, HasStatus, ClockInv, FormatFits, RegistryInv;
    var s, ready := Run(events).all[id], Bridge(id, Ready(codec, width, height, profile, supported, turns));
    StepOfStream(events, ready, id);
    var mode := s.cause.None?;
    if mode {
      AfterStatusWeakens(s.pushed, mode);
    }
    UncommittedIsInSequence(s.outputs, s.pushed);
    ReadyKeepsSequence(s, codec, width, height, profile, supported, turns);
    CommittingReadiness(s, codec, width, height, profile, supported, turns);
    StaysInSequenceIff(events + [ready], id);
  }

  /** A readiness that commits a codec commits a format with it and does not close the stream. */
  lemma CommittingReadiness(s: Stream, codec: string, width: int, height: int, profile: string, supported: bool,
                            turns: (Turn, Turn, Turn))
    requires s.codec == 0 && !s.closed
    requires VideoReady(s, codec, width, height, profile, supported, turns).0.codec != 0
    ensures var r := VideoReady(s, codec, width, height, profile, supported, turns).0; r.format != 0 && !r.closed
  {
    hide Push, StartInput, ValidVideoSize;
    if s.outputs != [] && FitsOutput(s.outputs, PrimaryLayer(s.outputs), width, height) {
      var committed := s.(codec := KindCode(codec), format := Pack(width, height));
      var status := Status(KindOf(committed.codec), width, height);
      PushFrame(committed, status, turns.0);
      StartKeepsFormat(Push(committed, status, turns.0).0, turns.1, turns.2);
      StartKeepsOpen(Push(committed, status, turns.0).0, turns.1, turns.2);
    }
  }

  /** A stream that is not cancelled and has a format announced it, and stays in sequence for good. */
  lemma OpenStreamStaysInSequence(events: seq<Event>, more: seq<Event>, id: nat)
    requires id in Run(events).all && Run(events).all[id].cause.None? && Run(events).all[id].format != 0
    ensures RunInSequence(events + more, id)
  {
    hide Run, ClockInv, FormatFits, AfterStatus, HasStatus;
    RunKeepsInv(events);
    assert StreamInv(Run(events).all[id]);
    RunKeepsSettled(events, more, id);
  }

  // ---------------------------------------------------------------- access units and the clock

  /** The last Begin pushed is at this time or later. */
  predicate ClockReached(s: Stream, t: int) {
    BeginTimes(s.pushed) != [] && t <= BeginTimes(s.pushed)[|BeginTimes(s.pushed)| - 1]
  }

  /** An access unit goes in, if it does, behind a Begin at its own time or later. */
  ghost predicate UnitIsClocked(s: Stream, data: Bytes, pts: int, duration: int, key: bool, turns: (Turn, Turn)) {
    var r := Video(s, data, pts, duration, key, turns);
    UnitWentIn(s, r) ==> ClockReached(r, Nanos(pts))
  }

  /** The last frame pushed is a new coded one. */
  predicate UnitWentIn(s: Stream, r: Stream) {
    |r.pushed| > |s.pushed| && r.pushed[|r.pushed| - 1].Coded?
  }

  /** The coded frame of an access unit, and its push behind the capture time. */
  lemma UnitPushes(s: Stream, data: Bytes, pts: int, duration: int, key: bool, turns: (Turn, Turn)) returns (f: Frame)
    requires FormatFits(s) && s.format != 0 && UnitBounds(data, pts, duration)
    ensures f.Coded? && Video(s, data, pts, duration, key, turns) == Push(VideoInput(s, pts, turns.0), f, turns.1).0
  {
    hide VideoInput, Push, Nanos, ValidVideoSize;
    InputSupplies(s, pts, turns.0);
    f := Coded(KindOf(s.codec), PrimaryLayer(s.outputs), s.format / TWO_32, s.format % TWO_32, data,
               Nanos(pts), Nanos(duration), key);
  }

  /** With the context open and room in the queue the Begin of a new time cannot be lost. */
  lemma InputReachesClock(s: Stream, pts: int, turn: Turn)
    requires StreamInv(s) && s.format != 0 && pts >= 0
    requires (s.cause.None? && |s.queue| < QUEUE) || ClockReached(s, Nanos(pts))
    ensures ClockReached(VideoInput(s, pts, turn), Nanos(pts))
  {
    hide Nanos, Clock, Highest, BeginTimes, RestInv;
    var t := Nanos(pts);
    if s.hasInput && t <= s.input {
      if !ClockReached(s, t) {
        OpenStreamClock(s);
      }
    } else if s.inputReady {
      var advanced := s.(supplied := s.supplied + [t],
                         firstInput := if s.hasInput then s.firstInput else t, hasInput := true, input := t);
      BeginTimesGrow(s.pushed, Begin(t));
      PushFrame(advanced, Begin(t), turn);
    }
  }

  /** Otherwise the Begin can be lost to the end of the context. */
  lemma InputLosesBegin(s: Stream, pts: int)
    requires StreamInv(s) && pts >= 0 && (s.cause.Some? || |s.queue| >= QUEUE)
    ensures VideoInput(s, pts, Ended(OtherCause)).pushed == s.pushed
  {
    hide Nanos, ClockInv;
  }

  lemma PushKeepsReach(s: Stream, f: Frame, turn: Turn, t: int)
    requires f.Coded?
    ensures ClockReached(Push(s, f, turn).0, t) == ClockReached(s, t)
  {
    hide BeginTimes;
    PushFrame(s, f, turn);
    BeginTimesGrow(s.pushed, f);
    assert BeginTimes(s.pushed) + [] == BeginTimes(s.pushed);
  }

  /**
   The exact condition. However the two pushes of an accepted access unit turn out, it goes in only
   behind a Begin at its own time or later, if and only if before the call the context is open with
   room in the queue, or such a Begin went in already.
   */
  lemma UnitIsClockedIff(s: Stream, data: Bytes, pts: int, duration: int, key: bool)
    requires StreamInv(s) && FormatFits(s) && s.format != 0 && UnitBounds(data, pts, duration)
    ensures (forall turns :: UnitIsClocked(s, data, pts, duration, key, turns))
       <==> (s.cause.None? && |s.queue| < QUEUE) || ClockReached(s, Nanos(pts))
  {
    hide Video, VideoInput, Push, Nanos, StreamInv, FormatFits, ClockReached;
    if (s.cause.None? && |s.queue| < QUEUE) || ClockReached(s, Nanos(pts)) {
      forall turns ensures UnitIsClocked(s, data, pts, duration, key, turns) {
        var f := UnitPushes(s, data, pts, duration, key, turns);
        InputReachesClock(s, pts, turns.0);
        PushKeepsReach(VideoInput(s, pts, turns.0), f, turns.1, Nanos(pts));
      }
    } else {
      LostBeginUnclocks(s, data, pts, duration, key);
    }
  }

  lemma LostBeginUnclocks(s: Stream, data: Bytes, pts: int, duration: int, key: bool)
    requires StreamInv(s) && FormatFits(s) && s.format != 0 && UnitBounds(data, pts, duration)
    requires (s.cause.Some? || |s.queue| >= QUEUE) && !ClockReached(s, Nanos(pts))
    ensures !UnitIsClocked(s, data, pts, duration, key, (Ended(OtherCause), Proceed))
  {
    hide Video, VideoInput, Nanos, StreamInv, FormatFits, BeginTimes;
    var turns := (Ended(OtherCause), Proceed);
    var f := UnitPushes(s, data, pts, duration, key, turns);
    var fed := VideoInput(s, pts, turns.0);
    InputLosesBegin(s, pts);
    PushKeepsReach(fed, f, Proceed, Nanos(pts));
    PushFrame(fed, f, Proceed);
    assert Push(fed, f, Proceed).1;
  }

  // ---------------------------------------------------------------- instances of the failing families

  const SMALL := Output(640, 360)
  const LOST_STATUS := Ready("vp8", 640, 360, "", false, (Ended(OtherCause), Proceed, Proceed))
  const UNANNOUNCED := Coded(VP8, 0, 640, 360, [0], 0, 1000, true)

  lemma CancelledReadyCommits(s: Stream)
    requires s == NewStream([SMALL], "auto").(cause := Some(OtherCause))
    ensures Respond(s, LOST_STATUS) == s.(codec := 2, format := Pack(640, 360))
  {
  }

  lemma CancelledUnitGoesIn(s: Stream)
    requires s == NewStream([SMALL], "auto").(cause := Some(OtherCause), codec := 2, format := Pack(640, 360))
    ensures var r := Respond(s, UNIT); !r.closed && r.delivered == [] && r.queue == [UNANNOUNCED]
  {
  }

  /**
   A coded frame can precede the Status on a stream that is already cancelled: the readiness
   commits its format, loses its Status to the done context, and the next unit still goes in.
   */
  lemma CancelledStreamCanSkipStatus()
    ensures var r := Run([Open([SMALL], "auto"), ParentCancel(1, OtherCause), Bridge(1, LOST_STATUS), Bridge(1, UNIT)]);
      IsLive(r, 1) && r.all[1].delivered + r.all[1].queue == [UNANNOUNCED]
  {
    hide Respond;
    var o, p, ready, unit := Open([SMALL], "auto"), ParentCancel(1, OtherCause), Bridge(1, LOST_STATUS), Bridge(1, UNIT);
    var s := NewStream([SMALL], "auto").(cause := Some(OtherCause));
    RunExtends([], o);
    RunExtends([o], p);
    assert [] + [o] == [o] && [o] + [p] == [o, p] && [o, p] + [ready] == [o, p, ready];
    CancelledReadyCommits(s);
    RunExtends([o, p], ready);
    CancelledUnitGoesIn(s.(codec := 2, format := Pack(640, 360)));
    RunExtends([o, p, ready], unit);
    assert [o, p, ready] + [unit] == [o, p, ready, unit];
  }

  const READY := Ready("vp8", 640, 360, "", false, (Proceed, Proceed, Proceed))
  const UNBEGUN := Unit([0], 0, 1, true, (Ended(OtherCause), Proceed))

  /** The stream that `READY` leaves of a new one. */
  function Announced(): Stream {
    NewStream([SMALL], "auto").(codec := 2, format := Pack(640, 360), inputReady := true,
                                queue := [Status(VP8, 640, 360)], pushed := [Status(VP8, 640, 360)])
  }

  lemma ReadyAnnounces()
    ensures Respond(NewStream([SMALL], "auto"), READY) == Announced()
  {
  }

  lemma UnitWithoutBegin()
    ensures var t := Respond(Cancel(Announced(), OtherCause), UNBEGUN);
      !t.closed && t.pushed == [Status(VP8, 640, 360), UNANNOUNCED]
  {
  }

  /** A unit can go in without any Begin: the context is done, the Begin is lost, and the unit is not. */
  lemma CancelledStreamCanSkipBegin()
    ensures var r := Run([Open([SMALL], "auto"), Bridge(1, READY), ParentCancel(1, OtherCause), Bridge(1, UNBEGUN)]);
      IsLive(r, 1) && r.all[1].pushed == [Status(VP8, 640, 360), UNANNOUNCED]
  {
    hide Run, Respond, Cancel, Announced, StreamInv, FormatFits, RegistryInv;
    var o, ready, p, unit := Open([SMALL], "auto"), Bridge(1, READY), ParentCancel(1, OtherCause), Bridge(1, UNBEGUN);
    OpenedFirst();
    StepOfStream([o], ready, 1);
    StepOfStream([o] + [ready], p, 1);
    StepOfStream([o] + [ready] + [p], unit, 1);
    assert [o] + [ready] + [p] + [unit] == [o, ready, p, unit];
    ReadyAnnounces();
    StaysOpen();
    UnitWithoutBegin();
  }

  lemma OpenedFirst()
    ensures var r := Run([Open([SMALL], "auto")]); 1 in r.all && r.all[1] == NewStream([SMALL], "auto")
  {
    RunExtends([], Open([SMALL], "auto"));
    assert [] + [Open([SMALL], "auto")] == [Open([SMALL], "auto")];
  }

  lemma StaysOpen()
    ensures !Announced().closed && !Cancel(Announced(), OtherCause).closed
  {
  }
}
