/**
 The request multiplexer of scripts/browser-gate-harness.ts: many calls share one socket, and each is
 settled by its reply, its timer, a failed send or the end of the socket, whichever comes first.
 */
module CdpConnection {
  import opened Common

  // ---------------------------------------------------------------- what can happen

  /** `error` in a reply. A JSON object whose `toString` and `valueOf` are not callable is unprintable. */
  datatype ErrorField = Falsy | Detailed(text: string) | Bare | Unprintable

  /** Text from the socket; `Foreign` is an id that is no integer, which no pending key equals. */
  datatype Message = Unparseable | Null | NoId | Foreign | Reply(id: int, result: Option<string>, error: ErrorField)

  /** `open` is the socket's ready state at the call and `thrown` what sending threw. */
  datatype Event =
    | Call(name: string, open: bool, thrown: Option<SendError>)
    | Received(message: Message)
    | TimerFired(id: nat)
    | SocketGone
    | CloseCalled

  datatype SendError = AnError(text: string) | NotAnError

  datatype Outcome = Resolved(value: string) | Rejected(reason: string)

  function CommandFailed(detail: string): Outcome { Rejected("CDP command failed: " + detail) }

  function TimedOut(name: string): Outcome { Rejected("CDP command timed out: " + name) }

  const SOCKET_CLOSED := Rejected("CDP connection closed")

  function SendFailed(e: SendError): Outcome {
    match e
    case AnError(text) => Rejected(text)
    case NotAnError => Rejected("CDP send failed")
  }

  /** What a reply settles its call with; nothing when building the text throws. */
  function Settlement(m: Message): Option<Outcome>
    requires m.Reply?
  {
    match m.error
    case Falsy => Some(Resolved(match m.result case Some(value) => value case None => "{}"))
    case Detailed(text) => Some(CommandFailed(text))
    case Bare => Some(CommandFailed("unknown protocol error"))
    case Unprintable => None
  }

  // ---------------------------------------------------------------- the connection

  /** `pending` is a map in insertion order, `timers` the armed timers by call, `log` every settlement. */
  datatype Connection = Connection(nextId: nat, pending: seq<nat>, timers: map<nat, string>, closed: bool,
                                   log: seq<(nat, Outcome)>)

  const CONNECTED := Connection(1, [], map[], false, [])

  /** `clearTimeout` and the promise's `resolve` or `reject`. */
  function Settle(c: Connection, id: nat, o: Outcome): Connection {
    c.(timers := c.timers - {id}, log := c.log + [(id, o)])
  }

  function SettleAll(c: Connection, ids: seq<nat>): Connection {
    if ids == [] then c else Settle(SettleAll(c, ids[..|ids| - 1]), ids[|ids| - 1], SOCKET_CLOSED)
  }

  function Issue(c: Connection, name: string, thrown: Option<SendError>): Connection {
    var id := c.nextId;
    match thrown
    case None => c.(nextId := id + 1, pending := c.pending + [id], timers := c.timers[id := name])
    case Some(e) => Settle(c.(nextId := id + 1), id, SendFailed(e))
  }

  function Receive(c: Connection, m: Message): Connection {
    if !m.Reply? || m.id < 0 || m.id !in c.pending then c
    else
      var rest := c.(pending := Without<nat>(c.pending, m.id));
      match Settlement(m)
      case None => rest
      case Some(o) => Settle(rest, m.id, o)
  }

  /** One event. A timer that was cleared does not fire; an exception leaves what was done before it. */
  function Step(c: Connection, e: Event): Connection {
    match e
    case Call(name, open, thrown) => if c.closed || !open then c else Issue(c, name, thrown)
    case Received(m) => Receive(c, m)
    case TimerFired(id) =>
      if id !in c.timers then c
      else Settle(c.(pending := Without<nat>(c.pending, id)), id, TimedOut(c.timers[id]))
    case SocketGone => if c.closed then c else SettleAll(c, c.pending).(closed := true, pending := [])
    case CloseCalled => c
  }

  function Run(c: Connection, events: seq<Event>): Connection {
    if events == [] then c else Step(Run(c, events[..|events| - 1]), events[|events| - 1])
  }

  // ---------------------------------------------------------------- exactly one settlement

  /** Every outcome the call with this id was given. */
  function Outcomes(log: seq<(nat, Outcome)>, id: nat): seq<Outcome> {
    if log == [] then []
    else
      var last := log[|log| - 1];
      Outcomes(log[..|log| - 1], id) + if last.0 == id then [last.1] else []
  }

  ghost predicate Ascending(ids: seq<nat>) {
    forall i, j | 0 <= i < j < |ids| :: ids[i] < ids[j]
  }

  predicate Issued(c: Connection, id: nat) {
    1 <= id < c.nextId
  }

  predicate SettledOnceOrTimed(c: Connection, id: nat) {
    |Outcomes(c.log, id)| == if Issued(c, id) && id !in c.timers then 1 else 0
  }

  /** An issued call is settled exactly once unless its timer is armed, and a pending call's timer is. */
  ghost predicate Inv(c: Connection) {
    && 1 <= c.nextId
    && Ascending(c.pending)
    && (forall id | id in c.pending :: id in c.timers)
    && (forall id | id in c.timers :: Issued(c, id))
    && (forall id :: SettledOnceOrTimed(c, id))
    && (c.closed ==> c.pending == [])
  }

  lemma {:induction false} AscendingWithout(ids: seq<nat>, id: nat)
    requires Ascending(ids)
    ensures Ascending(Without<nat>(ids, id))
  {
    if ids != [] {
      var before, last := ids[..|ids| - 1], ids[|ids| - 1];
      AscendingWithout(before, id);
      WithoutRemoves<nat>(before, id);
      var rest := Without<nat>(before, id);
      assert ids == before + [last] && forall x | x in before :: x < last;
      assert forall i | 0 <= i < |rest| :: rest[i] in rest;
    }
  }

  /** What a call adds is taken back by removing it. */
  lemma IssueUndone(c: Connection, name: string)
    requires Inv(c)
    ensures Without<nat>(c.pending + [c.nextId], c.nextId) == c.pending
    ensures c.timers[c.nextId := name] - {c.nextId} == c.timers - {c.nextId}
  {
    hide Without, SettledOnceOrTimed, Ascending;
    WithoutAdded(c.pending, c.nextId);
  }

  lemma WithoutAdded(ids: seq<nat>, id: nat)
    requires id !in ids
    ensures Without<nat>(ids + [id], id) == ids
  {
    WithoutRemoves<nat>(ids, id);
    assert (ids + [id])[..|ids|] == ids;
  }

  lemma OutcomesAfter(log: seq<(nat, Outcome)>, settled: nat, o: Outcome, id: nat)
    ensures Outcomes(log + [(settled, o)], id) == Outcomes(log, id) + if settled == id then [o] else []
  {
  }

  lemma LastIsNew(ids: seq<nat>, id: nat)
    requires Ascending(ids) && ids != []
    ensures var before, last := ids[..|ids| - 1], ids[|ids| - 1];
      Ascending(before) && last !in before && (id in ids <==> id in before || id == last)
  {
    assert ids == ids[..|ids| - 1] + [ids[|ids| - 1]];
  }

  /** Ending the socket settles each of these calls once, in the order they were issued. */
  lemma {:induction false} SettleAllSettles(c: Connection, ids: seq<nat>, id: nat)
    requires Ascending(ids)
    ensures var r := SettleAll(c, ids);
      && r == c.(timers := r.timers, log := r.log)
      && (id in r.timers <==> id in c.timers && id !in ids)
      && (id in r.timers ==> r.timers[id] == c.timers[id])
      && Outcomes(r.log, id) == Outcomes(c.log, id) + if id in ids then [SOCKET_CLOSED] else []
  {
    hide Outcomes;
    if ids == [] {
      assert Outcomes(c.log, id) + [] == Outcomes(c.log, id);
    } else {
      var before, last := ids[..|ids| - 1], ids[|ids| - 1];
      LastIsNew(ids, id);
      SettleAllSettles(c, before, id);
      OutcomesAfter(SettleAll(c, before).log, last, SOCKET_CLOSED, id);
      hide Ascending;
    }
  }

  lemma StepKeepsOutcomes(c: Connection, e: Event, id: nat)
    requires Inv(c)
    ensures SettledOnceOrTimed(Step(c, e), id)
  {
    hide Outcomes, SettleAll, Without, Settlement, Ascending;
    assert SettledOnceOrTimed(c, id);
    match e {
      case Call(name, open, thrown) =>
        if thrown.Some? {
          OutcomesAfter(c.log, c.nextId, SendFailed(thrown.value), id);
        }
      case Received(m) =>
        if m.Reply? && Settlement(m).Some? && m.id >= 0 {
          OutcomesAfter(c.log, m.id, Settlement(m).value, id);
        }
      case TimerFired(fired) =>
        if fired in c.timers {
          OutcomesAfter(c.log, fired, TimedOut(c.timers[fired]), id);
        }
      case SocketGone =>
        SettleAllSettles(c, c.pending, id);
      case CloseCalled =>
    }
  }

  lemma StepKeepsInv(c: Connection, e: Event)
    requires Inv(c)
    ensures Inv(Step(c, e))
  {
    hide SettledOnceOrTimed, SettleAll, Without, Settlement, Ascending;
    forall id { StepKeepsOutcomes(c, e, id); }
    match e {
      case Call(_, _, _) =>
        AscendingGrows(c.pending, c.nextId);
      case Received(m) =>
        if m.Reply? && m.id >= 0 {
          WithoutRemoves<nat>(c.pending, m.id);
          AscendingWithout(c.pending, m.id);
        }
      case TimerFired(fired) =>
        WithoutRemoves<nat>(c.pending, fired);
        AscendingWithout(c.pending, fired);
      case SocketGone =>
        AscendingGrows([], 0);
        SettleAllSettles(c, c.pending, 0);
        forall id { SettleAllSettles(c, c.pending, id); }
      case CloseCalled =>
    }
  }

  lemma AscendingGrows(ids: seq<nat>, id: nat)
    ensures Ascending([])
    ensures Ascending(ids) && (forall x | x in ids :: x < id) ==> Ascending(ids + [id])
  {
    assert forall i | 0 <= i < |ids| :: ids[i] in ids;
  }

  /** Over every interleaving, each issued call has one outcome or an armed timer, never two outcomes. */
  lemma {:induction false} RunKeepsInv(events: seq<Event>)
    ensures Inv(Run(CONNECTED, events))
  {
    hide Step, Inv;
    if events == [] {
      StartsWell();
    } else {
      RunKeepsInv(events[..|events| - 1]);
      StepKeepsInv(Run(CONNECTED, events[..|events| - 1]), events[|events| - 1]);
    }
  }

  lemma StartsWell()
    ensures Inv(CONNECTED)
  {
  }

  // ---------------------------------------------------------------- one call on its own

  /** One call as if it were alone: stranded when its reply was dropped by an exception. */
  datatype Track = Waiting(name: string) | Stranded(name: string) | Done(outcomes: seq<Outcome>)

  /** What an event means to an issued call, from this call's state alone. */
  function TrackStep(t: Track, e: Event, id: nat): Track {
    match t
    case Waiting(name) =>
      (match e
       case Received(Reply(to, result, error)) =>
         if to != id then t
         else (match Settlement(e.message) case None => Stranded(name) case Some(o) => Done([o]))
       case TimerFired(fired) => if fired == id then Done([TimedOut(name)]) else t
       case SocketGone => Done([SOCKET_CLOSED])
       case _ => t)
    case Stranded(name) => if e == TimerFired(id) then Done([TimedOut(name)]) else t
    case Done(_) => t
  }

  function TrackRun(t: Track, events: seq<Event>, id: nat): Track {
    if events == [] then t else TrackStep(TrackRun(t, events[..|events| - 1], id), events[|events| - 1], id)
  }

  function View(c: Connection, id: nat): Track {
    if id !in c.timers then Done(Outcomes(c.log, id))
    else if id in c.pending then Waiting(c.timers[id])
    else Stranded(c.timers[id])
  }

  /** Only this call's own entries make up its view. */
  lemma SameView(c: Connection, d: Connection, id: nat)
    requires id in c.timers <==> id in d.timers
    requires id in c.timers ==> c.timers[id] == d.timers[id]
    requires id in c.timers ==> (id in c.pending <==> id in d.pending)
    requires Outcomes(c.log, id) == Outcomes(d.log, id)
    ensures View(c, id) == View(d, id)
  {
  }

  lemma AnswerProjects(c: Connection, m: Message, id: nat)
    requires Inv(c) && Issued(c, id) && m.Reply? && m.id >= 0
    ensures View(Receive(c, m), id) == TrackStep(View(c, id), Received(m), id)
  {
    hide Outcomes, Without, Settlement, Ascending;
    assert SettledOnceOrTimed(c, id);
    WithoutRemoves<nat>(c.pending, m.id);
    if Settlement(m).Some? {
      OutcomesAfter(c.log, m.id, Settlement(m).value, id);
    }
    if m.id != id {
      SameView(c, Receive(c, m), id);
    }
  }

  lemma TimerProjects(c: Connection, fired: nat, id: nat)
    requires Inv(c) && Issued(c, id)
    ensures View(Step(c, TimerFired(fired)), id) == TrackStep(View(c, id), TimerFired(fired), id)
  {
    hide Outcomes, Without, Settlement, Ascending;
    assert SettledOnceOrTimed(c, id);
    WithoutRemoves<nat>(c.pending, fired);
    if fired in c.timers {
      OutcomesAfter(c.log, fired, TimedOut(c.timers[fired]), id);
    }
  }

  lemma StepProjects(c: Connection, e: Event, id: nat)
    requires Inv(c) && Issued(c, id)
    ensures View(Step(c, e), id) == TrackStep(View(c, id), e, id)
  {
    hide Outcomes, SettleAll, Receive, Settlement, Ascending;
    assert SettledOnceOrTimed(c, id);
    match e {
      case Call(name, open, thrown) =>
        if thrown.Some? {
          OutcomesAfter(c.log, c.nextId, SendFailed(thrown.value), id);
        }
        SameView(c, Step(c, e), id);
      case Received(m) =>
        if m.Reply? && m.id >= 0 {
          AnswerProjects(c, m, id);
        } else {
          NoAnswer(c, m);
        }
      case TimerFired(fired) =>
        TimerProjects(c, fired, id);
      case SocketGone =>
        SettleAllSettles(c, c.pending, id);
      case CloseCalled =>
    }
  }

  lemma NoAnswer(c: Connection, m: Message)
    requires !m.Reply? || m.id < 0
    ensures Receive(c, m) == c
  {
  }

  lemma {:induction false} IssuedStays(c: Connection, e: Event, id: nat)
    requires Issued(c, id)
    ensures Issued(Step(c, e), id)
  {
    hide Without;
    if e.SocketGone? {
      SettleAllFrame(c, c.(closed := true), c.pending);
    }
  }

  /** A call starts out waiting, or done when it could not be sent. */
  lemma CallStarts(c: Connection, name: string, thrown: Option<SendError>)
    requires Inv(c) && !c.closed
    ensures View(Step(c, Call(name, true, thrown)), c.nextId) ==
            match thrown { case None => Waiting(name) case Some(e) => Done([SendFailed(e)]) }
  {
    hide Outcomes;
    assert SettledOnceOrTimed(c, c.nextId);
    if thrown.Some? {
      OutcomesAfter(c.log, c.nextId, SendFailed(thrown.value), c.nextId);
    }
  }

  /**
   Calls do not interfere: through any further events an issued call goes exactly as it would alone, so
   the first event that concerns it decides its outcome and no later one changes it.
   */
  lemma {:induction false} RunProjects(c: Connection, events: seq<Event>, id: nat)
    requires Inv(c) && Issued(c, id)
    ensures Inv(Run(c, events)) && Issued(Run(c, events), id)
    ensures View(Run(c, events), id) == TrackRun(View(c, id), events, id)
  {
    hide Step, Inv, View, TrackStep, Issued;
    if events != [] {
      var before, last := events[..|events| - 1], events[|events| - 1];
      RunProjects(c, before, id);
      StepKeepsInv(Run(c, before), last);
      StepProjects(Run(c, before), last, id);
      IssuedStays(Run(c, before), last, id);
    }
  }

  lemma {:induction false} DoneStays(outcomes: seq<Outcome>, events: seq<Event>, id: nat)
    ensures TrackRun(Done(outcomes), events, id) == Done(outcomes)
  {
    if events != [] {
      DoneStays(outcomes, events[..|events| - 1], id);
    }
  }

  /** An outcome, once given, is the only one the call ever has. */
  lemma OutcomeStands(c: Connection, events: seq<Event>, id: nat)
    requires Inv(c) && Outcomes(c.log, id) != []
    ensures Outcomes(Run(c, events).log, id) == Outcomes(c.log, id)
  {
    assert SettledOnceOrTimed(c, id);
    RunProjects(c, events, id);
    DoneStays(Outcomes(c.log, id), events, id);
    hide Run, TrackRun, Outcomes;
  }

  // ---------------------------------------------------------------- what the first event decides

  /** The outcomes of a call in a connection after one more event. */
  function OutcomesThen(c: Connection, e: Event, id: nat): seq<Outcome> {
    Outcomes(Step(c, e).log, id)
  }

  predicate Pending(c: Connection, id: nat) {
    id in c.pending
  }

  lemma PendingHasNone(c: Connection, id: nat)
    requires Inv(c) && Pending(c, id)
    ensures Issued(c, id) && View(c, id) == Waiting(c.timers[id]) && Outcomes(c.log, id) == []
  {
    assert SettledOnceOrTimed(c, id);
    hide Outcomes, SettledOnceOrTimed, Ascending;
  }

  lemma ViewShowsOutcomes(c: Connection, id: nat)
    requires Inv(c) && Issued(c, id)
    ensures View(c, id).Done? ==> Outcomes(c.log, id) == View(c, id).outcomes
    ensures !View(c, id).Done? ==> Outcomes(c.log, id) == []
  {
    assert SettledOnceOrTimed(c, id);
    hide Outcomes, SettledOnceOrTimed, Ascending;
  }

  lemma DecidedBy(c: Connection, e: Event, id: nat)
    requires Inv(c) && Pending(c, id)
    ensures var t := TrackStep(Waiting(c.timers[id]), e, id);
      OutcomesThen(c, e, id) == if t.Done? then t.outcomes else []
  {
    hide Outcomes, SettledOnceOrTimed, Step, TrackStep, View;
    PendingHasNone(c, id);
    StepProjects(c, e, id);
    StepKeepsInv(c, e);
    IssuedStays(c, e, id);
    ViewShowsOutcomes(Step(c, e), id);
  }

  /**
   A reply decides its pending call. It is resolved, with the reply's result or an empty object, if
   and only if the error is falsy, and otherwise rejected with the error's text, if that can be had.
   */
  lemma ReplyDecides(c: Connection, id: nat, result: Option<string>, error: ErrorField)
    requires Inv(c) && Pending(c, id)
    ensures OutcomesThen(c, Received(Reply(id, result, error)), id) ==
      match error {
        case Falsy => [Resolved(if result.Some? then result.value else "{}")]
        case Detailed(text) => [Rejected("CDP command failed: " + text)]
        case Bare => [Rejected("CDP command failed: unknown protocol error")]
        case Unprintable => []
      }
  {
    hide Outcomes, Step;
    DecidedBy(c, Received(Reply(id, result, error)), id);
    assert "CDP command failed: " + "unknown protocol error" == "CDP command failed: unknown protocol error";
  }

  /** A pending call's timer rejects it with its name, and the end of the socket with a fixed reason. */
  lemma OtherDecisions(c: Connection, id: nat)
    requires Inv(c) && Pending(c, id)
    ensures OutcomesThen(c, TimerFired(id), id) == [Rejected("CDP command timed out: " + c.timers[id])]
    ensures OutcomesThen(c, SocketGone, id) == [Rejected("CDP connection closed")]
  {
    hide Outcomes, Step;
    DecidedBy(c, TimerFired(id), id);
    DecidedBy(c, SocketGone, id);
  }

  /** Nothing else decides it: no other call, no other reply, no other timer, and no request to close. */
  lemma NothingElseDecides(c: Connection, e: Event, id: nat)
    requires Inv(c) && Pending(c, id)
    requires !e.SocketGone? && e != TimerFired(id) && !(e.Received? && e.message.Reply? && e.message.id == id)
    ensures OutcomesThen(c, e, id) == [] && Pending(Step(c, e), id) && Step(c, e).timers[id] == c.timers[id]
  {
    hide Outcomes, SettledOnceOrTimed, Step;
    DecidedBy(c, e, id);
    PendingHasNone(c, id);
    StepProjects(c, e, id);
    StepKeepsInv(c, e);
  }

  /** A call on an open connection is given the next id; it waits under its name, or is rejected with what sending threw. */
  lemma CallDecides(c: Connection, name: string, thrown: Option<SendError>)
    requires Inv(c) && !c.closed
    ensures var t, id := Step(c, Call(name, true, thrown)), c.nextId;
      && t.nextId == id + 1
      && (thrown.None? ==> Pending(t, id) && t.timers[id] == name && Outcomes(t.log, id) == [])
      && (thrown.Some? ==>
            && !Pending(t, id) && id !in t.timers
            && Outcomes(t.log, id) == [Rejected(if thrown.value.AnError? then thrown.value.text else "CDP send failed")])
  {
    hide Outcomes, SettledOnceOrTimed, Ascending;
    var e := Call(name, true, thrown);
    CallStarts(c, name, thrown);
    StepKeepsInv(c, e);
    ViewShowsOutcomes(Step(c, e), c.nextId);
  }

  /** A call on a closed connection, or with its socket not open, changes nothing. */
  lemma RefusedCallChangesNothing(c: Connection, name: string, open: bool, thrown: Option<SendError>)
    requires c.closed || !open
    ensures Step(c, Call(name, open, thrown)) == c
  {
  }

  /** The end of the socket settles the pending calls one after the other, in the order they were issued. */
  lemma ClosingOrder(c: Connection)
    requires !c.closed
    ensures Step(c, SocketGone).log
      == c.log + seq(|c.pending|, i requires 0 <= i < |c.pending| => (c.pending[i], Rejected("CDP connection closed")))
  {
    SettleAllOrder(c, c.pending);
  }

  lemma {:induction false} SettleAllOrder(c: Connection, ids: seq<nat>)
    ensures SettleAll(c, ids).log
      == c.log + seq(|ids|, i requires 0 <= i < |ids| => (ids[i], Rejected("CDP connection closed")))
  {
    if ids != [] {
      SettleAllOrder(c, ids[..|ids| - 1]);
    }
  }

  // ---------------------------------------------------------------- timers, late replies, closing

  /** Armed timers are exactly those of the pending calls. */
  ghost predicate Matched(c: Connection) {
    forall id :: id in c.timers <==> id in c.pending
  }

  /** From a matched state, timers stay matched exactly when the event is not a pending call's unprintable reply. */
  lemma MatchedIff(c: Connection, e: Event)
    requires Inv(c) && Matched(c)
    ensures Matched(Step(c, e)) <==>
            !(Strands(e) && e.message.id in c.pending)
  {
    hide SettleAll, Without, Outcomes, Ascending;
    match e {
      case Received(m) =>
        if m.Reply? && m.id >= 0 {
          WithoutRemoves<nat>(c.pending, m.id);
          if m.id in c.pending && m.error.Unprintable? {
            var id: nat := m.id;
            assert id in Step(c, e).timers && id !in Step(c, e).pending;
          }
        }
      case TimerFired(id) => WithoutRemoves<nat>(c.pending, id);
      case SocketGone =>
        forall id { SettleAllSettles(c, c.pending, id); }
      case _ =>
    }
  }

  predicate Strands(e: Event) {
    e.Received? && e.message.Reply? && e.message.error.Unprintable?
  }

  /** In every run without an unprintable reply, the armed timers are the pending calls'. */
  lemma {:induction false} RunStaysMatched(events: seq<Event>)
    requires forall e | e in events :: !Strands(e)
    ensures Matched(Run(CONNECTED, events))
  {
    hide Step, Inv;
    if events != [] {
      var before, last := events[..|events| - 1], events[|events| - 1];
      RunKeepsInv(before);
      RunStaysMatched(before);
      assert !Strands(last);
      MatchedIff(Run(CONNECTED, before), last);
    }
  }

  /** The failing family: a call whose reply cannot be printed is not pending, yet not settled either. */
  lemma UnprintableReplyStrands(name: string)
    ensures Run(CONNECTED, [Call(name, true, None), Received(Reply(1, None, Unprintable)), SocketGone])
            == Connection(2, [], map[1 := name], true, [])
  {
    hide Run, Step;
    var call, reply := Call(name, true, None), Received(Reply(1, None, Unprintable));
    RunOne(CONNECTED, [], call);
    RunOne(CONNECTED, [call], reply);
    RunOne(CONNECTED, [call, reply], SocketGone);
    assert [] + [call] == [call] && [call] + [reply] == [call, reply];
    assert [call, reply] + [SocketGone] == [call, reply, SocketGone];
    StrandedSteps(name);
  }

  lemma StrandedSteps(name: string)
    ensures Step(CONNECTED, Call(name, true, None)) == Connection(2, [1], map[1 := name], false, [])
    ensures Step(Connection(2, [1], map[1 := name], false, []), Received(Reply(1, None, Unprintable)))
            == Connection(2, [], map[1 := name], false, [])
    ensures Step(Connection(2, [], map[1 := name], false, []), SocketGone) == Connection(2, [], map[1 := name], true, [])
  {
  }

  lemma RunOne(c: Connection, before: seq<Event>, last: Event)
    ensures Run(c, before + [last]) == Step(Run(c, before), last)
    ensures Run(c, []) == c
  {
  }

  /** A message changes the connection exactly when it answers a pending call. */
  lemma OnlyPendingRepliesMatter(c: Connection, m: Message)
    ensures Step(c, Received(m)) == c <==> !(m.Reply? && m.id in c.pending)
  {
    hide Without;
    if m.Reply? && m.id in c.pending {
      WithoutRemoves<nat>(c.pending, m.id);
      assert m.id !in Step(c, Received(m)).pending;
    }
  }

  /** Once closed, nothing is pending, no call is issued, and no event changes that. */
  lemma {:induction false} ClosedIsFinal(c: Connection, events: seq<Event>)
    requires Inv(c) && c.closed
    ensures var r := Run(c, events); r.closed && r.pending == [] && r.nextId == c.nextId
  {
    if events != [] {
      ClosedIsFinal(c, events[..|events| - 1]);
    }
  }

  /** The end of the socket leaves every issued call settled once if and only if every timer was a pending call's. */
  lemma CloseSettlesAll(c: Connection)
    requires Inv(c)
    ensures var r := Step(c, SocketGone);
      && (r.timers == map[] <==> Matched(c))
      && ((forall id | Issued(c, id) :: |Outcomes(r.log, id)| == 1) <==> Matched(c))
  {
    hide SettleAll, Outcomes, Ascending;
    StepKeepsInv(c, SocketGone);
    var r := Step(c, SocketGone);
    SettleAllSettles(c, c.pending, 0);
    forall id ensures id in r.timers <==> id in c.timers && id !in c.pending {
      SettleAllSettles(c, c.pending, id);
    }
    forall id | Issued(c, id) ensures |Outcomes(r.log, id)| == 1 <==> id !in r.timers {
      assert SettledOnceOrTimed(r, id);
    }
    if r.timers == map[] {
      assert forall id :: id !in r.timers;
    }
  }

  // ---------------------------------------------------------------- the class

  /** `CdpConnection`, its socket's state and the clock given as arguments. */
  class Multiplexer {
    var nextId: nat
    var pending: seq<nat>
    var timers: map<nat, string>
    var closed: bool
    var log: seq<(nat, Outcome)>
    var closeRequests: nat

    ghost function Current(): Connection
      reads this
    {
      Connection(nextId, pending, timers, closed, log)
    }

    constructor ()
      ensures Current() == CONNECTED && closeRequests == 0
    {
      nextId, pending, timers, closed, log, closeRequests := 1, [], map[], false, [], 0;
    }

    /** `call`: the id issued, or none when the call is refused at once. */
    method Request(name: string, open: bool, thrown: Option<SendError>) returns (id: Option<nat>)
      requires Inv(Current())
      modifies this
      ensures Current() == Step(old(Current()), Call(name, open, thrown)) && closeRequests == old(closeRequests)
      ensures id == if old(closed) || !open then None else Some(old(nextId))
      ensures Inv(Current())
    {
      hide Inv, Without, SettledOnceOrTimed;
      StepKeepsInv(Current(), Call(name, open, thrown));
      IssueUndone(Current(), name);
      if closed || !open {
        return None;
      }
      var issued := nextId;
      nextId := nextId + 1;
      timers := timers[issued := name];
      pending := pending + [issued];
      if thrown.Some? {
        timers := timers - {issued};
        pending := Without<nat>(pending, issued);
        log := log + [(issued, SendFailed(thrown.value))];
      }
      return Some(issued);
    }

    /** `onMessage`. */
    method OnMessage(m: Message)
      modifies this
      ensures Current() == Step(old(Current()), Received(m)) && closeRequests == old(closeRequests)
    {
      hide Without, Settlement;
      if !m.Reply? || m.id < 0 || m.id !in pending {
        return;
      }
      pending := Without<nat>(pending, m.id);
      var outcome := Settlement(m);
      if outcome.Some? {
        timers := timers - {m.id};
        log := log + [(m.id, outcome.value)];
      }
    }

    /** The callback `call` gave to its timer. */
    method OnTimer(id: nat)
      requires id in timers
      modifies this
      ensures Current() == Step(old(Current()), TimerFired(id)) && closeRequests == old(closeRequests)
    {
      hide Without;
      pending := Without<nat>(pending, id);
      log := log + [(id, TimedOut(timers[id]))];
      timers := timers - {id};
    }

    /** `closePending`, run when the socket closes or fails. */
    method ClosePending()
      modifies this
      ensures Current() == Step(old(Current()), SocketGone) && closeRequests == old(closeRequests)
    {
      if closed {
        return;
      }
      closed := true;
      ghost var start := Current();
      for i := 0 to |pending|
        invariant pending == start.pending && closeRequests == old(closeRequests)
        invariant Current() == SettleAll(start, pending[..i])
      {
        assert pending[..i + 1][..i] == pending[..i];
        timers := timers - {pending[i]};
        log := log + [(pending[i], SOCKET_CLOSED)];
      }
      assert pending[..|pending|] == pending;
      SettleAllFrame(old(Current()), start, pending);
      pending := [];
    }

    /** `close`: asks the socket to close, once for each request before it has. */
    method Close()
      modifies this
      ensures Current() == Step(old(Current()), CloseCalled)
      ensures closeRequests == old(closeRequests) + if closed then 0 else 1
    {
      if !closed {
        closeRequests := closeRequests + 1;
      }
    }
  }

  lemma {:induction false} SettleAllFrame(c: Connection, d: Connection, ids: seq<nat>)
    requires d == c.(closed := true)
    ensures SettleAll(d, ids) == SettleAll(c, ids).(closed := true)
    ensures SettleAll(c, ids).nextId == c.nextId
  {
    if ids != [] {
      SettleAllFrame(c, d, ids[..|ids| - 1]);
    }
  }
}
