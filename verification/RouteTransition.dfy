/**
 The route-update acceptor that the benchmark page script of scripts/peer-assisted-benchmark.ts
 keeps over untrusted signalling messages.
 */
module RouteTransition {
  import opened Common

  /** A parsed message value; an absent property reads as `Undefined`. */
  datatype Json =
    | Undefined
    | Null
    | Bool(b: bool)
    | Num(n: real)
    | Str(s: string)
    | Arr(items: seq<Json>)
    | Obj(fields: map<string, Json>)

  function Field(value: Json, name: string): Json {
    if value.Obj? && name in value.fields then value.fields[name] else Undefined
  }

  datatype Assignment = Assignment(upstream: Upstream, children: seq<string>, generation: Option<string>)

  // ---------------------------------------------------------------- validation

  predicate IsIdChar(c: char) {
    'A' <= c <= 'Z' || 'a' <= c <= 'z' || '0' <= c <= '9' || c == '_' || c == '-'
  }

  predicate IsOpaqueId(value: Json) {
    value.Str? && 8 <= |value.s| <= 128 && forall c | c in value.s :: IsIdChar(c)
  }

  function CloneUpstream(value: Json): Option<Upstream> {
    if !value.Obj? then None
    else
      var kind := Field(value, "kind");
      if kind == Str("peer") && IsOpaqueId(Field(value, "peerId")) then Some(Peer(Field(value, "peerId").s))
      else if kind == Str("none") then Some(NoUpstream)
      else if kind == Str("sfu") then Some(Sfu)
      else None
  }

  function Strings(items: seq<Json>): seq<string>
    requires forall item | item in items :: item.Str?
  {
    seq(|items|, i requires 0 <= i < |items| => items[i].s)
  }

  /** `cloneRouteAssignment`: a validated copy of an arbitrary value, or nothing. */
  function Clone(value: Json, cap: nat): Option<Assignment> {
    if !value.Obj? then None
    else
      var upstream := CloneUpstream(Field(value, "upstream"));
      var children := Field(value, "childPeerIds");
      var generation := Field(value, "sfuPublicationGeneration");
      if upstream.None? then None
      else if !children.Arr? || |children.items| > cap then None
      else if !(forall item | item in children.items :: IsOpaqueId(item)) || !NoRepeats(children.items) then None
      else if generation != Null && !IsOpaqueId(generation) then None
      else if upstream.value == Sfu && generation == Null then None
      else if upstream.value.Peer? && generation != Null then None
      else Some(Assignment(upstream.value, Strings(children.items),
                           if generation == Null then None else Some(generation.s)))
  }

  /** `sameRouteAssignment`, comparison by comparison. */
  predicate Same(left: Assignment, right: Assignment) {
    && (left.upstream.NoUpstream? <==> right.upstream.NoUpstream?)
    && (left.upstream.Sfu? <==> right.upstream.Sfu?)
    && (left.upstream.Peer? ==> right.upstream.Peer? && left.upstream.peerId == right.upstream.peerId)
    && left.generation == right.generation
    && |left.children| == |right.children|
    && forall i | 0 <= i < |left.children| :: left.children[i] == right.children[i]
  }

  lemma SameIsEqual(left: Assignment, right: Assignment)
    ensures Same(left, right) <==> left == right
  {
    if Same(left, right) {
      assert left.children == right.children;
    }
  }

  /** What a route assignment promises: bounded distinct children and a consistent publication. */
  ghost predicate WellFormed(a: Assignment, cap: nat) {
    && (a.upstream.Peer? ==> IsOpaqueId(Str(a.upstream.peerId)))
    && |a.children| <= cap && NoRepeats(a.children)
    && (forall id | id in a.children :: IsOpaqueId(Str(id)))
    && (a.generation.Some? ==> IsOpaqueId(Str(a.generation.value)))
    && (a.upstream.Sfu? ==> a.generation.Some?)
    && (a.upstream.Peer? ==> a.generation.None?)
  }

  /** The value an assignment is written as. */
  function ToJson(a: Assignment): Json {
    Obj(map[
      "upstream" :=
        match a.upstream
        case NoUpstream => Obj(map["kind" := Str("none")])
        case Sfu => Obj(map["kind" := Str("sfu")])
        case Peer(id) => Obj(map["kind" := Str("peer"), "peerId" := Str(id)]),
      "childPeerIds" := Arr(seq(|a.children|, i requires 0 <= i < |a.children| => Str(a.children[i]))),
      "sfuPublicationGeneration" := if a.generation.None? then Null else Str(a.generation.value)])
  }

  /** Whatever is cloned is well formed. */
  lemma CloneIsWellFormed(value: Json, cap: nat)
    requires Clone(value, cap).Some?
    ensures WellFormed(Clone(value, cap).value, cap)
  {
    var items := Field(value, "childPeerIds").items;
    var children := Clone(value, cap).value.children;
    assert forall i | 0 <= i < |children| :: items[i] in items && IsOpaqueId(items[i]) && children[i] == items[i].s;
  }

  lemma ChildrenMatch(items: seq<Json>, children: seq<string>)
    requires |items| == |children| && forall i | 0 <= i < |items| :: items[i] == Str(children[i])
    ensures NoRepeats(items) <==> NoRepeats(children)
    ensures (forall item | item in items :: IsOpaqueId(item)) <==> (forall id | id in children :: IsOpaqueId(Str(id)))
  {
    hide IsOpaqueId;
    assert forall i | 0 <= i < |items| :: items[i] in items && children[i] in children;
  }

  /** A written assignment is cloned back exactly when it is well formed. */
  lemma CloneInverts(a: Assignment, cap: nat)
    ensures Clone(ToJson(a), cap) == if WellFormed(a, cap) then Some(a) else None
  {
    var value := ToJson(a);
    var items := Field(value, "childPeerIds").items;
    assert forall i | 0 <= i < |items| :: items[i] == Str(a.children[i]);
    assert CloneUpstream(Field(value, "upstream"))
      == if a.upstream.Peer? && !IsOpaqueId(Str(a.upstream.peerId)) then None else Some(a.upstream);
    ChildrenMatch(items, a.children);
    if Clone(value, cap).Some? {
      assert Strings(items) == a.children;
    }
  }

  // ---------------------------------------------------------------- the acceptor

  datatype Phase = Prepare | Active

  function ParsePhase(phase: Json): Option<Phase> {
    if phase == Str("prepare") then Some(Prepare) else if phase == Str("active") then Some(Active) else None
  }

  ghost predicate Denotes(revision: Json, n: nat) {
    n <= MAX_SAFE_INTEGER && revision == Num(n as real)
  }

  /** A safe integer that is not negative. */
  function ParseRevision(revision: Json): (r: Option<nat>)
    ensures r.Some? ==> Denotes(revision, r.value)
    ensures r.None? ==> forall n: nat :: !Denotes(revision, n)
  {
    if revision.Num? && 0.0 <= revision.n <= MAX_SAFE_INTEGER as real && revision.n == revision.n.Floor as real
    then
      Some(revision.n.Floor)
    else None
  }

  datatype State = State(
    revision: int, phase: Option<Phase>, planned: Option<Assignment>,
    routeRevision: Option<nat>, route: Option<Assignment>, maxChildren: nat)

  const INITIAL := State(-1, None, None, None, None, 0)

  /** An update whose three parts are valid. */
  datatype Update = Update(revision: nat, phase: Phase, assignment: Assignment)

  function Parse(revision: Json, phase: Json, assignment: Json, cap: nat): Option<Update> {
    var r, p, a := ParseRevision(revision), ParsePhase(phase), Clone(assignment, cap);
    if r.None? || p.None? || a.None? then None else Some(Update(r.value, p.value, a.value))
  }

  predicate Accepts(s: State, u: Update) {
    || u.revision > s.revision
    || (u.revision == s.revision && s.planned.Some? && Same(s.planned.value, u.assignment)
        && !(s.phase == Some(Active) && u.phase == Prepare))
  }

  function Step(s: State, u: Update, cap: nat): State {
    if !Accepts(s, u) || (u.revision == s.revision && s.phase == Some(u.phase)) then s
    else
      var next := s.(revision := u.revision, phase := Some(u.phase), planned := Some(u.assignment));
      if u.phase == Prepare then next
      else next.(routeRevision := Some(u.revision), route := Clone(ToJson(u.assignment), cap),
                 maxChildren := Max(s.maxChildren, |u.assignment.children|))
  }

  /** The signalling messages that reach the acceptor. */
  datatype Message =
    | SentAuthenticate
    | Authenticated(assisted: bool, revision: Json, assignment: Json)
    | RouteUpdate(revision: Json, phase: Json, assignment: Json)

  datatype Session = Session(assisted: bool, state: State)

  function Reset(s: State): State {
    INITIAL.(maxChildren := s.maxChildren)
  }

  function Apply(s: State, update: Option<Update>, cap: nat): State {
    if update.None? then s else Step(s, update.value, cap)
  }

  function Handle(s: Session, m: Message, cap: nat): Session {
    match m
    case SentAuthenticate => s.(assisted := false)
    case Authenticated(assisted, revision, assignment) =>
      var blank := Reset(s.state);
      Session(assisted, if assisted then Apply(blank, Parse(revision, Str("active"), assignment, cap), cap) else blank)
    case RouteUpdate(revision, phase, assignment) =>
      if s.assisted then s.(state := Apply(s.state, Parse(revision, phase, assignment, cap), cap)) else s
  }

  /** The page script's variables, updated in place. */
  class RouteObserver {
    const cap: nat
    var assisted: bool
    var transitionRevision: int
    var transitionPhase: Option<Phase>
    var planned: Option<Assignment>
    var routeRevision: Option<nat>
    var routeAssignment: Option<Assignment>
    var maxAssignedChildren: nat

    constructor (cap: nat)
      ensures this.cap == cap && Current() == Session(false, INITIAL)
    {
      this.cap := cap;
      assisted, transitionRevision, transitionPhase, planned := false, -1, None, None;
      routeRevision, routeAssignment, maxAssignedChildren := None, None, 0;
    }

    ghost function Current(): Session
      reads this
    {
      Session(assisted, State(transitionRevision, transitionPhase, planned, routeRevision, routeAssignment, maxAssignedChildren))
    }

    method ResetRouteTransition()
      modifies this
      ensures Current() == old(Current()).(state := Reset(old(Current()).state))
    {
      transitionRevision, transitionPhase, planned := -1, None, None;
      routeRevision, routeAssignment := None, None;
    }

    /** A valid update is accepted exactly when it is newer, or repeats the plan and does not go back to preparing. */
    method AcceptRouteUpdate(revision: Json, phase: Json, value: Json) returns (accepted: bool)
      modifies this
      ensures accepted <==>
              && ParseRevision(revision).Some? && Clone(value, cap).Some? && phase in {Str("prepare"), Str("active")}
              && var r := ParseRevision(revision).value;
                 (r > old(transitionRevision)
                  || (r == old(transitionRevision) && old(planned) == Clone(value, cap)
                      && (old(transitionPhase) == Some(Active) ==> phase == Str("active"))))
      ensures var update := Parse(revision, phase, value, cap);
        && accepted == (update.Some? && Accepts(old(Current()).state, update.value))
        && Current() == old(Current()).(state := Apply(old(Current()).state, update, cap))
    {
      hide Clone, ToJson, Same, Denotes, ParseRevision;
      var assignment := Clone(value, cap);
      if assignment.Some? && planned.Some? {
        SameIsEqual(planned.value, assignment.value);
      }
      var r, p := ParseRevision(revision), ParsePhase(phase);
      if r.None? || p.None? || assignment.None? {
        return false;
      }
      if r.value < transitionRevision {
        return false;
      }
      if r.value == transitionRevision {
        if planned.None? || !Same(planned.value, assignment.value)
          || (transitionPhase == Some(Active) && p.value == Prepare) {
          return false;
        }
        if transitionPhase == p {
          return true;
        }
      }
      transitionRevision, transitionPhase, planned := r.value, p, assignment;
      if p.value == Active {
        routeRevision, routeAssignment := r, Clone(ToJson(assignment.value), cap);
        maxAssignedChildren := Max(maxAssignedChildren, |assignment.value.children|);
      }
      return true;
    }

    method HandleMessage(m: Message)
      modifies this
      ensures Current() == Handle(old(Current()), m, cap)
    {
      match m
      case SentAuthenticate =>
        assisted := false;
      case Authenticated(mode, revision, assignment) =>
        assisted := mode;
        ResetRouteTransition();
        if mode {
          var _ := AcceptRouteUpdate(revision, Str("active"), assignment);
        }
      case RouteUpdate(revision, phase, assignment) =>
        if assisted {
          var _ := AcceptRouteUpdate(revision, phase, assignment);
        }
    }
  }

  // ---------------------------------------------------------------- every run

  function Run(s: Session, messages: seq<Message>, cap: nat): Session {
    if messages == [] then s
    else Handle(Run(s, messages[..|messages| - 1], cap), messages[|messages| - 1], cap)
  }

  ghost predicate Inv(s: State, cap: nat) {
    && -1 <= s.revision
    && (s.revision == -1 <==> s.planned.None?) && (s.planned.None? <==> s.phase.None?)
    && (s.routeRevision.Some? <==> s.route.Some?)
    && (s.phase == Some(Active) ==> s.routeRevision == Some(s.revision) && s.route == s.planned)
    && (s.phase != Some(Active) && s.routeRevision.Some? ==> s.routeRevision.value < s.revision)
    && (s.planned.Some? ==> WellFormed(s.planned.value, cap))
    && (s.route.Some? ==> WellFormed(s.route.value, cap) && |s.route.value.children| <= s.maxChildren)
    && s.maxChildren <= cap
  }

  lemma ParsedIsWellFormed(revision: Json, phase: Json, assignment: Json, cap: nat)
    ensures var u := Parse(revision, phase, assignment, cap); u.Some? ==> WellFormed(u.value.assignment, cap)
  {
    if Clone(assignment, cap).Some? {
      CloneIsWellFormed(assignment, cap);
    }
  }

  lemma StepKeepsInv(s: State, u: Update, cap: nat)
    requires Inv(s, cap) && WellFormed(u.assignment, cap)
    ensures Inv(Step(s, u, cap), cap)
  {
    CloneInverts(u.assignment, cap);
    if s.planned.Some? {
      SameIsEqual(s.planned.value, u.assignment);
    }
  }

  lemma HandleKeepsInv(s: Session, m: Message, cap: nat)
    requires Inv(s.state, cap)
    ensures Inv(Handle(s, m, cap).state, cap)
  {
    match m
    case SentAuthenticate =>
    case Authenticated(assisted, revision, assignment) =>
      ParsedIsWellFormed(revision, Str("active"), assignment, cap);
      var u := Parse(revision, Str("active"), assignment, cap);
      if u.Some? {
        StepKeepsInv(Reset(s.state), u.value, cap);
      }
    case RouteUpdate(revision, phase, assignment) =>
      ParsedIsWellFormed(revision, phase, assignment, cap);
      var u := Parse(revision, phase, assignment, cap);
      if u.Some? {
        StepKeepsInv(s.state, u.value, cap);
      }
  }

  /**
   After every run: phase active means the committed pair is the planned pair, a committed route
   is well formed, and neither it nor the recorded maximum exceeds the child cap.
   */
  lemma {:induction false} RunKeepsInv(s: Session, messages: seq<Message>, cap: nat)
    requires Inv(s.state, cap)
    ensures Inv(Run(s, messages, cap).state, cap)
  {
    if messages != [] {
      RunKeepsInv(s, messages[..|messages| - 1], cap);
      HandleKeepsInv(Run(s, messages[..|messages| - 1], cap), messages[|messages| - 1], cap);
    }
  }

  /** No message of the run starts a new session. */
  ghost predicate SameSession(messages: seq<Message>) {
    forall m | m in messages :: !m.Authenticated?
  }

  /** `u` was accepted before: what it planned still stands or a later revision replaced it. */
  ghost predicate Remembers(s: State, u: Update) {
    || s.revision > u.revision
    || (s.revision == u.revision && s.planned == Some(u.assignment)
        && s.phase.Some? && (u.phase == Active ==> s.phase == Some(Active)))
  }

  lemma AcceptedIsRemembered(s: State, u: Update, cap: nat)
    requires Accepts(s, u)
    ensures Remembers(Step(s, u, cap), u)
  {
    if s.planned.Some? {
      SameIsEqual(s.planned.value, u.assignment);
    }
  }

  lemma StepRemembers(s: State, v: Update, u: Update, cap: nat)
    requires Remembers(s, u)
    ensures Remembers(Step(s, v, cap), u)
  {
    if s.planned.Some? {
      SameIsEqual(s.planned.value, v.assignment);
    }
  }

  lemma {:induction false} RunRemembers(s: Session, messages: seq<Message>, u: Update, cap: nat)
    requires Remembers(s.state, u) && SameSession(messages)
    ensures Remembers(Run(s, messages, cap).state, u)
  {
    if messages != [] {
      var n := |messages| - 1;
      RunRemembers(s, messages[..n], u, cap);
      var before, m := Run(s, messages[..n], cap), messages[n];
      if m.RouteUpdate? && Parse(m.revision, m.phase, m.assignment, cap).Some? {
        StepRemembers(before.state, Parse(m.revision, m.phase, m.assignment, cap).value, u, cap);
      }
    }
  }

  /** A remembered update changes nothing when it is delivered again. */
  lemma RememberedChangesNothing(s: State, u: Update, cap: nat)
    requires Remembers(s, u)
    ensures Step(s, u, cap) == s
  {
    if s.revision == u.revision {
      match (s.phase.value, u.phase)
      case (Prepare, Prepare) =>
      case (Active, _) =>
      case (_, Active) =>
    }
  }

  /** The valid update a message offers, if it is heard: a session opens with the active update of its snapshot. */
  function Offer(s: Session, m: Message, cap: nat): Option<Update> {
    match m
    case SentAuthenticate => None
    case Authenticated(assisted, revision, assignment) =>
      if assisted then Parse(revision, Str("active"), assignment, cap) else None
    case RouteUpdate(revision, phase, assignment) =>
      if s.assisted then Parse(revision, phase, assignment, cap) else None
  }

  /** The state an update is offered to: a snapshot meets the blank state of its new session. */
  function OfferedTo(s: Session, m: Message): State {
    if m.Authenticated? then Reset(s.state) else s.state
  }

  predicate Accepted(s: Session, m: Message, cap: nat) {
    Offer(s, m, cap).Some? && Accepts(OfferedTo(s, m), Offer(s, m, cap).value)
  }

  lemma HandleSteps(s: Session, m: Message, cap: nat)
    ensures Handle(s, m, cap).state == Apply(OfferedTo(s, m), Offer(s, m, cap), cap)
  {
  }

  /** A message delivered again within its session: a snapshot comes back as an active route update. */
  function Again(m: Message): Message {
    if m.Authenticated? then RouteUpdate(m.revision, Str("active"), m.assignment) else m
  }

  /** Re-delivering an accepted message later in the session, however often, changes nothing. */
  lemma RedeliveryChangesNothing(s: Session, m: Message, later: seq<Message>, cap: nat)
    requires Accepted(s, m, cap) && SameSession(later)
    ensures var after := Run(Handle(s, m, cap), later, cap); Handle(after, Again(m), cap) == after
  {
    hide Parse, Accepts, Step, Remembers;
    var u := Offer(s, m, cap).value;
    HandleSteps(s, m, cap);
    AcceptedIsRemembered(OfferedTo(s, m), u, cap);
    RunRemembers(Handle(s, m, cap), later, u, cap);
    RememberedChangesNothing(Run(Handle(s, m, cap), later, cap).state, u, cap);
  }

  /** Two updates accepted in one session at one revision carry the same assignment, its snapshot included. */
  lemma AcceptedUpdatesAgree(s: Session, m: Message, between: seq<Message>, n: Message, cap: nat)
    requires SameSession(between) && !n.Authenticated?
    requires Accepted(s, m, cap) && Accepted(Run(Handle(s, m, cap), between, cap), n, cap)
    ensures var u, v := Offer(s, m, cap).value, Offer(Run(Handle(s, m, cap), between, cap), n, cap).value;
      u.revision <= v.revision && (u.revision == v.revision ==> u.assignment == v.assignment)
  {
    hide Parse, Step, Run, WellFormed;
    var after := Run(Handle(s, m, cap), between, cap);
    var u, v := Offer(s, m, cap).value, Offer(after, n, cap).value;
    HandleSteps(s, m, cap);
    AcceptedIsRemembered(OfferedTo(s, m), u, cap);
    RunRemembers(Handle(s, m, cap), between, u, cap);
    if after.state.planned.Some? {
      SameIsEqual(after.state.planned.value, v.assignment);
    }
  }

  ghost predicate NotBefore(a: Option<nat>, b: Option<nat>) {
    a.Some? ==> b.Some? && a.value <= b.value
  }

  ghost predicate NoEarlier(s: State, t: State) {
    s.revision <= t.revision && NotBefore(s.routeRevision, t.routeRevision) && s.maxChildren <= t.maxChildren
  }

  lemma HandleNeverGoesBack(s: Session, m: Message, cap: nat)
    requires Inv(s.state, cap) && !m.Authenticated?
    ensures NoEarlier(s.state, Handle(s, m, cap).state)
  {
    hide Parse, WellFormed, Clone, ToJson, Same;
  }

  /** Within a session neither the accepted nor the committed revision ever decreases. */
  lemma {:induction false} RevisionsNeverDecrease(s: Session, messages: seq<Message>, cap: nat)
    requires Inv(s.state, cap) && SameSession(messages)
    ensures NoEarlier(s.state, Run(s, messages, cap).state)
  {
    hide Handle, Inv;
    if messages != [] {
      var n := |messages| - 1;
      RevisionsNeverDecrease(s, messages[..n], cap);
      RunKeepsInv(s, messages[..n], cap);
      HandleNeverGoesBack(Run(s, messages[..n], cap), messages[n], cap);
    }
  }

  /** A prepare leaves the committed route alone, whether it is accepted or not. */
  lemma PrepareKeepsCommittedRoute(s: Session, m: Message, cap: nat)
    requires m.RouteUpdate? && m.phase == Str("prepare")
    ensures var t := Handle(s, m, cap).state;
      t.routeRevision == s.state.routeRevision && t.route == s.state.route && t.maxChildren == s.state.maxChildren
  {
  }

  /** A committed route is lost only by a new session, and replaced only by that of an accepted active update. */
  lemma CommittedRouteComesFromActive(s: Session, m: Message, cap: nat)
    requires Inv(s.state, cap) && Handle(s, m, cap).state.route != s.state.route
    ensures var t := Handle(s, m, cap).state;
      && (t.route.None? ==> m.Authenticated?)
      && (t.route.Some? ==>
            && Accepted(s, m, cap) && Offer(s, m, cap).value.phase == Active
            && t.route == Some(Offer(s, m, cap).value.assignment)
            && t.routeRevision == Some(Offer(s, m, cap).value.revision))
  {
    hide Parse, Same, WellFormed, Clone, ToJson;
    HandleSteps(s, m, cap);
    if Offer(s, m, cap).Some? {
      OfferIsWellFormed(s, m, cap);
      CloneInverts(Offer(s, m, cap).value.assignment, cap);
    }
  }

  lemma OfferIsWellFormed(s: Session, m: Message, cap: nat)
    ensures Offer(s, m, cap).Some? ==> WellFormed(Offer(s, m, cap).value.assignment, cap)
  {
    hide Parse, WellFormed;
    if m.RouteUpdate? {
      ParsedIsWellFormed(m.revision, m.phase, m.assignment, cap);
    } else if m.Authenticated? {
      ParsedIsWellFormed(m.revision, Str("active"), m.assignment, cap);
    }
  }

  // ---------------------------------------------------------------- what a heard update does

  /** The message of a valid update. */
  function UpdateMessage(revision: nat, phase: string, a: Assignment): Message {
    RouteUpdate(Num(revision as real), Str(phase), ToJson(a))
  }

  lemma RevisionReadsBack(n: nat)
    requires n <= MAX_SAFE_INTEGER
    ensures ParseRevision(Num(n as real)) == Some(n)
  {
    var r := ParseRevision(Num(n as real));
    assert Denotes(Num(n as real), n);
    assert r.Some? ==> r.value as real == n as real;
  }

  lemma UpdateParses(revision: nat, phase: string, a: Assignment, cap: nat)
    requires revision <= MAX_SAFE_INTEGER && WellFormed(a, cap) && phase in {"prepare", "active"}
    ensures Parse(Num(revision as real), Str(phase), ToJson(a), cap)
      == Some(Update(revision, if phase == "prepare" then Prepare else Active, a))
  {
    hide Clone, ToJson, WellFormed, ParseRevision;
    RevisionReadsBack(revision);
    CloneInverts(a, cap);
  }

  /** A heard prepare of a newer revision is planned, and leaves the committed route alone. */
  lemma NewerPrepareIsPlanned(s: Session, revision: nat, a: Assignment, cap: nat)
    requires s.assisted && s.state.revision < revision <= MAX_SAFE_INTEGER && WellFormed(a, cap)
    ensures Handle(s, UpdateMessage(revision, "prepare", a), cap)
      == s.(state := s.state.(revision := revision, phase := Some(Prepare), planned := Some(a)))
  {
    hide Clone, ToJson, WellFormed, Same;
    UpdateParses(revision, "prepare", a, cap);
  }

  /** A heard active update that is newer, or repeats the plan it was prepared with, is committed. */
  lemma ActiveIsCommitted(s: Session, revision: nat, a: Assignment, cap: nat)
    requires s.assisted && Inv(s.state, cap) && revision <= MAX_SAFE_INTEGER && WellFormed(a, cap)
    requires s.state.revision < revision || (s.state.revision == revision && s.state.planned == Some(a))
    ensures var t := Handle(s, UpdateMessage(revision, "active", a), cap);
      && t.assisted
      && t.state.revision == revision && t.state.phase == Some(Active) && t.state.planned == Some(a)
      && t.state.routeRevision == Some(revision) && t.state.route == Some(a)
      && t.state.maxChildren == Max(s.state.maxChildren, |a.children|)
  {
    hide Clone, ToJson, WellFormed, Same;
    UpdateParses(revision, "active", a, cap);
    CloneInverts(a, cap);
    SameIsEqual(a, a);
  }

  /** A prepare and then an active update of one new revision and assignment commit it. */
  lemma PrepareThenActiveCommits(s: Session, revision: nat, a: Assignment, cap: nat)
    requires s.assisted && Inv(s.state, cap) && s.state.revision < revision <= MAX_SAFE_INTEGER && WellFormed(a, cap)
    ensures var t := Handle(Handle(s, UpdateMessage(revision, "prepare", a), cap), UpdateMessage(revision, "active", a), cap);
      t == s.(state := State(revision, Some(Active), Some(a), Some(revision), Some(a), Max(s.state.maxChildren, |a.children|)))
  {
    hide Handle, WellFormed, UpdateMessage;
    NewerPrepareIsPlanned(s, revision, a, cap);
    HandleKeepsInv(s, UpdateMessage(revision, "prepare", a), cap);
    ActiveIsCommitted(Handle(s, UpdateMessage(revision, "prepare", a), cap), revision, a, cap);
  }

  /** Everything else heard in a session is refused and leaves it alone: an invalid, older, conflicting or late update. */
  lemma OtherUpdatesAreRefused(s: Session, m: Message, cap: nat)
    requires m.RouteUpdate? && Inv(s.state, cap)
    requires var r, a := ParseRevision(m.revision), Clone(m.assignment, cap);
      || !s.assisted || r.None? || a.None? || m.phase !in {Str("prepare"), Str("active")}
      || r.value < s.state.revision
      || (r.value == s.state.revision && (s.state.planned != a || (s.state.phase == Some(Active) && m.phase == Str("prepare"))))
    ensures Handle(s, m, cap) == s
  {
    hide Clone, WellFormed, ParseRevision, Same;
    var a := Clone(m.assignment, cap);
    if a.Some? && s.state.planned.Some? {
      SameIsEqual(s.state.planned.value, a.value);
    }
  }

  /** A new session forgets everything but the recorded maximum, and commits its snapshot if that is valid. */
  lemma SnapshotOpensSession(s: Session, revision: Json, assignment: Json, cap: nat)
    ensures Handle(s, Authenticated(false, revision, assignment), cap)
      == Session(false, State(-1, None, None, None, None, s.state.maxChildren))
    ensures ParseRevision(revision).None? || Clone(assignment, cap).None? ==>
      Handle(s, Authenticated(true, revision, assignment), cap)
      == Session(true, State(-1, None, None, None, None, s.state.maxChildren))
    ensures ParseRevision(revision).Some? && Clone(assignment, cap).Some? ==>
      var r, a := ParseRevision(revision).value, Clone(assignment, cap).value;
      Handle(s, Authenticated(true, revision, assignment), cap)
      == Session(true, State(r, Some(Active), Some(a), Some(r), Some(a), Max(s.state.maxChildren, |a.children|)))
  {
    hide Clone, WellFormed, ParseRevision, Same, ToJson;
    if Clone(assignment, cap).Some? {
      CloneIsWellFormed(assignment, cap);
      CloneInverts(Clone(assignment, cap).value, cap);
    }
  }

  /** Sending an authentication silences route updates until the answer. */
  lemma AuthenticatingSilences(s: Session, m: Message, cap: nat)
    requires m.RouteUpdate?
    ensures var t := Handle(s, SentAuthenticate, cap); !t.assisted && t.state == s.state && Handle(t, m, cap) == t
  {
  }

  // ---------------------------------------------------------------- what a message spells

  /** An opaque id is 8 to 128 characters, each the ASCII code of a letter, a digit, a hyphen or an underscore. */
  lemma OpaqueIdIff(s: string)
    ensures IsOpaqueId(Str(s)) <==>
            8 <= |s| <= 128 && forall c | c in s ::
              65 <= c as int <= 90 || 97 <= c as int <= 122 || 48 <= c as int <= 57 || c as int in {45, 95}
  {
  }

  /** The fields of a message value spell this assignment, whatever else the value holds. */
  ghost predicate Spells(value: Json, a: Assignment) {
    var upstream, children := Field(value, "upstream"), Field(value, "childPeerIds");
    && value.Obj? && upstream.Obj? && children.Arr?
    && (match a.upstream
        case NoUpstream => Field(upstream, "kind") == Str("none")
        case Sfu => Field(upstream, "kind") == Str("sfu")
        case Peer(id) => Field(upstream, "kind") == Str("peer") && Field(upstream, "peerId") == Str(id))
    && |children.items| == |a.children| && (forall i | 0 <= i < |a.children| :: children.items[i] == Str(a.children[i]))
    && Field(value, "sfuPublicationGeneration") == match a.generation { case None => Null case Some(g) => Str(g) }
  }

  /** A value is cloned to an assignment if and only if it spells it and the assignment is well formed. */
  lemma CloneIff(value: Json, cap: nat, a: Assignment)
    ensures Clone(value, cap) == Some(a) <==> Spells(value, a) && WellFormed(a, cap)
  {
    hide IsOpaqueId;
    if Clone(value, cap) == Some(a) {
      CloneIsWellFormed(value, cap);
      ClonedIsSpelled(value, cap);
    }
    if Spells(value, a) && WellFormed(a, cap) {
      SpelledIsCloned(value, cap, a);
    }
  }

  lemma ClonedIsSpelled(value: Json, cap: nat)
    requires Clone(value, cap).Some?
    ensures Spells(value, Clone(value, cap).value)
  {
    var items := Field(value, "childPeerIds").items;
    assert forall i | 0 <= i < |items| :: items[i] in items;
  }

  lemma SpelledIsCloned(value: Json, cap: nat, a: Assignment)
    requires Spells(value, a) && WellFormed(a, cap)
    ensures Clone(value, cap) == Some(a)
  {
    var items := Field(value, "childPeerIds").items;
    ChildrenMatch(items, a.children);
    assert forall item | item in items :: IsOpaqueId(item);
    assert Strings(items) == a.children;
  }
}
