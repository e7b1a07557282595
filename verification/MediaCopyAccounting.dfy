/** Admission of outbound media copies at one endpoint, from src/shared/media-copy-accounting.ts. */
module MediaCopyAccounting {
  import opened Common

  const MAX_CAPACITY := 3

  type Peer = string

  /** A number of the source: not-a-number and the infinities are not finite. */
  datatype Number = Finite(value: real) | NonFinite

  datatype Phase = Steady | Transition

  datatype Snapshot = Snapshot(children: seq<Peer>, publication: Option<string>, selected: seq<Peer>)

  // ---------------------------------------------------------------- counting

  function SetOf(peers: seq<Peer>): set<Peer> {
    set p | p in peers
  }

  /** The empty generation is falsy, like an absent one. */
  function Publications(s: Snapshot): nat {
    if s.publication.Some? && s.publication.value != "" then 1 else 0
  }

  /** Selected peers that are not children. */
  function Hidden(s: Snapshot): set<Peer> {
    SetOf(s.selected) - SetOf(s.children)
  }

  function Copies(s: Snapshot): nat {
    |s.children| + Publications(s) + |Hidden(s)|
  }

  /** `countEndpointMediaCopies`. */
  method Count(s: Snapshot) returns (copies: nat)
    ensures copies == Copies(s)
    ensures copies >= |SetOf(s.children) + SetOf(s.selected)| + Publications(s)
    ensures copies == |SetOf(s.children) + SetOf(s.selected)| + Publications(s) <==> NoRepeats(s.children)
  {
    var children := SetOf(s.children);
    var hidden: set<Peer> := {};
    for i := 0 to |s.selected|
      invariant hidden == SetOf(s.selected[..i]) - children
    {
      assert SetOf(s.selected[..i + 1]) == SetOf(s.selected[..i]) + {s.selected[i]};
      if s.selected[i] !in children {
        hidden := hidden + {s.selected[i]};
      }
    }
    assert s.selected[..|s.selected|] == s.selected;
    CountIsUnion(s);
    return |s.children| + Publications(s) + |hidden|;
  }

  lemma {:induction false} DistinctIff(peers: seq<Peer>)
    ensures |SetOf(peers)| <= |peers|
    ensures |SetOf(peers)| == |peers| <==> NoRepeats(peers)
  {
    if peers != [] {
      var before, last := peers[..|peers| - 1], peers[|peers| - 1];
      hide NoRepeats;
      DistinctIff(before);
      NoRepeatsGrows(before, last);
      assert peers == before + [last];
      assert SetOf(peers) == SetOf(before) + {last};
      assert last in before ==> SetOf(peers) == SetOf(before);
    }
  }

  /** Each copy is counted once exactly when no child is listed twice; a repeated child is overcounted. */
  lemma CountIsUnion(s: Snapshot)
    ensures Copies(s) >= |SetOf(s.children) + SetOf(s.selected)| + Publications(s)
    ensures Copies(s) == |SetOf(s.children) + SetOf(s.selected)| + Publications(s) <==> NoRepeats(s.children)
  {
    DistinctIff(s.children);
    assert SetOf(s.children) + SetOf(s.selected) == SetOf(s.children) + Hidden(s);
  }

  /** A live publication is one copy more, an absent or empty generation none. */
  lemma PublicationCosts(s: Snapshot, generation: string)
    ensures Copies(s.(publication := Some(generation)))
         == Copies(s.(publication := None)) + if |generation| > 0 then 1 else 0
    ensures NoRepeats(s.children) ==> Copies(s.(publication := None)) == |SetOf(s.children) + SetOf(s.selected)|
  {
    CountIsUnion(s.(publication := None));
    hide SetOf, NoRepeats;
  }

  // ---------------------------------------------------------------- limits

  predicate IsSafeInteger(n: Number) {
    n.Finite? && n.value.Floor as real == n.value && -MAX_SAFE_INTEGER <= n.value.Floor <= MAX_SAFE_INTEGER
  }

  predicate IsCapacity(n: Number) {
    IsSafeInteger(n) && n.value >= 1.0 && n.value <= MAX_CAPACITY as real
  }

  /** `endpointMediaCopyLimit`, which throws on anything but a capacity. */
  function Limit(capacity: Number, phase: Phase): Result<real, string> {
    if !IsCapacity(capacity) then Err("Endpoint media copy capacity must be 1, 2, or 3")
    else if phase == Steady then Ok(capacity.value)
    else Ok(if capacity.value + 1.0 < MAX_CAPACITY as real then capacity.value + 1.0 else MAX_CAPACITY as real)
  }

  /** `endpointMediaCopyCountFits`. */
  predicate Fits(count: Number, capacity: Number, phase: Phase) {
    && IsSafeInteger(count)
    && count.value >= 0.0
    && IsCapacity(capacity)
    && count.value <= Limit(capacity, phase).value
  }

  function Whole(n: int): Number {
    Finite(n as real)
  }

  lemma WholeIsSafe(n: int)
    ensures IsSafeInteger(Whole(n)) <==> -9007199254740991 <= n <= 9007199254740991
  {
  }

  /** The capacities are 1, 2 and 3, and a limit is thrown for exactly the other numbers. */
  lemma LimitsAre(capacity: Number, phase: Phase)
    ensures Limit(capacity, phase).Err? <==> capacity !in {Whole(1), Whole(2), Whole(3)}
    ensures capacity == Whole(1) ==> Limit(capacity, phase) == Ok(if phase == Steady then 1.0 else 2.0)
    ensures capacity == Whole(2) ==> Limit(capacity, phase) == Ok(if phase == Steady then 2.0 else 3.0)
    ensures capacity == Whole(3) ==> Limit(capacity, phase) == Ok(3.0)
  {
    WholeIsSafe(1);
    WholeIsSafe(2);
    WholeIsSafe(3);
    if IsCapacity(capacity) {
      var n := capacity.value.Floor;
      assert n == 1 || n == 2 || n == 3;
    }
  }

  /** A count fits if and only if it is a whole number up to the limit: 1, 2, 3 when steady, 2, 3, 3 in transition. */
  lemma FitsIff(count: Number, capacity: Number, phase: Phase)
    ensures Fits(count, capacity, phase) <==>
            exists n: nat, c: nat :: count == Whole(n) && capacity == Whole(c) && 1 <= c <= 3 &&
                                     n <= if phase == Steady || c == 3 then c else c + 1
  {
    LimitsAre(capacity, phase);
    if Fits(count, capacity, phase) {
      var n, c := count.value.Floor, capacity.value.Floor;
      assert count == Whole(n) && capacity == Whole(c);
    }
    if n: nat, c: nat :| count == Whole(n) && capacity == Whole(c) && 1 <= c <= 3 &&
                         n <= if phase == Steady || c == 3 then c else c + 1 {
      WholeIsSafe(n);
      WholeIsSafe(c);
    }
  }

  /** At capacity 3, and only there among capacities, a transition admits no more than a steady state. */
  lemma TransitionIsSteadyOnlyAtTheMaximum(capacity: Number)
    requires IsCapacity(capacity)
    ensures (forall count :: Fits(count, capacity, Transition) == Fits(count, capacity, Steady)) <==> capacity == Whole(3)
  {
    LimitsAre(capacity, Steady);
    LimitsAre(capacity, Transition);
    WholeIsSafe(2);
    WholeIsSafe(3);
    if capacity != Whole(3) {
      var over := if capacity == Whole(1) then Whole(2) else Whole(3);
      assert Fits(over, capacity, Transition) && !Fits(over, capacity, Steady);
    }
  }

  // ---------------------------------------------------------------- a handoff

  /** The server's route changes, as this accounting sees them. */
  datatype Change = Select(peer: Peer) | Commit(peer: Peer) | Retire(peer: Peer) | Release(peer: Peer)

  function Apply(s: Snapshot, change: Change): Snapshot {
    match change
    case Select(p) => s.(selected := s.selected + [p])
    case Commit(p) => if p in s.children then s else s.(children := s.children + [p])
    case Retire(p) => s.(children := Without(s.children, p))
    case Release(p) => s.(selected := Without(s.selected, p))
  }

  lemma SetWithout(peers: seq<Peer>, peer: Peer)
    ensures SetOf(Without(peers, peer)) == SetOf(peers) - {peer}
  {
    WithoutRemoves(peers, peer);
    hide Without;
  }

  /** What a change does to the count, exactly: a commit is free, and a retired child that is still selected is too. */
  lemma ChangeCost(s: Snapshot, change: Change)
    requires NoRepeats(s.children)
    ensures NoRepeats(Apply(s, change).children)
    ensures var p, children, selected := change.peer, SetOf(s.children), SetOf(s.selected);
      Copies(Apply(s, change)) - Copies(s) ==
      match change {
        case Select(_) => if p in children + selected then 0 else 1
        case Commit(_) => if p in children + selected then 0 else 1
        case Retire(_) => if p in children - selected then -1 else 0
        case Release(_) => if p in selected - children then -1 else 0
      }
  {
    hide Without, Copies, SetOf, NoRepeats;
    var p, children, selected := change.peer, SetOf(s.children), SetOf(s.selected);
    match change {
      case Select(_) =>
        Extended(s.selected, p);
        AddedToUnion(selected, children, p);
      case Commit(_) =>
        Extended(s.children, p);
        Member(s.children, p);
        AddedToUnion(children, selected, p);
      case Retire(_) =>
        SetWithout(s.children, p);
        WithoutRemoves(s.children, p);
        TakenFromUnion(children, selected, p);
      case Release(_) =>
        SetWithout(s.selected, p);
        TakenFromUnion(selected, children, p);
    }
    CountIsUnion(s);
    CountIsUnion(Apply(s, change));
  }

  lemma AddedToUnion(a: set<Peer>, b: set<Peer>, p: Peer)
    ensures |(a + {p}) + b| == |b + (a + {p})| == |a + b| + if p in a + b then 0 else 1
    ensures a + b == b + a
  {
    assert (a + {p}) + b == a + b + {p} && b + (a + {p}) == a + b + {p} && a + b == b + a;
    assert p in a + b ==> a + b + {p} == a + b;
  }

  lemma TakenFromUnion(a: set<Peer>, b: set<Peer>, p: Peer)
    ensures |(a - {p}) + b| == |b + (a - {p})| == |a + b| - if p in a - b then 1 else 0
    ensures a + b == b + a
  {
    assert b + (a - {p}) == (a - {p}) + b && a + b == b + a;
    if p in a - b {
      assert (a - {p}) + b + {p} == a + b;
    } else {
      assert (a - {p}) + b == a + b;
    }
  }

  lemma Member(peers: seq<Peer>, p: Peer)
    ensures p in peers <==> p in SetOf(peers)
  {
  }

  lemma Extended(peers: seq<Peer>, p: Peer)
    ensures SetOf(peers + [p]) == SetOf(peers) + {p}
    ensures NoRepeats(peers) && p !in peers ==> NoRepeats(peers + [p])
  {
    NoRepeatsGrows(peers, p);
    hide NoRepeats;
  }

  /** From a steady fit below capacity 3, one more child can be selected within the transition limit. */
  lemma CanSelectOneMore(s: Snapshot, capacity: Number, p: Peer)
    requires NoRepeats(s.children) && IsCapacity(capacity) && capacity != Whole(3)
    requires Fits(Whole(Copies(s)), capacity, Steady)
    ensures Fits(Whole(Copies(Apply(s, Select(p)))), capacity, Transition)
  {
    hide Copies, SetOf, NoRepeats, Apply;
    ChangeCost(s, Select(p));
    LimitsAre(capacity, Steady);
    LimitsAre(capacity, Transition);
    WholeIsSafe(Copies(Apply(s, Select(p))));
  }

  /**
   Selecting and committing a new child and retiring a previous one uses one extra copy, admitted below
   three, and ends in a steady fit exactly when the retired child's selection was released or room was left.
   */
  lemma HandoffReturns(s: Snapshot, capacity: Number, next: Peer, previous: Peer)
    requires NoRepeats(s.children) && IsCapacity(capacity) && Fits(Whole(Copies(s)), capacity, Steady)
    requires next != previous && next !in s.children + s.selected && previous in s.children
    ensures var selected := Apply(s, Select(next));
            var committed := Apply(selected, Commit(next));
            var retired := Apply(committed, Retire(previous));
            && Copies(selected) == Copies(committed) == Copies(s) + 1
            && (Fits(Whole(Copies(selected)), capacity, Transition) <==> capacity != Whole(3) || Copies(s) < 3)
            && (Fits(Whole(Copies(retired)), capacity, Steady) <==>
                previous !in s.selected || Copies(s) as real < capacity.value)
  {
    hide Copies, NoRepeats, SetOf, IsSafeInteger, Without, Hidden;
    Member(s.children, next);
    Member(s.selected, next);
    var selected := Apply(s, Select(next));
    var committed := Apply(selected, Commit(next));
    ChangeCost(s, Select(next));
    ChangeCost(selected, Commit(next));
    ChangeCost(committed, Retire(previous));
    LimitsAre(capacity, Steady);
    LimitsAre(capacity, Transition);
    Member(selected.selected, next);
    Member(committed.children, previous);
    Member(committed.selected, previous);
    WholeIsSafe(Copies(selected));
    WholeIsSafe(Copies(Apply(committed, Retire(previous))));
  }

  /** Changes in which a selection is admitted only within the transition limit and only a selected peer commits. */
  ghost predicate Admitted(s: Snapshot, changes: seq<Change>, capacity: Number) {
    changes == [] ||
    (var before, last := changes[..|changes| - 1], changes[|changes| - 1];
     && Admitted(s, before, capacity)
     && (last.Select? ==> Fits(Whole(Copies(ApplyAll(s, before + [last]))), capacity, Transition))
     && (last.Commit? ==> last.peer in ApplyAll(s, before).selected))
  }

  function ApplyAll(s: Snapshot, changes: seq<Change>): Snapshot {
    if changes == [] then s else Apply(ApplyAll(s, changes[..|changes| - 1]), changes[|changes| - 1])
  }

  /** Whatever the order of changes, an endpoint that checks its selections never carries more than three copies. */
  lemma {:induction false} AdmittedRunsFit(s: Snapshot, changes: seq<Change>, capacity: Number)
    requires NoRepeats(s.children) && Fits(Whole(Copies(s)), capacity, Transition)
    requires Admitted(s, changes, capacity)
    ensures NoRepeats(ApplyAll(s, changes).children)
    ensures Fits(Whole(Copies(ApplyAll(s, changes))), capacity, Transition)
    ensures Copies(ApplyAll(s, changes)) <= MAX_CAPACITY
  {
    hide Copies, NoRepeats, Apply, IsSafeInteger, SetOf;
    LimitsAre(capacity, Transition);
    if changes != [] {
      var before, last := changes[..|changes| - 1], changes[|changes| - 1];
      assert changes == before + [last];
      AdmittedRunsFit(s, before, capacity);
      ChangeCost(ApplyAll(s, before), last);
      Member(ApplyAll(s, before).selected, last.peer);
      WholeIsSafe(Copies(ApplyAll(s, changes)));
    }
  }
}
