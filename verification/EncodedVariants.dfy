/**
 The per-frame encoder scheduler of scripts/encoded-variants-worker.js.

 A codec is known only by its contract: a requested key frame is a key frame. What an
 encoder emits unasked is an arbitrary function of the encoder and of its frame count.
 */
module EncodedVariants {
  import opened Common

  datatype Role = Host | Relay
  datatype Policy = Exact | Envelope

  const LAYERS := 3
  const SOURCE_LAYER := 2

  /** The layers the two children ask for. */
  type Demand = d: seq<nat> | |d| == 2 && d[0] < LAYERS && d[1] < LAYERS witness [0, 0]

  /** Where a packet was encoded: one encoder object, or one pass over the ingress packets. */
  datatype Stream = Encoder(id: nat) | Ingress(gop: nat)

  datatype Packet = Packet(frame: nat, layer: nat, stream: Stream, ordinal: nat, key: bool)

  /** An entry of the `encoders` array; `count` is the number of frames it has encoded. */
  datatype Slot = Closed | Live(id: nat, count: nat)

  /** The inputs of one run; `ingress[k]` says whether the k-th ingress packet is a key. */
  datatype Plan = Plan(role: Role, policy: Policy, trace: seq<Demand>, phaseFrames: nat, ingress: seq<bool>)

  ghost predicate WellFormed(plan: Plan) {
    plan.phaseFrames > 0 && |plan.ingress| > 0 && plan.ingress[0]
  }

  datatype Outcome =
    | Completed(encoded: seq<nat>, decoded: seq<nat>, creates: nat, ingressDecodes: nat)
    | NotRecoveryFrame(frame: nat)
    | MissingEncoding(frame: nat)

  /** The first ingress frame is encoded with a key request, the others without one. */
  method PrepareIngress(frames: nat, unasked: nat -> bool) returns (ingress: seq<bool>)
    ensures |ingress| == frames
    ensures forall k | 0 <= k < frames :: ingress[k] <==> k == 0 || unasked(k)
  {
    ingress := [];
    for k := 0 to frames
      invariant |ingress| == k
      invariant forall j | 0 <= j < k :: ingress[j] <==> j == 0 || unasked(j)
    {
      ingress := ingress + [k == 0 || unasked(k)];
    }
  }

  // ---------------------------------------------------------------- demand and activity

  function UpTo(highest: nat): set<nat> {
    if highest == 0 then {0} else if highest == 1 then {0, 1} else {0, 1, 2}
  }

  function ActiveLayers(role: Role, policy: Policy, demand: Demand): set<nat> {
    var highest := if demand[0] < demand[1] then demand[1] else demand[0];
    var wanted := if policy == Exact then {demand[0], demand[1]} else UpTo(highest);
    if role == Host then wanted
    else if demand[0] < SOURCE_LAYER || demand[1] < SOURCE_LAYER then wanted - {SOURCE_LAYER}
    else {}
  }

  ghost function Frames(plan: Plan): nat {
    |plan.trace| * plan.phaseFrames
  }

  lemma PhaseInTrace(plan: Plan, i: nat)
    requires WellFormed(plan) && i < Frames(plan)
    ensures 0 <= i / plan.phaseFrames < |plan.trace|
  {
  }

  ghost function DemandAt(plan: Plan, i: nat): Demand
    requires WellFormed(plan) && i < Frames(plan)
  {
    PhaseInTrace(plan, i);
    plan.trace[i / plan.phaseFrames]
  }

  ghost function ActiveAt(plan: Plan, i: nat): set<nat>
    requires WellFormed(plan) && i < Frames(plan)
  {
    ActiveLayers(plan.role, plan.policy, DemandAt(plan, i))
  }

  /** The layers encoded by the frame before `i`. */
  ghost function ActiveBefore(plan: Plan, i: nat): set<nat>
    requires WellFormed(plan) && i <= Frames(plan)
  {
    if i == 0 then {} else ActiveAt(plan, i - 1)
  }

  /** Child `c` asks at frame `i` for another layer than at the frame before. */
  ghost predicate Switches(plan: Plan, i: nat, c: nat)
    requires WellFormed(plan) && i < Frames(plan) && c < 2
  {
    i == 0 || DemandAt(plan, i - 1)[c] != DemandAt(plan, i)[c]
  }

  predicate Relayed(role: Role, layer: nat) {
    role == Relay && layer == SOURCE_LAYER
  }

  ghost predicate IngressKey(plan: Plan, i: nat)
    requires WellFormed(plan)
  {
    plan.ingress[i % |plan.ingress|]
  }

  /** A relay child turns to the forwarded layer where the ingress has no key. */
  ghost predicate LateSwitch(plan: Plan, i: nat)
    requires WellFormed(plan) && i < Frames(plan)
  {
    exists c: nat | c < 2 ::
      Switches(plan, i, c) && Relayed(plan.role, DemandAt(plan, i)[c]) && !IngressKey(plan, i)
  }

  /** The relay's input decoder is used at frame `i` and was not used at the frame before. */
  ghost predicate InputStarts(plan: Plan, i: nat)
    requires WellFormed(plan) && i < Frames(plan)
  {
    plan.role == Relay && ActiveAt(plan, i) != {} && ActiveBefore(plan, i) == {}
  }

  // ---------------------------------------------------------------- dependency chains

  predicate Follows(p: Packet, q: Packet) {
    p.layer == q.layer && p.stream == q.stream && p.ordinal + 1 == q.ordinal
  }

  /** Every packet is a key or needs only the packet the receiver decoded just before it. */
  ghost predicate Decodable(packets: seq<Packet>) {
    forall k | 0 <= k < |packets| :: packets[k].key || (k > 0 && Follows(packets[k - 1], packets[k]))
  }

  /** The same for a receiver that is fed only on some frames. */
  ghost predicate SparseDecodable(packets: seq<Option<Packet>>) {
    forall k | 0 <= k < |packets| && packets[k].Some? ::
      packets[k].value.key || (k > 0 && packets[k - 1].Some? && Follows(packets[k - 1].value, packets[k].value))
  }

  // ---------------------------------------------------------------- counting specification

  /** How many of the first `p` phases encode at least one of `layers`. */
  ghost function PhasesUsing(plan: Plan, layers: set<nat>, p: nat): nat
    requires p <= |plan.trace|
  {
    if p == 0 then 0
    else PhasesUsing(plan, layers, p - 1) + Meets(ActiveLayers(plan.role, plan.policy, plan.trace[p - 1]), layers)
  }

  ghost function Meets(active: set<nat>, layers: set<nat>): nat {
    if active * layers == {} then 0 else 1
  }

  /** How many of the layers below `n` are in `now` and were not in `before`. */
  ghost function Gained(now: set<nat>, before: set<nat>, n: nat): nat {
    if n == 0 then 0
    else Gained(now, before, n - 1) + if n - 1 in now && n - 1 !in before then 1 else 0
  }

  ghost function ActiveInPhase(plan: Plan, p: int): set<nat>
    requires p < |plan.trace|
  {
    if p < 0 then {} else ActiveLayers(plan.role, plan.policy, plan.trace[p])
  }

  /** The number of activation edges of the first `p` phases: layers encoded in a phase but not in the one before. */
  ghost function ActivationEdges(plan: Plan, p: nat): nat
    requires p <= |plan.trace|
  {
    if p == 0 then 0
    else ActivationEdges(plan, p - 1) + Gained(ActiveInPhase(plan, p - 1), ActiveInPhase(plan, p - 2), LAYERS)
  }

  // The same counts frame by frame, as the loop accumulates them.

  ghost function FramesUsing(plan: Plan, layers: set<nat>, n: nat): nat
    requires WellFormed(plan) && n <= Frames(plan)
  {
    if n == 0 then 0 else FramesUsing(plan, layers, n - 1) + Meets(ActiveAt(plan, n - 1), layers)
  }

  ghost function Starts(plan: Plan, n: nat): nat
    requires WellFormed(plan) && n <= Frames(plan)
  {
    if n == 0 then 0
    else Starts(plan, n - 1) + Gained(ActiveAt(plan, n - 1), ActiveBefore(plan, n - 1), LAYERS)
  }

  lemma FrameInPhase(plan: Plan, p: nat, k: nat)
    requires WellFormed(plan) && p < |plan.trace| && k < plan.phaseFrames
    ensures p * plan.phaseFrames + k < Frames(plan)
    ensures DemandAt(plan, p * plan.phaseFrames + k) == plan.trace[p]
  {
    var f, n := plan.phaseFrames, |plan.trace|;
    assert (p + 1) * f <= n * f;
    QuotientIs(p * f + k, f, p, k);
  }

  lemma NextPhase(p: nat, f: nat)
    ensures (p + 1) * f == p * f + f
  {
  }

  lemma AtLeastOnce(d: nat, f: nat)
    requires d > 0
    ensures d * f >= f
  {
  }

  lemma QuotientIs(i: nat, f: nat, p: nat, k: nat)
    requires f > 0 && k < f && i == p * f + k
    ensures i / f == p && i % f == k
  {
    var q, r := i / f, i % f;
    assert i == q * f + r && 0 <= r < f;
    assert (q - p) * f == q * f - p * f && (p - q) * f == p * f - q * f;
    if q > p {
      AtLeastOnce(q - p, f);
    } else if q < p {
      AtLeastOnce(p - q, f);
    }
  }

  /** The frames of one phase that encode at least one of `layers`, of its first `k`. */
  ghost function FramesOfPhase(plan: Plan, layers: set<nat>, p: nat, k: nat): nat
    requires p < |plan.trace|
  {
    if Meets(ActiveLayers(plan.role, plan.policy, plan.trace[p]), layers) == 1 then k else 0
  }

  /** Each phase contributes its frame count to every layer it encodes. */
  lemma {:induction false} FramesUsingByPhase(plan: Plan, layers: set<nat>, p: nat, k: nat)
    requires WellFormed(plan) && p < |plan.trace| && k <= plan.phaseFrames
    ensures p * plan.phaseFrames + k <= Frames(plan)
    ensures FramesUsing(plan, layers, p * plan.phaseFrames + k)
         == plan.phaseFrames * PhasesUsing(plan, layers, p) + FramesOfPhase(plan, layers, p, k)
    decreases p, k
  {
    hide ActiveLayers;
    if k > 0 {
      FramesUsingByPhase(plan, layers, p, k - 1);
      FrameInPhase(plan, p, k - 1);
    } else if p > 0 {
      FramesUsingByPhase(plan, layers, p - 1, plan.phaseFrames);
      PhaseCompletes(plan, layers, p - 1);
      FrameInPhase(plan, p, 0);
    }
  }

  lemma PhaseCompletes(plan: Plan, layers: set<nat>, p: nat)
    requires p < |plan.trace|
    ensures p * plan.phaseFrames + plan.phaseFrames == (p + 1) * plan.phaseFrames
    ensures plan.phaseFrames * PhasesUsing(plan, layers, p + 1)
      == plan.phaseFrames * PhasesUsing(plan, layers, p) + FramesOfPhase(plan, layers, p, plan.phaseFrames)
  {
    hide ActiveLayers;
    NextPhase(PhasesUsing(plan, layers, p), plan.phaseFrames);
  }

  /** Only the first frame of a phase starts encoders. */
  lemma StartedInPhase(plan: Plan, p: nat, k: nat)
    requires WellFormed(plan) && p < |plan.trace| && k < plan.phaseFrames
    ensures p * plan.phaseFrames + k < Frames(plan)
    ensures ActiveAt(plan, p * plan.phaseFrames + k) == ActiveInPhase(plan, p)
    ensures ActiveBefore(plan, p * plan.phaseFrames + k) == ActiveInPhase(plan, if k == 0 then p - 1 else p)
  {
    FrameInPhase(plan, p, k);
    if k > 0 {
      FrameInPhase(plan, p, k - 1);
    } else if p > 0 {
      FrameInPhase(plan, p - 1, plan.phaseFrames - 1);
      NextPhase(p - 1, plan.phaseFrames);
    }
  }

  lemma {:induction false} NothingGained(now: set<nat>, n: nat)
    ensures Gained(now, now, n) == 0
  {
    if n > 0 {
      NothingGained(now, n - 1);
    }
  }

  lemma {:induction false} StartsByPhase(plan: Plan, p: nat, k: nat)
    requires WellFormed(plan) && p < |plan.trace| && 0 < k <= plan.phaseFrames
    ensures p * plan.phaseFrames + k <= Frames(plan)
    ensures Starts(plan, p * plan.phaseFrames + k) == ActivationEdges(plan, p + 1)
    decreases p, k
  {
    StartedInPhase(plan, p, k - 1);
    if k > 1 {
      StartsByPhase(plan, p, k - 1);
      NothingGained(ActiveInPhase(plan, p), LAYERS);
    } else if p > 0 {
      StartsByPhase(plan, p - 1, plan.phaseFrames);
      NextPhase(p - 1, plan.phaseFrames);
    }
  }

  lemma FramesUsingTotal(plan: Plan, layers: set<nat>)
    requires WellFormed(plan)
    ensures FramesUsing(plan, layers, Frames(plan)) == plan.phaseFrames * PhasesUsing(plan, layers, |plan.trace|)
  {
    if |plan.trace| > 0 {
      FramesUsingByPhase(plan, layers, |plan.trace| - 1, plan.phaseFrames);
      PhaseCompletes(plan, layers, |plan.trace| - 1);
    }
    hide FramesOfPhase, FramesUsing, PhasesUsing;
  }

  lemma StartsTotal(plan: Plan)
    requires WellFormed(plan)
    ensures Starts(plan, Frames(plan)) == ActivationEdges(plan, |plan.trace|)
  {
    var n, f := |plan.trace|, plan.phaseFrames;
    if n > 0 {
      StartsByPhase(plan, n - 1, f);
      NextPhase(n - 1, f);
    }
  }

  // ---------------------------------------------------------------- the loop

  /** Every live encoder has an identity of its own, already handed out. */
  predicate Distinct(encoders: seq<Slot>, creates: nat) {
    && (forall l | 0 <= l < |encoders| && encoders[l].Live? :: encoders[l].id < creates)
    && (forall l, m | 0 <= l < m < |encoders| && encoders[l].Live? && encoders[m].Live? ::
          encoders[l].id != encoders[m].id)
  }

  ghost function LiveLayers(encoders: seq<Slot>): set<nat> {
    set l: nat | l < |encoders| && encoders[l].Live?
  }

  lemma DistinctCreate(encoders: seq<Slot>, layer: nat, creates: nat)
    requires Distinct(encoders, creates) && layer < |encoders|
    ensures Distinct(encoders[layer := Live(creates, 0)], creates + 1)
    ensures Distinct(encoders[layer := Closed], creates)
  {
  }

  /** Creates the encoders that became active and closes the others. */
  method Manage(active: set<nat>, before: seq<Slot>, created: nat)
    returns (encoders: seq<Slot>, creates: nat, started: set<nat>)
    requires active <= {0, 1, 2} && |before| == LAYERS && Distinct(before, created)
    ensures |encoders| == LAYERS && Distinct(encoders, creates)
    ensures LiveLayers(encoders) == active
    ensures started == active - LiveLayers(before)
    ensures forall l | 0 <= l < LAYERS && l in active && before[l].Live? :: encoders[l] == before[l]
    ensures forall l | l in started :: encoders[l].Live? && encoders[l].count == 0 && created <= encoders[l].id
    ensures creates == created + Gained(active, LiveLayers(before), LAYERS)
  {
    hide Distinct;
    encoders, creates, started := before, created, {};
    for layer := 0 to LAYERS
      invariant |encoders| == LAYERS && Distinct(encoders, creates)
      invariant forall l | layer <= l < LAYERS :: encoders[l] == before[l]
      invariant forall l | 0 <= l < layer :: encoders[l].Live? <==> l in active
      invariant forall l | 0 <= l < layer && l in active && before[l].Live? :: encoders[l] == before[l]
      invariant forall l | 0 <= l < layer && l in active && before[l].Closed? ::
        encoders[l].count == 0 && created <= encoders[l].id
      invariant forall l :: l in started <==> 0 <= l < layer && l in active && before[l].Closed?
      invariant creates == created + Gained(active, LiveLayers(before), layer)
    {
      DistinctCreate(encoders, layer, creates);
      if layer in active && encoders[layer].Closed? {
        encoders := encoders[layer := Live(creates, 0)];
        creates := creates + 1;
        started := started + {layer};
      }
      if layer !in active && encoders[layer].Live? {
        encoders := encoders[layer := Closed];
      }
    }
  }

  function IngressPacket(plan: Plan, i: nat): Packet
    requires |plan.ingress| > 0
  {
    var n := |plan.ingress|;
    Packet(i, SOURCE_LAYER, Ingress(i / n), i % n, plan.ingress[i % n])
  }

  /** One frame through every live encoder. */
  method EncodeActive(frame: nat, active: set<nat>, keyframes: set<nat>, unasked: (nat, nat) -> bool,
                      before: seq<Slot>, encodedBefore: seq<nat>)
    returns (encoders: seq<Slot>, encoded: seq<nat>, outputs: map<nat, Packet>)
    requires |before| == |encodedBefore| == LAYERS && LiveLayers(before) == active
    ensures |encoders| == |encoded| == LAYERS && outputs.Keys == active
    ensures forall l | 0 <= l < LAYERS ::
      encoders[l] == if before[l].Live? then before[l].(count := before[l].count + 1) else before[l]
    ensures forall l | 0 <= l < LAYERS :: encoded[l] == encodedBefore[l] + if l in active then 1 else 0
    ensures forall l | 0 <= l < LAYERS && l in active ::
      outputs[l] == Packet(frame, l, Encoder(before[l].id), before[l].count,
                           l in keyframes || unasked(before[l].id, before[l].count))
  {
    encoders, encoded, outputs := before, encodedBefore, map[];
    for layer := 0 to LAYERS
      invariant |encoders| == |encoded| == LAYERS
      invariant forall l :: l in outputs <==> l in active && l < layer
      invariant forall l | 0 <= l < LAYERS ::
        encoders[l] == if before[l].Live? && l < layer then before[l].(count := before[l].count + 1) else before[l]
      invariant forall l | 0 <= l < LAYERS :: encoded[l] == encodedBefore[l] + if l in active && l < layer then 1 else 0
      invariant forall l | 0 <= l < layer && l in active ::
        outputs[l] == Packet(frame, l, Encoder(before[l].id), before[l].count,
                             l in keyframes || unasked(before[l].id, before[l].count))
    {
      if layer in active {
        var key := layer in keyframes || unasked(encoders[layer].id, encoders[layer].count);
        outputs := outputs[layer := Packet(frame, layer, Encoder(encoders[layer].id), encoders[layer].count, key)];
        encoders := encoders[layer := encoders[layer].(count := encoders[layer].count + 1)];
        encoded := encoded[layer := encoded[layer] + 1];
      }
    }
  }

  /** `p` is what child `c` got at frame `i - 1`, and its source can continue from it. */
  ghost predicate LastOf(plan: Plan, encoders: seq<Slot>, i: nat, c: nat, p: Packet)
    requires WellFormed(plan) && 0 < i <= Frames(plan) && c < 2 && |encoders| == LAYERS
  {
    var layer := DemandAt(plan, i - 1)[c];
    && p.layer == layer
    && (Relayed(plan.role, layer) ==> p == IngressPacket(plan, i - 1))
    && (!Relayed(plan.role, layer) ==>
          encoders[layer].Live? && p.stream == Encoder(encoders[layer].id) && p.ordinal + 1 == encoders[layer].count)
  }

  /** The source of a demanded packet: the forwarded ingress or the live encoder of its layer. */
  ghost predicate Supplies(plan: Plan, i: nat, encoders: seq<Slot>, keyframes: set<nat>, layer: nat, p: Packet)
    requires WellFormed(plan) && i < Frames(plan) && layer < LAYERS == |encoders|
  {
    && p.frame == i && p.layer == layer
    && (Relayed(plan.role, layer) ==> p == IngressPacket(plan, i))
    && (!Relayed(plan.role, layer) ==>
          && encoders[layer].Live? && p.stream == Encoder(encoders[layer].id)
          && p.ordinal == encoders[layer].count && (layer in keyframes ==> p.key))
  }

  lemma IngressContinues(plan: Plan, i: nat)
    requires WellFormed(plan) && i > 0
    ensures IngressPacket(plan, i).key || Follows(IngressPacket(plan, i - 1), IngressPacket(plan, i))
  {
    var n := |plan.ingress|;
    var q, r := (i - 1) / n, (i - 1) % n;
    assert i - 1 == q * n + r;
    if r + 1 < n {
      QuotientIs(i, n, q, r + 1);
    } else {
      NextPhase(q, n);
      QuotientIs(i, n, q + 1, 0);
    }
  }

  /** Every demanded layer is encoded, or forwarded by a relay. */
  lemma DemandIsServed(role: Role, policy: Policy, demand: Demand, c: nat)
    requires c < 2
    ensures demand[c] in ActiveLayers(role, policy, demand) <==> !Relayed(role, demand[c])
    ensures ActiveLayers(role, policy, demand) <= {0, 1, 2}
  {
  }

  /** The asserts of `deliver`, for both children. */
  method Deliver(frame: nat, demand: Demand, previous: seq<int>, outputs: map<nat, Packet>)
    returns (failure: Option<Outcome>, packets: seq<Packet>)
    requires |previous| == 2
    ensures failure == Some(MissingEncoding(frame)) ==> exists c | 0 <= c < 2 :: demand[c] !in outputs
    ensures failure.None? || failure.value in {MissingEncoding(frame), NotRecoveryFrame(frame)}
    ensures failure == Some(NotRecoveryFrame(frame)) ==> exists c | 0 <= c < 2 ::
      previous[c] != demand[c] && demand[c] in outputs && !outputs[demand[c]].key
    ensures failure.None? ==> |packets| == 2 && forall c | 0 <= c < 2 ::
      && demand[c] in outputs && packets[c] == outputs[demand[c]]
      && (previous[c] != demand[c] ==> packets[c].key)
  {
    failure, packets := None, [];
    for c := 0 to 2
      invariant |packets| == c
      invariant forall d | 0 <= d < c ::
        && demand[d] in outputs && packets[d] == outputs[demand[d]]
        && (previous[d] != demand[d] ==> packets[d].key)
    {
      if demand[c] !in outputs {
        failure := Some(MissingEncoding(frame));
        return;
      }
      var packet := outputs[demand[c]];
      if previous[c] != demand[c] && !packet.key {
        failure := Some(NotRecoveryFrame(frame));
        return;
      }
      packets := packets + [packet];
    }
  }

  /** What a child got so far: one decodable packet of the demanded layer per frame. */
  ghost predicate Received(plan: Plan, i: nat, c: nat, packets: seq<Packet>)
    requires WellFormed(plan) && i <= Frames(plan) && c < 2
  {
    && |packets| == i
    && (forall k | 0 <= k < i :: packets[k].frame == k && packets[k].layer == DemandAt(plan, k)[c])
    && Decodable(packets)
  }

  /** What the relay's input decoder got so far. */
  ghost predicate FedInput(plan: Plan, i: nat, inputs: seq<Option<Packet>>)
    requires WellFormed(plan) && i <= Frames(plan)
  {
    && |inputs| == i
    && forall k | 0 <= k < i ::
         inputs[k] == if plan.role == Relay && ActiveAt(plan, k) != {} then Some(IngressPacket(plan, k)) else None
  }

  /** The variables the loop carries from frame to frame, and what its receivers decoded. */
  datatype Progress = Progress(encoders: seq<Slot>, previous: seq<int>, encoded: seq<nat>, decoded: seq<nat>,
                               creates: nat, ingressDecodes: nat,
                               first: seq<Packet>, second: seq<Packet>, inputs: seq<Option<Packet>>)

  ghost predicate Counted(plan: Plan, i: nat, s: Progress)
    requires WellFormed(plan) && i <= Frames(plan)
  {
    && |s.encoded| == LAYERS && (forall l | 0 <= l < LAYERS :: s.encoded[l] == FramesUsing(plan, {l}, i))
    && s.decoded == [i, i]
    && s.creates == Starts(plan, i)
    && s.ingressDecodes == if plan.role == Relay then FramesUsing(plan, {0, 1, 2}, i) else 0
  }

  ghost function PreviousLayer(plan: Plan, i: nat, c: nat): int
    requires WellFormed(plan) && i <= Frames(plan) && c < 2
  {
    if i == 0 then -1 else DemandAt(plan, i - 1)[c]
  }

  ghost predicate Carried(plan: Plan, i: nat, s: Progress)
    requires WellFormed(plan) && i <= Frames(plan)
  {
    && |s.encoders| == LAYERS && Distinct(s.encoders, s.creates)
    && LiveLayers(s.encoders) == ActiveBefore(plan, i)
    && |s.previous| == 2 && (forall c | 0 <= c < 2 :: s.previous[c] == PreviousLayer(plan, i, c))
    && Received(plan, i, 0, s.first) && Received(plan, i, 1, s.second) && FedInput(plan, i, s.inputs)
    && (i > 0 ==> LastOf(plan, s.encoders, i, 0, s.first[i - 1]) && LastOf(plan, s.encoders, i, 1, s.second[i - 1]))
  }

  /** Encoders that stay active are neither replaced nor restarted. */
  ghost predicate Retained(before: seq<Slot>, managed: seq<Slot>, active: set<nat>) {
    && |before| == |managed| == LAYERS
    && forall l | 0 <= l < LAYERS && l in active && before[l].Live? :: managed[l] == before[l]
  }

  /** Whatever the source of a child's next packet, its chain continues or restarts at a key. */
  lemma ChildContinues(plan: Plan, i: nat, c: nat, before: seq<Slot>, managed: seq<Slot>, keyframes: set<nat>,
                       packets: seq<Packet>, p: Packet)
    requires WellFormed(plan) && i < Frames(plan) && c < 2
    requires Received(plan, i, c, packets)
    requires i > 0 ==> |before| == LAYERS && LastOf(plan, before, i, c, packets[i - 1])
    requires Retained(before, managed, ActiveAt(plan, i))
    requires Supplies(plan, i, managed, keyframes, DemandAt(plan, i)[c], p)
    requires Switches(plan, i, c) ==> p.key
    ensures Received(plan, i + 1, c, packets + [p])
  {
    var layer := DemandAt(plan, i)[c];
    DemandIsServed(plan.role, plan.policy, DemandAt(plan, i), c);
    if !Switches(plan, i, c) {
      if Relayed(plan.role, layer) {
        IngressContinues(plan, i);
      }
      assert p.key || Follows(packets[i - 1], p);
    }
  }

  lemma CountsContinue(plan: Plan, i: nat, s: Progress, s': Progress)
    requires WellFormed(plan) && i < Frames(plan) && Counted(plan, i, s)
    requires |s'.encoded| == LAYERS
    requires forall l | 0 <= l < LAYERS :: s'.encoded[l] == s.encoded[l] + if l in ActiveAt(plan, i) then 1 else 0
    requires s'.decoded == [s.decoded[0] + 1, s.decoded[1] + 1]
    requires s'.creates == s.creates + Gained(ActiveAt(plan, i), ActiveBefore(plan, i), LAYERS)
    requires s'.ingressDecodes == s.ingressDecodes + if plan.role == Relay && ActiveAt(plan, i) != {} then 1 else 0
    ensures Counted(plan, i + 1, s')
  {
    var active := ActiveAt(plan, i);
    DemandIsServed(plan.role, plan.policy, DemandAt(plan, i), 0);
    assert active * {0, 1, 2} == active;
    forall l | 0 <= l < LAYERS ensures s'.encoded[l] == FramesUsing(plan, {l}, i + 1) {
      assert l in active ==> l in active * {l};
    }
  }

  /** The packet offered to a demanded layer comes from that layer's own source. */
  lemma OfferedIsSupplied(plan: Plan, i: nat, c: nat, managed: seq<Slot>, keyframes: set<nat>,
                          unasked: (nat, nat) -> bool, outputs: map<nat, Packet>)
    requires WellFormed(plan) && i < Frames(plan) && c < 2 && |managed| == LAYERS
    requires LiveLayers(managed) == ActiveAt(plan, i)
    requires forall l | l in ActiveAt(plan, i) :: l < LAYERS && l in outputs
    requires forall l | l in ActiveAt(plan, i) && !Relayed(plan.role, l) ::
      outputs[l] == Packet(i, l, Encoder(managed[l].id), managed[l].count,
                           l in keyframes || unasked(managed[l].id, managed[l].count))
    requires plan.role == Relay ==> SOURCE_LAYER in outputs && outputs[SOURCE_LAYER] == IngressPacket(plan, i)
    ensures DemandAt(plan, i)[c] in outputs
    ensures Supplies(plan, i, managed, keyframes, DemandAt(plan, i)[c], outputs[DemandAt(plan, i)[c]])
  {
    DemandIsServed(plan.role, plan.policy, DemandAt(plan, i), c);
  }

  /** The layers whose first packet a child gets now, and those of new encoders, ask for a key. */
  function Keyframes(started: set<nat>, previous: seq<int>, demand: Demand): (keyframes: set<nat>)
    requires |previous| == 2
    ensures started <= keyframes
    ensures forall c | 0 <= c < 2 && previous[c] != demand[c] :: demand[c] in keyframes
  {
    started
      + (if previous[0] != demand[0] then {demand[0]} else {})
      + (if previous[1] != demand[1] then {demand[1]} else {})
  }

  /** A switch fails exactly when it meets a forwarded packet that is no key. */
  lemma SwitchFailsIffLate(plan: Plan, i: nat, s: Progress, managed: seq<Slot>, keyframes: set<nat>, p: seq<Packet>)
    requires WellFormed(plan) && i < Frames(plan) && Carried(plan, i, s) && |managed| == LAYERS && |p| == 2
    requires forall c | 0 <= c < 2 :: Supplies(plan, i, managed, keyframes, DemandAt(plan, i)[c], p[c])
    requires forall c | 0 <= c < 2 && s.previous[c] != DemandAt(plan, i)[c] :: DemandAt(plan, i)[c] in keyframes
    ensures LateSwitch(plan, i) <==> exists c | 0 <= c < 2 :: s.previous[c] != DemandAt(plan, i)[c] && !p[c].key
  {
    forall c | 0 <= c < 2
      ensures s.previous[c] != DemandAt(plan, i)[c] && !p[c].key
         <==> Switches(plan, i, c) && Relayed(plan.role, DemandAt(plan, i)[c]) && !IngressKey(plan, i)
    {
      assert s.previous[c] == PreviousLayer(plan, i, c);
    }
  }

  lemma InputFed(plan: Plan, i: nat, inputs: seq<Option<Packet>>, input: Option<Packet>)
    requires WellFormed(plan) && i < Frames(plan) && FedInput(plan, i, inputs)
    requires input == if plan.role == Relay && ActiveAt(plan, i) != {} then Some(IngressPacket(plan, i)) else None
    ensures FedInput(plan, i + 1, inputs + [input])
  {
  }

  lemma FrameContinues(plan: Plan, i: nat, s: Progress, managed: seq<Slot>, keyframes: set<nat>, p: seq<Packet>,
                       s': Progress)
    requires WellFormed(plan) && i < Frames(plan) && Carried(plan, i, s) && |p| == 2
    requires Retained(s.encoders, managed, ActiveAt(plan, i))
    requires LiveLayers(managed) == ActiveAt(plan, i) && Distinct(managed, s'.creates)
    requires forall c | 0 <= c < 2 :: Supplies(plan, i, managed, keyframes, DemandAt(plan, i)[c], p[c])
    requires forall c | 0 <= c < 2 && s.previous[c] != DemandAt(plan, i)[c] :: p[c].key
    requires |s'.encoders| == LAYERS && forall l | 0 <= l < LAYERS ::
      s'.encoders[l] == if managed[l].Live? then managed[l].(count := managed[l].count + 1) else managed[l]
    requires s'.previous == DemandAt(plan, i)
    requires s'.first == s.first + [p[0]] && s'.second == s.second + [p[1]]
    requires FedInput(plan, i + 1, s'.inputs)
    ensures Carried(plan, i + 1, s')
  {
    forall c | 0 <= c < 2 && Switches(plan, i, c) ensures p[c].key {
      assert s.previous[c] == PreviousLayer(plan, i, c);
    }
    ChildContinues(plan, i, 0, s.encoders, managed, keyframes, s.first, p[0]);
    ChildContinues(plan, i, 1, s.encoders, managed, keyframes, s.second, p[1]);
    assert LiveLayers(s'.encoders) == LiveLayers(managed);
  }

  /** Encoder management and encoding of frame `i`: what each child is offered, and by which encoders. */
  method Offer(plan: Plan, i: nat, unasked: (nat, nat) -> bool, s: Progress)
    returns (ghost managed: seq<Slot>, encoders: seq<Slot>, encoded: seq<nat>, creates: nat,
             keyframes: set<nat>, outputs: map<nat, Packet>)
    requires WellFormed(plan) && i < Frames(plan) && Carried(plan, i, s) && |s.encoded| == LAYERS
    ensures |managed| == LAYERS && Retained(s.encoders, managed, ActiveAt(plan, i))
    ensures LiveLayers(managed) == ActiveAt(plan, i) && Distinct(managed, creates)
    ensures |encoders| == LAYERS && forall l | 0 <= l < LAYERS ::
      encoders[l] == if managed[l].Live? then managed[l].(count := managed[l].count + 1) else managed[l]
    ensures |encoded| == LAYERS && forall l | 0 <= l < LAYERS ::
      encoded[l] == s.encoded[l] + if l in ActiveAt(plan, i) then 1 else 0
    ensures creates == s.creates + Gained(ActiveAt(plan, i), ActiveBefore(plan, i), LAYERS)
    ensures forall c | 0 <= c < 2 && s.previous[c] != DemandAt(plan, i)[c] :: DemandAt(plan, i)[c] in keyframes
    ensures forall c | 0 <= c < 2 ::
      && DemandAt(plan, i)[c] in outputs
      && Supplies(plan, i, managed, keyframes, DemandAt(plan, i)[c], outputs[DemandAt(plan, i)[c]])
  {
    hide Supplies, Distinct, Gained, Received, FedInput, LastOf, IngressPacket;
    PhaseInTrace(plan, i);
    var demand := plan.trace[i / plan.phaseFrames];
    var active := ActiveLayers(plan.role, plan.policy, demand);
    DemandIsServed(plan.role, plan.policy, demand, 0);
    var slots, created, started := Manage(active, s.encoders, s.creates);
    managed, creates := slots, created;
    keyframes := Keyframes(started, s.previous, demand);
    encoders, encoded, outputs := EncodeActive(i, active, keyframes, unasked, slots, s.encoded);
    if plan.role == Relay {
      outputs := outputs[SOURCE_LAYER := IngressPacket(plan, i)];
    }
    OfferedIsSupplied(plan, i, 0, managed, keyframes, unasked, outputs);
    OfferedIsSupplied(plan, i, 1, managed, keyframes, unasked, outputs);
  }

  method RunFrame(plan: Plan, i: nat, unasked: (nat, nat) -> bool, s: Progress)
    returns (failure: Option<Outcome>, s': Progress)
    requires WellFormed(plan) && i < Frames(plan) && Carried(plan, i, s) && Counted(plan, i, s)
    ensures failure.Some? ==> failure.value == NotRecoveryFrame(i) && LateSwitch(plan, i)
    ensures failure.None? ==> !LateSwitch(plan, i) && Carried(plan, i + 1, s') && Counted(plan, i + 1, s')
  {
    hide FedInput, Received, LastOf, Supplies, Distinct, IngressPacket, Gained, LateSwitch, Retained;
    PhaseInTrace(plan, i);
    var demand := plan.trace[i / plan.phaseFrames];
    var active := ActiveLayers(plan.role, plan.policy, demand);
    ghost var managed;
    var encoders, encoded, creates, keyframes, outputs;
    managed, encoders, encoded, creates, keyframes, outputs := Offer(plan, i, unasked, s);
    SwitchFailsIffLate(plan, i, s, managed, keyframes, [outputs[demand[0]], outputs[demand[1]]]);
    var packets;
    failure, packets := Deliver(i, demand, s.previous, outputs);
    s' := s;
    if failure.None? {
      var input := if plan.role == Relay && active != {} then Some(IngressPacket(plan, i)) else None;
      s' := Progress(encoders, demand, encoded, [s.decoded[0] + 1, s.decoded[1] + 1], creates,
                     s.ingressDecodes + (if input.Some? then 1 else 0),
                     s.first + [packets[0]], s.second + [packets[1]], s.inputs + [input]);
      InputFed(plan, i, s.inputs, input);
      FrameContinues(plan, i, s, managed, keyframes, packets, s');
      CountsContinue(plan, i, s, s');
    }
  }

  /**
   The whole run. An assert stops it at a child's switch exactly when the switch meets a forwarded
   packet that is no key; otherwise both children decode every frame and the counts have closed forms.
   */
  method Run(plan: Plan, unasked: (nat, nat) -> bool)
    returns (outcome: Outcome, first: seq<Packet>, second: seq<Packet>, inputs: seq<Option<Packet>>)
    requires WellFormed(plan)
    ensures !outcome.MissingEncoding?
    ensures outcome.NotRecoveryFrame? ==>
      && outcome.frame < Frames(plan) && LateSwitch(plan, outcome.frame)
      && forall i | 0 <= i < outcome.frame :: !LateSwitch(plan, i)
    ensures outcome.Completed? ==>
      && (forall i | 0 <= i < Frames(plan) :: !LateSwitch(plan, i))
      && Received(plan, Frames(plan), 0, first) && Received(plan, Frames(plan), 1, second)
      && FedInput(plan, Frames(plan), inputs)
    ensures outcome.Completed? ==>
      && outcome.decoded == [Frames(plan), Frames(plan)]
      && |outcome.encoded| == LAYERS
      && (forall l | 0 <= l < LAYERS ::
            outcome.encoded[l] == plan.phaseFrames * PhasesUsing(plan, {l}, |plan.trace|))
      && outcome.creates == ActivationEdges(plan, |plan.trace|)
      && outcome.ingressDecodes
         == if plan.role == Relay then plan.phaseFrames * PhasesUsing(plan, {0, 1, 2}, |plan.trace|) else 0
  {
    hide Carried, Counted, LateSwitch, PhasesUsing, ActivationEdges;
    var s := Progress([Closed, Closed, Closed], [-1, -1], [0, 0, 0], [0, 0], 0, 0, [], [], []);
    ProgressStarts(plan, s);
    for index := 0 to |plan.trace| * plan.phaseFrames
      invariant forall i | 0 <= i < index :: !LateSwitch(plan, i)
      invariant Carried(plan, index, s) && Counted(plan, index, s)
    {
      var failure, next := RunFrame(plan, index, unasked, s);
      if failure.Some? {
        return failure.value, s.first, s.second, s.inputs;
      }
      s := next;
    }
    outcome, first, second, inputs := Completed(s.encoded, s.decoded, s.creates, s.ingressDecodes), s.first, s.second, s.inputs;
    ProgressEnds(plan, s);
  }

  lemma ProgressStarts(plan: Plan, s: Progress)
    requires WellFormed(plan)
    requires s == Progress([Closed, Closed, Closed], [-1, -1], [0, 0, 0], [0, 0], 0, 0, [], [], [])
    ensures Carried(plan, 0, s) && Counted(plan, 0, s)
  {
  }

  lemma ProgressEnds(plan: Plan, s: Progress)
    requires WellFormed(plan) && Carried(plan, Frames(plan), s) && Counted(plan, Frames(plan), s)
    ensures Received(plan, Frames(plan), 0, s.first) && Received(plan, Frames(plan), 1, s.second)
    ensures FedInput(plan, Frames(plan), s.inputs)
    ensures s.decoded == [Frames(plan), Frames(plan)] && |s.encoded| == LAYERS
    ensures forall l | 0 <= l < LAYERS :: s.encoded[l] == plan.phaseFrames * PhasesUsing(plan, {l}, |plan.trace|)
    ensures s.creates == ActivationEdges(plan, |plan.trace|)
    ensures s.ingressDecodes
      == if plan.role == Relay then plan.phaseFrames * PhasesUsing(plan, {0, 1, 2}, |plan.trace|) else 0
  {
    hide PhasesUsing, FramesUsing, Starts, ActivationEdges, Received, FedInput;
    FramesUsingTotal(plan, {0, 1, 2});
    forall l | 0 <= l < LAYERS ensures s.encoded[l] == plan.phaseFrames * PhasesUsing(plan, {l}, |plan.trace|) {
      FramesUsingTotal(plan, {l});
    }
    StartsTotal(plan);
  }

  // ---------------------------------------------------------------- when the asserts hold

  /** Child `c` asks in phase `p` for another layer than in the phase before. */
  ghost predicate PhaseSwitches(plan: Plan, p: nat, c: nat)
    requires p < |plan.trace| && c < 2
  {
    p == 0 || plan.trace[p - 1][c] != plan.trace[p][c]
  }

  /** A relay child turns to the forwarded layer in a phase that starts inside an ingress GOP. */
  ghost predicate LatePhase(plan: Plan, p: nat)
    requires WellFormed(plan) && p < |plan.trace|
  {
    exists c: nat | c < 2 ::
      PhaseSwitches(plan, p, c) && Relayed(plan.role, plan.trace[p][c]) && !IngressKey(plan, p * plan.phaseFrames)
  }

  lemma SwitchesOnlyAtPhaseStarts(plan: Plan, p: nat, k: nat, c: nat)
    requires WellFormed(plan) && p < |plan.trace| && k < plan.phaseFrames && c < 2
    ensures p * plan.phaseFrames + k < Frames(plan)
    ensures Switches(plan, p * plan.phaseFrames + k, c) <==> k == 0 && PhaseSwitches(plan, p, c)
  {
    FrameInPhase(plan, p, k);
    if k > 0 {
      FrameInPhase(plan, p, k - 1);
    } else if p > 0 {
      FrameInPhase(plan, p - 1, plan.phaseFrames - 1);
      NextPhase(p - 1, plan.phaseFrames);
    }
  }

  /** An assert of `deliver` fires if and only if some phase of the trace is late, which a caller can see beforehand. */
  lemma FailsIffSomePhaseIsLate(plan: Plan)
    requires WellFormed(plan)
    ensures (exists i | 0 <= i < Frames(plan) :: LateSwitch(plan, i))
       <==> (exists p | 0 <= p < |plan.trace| :: LatePhase(plan, p))
  {
    hide Switches, PhaseSwitches, IngressKey, DemandAt, Relayed;
    var f := plan.phaseFrames;
    forall i | 0 <= i < Frames(plan) && LateSwitch(plan, i)
      ensures exists p | 0 <= p < |plan.trace| :: LatePhase(plan, p)
    {
      PhaseInTrace(plan, i);
      var p, k := i / f, i % f;
      assert i == p * f + k;
      var c: nat :| c < 2 && Switches(plan, i, c) && Relayed(plan.role, DemandAt(plan, i)[c]) && !IngressKey(plan, i);
      SwitchesOnlyAtPhaseStarts(plan, p, k, c);
      FrameInPhase(plan, p, k);
      assert i == p * f && LatePhase(plan, p);
    }
    forall p | 0 <= p < |plan.trace| && LatePhase(plan, p)
      ensures exists i | 0 <= i < Frames(plan) :: LateSwitch(plan, i)
    {
      var c: nat :| c < 2 && PhaseSwitches(plan, p, c) && Relayed(plan.role, plan.trace[p][c]) && !IngressKey(plan, p * f);
      SwitchesOnlyAtPhaseStarts(plan, p, 0, c);
      FrameInPhase(plan, p, 0);
      assert LateSwitch(plan, p * f + 0);
    }
  }

  lemma MultipleOfGop(p: nat, f: nat, n: nat)
    requires n > 0 && f % n == 0
    ensures (p * f) % n == 0
  {
    var m := f / n;
    assert f == m * n;
    assert p * f == (p * m) * n;
    QuotientIs(p * f, n, p * m, 0);
  }

  /** With phases of whole ingress GOPs no trace, role or policy makes an assert fail. */
  lemma AlignedPhasesNeverFail(plan: Plan, i: nat)
    requires WellFormed(plan) && plan.phaseFrames % |plan.ingress| == 0 && i < Frames(plan)
    ensures !LateSwitch(plan, i)
    ensures InputStarts(plan, i) ==> IngressKey(plan, i)
  {
    var f := plan.phaseFrames;
    PhaseInTrace(plan, i);
    var p, k := i / f, i % f;
    assert i == p * f + k;
    MultipleOfGop(p, f, |plan.ingress|);
    SwitchesOnlyAtPhaseStarts(plan, p, k, 0);
    SwitchesOnlyAtPhaseStarts(plan, p, k, 1);
    StartedInPhase(plan, p, k);
  }

  /** Whatever the phase length, the input decoder's chain holds iff each of its starts meets a key. */
  lemma InputDecodableIff(plan: Plan, inputs: seq<Option<Packet>>)
    requires WellFormed(plan) && FedInput(plan, Frames(plan), inputs)
    ensures SparseDecodable(inputs) <==> forall i | 0 <= i < Frames(plan) && InputStarts(plan, i) :: IngressKey(plan, i)
  {
    forall i | 0 <= i < Frames(plan) && inputs[i].Some?
      ensures InputStarts(plan, i) <==> i == 0 || inputs[i - 1].None?
      ensures inputs[i].value.key <==> IngressKey(plan, i)
      ensures i > 0 && inputs[i - 1].Some? && !IngressKey(plan, i) ==> Follows(inputs[i - 1].value, inputs[i].value)
    {
      if i > 0 {
        IngressContinues(plan, i);
      }
    }
    if forall i | 0 <= i < Frames(plan) && InputStarts(plan, i) :: IngressKey(plan, i) {
      assert SparseDecodable(inputs);
    }
    if SparseDecodable(inputs) {
      forall i | 0 <= i < Frames(plan) && InputStarts(plan, i) ensures IngressKey(plan, i) {
        assert inputs[i].Some?;
      }
    }
  }

  /** A relay starts to decode its input in a phase that starts inside an ingress GOP. */
  ghost predicate LateInputPhase(plan: Plan, p: nat)
    requires WellFormed(plan) && p < |plan.trace|
  {
    && plan.role == Relay && ActiveInPhase(plan, p) != {} && ActiveInPhase(plan, p - 1) == {}
    && !IngressKey(plan, p * plan.phaseFrames)
  }

  lemma InputStartsOnlyWithPhases(plan: Plan, p: nat, k: nat)
    requires WellFormed(plan) && p < |plan.trace| && k < plan.phaseFrames
    ensures p * plan.phaseFrames + k < Frames(plan)
    ensures InputStarts(plan, p * plan.phaseFrames + k)
      <==> k == 0 && plan.role == Relay && ActiveInPhase(plan, p) != {} && ActiveInPhase(plan, p - 1) == {}
  {
    hide ActiveAt, ActiveBefore, ActiveInPhase;
    StartedInPhase(plan, p, k);
  }

  /** The input decoder's chain breaks if and only if some phase starts it inside an ingress GOP. */
  lemma InputBreaksIffSomePhaseIsLate(plan: Plan, inputs: seq<Option<Packet>>)
    requires WellFormed(plan) && FedInput(plan, Frames(plan), inputs)
    ensures !SparseDecodable(inputs) <==> exists p | 0 <= p < |plan.trace| :: LateInputPhase(plan, p)
  {
    hide SparseDecodable, FedInput, InputStarts, IngressKey, ActiveInPhase;
    InputDecodableIff(plan, inputs);
    var f := plan.phaseFrames;
    if i: nat :| i < Frames(plan) && InputStarts(plan, i) && !IngressKey(plan, i) {
      PhaseInTrace(plan, i);
      assert i == i / f * f + i % f;
      InputStartsOnlyWithPhases(plan, i / f, i % f);
      assert LateInputPhase(plan, i / f);
    }
    if p: nat :| p < |plan.trace| && LateInputPhase(plan, p) {
      InputStartsOnlyWithPhases(plan, p, 0);
      assert InputStarts(plan, p * f + 0);
    }
  }

  /** The two conditions differ: here no switch is late, but the input decoder starts at a packet that is no key. */
  lemma LateInputWithoutLateSwitch()
    ensures var plan := Plan(Relay, Exact, [[2, 2], [0, 0]], 1, [true, false]);
      && WellFormed(plan) && (forall p | 0 <= p < |plan.trace| :: !LatePhase(plan, p))
      && LateInputPhase(plan, 1)
  {
    var plan := Plan(Relay, Exact, [[2, 2], [0, 0]], 1, [true, false]);
    assert 0 in ActiveInPhase(plan, 1) && ActiveInPhase(plan, 0) == {};
  }

  /** Phases that cut a GOP can fail: both children turn to the forwarded layer at its second packet. */
  lemma MisalignedPhaseCanFail()
    ensures var plan := Plan(Relay, Exact, [[0, 0], [2, 2]], 1, [true, false]);
      WellFormed(plan) && Frames(plan) == 2 && LateSwitch(plan, 1)
  {
    var plan := Plan(Relay, Exact, [[0, 0], [2, 2]], 1, [true, false]);
    assert DemandAt(plan, 0) == [0, 0] && DemandAt(plan, 1) == [2, 2];
    assert Switches(plan, 1, 0) && Relayed(plan.role, DemandAt(plan, 1)[0]) && !IngressKey(plan, 1);
  }

  // ---------------------------------------------------------------- the closed forms

  lemma {:induction false} RelayNeverEncodesSource(plan: Plan, p: nat)
    requires plan.role == Relay && p <= |plan.trace|
    ensures PhasesUsing(plan, {SOURCE_LAYER}, p) == 0
  {
    if p > 0 {
      RelayNeverEncodesSource(plan, p - 1);
      assert SOURCE_LAYER !in ActiveLayers(plan.role, plan.policy, plan.trace[p - 1]);
    }
  }

  lemma ExactWithinEnvelope(role: Role, demand: Demand)
    ensures ActiveLayers(role, Exact, demand) <= ActiveLayers(role, Envelope, demand)
  {
  }

  /**
   Which layers are encoded. The exact policy encodes the demanded ones and the envelope every one up
   to the highest demanded; a relay leaves out the source layer, and everything if it only forwards.
   */
  lemma ActiveLayersIff(role: Role, policy: Policy, demand: Demand, l: nat)
    ensures l in ActiveLayers(role, policy, demand) <==>
            && (if policy == Exact then l == demand[0] || l == demand[1] else l <= demand[0] || l <= demand[1])
            && (role == Relay ==> l != 2 && (demand[0] < 2 || demand[1] < 2))
  {
  }

  /** The layers gained are those encoded now and not before. */
  lemma {:induction false} GainedCounts(now: set<nat>, before: set<nat>, n: nat)
    ensures Gained(now, before, n) == |set l | l in now - before && l < n|
  {
    if n > 0 {
      GainedCounts(now, before, n - 1);
      var fewer, all := set l | l in now - before && l < n - 1, set l | l in now - before && l < n;
      assert all == if n - 1 in now - before then fewer + {n - 1} else fewer;
    } else {
      assert (set l | l in now - before && l < n) == {};
    }
  }

  /** A host encodes a layer in exactly the phases that demand it, or under the envelope policy it or one above. */
  lemma {:induction false} HostEncodesOnDemand(plan: Plan, l: nat, p: nat)
    requires plan.role == Host && p <= |plan.trace|
    ensures PhasesUsing(plan, {l}, p) == DemandingPhases(plan, l, p)
  {
    if p > 0 {
      HostEncodesOnDemand(plan, l, p - 1);
      MeetsOne(ActiveLayers(Host, plan.policy, plan.trace[p - 1]), l);
      ActiveLayersIff(Host, plan.policy, plan.trace[p - 1], l);
      BothAsk(plan.trace[p - 1], l);
      hide ActiveLayers;
    }
  }

  lemma BothAsk(d: Demand, l: nat)
    ensures l in d <==> l == d[0] || l == d[1]
    ensures (exists asked | asked in d :: l < asked) <==> l < d[0] || l < d[1]
  {
    assert d[0] in d && d[1] in d;
    assert forall asked | asked in d :: asked == d[0] || asked == d[1];
  }

  /** The first `p` phases in which some child asks for the layer, or under the envelope policy for it or one above. */
  ghost function DemandingPhases(plan: Plan, l: nat, p: nat): nat
    requires p <= |plan.trace|
  {
    if p == 0 then 0
    else
      var d := plan.trace[p - 1];
      DemandingPhases(plan, l, p - 1)
      + if l in d || (plan.policy == Envelope && exists asked | asked in d :: l < asked) then 1 else 0
  }

  /** The envelope policy encodes every layer at least as often as the exact policy. */
  lemma {:induction false} EnvelopeDominatesExact(plan: Plan, layers: set<nat>, p: nat)
    requires p <= |plan.trace|
    ensures PhasesUsing(plan.(policy := Exact), layers, p) <= PhasesUsing(plan.(policy := Envelope), layers, p)
  {
    if p > 0 {
      EnvelopeDominatesExact(plan, layers, p - 1);
      ExactWithinEnvelope(plan.role, plan.trace[p - 1]);
      var exact := ActiveLayers(plan.role, Exact, plan.trace[p - 1]);
      var envelope := ActiveLayers(plan.role, Envelope, plan.trace[p - 1]);
      assert exact * layers <= envelope * layers;
    }
  }

  /** The trace the worker runs, in phases of as many frames as the ingress has packets. */
  const TRACE: seq<Demand> := [[2, 2], [2, 0], [0, 0], [1, 1], [2, 2], [2, 0], [2, 2]]
  const PHASE_FRAMES := 32

  ghost function WorkerPlan(role: Role, policy: Policy, ingress: seq<bool>): Plan {
    Plan(role, policy, TRACE, PHASE_FRAMES, ingress)
  }

  ghost function ExpectedEncodes(role: Role, policy: Policy): seq<nat> {
    match (role, policy)
    case (Host, Exact) => [96, 32, 160]
    case (Host, Envelope) => [224, 192, 160]
    case (Relay, Exact) => [96, 32, 0]
    case (Relay, Envelope) => [128, 96, 0]
  }

  lemma PhasesUsingStep(plan: Plan, layers: set<nat>, p: nat)
    requires p < |plan.trace|
    ensures PhasesUsing(plan, layers, p + 1)
      == PhasesUsing(plan, layers, p) + Meets(ActiveLayers(plan.role, plan.policy, plan.trace[p]), layers)
  {
  }

  lemma NoPhases(plan: Plan, layers: set<nat>)
    ensures PhasesUsing(plan, layers, 0) == 0
  {
  }

  lemma MeetsOne(active: set<nat>, l: nat)
    ensures Meets(active, {l}) == if l in active then 1 else 0
  {
    assert l in active ==> l in active * {l};
  }

  lemma MeetsAny(active: set<nat>)
    requires active <= {0, 1, 2}
    ensures Meets(active, {0, 1, 2}) == if active == {} then 0 else 1
  {
  }

  /** The worker's literal expectations are instances of the closed forms. */
  lemma WorkerLayerCount(role: Role, policy: Policy, ingress: seq<bool>, l: nat)
    requires l < LAYERS
    ensures PHASE_FRAMES * PhasesUsing(WorkerPlan(role, policy, ingress), {l}, 7) == ExpectedEncodes(role, policy)[l]
  {
    hide PhasesUsing, Meets;
    var plan := WorkerPlan(role, policy, ingress);
    NoPhases(plan, {l});
    for p := 0 to 7
      invariant PhasesUsing(plan, {l}, p) == UsesSoFar(role, policy, l)[p]
    {
      PhasesUsingStep(plan, {l}, p);
      MeetsOne(ActiveLayers(role, policy, TRACE[p]), l);
    }
  }

  ghost function UsesSoFar(role: Role, policy: Policy, l: nat): (counts: seq<nat>)
    requires l < LAYERS
    ensures |counts| == 8
  {
    match l
    case 0 =>
      if policy == Exact then [0, 0, 1, 2, 2, 2, 3, 3]
      else if role == Host then [0, 1, 2, 3, 4, 5, 6, 7] else [0, 0, 1, 2, 3, 3, 4, 4]
    case 1 =>
      if policy == Exact then [0, 0, 0, 0, 1, 1, 1, 1]
      else if role == Host then [0, 1, 2, 2, 3, 4, 5, 6] else [0, 0, 1, 1, 2, 2, 3, 3]
    case _ =>
      if role == Host then [0, 1, 2, 2, 2, 3, 4, 5] else [0, 0, 0, 0, 0, 0, 0, 0]
  }

  lemma WorkerTotals(policy: Policy, ingress: seq<bool>)
    ensures PHASE_FRAMES * |TRACE| == 224
    ensures PHASE_FRAMES * PhasesUsing(WorkerPlan(Relay, policy, ingress), {0, 1, 2}, 7) == 128
  {
    var plan := WorkerPlan(Relay, policy, ingress);
    var busy := [0, 0, 1, 2, 3, 3, 4, 4];
    for p := 0 to 7
      invariant PhasesUsing(plan, {0, 1, 2}, p) == busy[p]
    {
      PhasesUsingStep(plan, {0, 1, 2}, p);
      DemandIsServed(Relay, policy, TRACE[p], 0);
      MeetsAny(ActiveLayers(Relay, policy, TRACE[p]));
      assert 0 in TRACE[p] || 1 in TRACE[p] ==> TRACE[p][1] in ActiveLayers(Relay, policy, TRACE[p]);
    }
  }
}
