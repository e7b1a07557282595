/**
 The laboratory capture parser of scripts/network-lab/packets.ts, over bytes, and the flow
 checks on its result. Times are whole microseconds.
 */
module PcapFlows {
  import opened Common
  import Text

  function U8(data: Bytes, i: nat): (v: nat)
    requires i < |data|
    ensures v < 0x100
  {
    data[i]
  }

  function U16(data: Bytes, i: nat): (v: nat)
    requires i + 2 <= |data|
    ensures v < 0x1_0000
  {
    U8(data, i) * 0x100 + U8(data, i + 1)
  }

  function U32(data: Bytes, i: nat): (v: nat)
    requires i + 4 <= |data|
    ensures v < 0x1_0000_0000
  {
    U16(data, i) * 0x1_0000 + U16(data, i + 2)
  }

  function U32LE(data: Bytes, i: nat): (v: nat)
    requires i + 4 <= |data|
    ensures v < 0x1_0000_0000
  {
    U8(data, i) + U8(data, i + 1) * 0x100 + U8(data, i + 2) * 0x1_0000 + U8(data, i + 3) * 0x100_0000
  }

  // ---------------------------------------------------------------- flows and their keys

  datatype Address = V4(octets: seq<nat>) | V6(groups: seq<nat>)

  datatype Kind = Rtp | Rtcp | Stun | Other

  datatype FlowKey = FlowKey(source: Address, destination: Address, sourcePort: nat, destinationPort: nat, kind: Kind)

  predicate WellFormedAddress(a: Address) {
    match a
    case V4(octets) => |octets| == 4
    case V6(groups) => |groups| == 8
  }

  predicate WellFormedKey(k: FlowKey) {
    WellFormedAddress(k.source) && WellFormedAddress(k.destination)
  }

  /** Numbers in decimal or hexadecimal, joined by a separator. */
  function Join(numbers: seq<nat>, hex: bool, separator: char): string
    requires numbers != []
  {
    if |numbers| == 1 then Text.Digits(numbers[0], hex)
    else Text.Digits(numbers[0], hex) + [separator] + Join(numbers[1..], hex, separator)
  }

  function AddressText(a: Address): string
    requires WellFormedAddress(a)
  {
    match a
    case V4(octets) => Join(octets, false, '.')
    case V6(groups) => Join(groups, true, ':')
  }

  function KindText(kind: Kind): string {
    match kind
    case Rtp => "rtp"
    case Rtcp => "rtcp"
    case Stun => "stun"
    case Other => "other"
  }

  /** The textual map key of a flow. */
  function KeyText(k: FlowKey): string
    requires WellFormedKey(k)
  {
    AddressText(k.source) + ":" + Text.Digits(k.sourcePort, false) + ">" +
    AddressText(k.destination) + ":" + Text.Digits(k.destinationPort, false) + "/" + KindText(k.kind)
  }

  lemma Regroup(s: string, c: char, w: string, e: char, x: string)
    ensures (s + [c] + w) + [e] + x == s + [c] + (w + [e] + x)
  {
  }

  lemma {:induction false} JoinedTokens(a: seq<nat>, b: seq<nat>, hex: bool, separator: char, end: char, x: string, y: string)
    requires a != [] && |a| == |b| && separator !in Text.DIGITS && end !in Text.DIGITS
    requires Join(a, hex, separator) + [end] + x == Join(b, hex, separator) + [end] + y
    ensures a == b && x == y
  {
    hide Text.Digits;
    var s, t := Text.Digits(a[0], hex), Text.Digits(b[0], hex);
    if |a| == 1 {
      Text.TokenEnds(s, end, x, t, end, y);
    } else {
      var u, v := Join(a[1..], hex, separator), Join(b[1..], hex, separator);
      Regroup(s, separator, u, end, x);
      Regroup(t, separator, v, end, y);
      Text.TokenEnds(s, separator, u + [end] + x, t, separator, v + [end] + y);
      JoinedTokens(a[1..], b[1..], hex, separator, end, x, y);
    }
    Text.DigitsInjective(a[0], b[0], hex);
    assert a == [a[0]] + a[1..] && b == [b[0]] + b[1..];
  }

  lemma AddressEnds(a: Address, b: Address, x: string, y: string)
    requires WellFormedAddress(a) && WellFormedAddress(b)
    requires AddressText(a) + [':'] + x == AddressText(b) + [':'] + y
    ensures a == b && x == y
  {
    hide Join;
    match (a, b)
    case (V4(m), V4(n)) => JoinedTokens(m, n, false, '.', ':', x, y);
    case (V6(m), V6(n)) => JoinedTokens(m, n, true, ':', ':', x, y);
    case (V4(m), V6(n)) => FamiliesDiffer(m, n, x, y);
    case (V6(m), V4(n)) => FamiliesDiffer(n, m, y, x);
  }

  lemma FamiliesDiffer(m: seq<nat>, n: seq<nat>, x: string, y: string)
    requires |m| == 4 && |n| == 8
    ensures Join(m, false, '.') + [':'] + x != Join(n, true, ':') + [':'] + y
  {
    hide Text.Digits;
    var s, t := Text.Digits(m[0], false), Text.Digits(n[0], true);
    var u, v := Join(m[1..], false, '.'), Join(n[1..], true, ':');
    Regroup(s, '.', u, ':', x);
    Regroup(t, ':', v, ':', y);
    if Join(m, false, '.') + [':'] + x == Join(n, true, ':') + [':'] + y {
      Text.TokenEnds(s, '.', u + [':'] + x, t, ':', v + [':'] + y);
    }
  }

  lemma KindTextInjective(a: Kind, b: Kind)
    requires KindText(a) == KindText(b)
    ensures a == b
  {
  }

  /** The part of a key after its source address. */
  function AfterSource(k: FlowKey): string
    requires WellFormedKey(k)
  {
    Text.Digits(k.sourcePort, false) + ['>'] + (AddressText(k.destination) + [':'] + AfterDestination(k))
  }

  function AfterDestination(k: FlowKey): string {
    Text.Digits(k.destinationPort, false) + ['/'] + KindText(k.kind)
  }

  lemma KeyTextParts(k: FlowKey)
    requires WellFormedKey(k)
    ensures KeyText(k) == AddressText(k.source) + [':'] + AfterSource(k)
  {
    hide Text.Digits, AddressText, KindText;
    var s, p, d, q, e := AddressText(k.source), Text.Digits(k.sourcePort, false), AddressText(k.destination),
      Text.Digits(k.destinationPort, false), KindText(k.kind);
    Regroup5(s, p, d, q, e);
  }

  lemma Regroup5(s: string, p: string, d: string, q: string, e: string)
    ensures s + ":" + p + ">" + d + ":" + q + "/" + e == s + [':'] + (p + ['>'] + (d + [':'] + (q + ['/'] + e)))
  {
  }

  /** Two flows share a map key only when every part of them is the same. */
  lemma KeyTextInjective(a: FlowKey, b: FlowKey)
    requires WellFormedKey(a) && WellFormedKey(b) && KeyText(a) == KeyText(b)
    ensures a == b
  {
    hide Text.Digits, AddressText, KindText, KeyText;
    KeyTextParts(a);
    KeyTextParts(b);
    AddressEnds(a.source, b.source, AfterSource(a), AfterSource(b));
    Text.TokenEnds(Text.Digits(a.sourcePort, false), '>', AddressText(a.destination) + [':'] + AfterDestination(a),
                   Text.Digits(b.sourcePort, false), '>', AddressText(b.destination) + [':'] + AfterDestination(b));
    Text.DigitsInjective(a.sourcePort, b.sourcePort, false);
    AddressEnds(a.destination, b.destination, AfterDestination(a), AfterDestination(b));
    Text.TokenEnds(Text.Digits(a.destinationPort, false), '/', KindText(a.kind),
                   Text.Digits(b.destinationPort, false), '/', KindText(b.kind));
    Text.DigitsInjective(a.destinationPort, b.destinationPort, false);
    KindTextInjective(a.kind, b.kind);
  }

  // ---------------------------------------------------------------- one frame, one record

  datatype Error =
    | NotAPcap | TruncatedRecord | InvalidLength | TruncatedEthernet | Fragmented | TruncatedUdp

  /** RTP and RTCP share a port; section 4 of RFC 5761 tells them apart by the second byte. */
  function Classify(frame: Bytes, payload: nat): Kind
    requires payload + 2 <= |frame|
  {
    if U8(frame, payload) / 0x40 == 2 then
      if 192 <= U8(frame, payload + 1) <= 223 then Rtcp else Rtp
    else if |frame| >= payload + 8 && U32(frame, payload + 4) == 0x2112a442 then Stun
    else Other
  }

  function V4At(frame: Bytes, i: nat): (a: Address)
    requires i + 4 <= |frame|
    ensures WellFormedAddress(a)
  {
    V4([U8(frame, i), U8(frame, i + 1), U8(frame, i + 2), U8(frame, i + 3)])
  }

  function V6At(frame: Bytes, i: nat): (a: Address)
    requires i + 16 <= |frame|
    ensures WellFormedAddress(a)
  {
    V6([U16(frame, i), U16(frame, i + 2), U16(frame, i + 4), U16(frame, i + 6),
        U16(frame, i + 8), U16(frame, i + 10), U16(frame, i + 12), U16(frame, i + 14)])
  }

  /** A UDP datagram's flow and the length its header claims. */
  datatype Datagram = Datagram(key: FlowKey, bytes: nat)

  function UdpAt(frame: Bytes, udp: nat, source: Address, destination: Address): Result<Datagram, Error> {
    if |frame| < udp + 10 then Err(TruncatedUdp)
    else Ok(Datagram(FlowKey(source, destination, U16(frame, udp), U16(frame, udp + 2), Classify(frame, udp + 8)),
                     U16(frame, udp + 4)))
  }

  /** The loop body on one frame: a datagram, nothing of interest, or an error. */
  function Inspect(frame: Bytes): (r: Result<Option<Datagram>, Error>)
    ensures r.Ok? && r.value.Some? ==> WellFormedKey(r.value.value.key)
  {
    if |frame| < 14 then Err(TruncatedEthernet)
    else if U16(frame, 12) == 0x0800 then
      if |frame| < 34 || U8(frame, 23) != 17 then Ok(None)
      else
        var ipLength := U8(frame, 14) % 16 * 4;
        if ipLength < 20 || U16(frame, 20) % 0x4000 != 0 then Err(Fragmented)
        else Found(UdpAt(frame, 14 + ipLength, V4At(frame, 26), V4At(frame, 30)))
    else if U16(frame, 12) == 0x86dd then
      if |frame| < 54 || U8(frame, 20) != 17 then Ok(None)
      else Found(UdpAt(frame, 54, V6At(frame, 22), V6At(frame, 38)))
    else Ok(None)
  }

  function Found(r: Result<Datagram, Error>): Result<Option<Datagram>, Error> {
    match r
    case Ok(d) => Ok(Some(d))
    case Err(e) => Err(e)
  }

  /** The times a caller wants, both ends included. */
  datatype Window = Everything | Within(start: int, end: int)

  predicate InWindow(time: int, window: Window) {
    window.Everything? || window.start <= time <= window.end
  }

  datatype Record = Record(seconds: nat, micros: nat, original: nat, frame: Bytes)

  function Time(record: Record): int {
    record.seconds * 1_000_000 + record.micros
  }

  /** The record at an offset. */
  function RecordAt(data: Bytes, offset: nat): (r: Result<Record, Error>)
    requires offset < |data|
    ensures r.Ok? ==> |r.value.frame| <= 96 && offset + 16 + |r.value.frame| <= |data|
  {
    if offset + 16 > |data| then Err(TruncatedRecord)
    else
      var size := U32LE(data, offset + 8);
      if size > 96 || offset + 16 + size > |data| then Err(InvalidLength)
      else Ok(Record(U32LE(data, offset), U32LE(data, offset + 4), U32LE(data, offset + 12),
                     data[offset + 16..offset + 16 + size]))
  }

  /** A datagram seen at a time. */
  datatype Sighting = Sighting(key: FlowKey, bytes: nat, time: int)

  /** What a record adds to the sightings. */
  function Sight(record: Record, window: Window): (r: Result<seq<Sighting>, Error>)
    ensures r.Ok? ==> |r.value| <= 1 && forall o | o in r.value :: WellFormedKey(o.key)
  {
    if !InWindow(Time(record), window) then Ok([])
    else
      match Inspect(record.frame)
      case Err(e) => Err(e)
      case Ok(None) => Ok([])
      case Ok(Some(d)) => Ok([Sighting(d.key, d.bytes, Time(record))])
  }

  /** The sightings of the records from an offset on, after those before it. */
  function Scan(data: Bytes, window: Window, offset: nat, seen: seq<Sighting>): Result<seq<Sighting>, Error>
    decreases |data| - offset
  {
    if offset >= |data| then Ok(seen)
    else
      match RecordAt(data, offset)
      case Err(e) => Err(e)
      case Ok(record) =>
        match Sight(record, window)
        case Err(e) => Err(e)
        case Ok(found) => Scan(data, window, offset + 16 + |record.frame|, seen + found)
  }

  // ---------------------------------------------------------------- grouping

  datatype Flow = Flow(key: FlowKey, packets: nat, bytes: nat, first: int, last: int)

  /** The distinct keys in order of first appearance. */
  function Keys(seen: seq<Sighting>): seq<FlowKey> {
    if seen == [] then []
    else
      var before, key := Keys(seen[..|seen| - 1]), seen[|seen| - 1].key;
      if key in before then before else before + [key]
  }

  /** The sightings of one flow, in file order. */
  function Group(seen: seq<Sighting>, key: FlowKey): seq<Sighting> {
    if seen == [] then []
    else Group(seen[..|seen| - 1], key) + if seen[|seen| - 1].key == key then [seen[|seen| - 1]] else []
  }

  function Bytesum(seen: seq<Sighting>): nat {
    if seen == [] then 0 else Bytesum(seen[..|seen| - 1]) + seen[|seen| - 1].bytes
  }

  /** The flow that a non-empty group amounts to. */
  function Summary(key: FlowKey, group: seq<Sighting>): Flow
    requires group != []
  {
    Flow(key, |group|, Bytesum(group), group[0].time, group[|group| - 1].time)
  }

  /** The flows are the groups of the sightings, one per key, in order of first appearance. */
  ghost predicate IsGroupBy(flows: seq<Flow>, seen: seq<Sighting>) {
    && |flows| == |Keys(seen)|
    && forall i | 0 <= i < |flows| ::
         Group(seen, Keys(seen)[i]) != [] && flows[i] == Summary(Keys(seen)[i], Group(seen, Keys(seen)[i]))
  }

  lemma SeenGrows(seen: seq<Sighting>, o: Sighting)
    ensures Keys(seen + [o]) == if o.key in Keys(seen) then Keys(seen) else Keys(seen) + [o.key]
    ensures forall key :: Group(seen + [o], key) == Group(seen, key) + if o.key == key then [o] else []
    ensures Bytesum(seen + [o]) == Bytesum(seen) + o.bytes
  {
  }

  lemma {:induction false} KeysAreDistinct(seen: seq<Sighting>)
    ensures forall i, j | 0 <= i < j < |Keys(seen)| :: Keys(seen)[i] != Keys(seen)[j]
  {
    if seen != [] {
      KeysAreDistinct(seen[..|seen| - 1]);
    }
  }

  lemma {:induction false} KeyIffGroup(seen: seq<Sighting>, key: FlowKey)
    ensures key in Keys(seen) <==> Group(seen, key) != []
    ensures forall o | o in Group(seen, key) :: o in seen && o.key == key
  {
    if seen != [] {
      KeyIffGroup(seen[..|seen| - 1], key);
    }
  }

  /** Entry `i` of a flow map. */
  ghost predicate EntryHolds(order: seq<string>, flows: map<string, Flow>, seen: seq<Sighting>, i: nat)
    requires i < |order| == |Keys(seen)|
  {
    var key := Keys(seen)[i];
    && WellFormedKey(key) && order[i] == KeyText(key) && order[i] in flows
    && Group(seen, key) != [] && flows[order[i]] == Summary(key, Group(seen, key))
  }

  /** The flow map of the loop: one entry per textual key, in insertion order. */
  ghost predicate IsFlowMap(order: seq<string>, flows: map<string, Flow>, seen: seq<Sighting>) {
    && |order| == |Keys(seen)|
    && (forall i | 0 <= i < |order| :: EntryHolds(order, flows, seen, i))
    && (forall text :: text in flows <==> text in order)
  }

  lemma TextFindsKey(order: seq<string>, flows: map<string, Flow>, seen: seq<Sighting>, key: FlowKey)
    requires IsFlowMap(order, flows, seen) && WellFormedKey(key)
    ensures KeyText(key) in flows <==> key in Keys(seen)
    ensures key in Keys(seen) ==> Group(seen, key) != [] && flows[KeyText(key)] == Summary(key, Group(seen, key))
  {
    hide KeyText, Keys, Group, WellFormedKey;
    if KeyText(key) in flows {
      var i :| 0 <= i < |order| && order[i] == KeyText(key);
      assert EntryHolds(order, flows, seen, i);
      KeyTextInjective(Keys(seen)[i], key);
    }
    if key in Keys(seen) {
      var i :| 0 <= i < |order| && Keys(seen)[i] == key;
      assert EntryHolds(order, flows, seen, i);
    }
  }

  /** Counting a sighting into a flow, new or not, keeps the flow the summary of its group. */
  lemma SummaryGrows(key: FlowKey, group: seq<Sighting>, o: Sighting, flow: Flow)
    requires flow == if group == [] then Flow(key, 0, 0, o.time, o.time) else Summary(key, group)
    ensures flow.(packets := flow.packets + 1, bytes := flow.bytes + o.bytes, last := o.time) == Summary(key, group + [o])
  {
    hide Bytesum;
    BytesumGrows(group, o);
    EmptyBytesum();
  }

  lemma BytesumGrows(group: seq<Sighting>, o: Sighting)
    ensures Bytesum(group + [o]) == Bytesum(group) + o.bytes
  {
  }

  lemma EmptyBytesum()
    ensures Bytesum([]) == 0
  {
  }

  lemma OtherGroupsStay(seen: seq<Sighting>, o: Sighting, key: FlowKey)
    requires key != o.key
    ensures Group(seen + [o], key) == Group(seen, key)
  {
  }

  lemma OtherEntryStays(order: seq<string>, flows: map<string, Flow>, seen: seq<Sighting>, o: Sighting, flow: Flow, i: nat)
    requires IsFlowMap(order, flows, seen) && WellFormedKey(o.key) && i < |order| && Keys(seen)[i] != o.key
    ensures var order' := if o.key in Keys(seen) then order else order + [KeyText(o.key)];
      |order'| == |Keys(seen + [o])| && EntryHolds(order', flows[KeyText(o.key) := flow], seen + [o], i)
  {
    hide KeyText, Keys, Group, Summary, WellFormedKey;
    SeenGrows(seen, o);
    var key := Keys(seen)[i];
    assert EntryHolds(order, flows, seen, i);
    OtherGroupsStay(seen, o, key);
    if KeyText(key) == KeyText(o.key) {
      KeyTextInjective(key, o.key);
    }
  }

  /** The last statements of the loop: one more sighting goes into its flow. */
  method Count(order: seq<string>, flows: map<string, Flow>, o: Sighting, ghost seen: seq<Sighting>)
    returns (order': seq<string>, flows': map<string, Flow>)
    requires IsFlowMap(order, flows, seen) && WellFormedKey(o.key)
    ensures IsFlowMap(order', flows', seen + [o])
  {
    hide KeyText, Keys, Group, Summary, WellFormedKey, IsFlowMap;
    var text := KeyText(o.key);
    var before := if text in flows then flows[text] else Flow(o.key, 0, 0, o.time, o.time);
    var flow := before.(packets := before.packets + 1, bytes := before.bytes + o.bytes, last := o.time);
    order' := if text in flows then order else order + [text];
    flows' := flows[text := flow];
    TextFindsKey(order, flows, seen, o.key);
    KeyIffGroup(seen, o.key);
    SummaryGrows(o.key, Group(seen, o.key), o, before);
    CountKeepsFlowMap(order, flows, seen, o, flow);
  }

  lemma CountKeepsFlowMap(order: seq<string>, flows: map<string, Flow>, seen: seq<Sighting>, o: Sighting, flow: Flow)
    requires IsFlowMap(order, flows, seen) && WellFormedKey(o.key)
    requires flow == Summary(o.key, Group(seen, o.key) + [o])
    ensures IsFlowMap(if o.key in Keys(seen) then order else order + [KeyText(o.key)], flows[KeyText(o.key) := flow], seen + [o])
  {
    hide KeyText, Keys, Group, Summary, WellFormedKey;
    var order' := if o.key in Keys(seen) then order else order + [KeyText(o.key)];
    var flows' := flows[KeyText(o.key) := flow];
    SeenGrows(seen, o);
    forall i | 0 <= i < |order'| ensures EntryHolds(order', flows', seen + [o], i) {
      if i < |order| && Keys(seen)[i] != o.key {
        OtherEntryStays(order, flows, seen, o, flow, i);
      } else if i < |order| {
        assert EntryHolds(order, flows, seen, i);
      }
    }
    forall text ensures text in flows' <==> text in order' {
      if text in flows && text != KeyText(o.key) {
        assert text in order;
      }
      if o.key in Keys(seen) {
        TextFindsKey(order, flows, seen, o.key);
      }
    }
  }

  const HEADER := 24

  predicate HasHeader(data: Bytes) {
    |data| >= HEADER && U32LE(data, 0) == 0xa1b2c3d4 && U32LE(data, 20) == 1
  }

  /** What the parser should see in a file. */
  function Sightings(data: Bytes, window: Window): Result<seq<Sighting>, Error> {
    if !HasHeader(data) then Err(NotAPcap) else Scan(data, window, HEADER, [])
  }

  /**
   `packetFlows`, on arbitrary bytes: every read is in bounds, the loop advances, and the result is
   the group-by of the sightings, or the error of the first record that has one.
   */
  method PacketFlows(data: Bytes, window: Window) returns (r: Result<seq<Flow>, Error>)
    ensures r.Ok? <==> Sightings(data, window).Ok?
    ensures r.Ok? ==> IsGroupBy(r.value, Sightings(data, window).value)
    ensures r.Err? ==> r.error == Sightings(data, window).error
  {
    hide Inspect, RecordAt, KeyText, Keys, Group, Summary, WellFormedKey, HasHeader;
    if !HasHeader(data) {
      return Err(NotAPcap);
    }
    var order: seq<string>, flows: map<string, Flow> := [], map[];
    ghost var seen: seq<Sighting> := [];
    EmptyFlowMap();
    var offset := HEADER;
    while offset < |data|
      invariant IsFlowMap(order, flows, seen)
      invariant Scan(data, window, offset, seen) == Scan(data, window, HEADER, [])
      decreases |data| - offset
    {
      var record := RecordAt(data, offset);
      if record.Err? {
        return Err(record.error);
      }
      offset := offset + 16 + |record.value.frame|;
      if !InWindow(Time(record.value), window) {
        assert seen + [] == seen;
        continue;
      }
      var datagram := Inspect(record.value.frame);
      if datagram.Err? {
        return Err(datagram.error);
      }
      if datagram.value.None? {
        assert seen + [] == seen;
        continue;
      }
      var o := Sighting(datagram.value.value.key, datagram.value.value.bytes, Time(record.value));
      order, flows := Count(order, flows, o, seen);
      seen := seen + [o];
    }
    assert forall i | 0 <= i < |order| :: order[i] in order;
    r := Ok(seq(|order|, i requires 0 <= i < |order| && order[i] in flows => flows[order[i]]));
    FlowMapIsGroupBy(order, flows, seen, r.value);
  }

  lemma EmptyFlowMap()
    ensures IsFlowMap([], map[], [])
  {
  }

  lemma FlowMapIsGroupBy(order: seq<string>, flows: map<string, Flow>, seen: seq<Sighting>, result: seq<Flow>)
    requires IsFlowMap(order, flows, seen)
    requires |result| == |order| && forall i | 0 <= i < |order| :: order[i] in flows && result[i] == flows[order[i]]
    ensures IsGroupBy(result, seen)
  {
    hide KeyText, Keys, Group, Summary, WellFormedKey;
    forall i | 0 <= i < |result|
      ensures Group(seen, Keys(seen)[i]) != [] && result[i] == Summary(Keys(seen)[i], Group(seen, Keys(seen)[i]))
    {
      assert EntryHolds(order, flows, seen, i);
    }
  }

  // ---------------------------------------------------------------- conservation and merging

  ghost function PacketsOf(seen: seq<Sighting>, keys: seq<FlowKey>): nat {
    if keys == [] then 0
    else PacketsOf(seen, keys[..|keys| - 1]) + |Group(seen, keys[|keys| - 1])|
  }

  ghost function BytesOf(seen: seq<Sighting>, keys: seq<FlowKey>): nat {
    if keys == [] then 0
    else BytesOf(seen, keys[..|keys| - 1]) + Bytesum(Group(seen, keys[|keys| - 1]))
  }

  lemma {:induction false} OneMoreSighting(seen: seq<Sighting>, o: Sighting, keys: seq<FlowKey>)
    requires forall i, j | 0 <= i < j < |keys| :: keys[i] != keys[j]
    ensures PacketsOf(seen + [o], keys) == PacketsOf(seen, keys) + if o.key in keys then 1 else 0
    ensures BytesOf(seen + [o], keys) == BytesOf(seen, keys) + if o.key in keys then o.bytes else 0
  {
    hide Group;
    if keys != [] {
      var before, key := keys[..|keys| - 1], keys[|keys| - 1];
      assert keys == before + [key] && key !in before;
      OneMoreSighting(seen, o, before);
      SeenGrows(seen, o);
      var group := Group(seen, key);
      assert (group + [o])[..|group|] == group && group + [] == group;
    }
  }

  lemma NothingSeen()
    ensures Keys([]) == [] && Bytesum([]) == 0 && forall seen :: PacketsOf(seen, []) == BytesOf(seen, []) == 0
  {
  }

  lemma OneMoreKey(seen: seq<Sighting>, keys: seq<FlowKey>, key: FlowKey)
    ensures PacketsOf(seen, keys + [key]) == PacketsOf(seen, keys) + |Group(seen, key)|
    ensures BytesOf(seen, keys + [key]) == BytesOf(seen, keys) + Bytesum(Group(seen, key))
  {
    hide Group, Bytesum;
    assert (keys + [key])[..|keys|] == keys;
  }

  /** Every sighting is counted in exactly one flow. */
  lemma {:induction false} FlowsConserve(seen: seq<Sighting>)
    ensures PacketsOf(seen, Keys(seen)) == |seen| && BytesOf(seen, Keys(seen)) == Bytesum(seen)
  {
    hide Group, Keys, Bytesum, PacketsOf, BytesOf;
    NothingSeen();
    if seen != [] {
      var before, o := seen[..|seen| - 1], seen[|seen| - 1];
      var keys := Keys(before);
      assert seen == before + [o];
      FlowsConserve(before);
      KeysAreDistinct(before);
      OneMoreSighting(before, o, keys);
      SeenGrows(before, o);
      KeyIffGroup(before, o.key);
      OneMoreKey(seen, keys, o.key);
      OneSighting(o);
      assert o.key !in keys ==> Group(seen, o.key) == [o];
    }
  }

  lemma OneSighting(o: Sighting)
    ensures Bytesum([o]) == o.bytes
  {
  }

  ghost function TotalPackets(flows: seq<Flow>): nat {
    if flows == [] then 0 else TotalPackets(flows[..|flows| - 1]) + flows[|flows| - 1].packets
  }

  ghost function TotalBytes(flows: seq<Flow>): nat {
    if flows == [] then 0 else TotalBytes(flows[..|flows| - 1]) + flows[|flows| - 1].bytes
  }

  lemma {:induction false} TotalsOfKeys(flows: seq<Flow>, seen: seq<Sighting>, keys: seq<FlowKey>)
    requires |flows| == |keys|
    requires forall i | 0 <= i < |flows| :: Group(seen, keys[i]) != [] && flows[i] == Summary(keys[i], Group(seen, keys[i]))
    ensures TotalPackets(flows) == PacketsOf(seen, keys) && TotalBytes(flows) == BytesOf(seen, keys)
  {
    hide Group;
    if flows != [] {
      var n := |flows| - 1;
      TotalsOfKeys(flows[..n], seen, keys[..n]);
    }
  }

  /** The flows have distinct keys, and their packets and bytes add up to those of the UDP records seen. */
  lemma FlowTotals(flows: seq<Flow>, seen: seq<Sighting>)
    requires IsGroupBy(flows, seen)
    ensures TotalPackets(flows) == |seen| && TotalBytes(flows) == Bytesum(seen)
    ensures forall i, j | 0 <= i < j < |flows| :: flows[i].key != flows[j].key
  {
    hide Keys, Group;
    TotalsOfKeys(flows, seen, Keys(seen));
    FlowsConserve(seen);
    KeysAreDistinct(seen);
  }

  lemma {:induction false} GroupsJoin(a: seq<Sighting>, b: seq<Sighting>, key: FlowKey)
    ensures Group(a + b, key) == Group(a, key) + Group(b, key)
  {
    if b == [] {
      assert a + b == a;
    } else {
      var n := |b| - 1;
      assert (a + b)[..|a| + n] == a + b[..n] && (a + b)[|a| + n] == b[n];
      GroupsJoin(a, b[..n], key);
    }
  }

  lemma {:induction false} BytesumJoins(a: seq<Sighting>, b: seq<Sighting>)
    ensures Bytesum(a + b) == Bytesum(a) + Bytesum(b)
  {
    if b == [] {
      assert a + b == a;
    } else {
      var n := |b| - 1;
      assert (a + b)[..|a| + n] == a + b[..n] && (a + b)[|a| + n] == b[n];
      BytesumJoins(a, b[..n]);
    }
  }

  /** Two flows of one key as one: the first time of the earlier, the last of the later. */
  function Merge(a: Flow, b: Flow): Flow {
    Flow(a.key, a.packets + b.packets, a.bytes + b.bytes, a.first, b.last)
  }

  lemma SummariesMerge(key: FlowKey, a: seq<Sighting>, b: seq<Sighting>)
    requires a + b != []
    ensures Summary(key, a + b) ==
      if b == [] then Summary(key, a) else if a == [] then Summary(key, b) else Merge(Summary(key, a), Summary(key, b))
  {
    BytesumJoins(a, b);
    assert b == [] ==> a + b == a;
    assert a == [] ==> a + b == b;
    hide Bytesum;
  }

  /** The group of a key in two lists of sightings, one after the other, amounts to the merge of its groups. */
  lemma FlowsMerge(a: seq<Sighting>, b: seq<Sighting>, key: FlowKey)
    requires key in Keys(a + b)
    ensures Group(a + b, key) != [] && (Group(a, key) != [] || Group(b, key) != [])
    ensures Summary(key, Group(a + b, key)) ==
      if Group(b, key) == [] then Summary(key, Group(a, key))
      else if Group(a, key) == [] then Summary(key, Group(b, key))
      else Merge(Summary(key, Group(a, key)), Summary(key, Group(b, key)))
  {
    hide Keys, Group, Summary;
    KeyIffGroup(a + b, key);
    GroupsJoin(a, b, key);
    SummariesMerge(key, Group(a, key), Group(b, key));
  }

  lemma {:induction false} KeysJoin(a: seq<Sighting>, b: seq<Sighting>)
    ensures Keys(a) <= Keys(a + b)
    ensures forall key :: key in Keys(a + b) <==> key in Keys(a) || key in Keys(b)
  {
    forall key ensures key in Keys(a + b) <==> key in Keys(a) || key in Keys(b) {
      KeyIffGroup(a + b, key);
      KeyIffGroup(a, key);
      KeyIffGroup(b, key);
      GroupsJoin(a, b, key);
    }
    if b == [] {
      assert a + b == a;
    } else {
      var n := |b| - 1;
      assert (a + b)[..|a| + n] == a + b[..n];
      KeysJoin(a, b[..n]);
    }
  }

  // ---------------------------------------------------------------- writing a capture

  function LE32(n: nat): (b: Bytes)
    requires n < 0x1_0000_0000
    ensures |b| == 4
  {
    [n % 0x100, n / 0x100 % 0x100, n / 0x100 / 0x100 % 0x100, n / 0x100 / 0x100 / 0x100]
  }

  ghost predicate Writable(record: Record) {
    && record.seconds < 0x1_0000_0000 && record.micros < 0x1_0000_0000 && record.original < 0x1_0000_0000
    && |record.frame| <= 96
  }

  ghost function EncodeRecord(record: Record): (b: Bytes)
    requires Writable(record)
    ensures |b| == 16 + |record.frame|
  {
    LE32(record.seconds) + LE32(record.micros) + LE32(|record.frame|) + LE32(record.original) + record.frame
  }

  ghost function EncodeRecords(records: seq<Record>): Bytes
    requires forall r | r in records :: Writable(r)
  {
    if records == [] then [] else EncodeRecord(records[0]) + EncodeRecords(records[1..])
  }

  /** A capture file: the magic number, sixteen bytes of no interest, the Ethernet link type, the records. */
  ghost function EncodeFile(filler: Bytes, records: seq<Record>): Bytes
    requires |filler| == 16 && forall r | r in records :: Writable(r)
  {
    LE32(0xa1b2c3d4) + filler + LE32(1) + EncodeRecords(records)
  }

  lemma LE32Digits(n: nat)
    requires n < 0x1_0000_0000
    ensures U32LE(LE32(n), 0) == n
  {
  }

  lemma LE32Inverts(n: nat, before: Bytes, after: Bytes)
    requires n < 0x1_0000_0000
    ensures |before + LE32(n) + after| >= |before| + 4
    ensures U32LE(before + LE32(n) + after, |before|) == n
  {
    hide LE32;
    LE32Digits(n);
    var data := before + LE32(n) + after;
    assert data[|before|] == LE32(n)[0] && data[|before| + 1] == LE32(n)[1]
        && data[|before| + 2] == LE32(n)[2] && data[|before| + 3] == LE32(n)[3];
  }

  /** Where the words of a record lie in what surrounds it. */
  lemma RecordRegrouped(before: Bytes, s: Bytes, m: Bytes, n: Bytes, o: Bytes, frame: Bytes, after: Bytes)
    ensures var data := before + (s + m + n + o + frame) + after;
      && data == before + s + (m + n + o + frame + after)
      && data == before + s + m + (n + o + frame + after)
      && data == before + s + m + n + (o + frame + after)
      && data == before + s + m + n + o + (frame + after)
  {
  }

  lemma RecordReadsBack(before: Bytes, record: Record, after: Bytes)
    requires Writable(record)
    ensures var data := before + EncodeRecord(record) + after;
      |before| < |data| && RecordAt(data, |before|) == Ok(record)
  {
    hide U32LE, LE32;
    var s, m, n, o := LE32(record.seconds), LE32(record.micros), LE32(|record.frame|), LE32(record.original);
    var data := before + EncodeRecord(record) + after;
    RecordRegrouped(before, s, m, n, o, record.frame, after);
    LE32Inverts(record.seconds, before, m + n + o + record.frame + after);
    LE32Inverts(record.micros, before + s, n + o + record.frame + after);
    LE32Inverts(|record.frame|, before + s + m, o + record.frame + after);
    LE32Inverts(record.original, before + s + m + n, record.frame + after);
    var header := before + s + m + n + o;
    assert |header| == |before| + 16 && data == header + (record.frame + after);
    assert data[|header|..|header| + |record.frame|] == record.frame;
  }

  /** The sightings of a record list, up to the first record with an error. */
  ghost function SightAll(records: seq<Record>, window: Window, seen: seq<Sighting>): Result<seq<Sighting>, Error> {
    if records == [] then Ok(seen)
    else
      match Sight(records[0], window)
      case Err(e) => Err(e)
      case Ok(found) => SightAll(records[1..], window, seen + found)
  }

  lemma {:induction false} ScanReadsRecords(before: Bytes, records: seq<Record>, window: Window, seen: seq<Sighting>)
    requires forall r | r in records :: Writable(r)
    ensures Scan(before + EncodeRecords(records), window, |before|, seen) == SightAll(records, window, seen)
    decreases |records|
  {
    hide Sight, RecordAt, EncodeRecord, Writable;
    if records != [] {
      var data := before + EncodeRecords(records);
      var first, rest := EncodeRecord(records[0]), EncodeRecords(records[1..]);
      RecordReadsBack(before, records[0], rest);
      assert before + (first + rest) == before + first + rest;
      match Sight(records[0], window)
      case Err(_) =>
      case Ok(found) =>
        ScanReadsRecords(before + first, records[1..], window, seen + found);
    }
  }

  /** Every capture of a record list parses to the group-by of exactly those records. */
  lemma FileReadsBack(filler: Bytes, records: seq<Record>, window: Window)
    requires |filler| == 16 && forall r | r in records :: Writable(r)
    ensures Sightings(EncodeFile(filler, records), window) == SightAll(records, window, [])
  {
    var magic, link, body := LE32(0xa1b2c3d4), LE32(1), EncodeRecords(records);
    var data := EncodeFile(filler, records);
    assert data == magic + filler + link + body;
    LE32Inverts(0xa1b2c3d4, [], filler + link + body);
    assert [] + magic + (filler + link + body) == data;
    LE32Inverts(1, magic + filler, body);
    ScanReadsRecords(magic + filler + link, records, window, []);
    hide LE32, U32LE, EncodeRecords, Scan, SightAll;
  }

  lemma {:induction false} SightAllAccumulates(records: seq<Record>, window: Window, seen: seq<Sighting>)
    ensures SightAll(records, window, seen) ==
      match SightAll(records, window, []) case Ok(s) => Ok(seen + s) case Err(e) => Err(e)
    decreases |records|
  {
    hide Sight;
    if records == [] {
      assert seen + [] == seen;
    } else if Sight(records[0], window).Ok? {
      var found := Sight(records[0], window).value;
      SightAllAccumulates(records[1..], window, seen + found);
      SightAllAccumulates(records[1..], window, [] + found);
      match SightAll(records[1..], window, [])
      case Err(_) =>
      case Ok(s) => assert seen + found + s == seen + ([] + found + s);
    }
  }

  /** A capture continued by more records sees what the two record lists show, one after the other. */
  lemma {:induction false} ContinuedCapture(a: seq<Record>, b: seq<Record>, window: Window, seen: seq<Sighting>)
    requires SightAll(a, window, seen).Ok?
    ensures SightAll(a + b, window, seen) == SightAll(b, window, SightAll(a, window, seen).value)
    decreases |a|
  {
    hide Sight;
    if a == [] {
      assert a + b == b;
    } else {
      assert (a + b)[1..] == a[1..] + b;
      ContinuedCapture(a[1..], b, window, seen + Sight(a[0], window).value);
    }
  }

  // ---------------------------------------------------------------- parsing a continued capture

  /** The flow of a key among parsed flows. */
  function Find(flows: seq<Flow>, key: FlowKey): Option<Flow> {
    if flows == [] then None
    else
      var last := flows[|flows| - 1];
      if last.key == key then Some(last) else Find(flows[..|flows| - 1], key)
  }

  lemma {:induction false} FindHolds(flows: seq<Flow>, key: FlowKey)
    ensures Find(flows, key).None? ==> forall f | f in flows :: f.key != key
    ensures Find(flows, key).Some? ==> Find(flows, key).value in flows && Find(flows, key).value.key == key
  {
    if flows != [] {
      var n := |flows| - 1;
      assert flows == flows[..n] + [flows[n]];
      FindHolds(flows[..n], key);
    }
  }

  /** Among parsed flows a key has the summary of its group, or nothing. */
  lemma FindsGroup(flows: seq<Flow>, seen: seq<Sighting>, key: FlowKey)
    requires IsGroupBy(flows, seen)
    ensures Find(flows, key) == if Group(seen, key) == [] then None else Some(Summary(key, Group(seen, key)))
  {
    hide Keys, Group, Find;
    FindHolds(flows, key);
    KeyIffGroup(seen, key);
    if key in Keys(seen) {
      var i :| 0 <= i < |Keys(seen)| && Keys(seen)[i] == key;
      assert flows[i] in flows && flows[i].key == key;
    }
    if Find(flows, key).Some? {
      var i :| 0 <= i < |flows| && flows[i] == Find(flows, key).value;
      assert flows[i].key == Keys(seen)[i];
    }
  }

  /** The flow of one key in two captures. */
  function Merged(a: Option<Flow>, b: Option<Flow>): Option<Flow> {
    if a.None? then b else if b.None? then a else Some(Merge(a.value, b.value))
  }

  /** Two parsed captures that both succeed: the capture of all records sees the sightings of both. */
  lemma AppendedCaptureReadsBoth(filler: Bytes, a: seq<Record>, b: seq<Record>, window: Window)
    requires |filler| == 16 && (forall r | r in a :: Writable(r)) && (forall r | r in b :: Writable(r))
    requires Sightings(EncodeFile(filler, a), window).Ok? && Sightings(EncodeFile(filler, b), window).Ok?
    ensures Sightings(EncodeFile(filler, a + b), window)
      == Ok(Sightings(EncodeFile(filler, a), window).value + Sightings(EncodeFile(filler, b), window).value)
  {
    hide Sightings, EncodeFile, SightAll, Writable;
    FileReadsBack(filler, a, window);
    FileReadsBack(filler, b, window);
    FileReadsBack(filler, a + b, window);
    ContinuedCapture(a, b, window, []);
    SightAllAccumulates(b, window, SightAll(a, window, []).value);
  }

  /**
   Parsing the capture of two record lists in a row gives, for every key, the merge of what parsing
   the two captures gives, the keys of the first in front.
   */
  lemma AppendedCaptureMergesFlows(filler: Bytes, a: seq<Record>, b: seq<Record>, window: Window,
                                   fa: seq<Flow>, fb: seq<Flow>, fab: seq<Flow>)
    requires |filler| == 16 && (forall r | r in a :: Writable(r)) && (forall r | r in b :: Writable(r))
    requires Sightings(EncodeFile(filler, a), window).Ok? && Sightings(EncodeFile(filler, b), window).Ok?
    requires IsGroupBy(fa, Sightings(EncodeFile(filler, a), window).value)
    requires IsGroupBy(fb, Sightings(EncodeFile(filler, b), window).value)
    requires Sightings(EncodeFile(filler, a + b), window).Ok? ==>
               IsGroupBy(fab, Sightings(EncodeFile(filler, a + b), window).value)
    ensures Sightings(EncodeFile(filler, a + b), window).Ok?
    ensures forall key :: Find(fab, key) == Merged(Find(fa, key), Find(fb, key))
    ensures |fa| <= |fab| && forall i | 0 <= i < |fa| :: fab[i].key == fa[i].key
  {
    hide Sightings, EncodeFile, Writable, IsGroupBy, Find;
    AppendedCaptureReadsBoth(filler, a, b, window);
    var sa, sb := Sightings(EncodeFile(filler, a), window).value, Sightings(EncodeFile(filler, b), window).value;
    forall key ensures Find(fab, key) == Merged(Find(fa, key), Find(fb, key)) {
      FoundIsMerged(fa, sa, fb, sb, fab, key);
    }
    KeysStayInFront(fa, sa, sb, fab);
  }

  lemma FoundIsMerged(fa: seq<Flow>, sa: seq<Sighting>, fb: seq<Flow>, sb: seq<Sighting>, fab: seq<Flow>, key: FlowKey)
    requires IsGroupBy(fa, sa) && IsGroupBy(fb, sb) && IsGroupBy(fab, sa + sb)
    ensures Find(fab, key) == Merged(Find(fa, key), Find(fb, key))
  {
    hide IsGroupBy, Group, Find, Summary;
    FindsGroup(fa, sa, key);
    FindsGroup(fb, sb, key);
    FindsGroup(fab, sa + sb, key);
    GroupsJoin(sa, sb, key);
    KeyIffGroup(sa + sb, key);
    if Group(sa + sb, key) != [] {
      FlowsMerge(sa, sb, key);
    }
  }

  lemma KeysStayInFront(fa: seq<Flow>, sa: seq<Sighting>, sb: seq<Sighting>, fab: seq<Flow>)
    requires IsGroupBy(fa, sa) && IsGroupBy(fab, sa + sb)
    ensures |fa| <= |fab| && forall i | 0 <= i < |fa| :: fab[i].key == fa[i].key
  {
    hide Keys, Group;
    KeysJoin(sa, sb);
    forall i | 0 <= i < |fa| ensures fab[i].key == fa[i].key {
      assert Keys(sa)[i] == Keys(sa + sb)[i];
    }
  }

  // ---------------------------------------------------------------- what is refused or passed over

  /** A capture starts with the little-endian magic number and the Ethernet link type, or is refused. */
  lemma HeaderIff(data: Bytes, window: Window)
    ensures HasHeader(data) <==> |data| >= 24 && data[..4] == [0xd4, 0xc3, 0xb2, 0xa1] && data[20..24] == [1, 0, 0, 0]
    ensures !HasHeader(data) ==> Sightings(data, window) == Err(NotAPcap)
  {
    if |data| >= 24 {
      assert data[..4] == [data[0], data[1], data[2], data[3]];
      assert data[20..24] == [data[20], data[21], data[22], data[23]];
    }
  }

  /** The size of a record is the little-endian word behind its two time words. */
  lemma RecordRefusedIff(data: Bytes, offset: nat)
    requires offset < |data|
    ensures RecordAt(data, offset) == Err(TruncatedRecord) <==> |data| < offset + 16
    ensures RecordAt(data, offset) == Err(InvalidLength) <==>
            && |data| >= offset + 16
            && (data[offset + 9] != 0 || data[offset + 10] != 0 || data[offset + 11] != 0
                || data[offset + 8] > 96 || |data| < offset + 16 + data[offset + 8])
  {
  }

  predicate EtherTypeIs(frame: Bytes, high: nat, low: nat)
    requires |frame| >= 14
  {
    frame[12] == high && frame[13] == low
  }

  /** A frame that is no UDP datagram of IPv4 or IPv6 is passed over, and one cut off before its type is an error. */
  lemma OtherFramesArePassed(frame: Bytes)
    ensures Inspect(frame) == Err(TruncatedEthernet) <==> |frame| < 14
    ensures Inspect(frame) == Ok(None) <==>
            && |frame| >= 14
            && (EtherTypeIs(frame, 8, 0) ==> |frame| < 34 || frame[23] != 17)
            && (EtherTypeIs(frame, 0x86, 0xdd) ==> |frame| < 54 || frame[20] != 17)
    ensures Inspect(frame) == Err(Fragmented) <==>
            && |frame| >= 34 && EtherTypeIs(frame, 8, 0) && frame[23] == 17
            && (frame[14] % 0x10 < 5 || frame[20] % 0x40 != 0 || frame[21] != 0)
  {
    hide V4At, V6At, Classify;
    if |frame| >= 14 {
      assert U16(frame, 12) == 0x0800 <==> EtherTypeIs(frame, 8, 0);
      assert U16(frame, 12) == 0x86dd <==> EtherTypeIs(frame, 0x86, 0xdd);
    }
  }

  /** Records outside the window, its ends included, are passed over unread; the others are read at their own time. */
  lemma WindowDecides(record: Record, window: Window)
    ensures var micros := record.seconds * 1_000_000 + record.micros;
      if window.Within? && (micros < window.start || micros > window.end) then Sight(record, window) == Ok([])
      else
        && (Sight(record, window).Err? <==> Inspect(record.frame).Err?)
        && (Inspect(record.frame).Ok? ==>
              Sight(record, window).value == match Inspect(record.frame).value {
                case None => []
                case Some(d) => [Sighting(d.key, d.bytes, micros)]
              })
  {
    hide Inspect;
  }

  // ---------------------------------------------------------------- the ends of a flow

  /** The first sighting of a key. */
  ghost predicate FirstOf(seen: seq<Sighting>, key: FlowKey, p: nat) {
    p < |seen| && seen[p].key == key && forall i | 0 <= i < p :: seen[i].key != key
  }

  ghost predicate LastOf(seen: seq<Sighting>, key: FlowKey, p: nat) {
    p < |seen| && seen[p].key == key && forall i | p < i < |seen| :: seen[i].key != key
  }

  lemma {:induction false} GroupEnds(seen: seq<Sighting>, key: FlowKey) returns (p: nat, q: nat)
    requires Group(seen, key) != []
    ensures FirstOf(seen, key, p) && Group(seen, key)[0] == seen[p]
    ensures LastOf(seen, key, q) && Group(seen, key)[|Group(seen, key)| - 1] == seen[q]
  {
    var n := |seen| - 1;
    var before := Group(seen[..n], key);
    if before != [] {
      p, q := GroupEnds(seen[..n], key);
    } else {
      KeyIffGroup(seen[..n], key);
      forall i | 0 <= i < n ensures seen[i].key != key {
        SeenKeyIsGrouped(seen[..n], i);
      }
      p, q := n, n;
    }
    if seen[n].key == key {
      q := n;
    }
  }

  lemma {:induction false} SeenKeyIsGrouped(seen: seq<Sighting>, i: nat)
    requires i < |seen|
    ensures Group(seen, seen[i].key) != []
  {
    if i < |seen| - 1 {
      SeenKeyIsGrouped(seen[..|seen| - 1], i);
    }
  }

  /** A flow's first and last times are those of its first and last sightings in file order. */
  lemma FlowTimes(flows: seq<Flow>, seen: seq<Sighting>, i: nat) returns (p: nat, q: nat)
    requires IsGroupBy(flows, seen) && i < |flows|
    ensures FirstOf(seen, flows[i].key, p) && flows[i].first == seen[p].time
    ensures LastOf(seen, flows[i].key, q) && flows[i].last == seen[q].time
  {
    p, q := GroupEnds(seen, Keys(seen)[i]);
  }

  /** A hop has feedback: at least 30 RTP packets one way, and more than one RTCP packet back between the same ports. */
  lemma FeedbackIff(flows: seq<Flow>, source: Address, destination: Address)
    ensures HasFeedback(flows, source, destination) <==>
            exists i, j | 0 <= i < |flows| && 0 <= j < |flows| ::
              && flows[i].key == FlowKey(source, destination, flows[i].key.sourcePort, flows[i].key.destinationPort, Rtp)
              && flows[j].key == FlowKey(destination, source, flows[i].key.destinationPort, flows[i].key.sourcePort, Rtcp)
              && flows[i].packets >= 30 && flows[j].packets >= 2 && flows[j].last > flows[i].first
  {
    if HasFeedback(flows, source, destination) {
      var f :| f in flows && MediaFrom(f, source, destination)
            && exists reply | reply in flows :: Answers(reply, f, source, destination);
      var reply :| reply in flows && Answers(reply, f, source, destination);
      var i :| 0 <= i < |flows| && flows[i] == f;
      var j :| 0 <= j < |flows| && flows[j] == reply;
      assert flows[i].key == f.key && flows[j].key == reply.key;
    }
    if i, j :| 0 <= i < |flows| && 0 <= j < |flows|
               && flows[i].key == FlowKey(source, destination, flows[i].key.sourcePort, flows[i].key.destinationPort, Rtp)
               && flows[j].key == FlowKey(destination, source, flows[i].key.destinationPort, flows[i].key.sourcePort, Rtcp)
               && flows[i].packets >= 30 && flows[j].packets >= 2 && flows[j].last > flows[i].first {
      assert MediaFrom(flows[i], source, destination) && Answers(flows[j], flows[i], source, destination);
    }
  }

  // ---------------------------------------------------------------- writing a datagram

  function BE16(n: nat): (b: Bytes)
    requires n < 0x1_0000
    ensures |b| == 2
  {
    [n / 0x100, n % 0x100]
  }

  /** A UDP header and what follows it. */
  ghost function UdpBytes(sourcePort: nat, destinationPort: nat, length: nat, checksum: Bytes, payload: Bytes): Bytes
    requires sourcePort < 0x1_0000 && destinationPort < 0x1_0000 && length < 0x1_0000 && |checksum| == 2
  {
    BE16(sourcePort) + BE16(destinationPort) + BE16(length) + checksum + payload
  }

  /** The STUN magic cookie, which lies behind the type and length of a message. */
  const COOKIE: Bytes := [0x21, 0x12, 0xa4, 0x42]

  /** The kind of a payload by its own bytes: version 2 and the packet type, or the cookie. */
  ghost function PayloadKind(payload: Bytes): Kind
    requires |payload| >= 2
  {
    if 0x80 <= payload[0] < 0xc0 && 192 <= payload[1] <= 223 then Rtcp
    else if 0x80 <= payload[0] < 0xc0 then Rtp
    else if |payload| >= 8 && payload[4..8] == COOKIE then Stun
    else Other
  }

  /** RTCP packets of types 200 to 207 are RTCP, and RTP packets of types 0 to 63 or 96 to 127 are RTP. */
  lemma MediaKinds(payload: Bytes)
    requires |payload| >= 2 && payload[0] / 0x40 == 2
    ensures 200 <= payload[1] <= 207 ==> PayloadKind(payload) == Rtcp
    ensures payload[1] % 0x80 < 64 || payload[1] % 0x80 >= 96 ==> PayloadKind(payload) == Rtp
  {
  }

  lemma U16At(before: Bytes, n: nat, after: Bytes)
    requires n < 0x1_0000
    ensures U16(before + BE16(n) + after, |before|) == n
  {
  }

  lemma ClassifyShifts(before: Bytes, payload: Bytes)
    requires |payload| >= 2
    ensures Classify(before + payload, |before|) == PayloadKind(payload)
  {
    var frame, at := before + payload, |before|;
    assert U8(frame, at) == payload[0] && U8(frame, at + 1) == payload[1];
    if |payload| >= 8 {
      CookieIff(frame, at + 4);
      assert frame[at + 4..at + 8] == payload[4..8];
    }
  }

  lemma CookieIff(frame: Bytes, i: nat)
    requires i + 4 <= |frame|
    ensures U32(frame, i) == 0x2112a442 <==> frame[i..i + 4] == COOKIE
  {
    var b := frame[i..i + 4];
    assert b[0] == frame[i] && b[1] == frame[i + 1] && b[2] == frame[i + 2] && b[3] == frame[i + 3];
  }

  lemma UdpReadsBack(before: Bytes, sourcePort: nat, destinationPort: nat, length: nat, checksum: Bytes, payload: Bytes,
                     source: Address, destination: Address)
    requires sourcePort < 0x1_0000 && destinationPort < 0x1_0000 && length < 0x1_0000 && |checksum| == 2
    ensures UdpAt(before + UdpBytes(sourcePort, destinationPort, length, checksum, payload), |before|, source, destination)
      == if |payload| < 2 then Err(TruncatedUdp)
         else Ok(Datagram(FlowKey(source, destination, sourcePort, destinationPort, PayloadKind(payload)), length))
  {
    hide U16, Classify;
    var s, d, l := BE16(sourcePort), BE16(destinationPort), BE16(length);
    var data := before + UdpBytes(sourcePort, destinationPort, length, checksum, payload);
    U16At(before, sourcePort, d + l + checksum + payload);
    assert before + s + (d + l + checksum + payload) == data;
    U16At(before + s, destinationPort, l + checksum + payload);
    assert before + s + d + (l + checksum + payload) == data;
    U16At(before + s + d, length, checksum + payload);
    assert before + s + d + l + (checksum + payload) == data;
    if |payload| >= 2 {
      ClassifyShifts(before + s + d + l + checksum, payload);
    }
    assert before + s + d + l + checksum + payload == data;
  }

  /** The Ethernet and IPv4 headers of an unfragmented UDP datagram; `words` is the IHL field. */
  ghost predicate Ipv4Headers(headers: Bytes, words: nat, source: Address, destination: Address) {
    && 5 <= words < 16 && |headers| == 14 + 4 * words
    && headers[12] == 8 && headers[13] == 0 && headers[14] % 0x10 == words
    && headers[20] % 0x40 == 0 && headers[21] == 0 && headers[23] == 17
    && source == V4([headers[26], headers[27], headers[28], headers[29]])
    && destination == V4([headers[30], headers[31], headers[32], headers[33]])
  }

  /** The Ethernet and IPv6 headers of a UDP datagram without extension headers. */
  ghost predicate Ipv6Headers(headers: Bytes, source: Address, destination: Address) {
    && |headers| == 54 && headers[12] == 0x86 && headers[13] == 0xdd && headers[20] == 17
    && IsV6(source, headers[22..38]) && IsV6(destination, headers[38..54])
  }

  /** The eight 16-bit groups of an address, each with its high byte first. */
  ghost predicate IsV6(a: Address, b: Bytes)
    requires |b| == 16
  {
    a.V6? && |a.groups| == 8 && forall g | 0 <= g < 8 :: a.groups[g] / 0x100 == b[2 * g] && a.groups[g] % 0x100 == b[2 * g + 1]
  }

  lemma V6AtIs(headers: Bytes, i: nat, a: Address)
    requires i + 16 <= |headers| && IsV6(a, headers[i..i + 16])
    ensures V6At(headers, i) == a
  {
    var b := headers[i..i + 16];
    forall g | 0 <= g < 8 ensures a.groups[g] == U16(headers, i + 2 * g) {
      assert b[2 * g] == headers[i + 2 * g] && b[2 * g + 1] == headers[i + 2 * g + 1];
    }
    assert V6At(headers, i).groups == a.groups;
  }

  /** What the headers say, read as the parser reads them. */
  lemma HeadersRead(headers: Bytes, words: nat, source: Address, destination: Address)
    ensures Ipv4Headers(headers, words, source, destination) ==>
      && U16(headers, 12) == 0x0800 && U8(headers, 14) % 16 == words && U16(headers, 20) % 0x4000 == 0
      && U8(headers, 23) == 17 && V4At(headers, 26) == source && V4At(headers, 30) == destination
    ensures Ipv6Headers(headers, source, destination) ==>
      && U16(headers, 12) == 0x86dd && U8(headers, 20) == 17
      && V6At(headers, 22) == source && V6At(headers, 38) == destination
  {
    if Ipv6Headers(headers, source, destination) {
      V6AtIs(headers, 22, source);
      V6AtIs(headers, 38, destination);
    }
    hide V6At, IsV6;
  }

  lemma PrefixReads(headers: Bytes, rest: Bytes, i: nat)
    ensures i < |headers| ==> U8(headers + rest, i) == U8(headers, i)
    ensures i + 2 <= |headers| ==> U16(headers + rest, i) == U16(headers, i)
    ensures i + 4 <= |headers| ==> V4At(headers + rest, i) == V4At(headers, i)
    ensures i + 16 <= |headers| ==> V6At(headers + rest, i) == V6At(headers, i)
  {
  }

  /**
   Every IPv4 or IPv6 UDP datagram is recognised, with its addresses, ports, length and kind, if it
   has two payload bytes; a shorter one is an error, which fails the whole parse.
   */
  lemma DatagramReadsBack(headers: Bytes, words: nat, source: Address, destination: Address,
                          sourcePort: nat, destinationPort: nat, length: nat, checksum: Bytes, payload: Bytes)
    requires Ipv4Headers(headers, words, source, destination) || Ipv6Headers(headers, source, destination)
    requires sourcePort < 0x1_0000 && destinationPort < 0x1_0000 && length < 0x1_0000 && |checksum| == 2
    ensures Inspect(headers + UdpBytes(sourcePort, destinationPort, length, checksum, payload))
      == if |payload| < 2 then Err(TruncatedUdp)
         else
           Ok(Some(Datagram(FlowKey(source, destination, sourcePort, destinationPort, PayloadKind(payload)), length)))
  {
    hide U8, U16, V4At, V6At, UdpAt, Classify, IsV6, PayloadKind;
    var rest := UdpBytes(sourcePort, destinationPort, length, checksum, payload);
    UdpReadsBack(headers, sourcePort, destinationPort, length, checksum, payload, source, destination);
    HeadersRead(headers, words, source, destination);
    PrefixReads(headers, rest, 12);
    PrefixReads(headers, rest, 14);
    PrefixReads(headers, rest, 20);
    PrefixReads(headers, rest, 22);
    PrefixReads(headers, rest, 23);
    PrefixReads(headers, rest, 26);
    PrefixReads(headers, rest, 30);
    PrefixReads(headers, rest, 38);
  }

  // ---------------------------------------------------------------- media with feedback

  /** What the flow checks read of a flow. */
  predicate MediaFrom(f: Flow, source: Address, destination: Address) {
    f.key.source == source && f.key.destination == destination && f.key.kind == Rtp && f.packets >= 30
  }

  predicate Answers(reply: Flow, f: Flow, source: Address, destination: Address) {
    && reply.key.kind == Rtcp && reply.key.source == destination && reply.key.destination == source
    && reply.key.sourcePort == f.key.destinationPort && reply.key.destinationPort == f.key.sourcePort
    && reply.packets > 1 && reply.last > f.first
  }

  /** `checkMediaFeedback` passes. */
  predicate HasFeedback(flows: seq<Flow>, source: Address, destination: Address) {
    exists f | f in flows :: MediaFrom(f, source, destination)
      && exists reply | reply in flows :: Answers(reply, f, source, destination)
  }

  /** Every hop of a path has media and matching reverse feedback. */
  ghost predicate PathHolds(flows: seq<Flow>, path: seq<Address>) {
    forall i | 0 <= i < |path| - 1 :: HasFeedback(flows, path[i], path[i + 1])
  }

  /** `checkMediaPath`: the direct path, else the first relay whose two hops hold, else an error. */
  method CheckMediaPath(flows: seq<Flow>, source: Address, destination: Address, relays: seq<Address>)
    returns (path: Option<seq<Address>>)
    ensures path.Some? ==>
      && PathHolds(flows, path.value)
      && (path.value == [source, destination] || exists r | r in relays :: path.value == [source, r, destination])
    ensures path.Some? && path.value != [source, destination] ==> !PathHolds(flows, [source, destination])
    ensures path.None? ==>
      && !PathHolds(flows, [source, destination])
      && forall r | r in relays :: !PathHolds(flows, [source, r, destination])
    ensures path.Some? && path.value != [source, destination] ==> exists i | 0 <= i < |relays| ::
      path.value == [source, relays[i], destination]
      && forall j | 0 <= j < i :: !PathHolds(flows, [source, relays[j], destination])
  {
    hide HasFeedback;
    PathIsHops(flows, [source, destination]);
    if HasFeedback(flows, source, destination) {
      return Some([source, destination]);
    }
    for i := 0 to |relays|
      invariant forall j | 0 <= j < i :: !PathHolds(flows, [source, relays[j], destination])
    {
      var relay := relays[i];
      PathIsHops(flows, [source, relay, destination]);
      if HasFeedback(flows, source, relay) && HasFeedback(flows, relay, destination) {
        return Some([source, relay, destination]);
      }
    }
    return None;
  }

  lemma PathIsHops(flows: seq<Flow>, path: seq<Address>)
    requires 2 <= |path| <= 3
    ensures PathHolds(flows, path) <==>
      HasFeedback(flows, path[0], path[1]) && (|path| == 3 ==> HasFeedback(flows, path[1], path[2]))
  {
    hide HasFeedback;
  }
}
