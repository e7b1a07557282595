/**
 The SMED framing between a gate and a native capture process, in scripts/app-media-gate.ts:
 the control writer and the incremental frame decoder.
 */
module CaptureFraming {
  import opened Common

  const HEADER := 32
  const VERSION := 2
  const VIDEO := 2
  const STATUS := 3
  const EMPTY_ALLOWED := 5
  const CONTROL := 7
  const MAGIC: Bytes := [83, 77, 69, 68]

  datatype Frame = Frame(kind: Byte, flags: Byte, payload: Bytes)

  function Limit(kind: Byte): nat {
    if kind == STATUS then 4 * 1024 else 4 * 1024 * 1024
  }

  // ---------------------------------------------------------------- bytes of one frame

  function BE32(n: nat): (b: Bytes)
    requires n < 0x1_0000_0000
    ensures |b| == 4
  {
    [n / 0x100 / 0x100 / 0x100, n / 0x100 / 0x100 % 0x100, n / 0x100 % 0x100, n % 0x100]
  }

  function Size(data: Bytes): (n: nat)
    requires |data| >= HEADER
    ensures n < 0x1_0000_0000
  {
    var a: nat, b: nat, c: nat, d: nat := data[28], data[29], data[30], data[31];
    ((a * 0x100 + b) * 0x100 + c) * 0x100 + d
  }

  function Zeros(): (b: Bytes)
    ensures |b| == 21 && forall i | 0 <= i < 21 :: b[i] == 0
  {
    seq(21, i => 0)
  }

  /** Magic, version, kind, flags, and zeros up to the length at byte 28. */
  function Header(kind: Byte, flags: Byte, size: nat): (b: Bytes)
    requires size < 0x1_0000_0000
    ensures |b| == HEADER
  {
    MAGIC + [VERSION, kind, flags] + Zeros() + BE32(size)
  }

  /** A frame on the wire. */
  function Encode(f: Frame): (b: Bytes)
    requires |f.payload| < 0x1_0000_0000
    ensures |b| == HEADER + |f.payload|
  {
    Header(f.kind, f.flags, |f.payload|) + f.payload
  }

  /** A frame the decoder accepts. */
  predicate Sendable(f: Frame) {
    |f.payload| <= Limit(f.kind) && (f.payload != [] || f.kind == EMPTY_ALLOWED)
  }

  /** The head of a buffer: too short, malformed, or a frame followed by the rest. */
  datatype Head = Short | Malformed | Whole(frame: Frame, rest: Bytes)

  /** The magic number as the decoder compares it: decoding as ASCII drops the high bit of each byte. */
  predicate IsMagic(data: Bytes)
    requires |data| >= 4
  {
    forall i | 0 <= i < 4 :: data[i] % 0x80 == MAGIC[i]
  }

  function Peek(data: Bytes): (h: Head)
    ensures h.Whole? ==> |h.rest| + HEADER <= |data|
    ensures h.Short? ==> |data| < HEADER + Limit(0)
  {
    if |data| < HEADER then Short
    else if !IsMagic(data) || data[4] != VERSION then Malformed
    else if (Size(data) == 0 && data[5] != EMPTY_ALLOWED) || Size(data) > Limit(data[5]) then Malformed
    else if |data| < HEADER + Size(data) then Short
    else Whole(Frame(data[5], data[6], data[HEADER..HEADER + Size(data)]), data[HEADER + Size(data)..])
  }

  lemma BE32Inverts(n: nat)
    requires n < 0x1_0000_0000
    ensures var b := BE32(n); var w: nat, x: nat, y: nat, z: nat := b[0], b[1], b[2], b[3];
      ((w * 0x100 + x) * 0x100 + y) * 0x100 + z == n
  {
  }

  /** Where the parts of a frame lie on the wire: "SMED", 2, kind, flags, zeros, the length high byte first, the payload. */
  lemma WireLayout(f: Frame)
    requires |f.payload| < 0x1_0000_0000
    ensures var b, n := Encode(f), |f.payload|;
      && b[..4] == ['S' as int, 'M' as int, 'E' as int, 'D' as int] && b[4] == 2 && b[5] == f.kind && b[6] == f.flags
      && (forall i | 7 <= i < 28 :: b[i] == 0)
      && b[28] == n / 0x100_0000 && b[29] == n / 0x1_0000 % 0x100 && b[30] == n / 0x100 % 0x100 && b[31] == n % 0x100
      && b[32..] == f.payload
  {
    var size := BE32(|f.payload|);
    var b := Encode(f);
    assert b[28] == size[0] && b[29] == size[1] && b[30] == size[2] && b[31] == size[3];
    assert forall i | 7 <= i < 28 :: b[i] == Zeros()[i - 7];
    assert b[32..] == f.payload;
  }

  /** An encoded frame is decoded back, whatever follows it. */
  lemma EncodedFrameIsRead(f: Frame, rest: Bytes)
    requires Sendable(f)
    ensures Peek(Encode(f) + rest) == Whole(f, rest)
  {
    EncodedFrameVerdict(f, rest);
    hide Peek, Encode;
  }

  /**
   Any frame on the wire is decoded back, whatever follows it, if it holds at most 4 KiB for a status
   and 4 MiB for another kind, and something unless it is of kind 5. Every other one is malformed.
   */
  lemma EncodedFrameVerdict(f: Frame, rest: Bytes)
    requires |f.payload| < 0x1_0000_0000
    ensures Peek(Encode(f) + rest) ==
      if |f.payload| > (if f.kind == 3 then 4096 else 4194304) || (f.payload == [] && f.kind != 5) then Malformed
      else Whole(f, rest)
  {
    var data, size := Encode(f) + rest, BE32(|f.payload|);
    BE32Inverts(|f.payload|);
    assert data[..4] == MAGIC && data[4] == VERSION && data[5] == f.kind && data[6] == f.flags;
    assert data[28] == size[0] && data[29] == size[1] && data[30] == size[2] && data[31] == size[3];
    assert data[HEADER..HEADER + |f.payload|] == f.payload && data[HEADER + |f.payload|..] == rest;
    hide BE32;
  }

  /** A buffer of 32 bytes or more is malformed from its first four bytes, its version, or its length alone. */
  lemma MalformedIff(data: Bytes)
    ensures Peek(data).Malformed? <==>
            && |data| >= 32
            && var size := data[28] as nat * 0x100_0000 + data[29] as nat * 0x1_0000 + data[30] as nat * 0x100 + data[31] as nat;
               (data[0] % 128 != 'S' as int || data[1] % 128 != 'M' as int || data[2] % 128 != 'E' as int
                || data[3] % 128 != 'D' as int || data[4] != 2
                || (size == 0 && data[5] != 5) || size > if data[5] == 3 then 4096 else 4194304)
  {
    if |data| >= 32 {
      assert IsMagic(data) <==> data[0] % 128 == MAGIC[0] && data[1] % 128 == MAGIC[1]
                                && data[2] % 128 == MAGIC[2] && data[3] % 128 == MAGIC[3];
    }
  }

  /** More bytes do not change a verdict. */
  lemma PeekStays(data: Bytes, more: Bytes)
    ensures Peek(data).Malformed? ==> Peek(data + more).Malformed?
    ensures Peek(data).Whole? ==> Peek(data + more) == Whole(Peek(data).frame, Peek(data).rest + more)
  {
    var all := data + more;
    if |data| >= HEADER {
      assert all[..4] == data[..4] && Size(all) == Size(data) && all[5] == data[5] && all[6] == data[6];
      if Peek(data).Whole? {
        var n := HEADER + Size(data);
        assert all[HEADER..n] == data[HEADER..n] && all[n..] == data[n..] + more;
      }
    }
  }

  // ---------------------------------------------------------------- what frames are evidence of

  /** `requestedAt` is the frame count at the key-frame request, of which `commands` were sent. */
  datatype Evidence = Evidence(starting: bool, active: bool, frames: nat, requested: bool, recovery: bool,
                               requestedAt: nat, commands: nat)

  const NO_EVIDENCE := Evidence(false, false, 0, false, false, 0, 0)

  /** How a status payload reads: `JSON.parse` is not modelled, but it may throw. */
  type Parser = Bytes -> Option<string>

  /** The evidence after a frame; a status that does not parse throws. */
  function Note(e: Evidence, f: Frame, parse: Parser): Option<Evidence> {
    if f.kind == STATUS then
      match parse(f.payload)
      case None => None
      case Some(state) => Some(e.(starting := e.starting || state == "starting", active := e.active || state == "active"))
    else if f.kind == VIDEO then
      var counted := e.(frames := e.frames + 1);
      if !e.requested && counted.frames >= 5 then
        Some(counted.(requested := true, requestedAt := counted.frames, commands := e.commands + 1))
      else if e.requested && counted.frames > e.requestedAt && f.flags == 1 then Some(counted.(recovery := true))
      else Some(counted)
    else Some(e)
  }

  // ---------------------------------------------------------------- the decoder

  datatype Status = Running | Killed | Threw

  datatype Decoder = Decoder(buffered: Bytes, status: Status, evidence: Evidence, handled: seq<Frame>)

  const FRESH := Decoder([], Running, NO_EVIDENCE, [])

  function Handle(d: Decoder, f: Frame, parse: Parser): Decoder {
    match Note(d.evidence, f, parse)
    case None => d.(status := Threw)
    case Some(e) => d.(evidence := e, handled := d.handled + [f])
  }

  /** The `while` loop of one data event. */
  function Drain(d: Decoder, parse: Parser): Decoder
    decreases |d.buffered|
  {
    if d.status == Threw then d
    else
      match Peek(d.buffered)
      case Short => d
      case Malformed => d.(status := Killed)
      case Whole(f, rest) => Drain(Handle(d.(buffered := rest), f, parse), parse)
  }

  /** A data event. After an exception the process is gone. */
  function OnData(d: Decoder, chunk: Bytes, parse: Parser): Decoder {
    if d.status == Threw then d else Drain(d.(buffered := d.buffered + chunk), parse)
  }

  /** What can still be observed: after an exception the buffer is of no consequence. */
  function Visible(d: Decoder): Decoder {
    if d.status == Threw then d.(buffered := []) else d
  }

  lemma {:induction false} DrainAppends(d: Decoder, more: Bytes, parse: Parser)
    requires d.status != Threw
    ensures Visible(Drain(d.(buffered := d.buffered + more), parse)) == Visible(OnData(Drain(d, parse), more, parse))
    decreases |d.buffered|
  {
    hide Peek, Note;
    PeekStays(d.buffered, more);
    match Peek(d.buffered)
    case Short =>
    case Malformed =>
    case Whole(f, rest) =>
      var next := Handle(d.(buffered := rest), f, parse);
      if next.status != Threw {
        DrainAppends(next, more, parse);
        assert next.(buffered := next.buffered + more) == Handle(d.(buffered := rest + more), f, parse);
      }
  }

  function OnChunks(d: Decoder, chunks: seq<Bytes>, parse: Parser): Decoder {
    if chunks == [] then d else OnData(OnChunks(d, chunks[..|chunks| - 1], parse), chunks[|chunks| - 1], parse)
  }

  /** A decoder at rest: its buffer holds no whole frame, and it is killed exactly at a malformed head. */
  ghost predicate AtRest(d: Decoder) {
    d.status != Threw ==> !Peek(d.buffered).Whole? && (d.status == Killed <==> Peek(d.buffered).Malformed?)
  }

  lemma {:induction false} DrainRests(d: Decoder, parse: Parser)
    requires d.status == Running || (d.status == Killed && Peek(d.buffered).Malformed?)
    ensures AtRest(Drain(d, parse))
    ensures d.handled <= Drain(d, parse).handled
    decreases |d.buffered|
  {
    hide Note;
    match Peek(d.buffered)
    case Short =>
    case Malformed =>
    case Whole(f, rest) =>
      var next := Handle(d.(buffered := rest), f, parse);
      if next.status != Threw {
        DrainRests(next, parse);
      }
  }

  lemma RestingDrainsToItself(d: Decoder, parse: Parser)
    requires AtRest(d)
    ensures OnData(d, [], parse) == d
  {
  }

  lemma OnDataRests(d: Decoder, chunk: Bytes, parse: Parser)
    requires AtRest(d)
    ensures AtRest(OnData(d, chunk, parse))
  {
    hide Peek, Drain;
    if d.status != Threw {
      PeekStays(d.buffered, chunk);
      DrainRests(d.(buffered := d.buffered + chunk), parse);
    }
  }

  lemma OnDataVisible(a: Decoder, b: Decoder, chunk: Bytes, parse: Parser)
    requires Visible(a) == Visible(b)
    ensures Visible(OnData(a, chunk, parse)) == Visible(OnData(b, chunk, parse))
  {
    hide Drain;
  }

  /** However a byte stream is cut into chunks, the same frames are handled and the same residue is left. */
  lemma {:induction false} ChunkingDoesNotMatter(d: Decoder, chunks: seq<Bytes>, parse: Parser)
    requires AtRest(d)
    ensures Visible(OnChunks(d, chunks, parse)) == Visible(OnData(d, Flatten(chunks), parse))
  {
    hide Peek, Drain, OnData, Visible, AtRest;
    if chunks == [] {
      RestingDrainsToItself(d, parse);
    } else {
      var before, last := chunks[..|chunks| - 1], chunks[|chunks| - 1];
      ChunkingDoesNotMatter(d, before, parse);
      OnDataVisible(OnChunks(d, before, parse), OnData(d, Flatten(before), parse), last, parse);
      OneAfterTheOther(d, Flatten(before), last, parse);
    }
  }

  lemma OneAfterTheOther(d: Decoder, a: Bytes, b: Bytes, parse: Parser)
    ensures Visible(OnData(OnData(d, a, parse), b, parse)) == Visible(OnData(d, a + b, parse))
  {
    hide Drain;
    if d.status != Threw {
      DrainAppends(d.(buffered := d.buffered + a), b, parse);
      assert d.buffered + a + b == d.buffered + (a + b);
    }
  }

  /** Without an error the residue is shorter than a header and the largest payload. */
  lemma ResidueIsBounded(d: Decoder)
    requires AtRest(d) && d.status == Running
    ensures |d.buffered| < HEADER + Limit(0)
  {
  }

  /** Once the head is malformed, no later byte is handled. */
  lemma MalformedAbsorbs(d: Decoder, chunk: Bytes, parse: Parser)
    requires AtRest(d) && d.status == Killed
    ensures OnData(d, chunk, parse) == d.(buffered := d.buffered + chunk)
  {
    PeekStays(d.buffered, chunk);
    hide Peek;
  }

  // ---------------------------------------------------------------- decoding what was written

  function EncodeAll(frames: seq<Frame>): Bytes
    requires forall f | f in frames :: Sendable(f)
  {
    if frames == [] then []
    else
      assert Sendable(frames[0]);
      Encode(frames[0]) + EncodeAll(frames[1..])
  }

  function HandleAll(d: Decoder, frames: seq<Frame>, parse: Parser): Decoder
    decreases |frames|
  {
    if frames == [] || d.status == Threw then d else HandleAll(Handle(d, frames[0], parse), frames[1..], parse)
  }

  /** A stream of written frames is decoded to exactly those frames, in order, with nothing left. */
  lemma {:induction false} WrittenFramesAreHandled(d: Decoder, frames: seq<Frame>, parse: Parser)
    requires d.status == Running && d.buffered == [] && forall f | f in frames :: Sendable(f)
    ensures Visible(OnData(d, EncodeAll(frames), parse)) == HandleAll(d, frames, parse)
    decreases |frames|
  {
    hide Peek, Encode, Note;
    assert [] + EncodeAll(frames) == EncodeAll(frames);
    if frames == [] {
      EmptyIsShort();
    } else {
      var f := frames[0];
      assert Sendable(f);
      var rest := EncodeAll(frames[1..]);
      EncodedFrameIsRead(f, rest);
      var next := Handle(d, f, parse);
      assert Handle(d.(buffered := rest), f, parse) == next.(buffered := rest);
      assert Drain(d.(buffered := EncodeAll(frames)), parse) == Drain(next.(buffered := rest), parse);
      if next.status != Threw {
        WrittenFramesAreHandled(next, frames[1..], parse);
        assert [] + rest == rest;
      }
    }
  }

  lemma EmptyIsShort()
    ensures Peek([]) == Short
  {
  }

  /** Handling this frame throws: a status whose payload does not parse. */
  predicate Throws(f: Frame, parse: Parser) {
    f.kind == 3 && parse(f.payload).None?
  }

  /** The number of frames before the first that throws. */
  function Harmless(frames: seq<Frame>, parse: Parser): (k: nat)
    ensures k <= |frames| && forall i | 0 <= i < k :: !Throws(frames[i], parse)
    ensures k < |frames| ==> Throws(frames[k], parse)
  {
    if frames == [] || Throws(frames[0], parse) then 0 else 1 + Harmless(frames[1..], parse)
  }

  lemma {:induction false} HandledIsAppended(d: Decoder, frames: seq<Frame>, parse: Parser)
    requires d.status == Running
    ensures var r, k := HandleAll(d, frames, parse), Harmless(frames, parse);
      && r.handled == d.handled + frames[..k] && r.buffered == d.buffered
      && r.status == if k < |frames| then Threw else Running
    decreases |frames|
  {
    if frames != [] && !Throws(frames[0], parse) {
      var next, k := Handle(d, frames[0], parse), Harmless(frames[1..], parse);
      HandledIsAppended(next, frames[1..], parse);
      assert frames[..k + 1] == [frames[0]] + frames[1..][..k];
      hide Note, Harmless;
    }
  }

  /**
   The main result: written frames, cut anywhere, are handled exactly and in order up to the first
   status that does not parse. All are handled, with nothing left, if and only if there is none.
   */
  lemma WrittenFramesSurviveChunking(frames: seq<Frame>, chunks: seq<Bytes>, parse: Parser)
    requires forall f | f in frames :: Sendable(f)
    requires Flatten(chunks) == EncodeAll(frames)
    ensures var r := OnChunks(FRESH, chunks, parse);
      && Visible(r) == HandleAll(FRESH, frames, parse)
      && (r.status == Threw <==> exists i | 0 <= i < |frames| :: Throws(frames[i], parse))
      && (r.status == Threw ==> r.handled == frames[..Harmless(frames, parse)])
      && (r.status != Threw ==> r.status == Running && r.handled == frames && r.buffered == [])
  {
    hide Drain, Peek, Note, OnData, Handle, Throws;
    EmptyIsShort();
    ChunkingDoesNotMatter(FRESH, chunks, parse);
    WrittenFramesAreHandled(FRESH, frames, parse);
    HandledIsAppended(FRESH, frames, parse);
  }

  // ---------------------------------------------------------------- what the evidence means

  function VideoCount(frames: seq<Frame>): nat {
    if frames == [] then 0
    else VideoCount(frames[..|frames| - 1]) + if frames[|frames| - 1].kind == 2 then 1 else 0
  }

  /** A flagged video frame came after the fifth one. */
  function RecoveredAfterRequest(frames: seq<Frame>): bool {
    frames != [] &&
    (var before, last := frames[..|frames| - 1], frames[|frames| - 1];
     RecoveredAfterRequest(before) || (last.kind == 2 && last.flags == 1 && VideoCount(before) >= 5))
  }

  /** A status frame gave this state. */
  function Said(frames: seq<Frame>, state: string, parse: Parser): bool {
    frames != [] &&
    (var before, last := frames[..|frames| - 1], frames[|frames| - 1];
     Said(before, state, parse) || (last.kind == 3 && parse(last.payload) == Some(state)))
  }

  /** One key frame is requested, at the fifth video frame, and recovery is a flagged frame after it. */
  ghost predicate EvidenceFits(e: Evidence, frames: seq<Frame>, parse: Parser) {
    && e.starting == Said(frames, "starting", parse)
    && e.active == Said(frames, "active", parse)
    && e.frames == VideoCount(frames)
    && (e.requested <==> e.frames >= 5)
    && e.commands == (if e.requested then 1 else 0)
    && e.requestedAt == (if e.requested then 5 else 0)
    && e.recovery == RecoveredAfterRequest(frames)
  }

  lemma NoteFits(e: Evidence, frames: seq<Frame>, f: Frame, parse: Parser)
    requires EvidenceFits(e, frames, parse) && Note(e, f, parse).Some?
    ensures EvidenceFits(Note(e, f, parse).value, frames + [f], parse)
  {
    assert (frames + [f])[..|frames|] == frames;
  }

  lemma {:induction false} DrainKeepsEvidence(d: Decoder, parse: Parser)
    requires EvidenceFits(d.evidence, d.handled, parse)
    ensures EvidenceFits(Drain(d, parse).evidence, Drain(d, parse).handled, parse)
    decreases |d.buffered|
  {
    hide EvidenceFits, Note;
    if d.status != Threw && Peek(d.buffered).Whole? {
      var f := Peek(d.buffered).frame;
      if Note(d.evidence, f, parse).Some? {
        NoteFits(d.evidence, d.handled, f, parse);
      }
      DrainKeepsEvidence(Handle(d.(buffered := Peek(d.buffered).rest), f, parse), parse);
    }
  }

  /** After any chunks the evidence is exactly that of the frames handled. */
  lemma {:induction false} EvidenceIsOfFrames(chunks: seq<Bytes>, parse: Parser)
    ensures var r := OnChunks(FRESH, chunks, parse); EvidenceFits(r.evidence, r.handled, parse)
  {
    hide Drain;
    if chunks != [] {
      hide EvidenceFits;
      var d, chunk := OnChunks(FRESH, chunks[..|chunks| - 1], parse), chunks[|chunks| - 1];
      EvidenceIsOfFrames(chunks[..|chunks| - 1], parse);
      DrainKeepsEvidence(d.(buffered := d.buffered + chunk), parse);
    }
  }

  // ---------------------------------------------------------------- in place

  predicate IsControl(command: string) {
    1 <= |command| <= 64 && forall c | c in command :: ' ' <= c <= '~'
  }

  function Ascii(command: string): (b: Bytes)
    requires IsControl(command)
    ensures |b| == |command|
  {
    seq(|command|, i requires 0 <= i < |command| => CharCode(command, i))
  }

  function CharCode(command: string, i: nat): Byte
    requires IsControl(command) && i < |command|
  {
    assert command[i] in command;
    command[i] as int
  }

  lemma HeaderOf(b: Bytes, kind: Byte, size: nat)
    requires |b| == HEADER && size < 0x1_0000_0000
    requires b[..4] == MAGIC && b[4] == VERSION && b[5] == kind && b[28..] == BE32(size)
    requires forall i | 6 <= i < 28 :: b[i] == 0
    ensures b == Header(kind, 0, size)
  {
    hide BE32;
    assert b[4..7] == [VERSION, kind, 0];
    assert b[7..28] == Zeros();
    assert b == b[..4] + b[4..7] + b[7..28] + b[28..];
  }

  method FillHeader(b: array<Byte>, kind: Byte, size: nat)
    requires b.Length >= HEADER && size < 0x1_0000_0000
    requires forall i | 0 <= i < HEADER :: b[i] == 0
    modifies b
    ensures b[..HEADER] == Header(kind, 0, size)
  {
    hide BE32, Header;
    b[0], b[1], b[2], b[3] := MAGIC[0], MAGIC[1], MAGIC[2], MAGIC[3];
    b[4], b[5] := VERSION, kind;
    var length := BE32(size);
    b[28], b[29], b[30], b[31] := length[0], length[1], length[2], length[3];
    assert b[..HEADER][..4] == MAGIC && b[..HEADER][28..] == length;
    HeaderOf(b[..HEADER], kind, size);
  }

  /** `writeCaptureControl`, filling a zeroed buffer in place. */
  method WriteCaptureControl(command: string) returns (frame: Option<array<Byte>>)
    ensures frame.Some? <==> 1 <= |command| <= 64 && forall c | c in command :: 0x20 <= c as int <= 0x7e
    ensures frame.Some? ==>
      && fresh(frame.value)
      && frame.value[..] == Encode(Frame(7, 0, Ascii(command)))
      && (forall i | 0 <= i < |command| :: Ascii(command)[i] == command[i] as int)
      && forall rest :: Peek(frame.value[..] + rest) == Whole(Frame(CONTROL, 0, Ascii(command)), rest)
  {
    hide Header, Peek, BE32;
    if !IsControl(command) {
      return None;
    }
    var payload := Ascii(command);
    ghost var f := Frame(CONTROL, 0, payload);
    var b := new Byte[HEADER + |payload|](i => 0);
    FillHeader(b, CONTROL, |payload|);
    for i := 0 to |payload|
      invariant b[..HEADER] == Header(CONTROL, 0, |payload|)
      invariant b[HEADER..HEADER + i] == payload[..i]
    {
      b[HEADER + i] := payload[i];
    }
    assert b[..] == b[..HEADER] + b[HEADER..HEADER + |payload|] && payload[..|payload|] == payload;
    forall rest ensures Peek(b[..] + rest) == Whole(f, rest) {
      EncodedFrameIsRead(f, rest);
    }
    return Some(b);
  }

  /** `observeCapture`: the decoder's variables, updated by each data event. */
  class Observer {
    const parse: Parser
    var buffered: Bytes
    var status: Status
    var evidence: Evidence
    ghost var handled: seq<Frame>

    ghost function Current(): Decoder
      reads this
    {
      Decoder(buffered, status, evidence, handled)
    }

    constructor (parse: Parser)
      ensures this.parse == parse && Current() == FRESH
    {
      this.parse := parse;
      buffered, status, evidence, handled := [], Running, NO_EVIDENCE, [];
    }

    method Data(chunk: Bytes)
      requires status != Threw
      modifies this
      ensures Current() == OnData(old(Current()), chunk, parse)
    {
      hide Peek, Note;
      buffered := buffered + chunk;
      ghost var start := Current();
      while true
        invariant status != Threw && Drain(Current(), parse) == Drain(start, parse)
        decreases |buffered|
      {
        match Peek(buffered)
        case Short =>
          return;
        case Malformed =>
          status := Killed;
          return;
        case Whole(f, rest) =>
          buffered := rest;
          var noted := Note(evidence, f, parse);
          if noted.None? {
            status := Threw;
            return;
          }
          evidence, handled := noted.value, handled + [f];
      }
    }
  }
}
