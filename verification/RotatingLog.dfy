/**
 The two-file diagnostic log of internal/diagnostics/recorder.go, with an I/O failure possible
 at every step. A failing operation leaves the files as they were, except that a failing write
 may have written part of its data.
 */
module RotatingLog {
  import opened Common

  const MAX_FILE_BYTES := 8388608

  datatype Failure =
    | ErrClosed | TooLarge | CloseFailed | RemoveFailed | RenameFailed | OpenFailed | WriteFailed | SyncFailed

  /** Which steps of one `Write` fail; a failing write writes `written` bytes at most. */
  datatype Faults = Faults(close: bool, remove: bool, rename: bool, open: bool, write: bool, written: nat)

  const NO_FAULTS := Faults(false, false, false, false, false, 0)

  /**
   The log and its two files. `fragments` is every piece of data that ever entered a file, first
   the files found when the log was opened; the backup holds the pieces from `first` to `split`
   and the current file those from `split` on. `faulty` says that some I/O step has failed.
   */
  datatype Log = Log(
    open: bool, size: nat, errors: seq<Failure>, rotations: nat, preexisting: bool,
    current: Option<Bytes>, backup: Option<Bytes>,
    fragments: seq<Bytes>, first: nat, split: nat, faulty: bool)

  function Content(file: Option<Bytes>): Bytes {
    if file.Some? then file.value else []
  }

  // ---------------------------------------------------------------- the operations on values

  function Opened(current: Option<Bytes>, backup: Option<Bytes>, backupSeen: bool): Log {
    Log(true, |Content(current)|, [], 0, Content(current) != [] || backupSeen,
        Some(Content(current)), backup, [Content(backup), Content(current)], 0, 1, false)
  }

  function Rotate(s: Log, f: Faults): (Log, Option<Failure>) {
    var s1 := s.(open := false);
    if f.close then (s1, Some(CloseFailed))
    else if f.remove then (s1, Some(RemoveFailed))
    else
      var s2 := s1.(backup := None, first := s1.split);
      if f.rename then (s2, Some(RenameFailed))
      else
        var s3 := s2.(backup := s2.current, current := None, split := |s2.fragments|, size := 0);
        if f.open then (s3, Some(OpenFailed))
        else (s3.(open := true, current := Some([]), rotations := s3.rotations + 1), None)
  }

  function Record(s: Log, e: Failure): Log {
    s.(errors := if s.errors == [] then [e] else s.errors)
  }

  function Append(s: Log, data: Bytes): Log {
    s.(current := Some(Content(s.current) + data), size := s.size + |data|, fragments := s.fragments + [data])
  }

  function Written(data: Bytes, f: Faults): Bytes {
    if f.write && f.written < |data| then data[..f.written] else data
  }

  function Write(s: Log, data: Bytes, f: Faults): (Log, nat, Option<Failure>) {
    if !s.open then (s, 0, Some(ErrClosed))
    else if |data| > MAX_FILE_BYTES then (Record(s, TooLarge), 0, Some(TooLarge))
    else
      var (ready, failure) := if s.size + |data| > MAX_FILE_BYTES then Rotate(s, f) else (s, None);
      if failure.Some? then (Record(ready, failure.value).(faulty := true), 0, failure)
      else
        var done := Append(ready, Written(data, f));
        if f.write then (Record(done, WriteFailed).(faulty := true), |Written(data, f)|, Some(WriteFailed))
        else (done, |data|, None)
  }

  function CloseLog(s: Log, syncFails: bool, closeFails: bool): Log {
    if !s.open then s
    else s.(open := false,
            errors := s.errors + (if syncFails then [SyncFailed] else []) + (if closeFails then [CloseFailed] else []))
  }

  predicate EarlierHistoryMayBeMissing(s: Log) {
    s.preexisting || s.rotations > 0
  }

  datatype Event = Put(data: Bytes, faults: Faults) | Shut(syncFails: bool, closeFails: bool)

  function Step(s: Log, e: Event): Log {
    match e
    case Put(data, faults) => Write(s, data, faults).0
    case Shut(syncFails, closeFails) => CloseLog(s, syncFails, closeFails)
  }

  function Run(s: Log, events: seq<Event>): Log {
    if events == [] then s else Step(Run(s, events[..|events| - 1]), events[|events| - 1])
  }

  // ---------------------------------------------------------------- what every run keeps

  /** Whole fragments, in order: the backup's, then the current file's. */
  ghost predicate Parts(fragments: seq<Bytes>, first: nat, split: nat, backup: Bytes, current: Bytes) {
    && first <= split <= |fragments|
    && backup == Flatten(fragments[first..split])
    && current == Flatten(fragments[split..])
  }

  ghost predicate Partitioned(s: Log) {
    Parts(s.fragments, s.first, s.split, Content(s.backup), Content(s.current))
  }

  ghost predicate Bounded(s: Log) {
    && |Content(s.backup)| <= MAX_FILE_BYTES && |Content(s.current)| <= MAX_FILE_BYTES
    && (s.open ==> s.current.Some? && s.size == |s.current.value|)
  }

  /** A log that admits no missing history still has it all. */
  ghost predicate Honest(s: Log) {
    !EarlierHistoryMayBeMissing(s) ==>
      && Content(s.backup) + Content(s.current) == Flatten(s.fragments)
      && (s.open ==> Content(s.backup) == [])
  }

  /** As long as nothing failed, a rotation leaves more than one file's worth. */
  ghost predicate Full(s: Log) {
    !s.faulty && s.rotations > 0 ==> |Content(s.backup)| + |Content(s.current)| > MAX_FILE_BYTES
  }

  lemma ConcatOne(part: Bytes)
    ensures Flatten([part]) == part
  {
  }

  lemma ConcatGrows(parts: seq<Bytes>, part: Bytes)
    ensures Flatten(parts + [part]) == Flatten(parts) + part
  {
  }

  lemma {:induction false} ConcatSplits(parts: seq<Bytes>, i: nat)
    requires i <= |parts|
    ensures Flatten(parts) == Flatten(parts[..i]) + Flatten(parts[i..])
  {
    if i == |parts| {
      assert parts[..i] == parts && parts[i..] == [];
    } else {
      var n := |parts| - 1;
      ConcatSplits(parts[..n], i);
      assert parts[..n][..i] == parts[..i] && parts[..n][i..] + [parts[n]] == parts[i..];
      ConcatGrows(parts[..n][i..], parts[n]);
    }
  }

  lemma OpenedInv(current: Option<Bytes>, backup: Option<Bytes>, backupSeen: bool)
    requires |Content(current)| <= MAX_FILE_BYTES && |Content(backup)| <= MAX_FILE_BYTES
    ensures var s := Opened(current, backup, backupSeen);
      && Partitioned(s) && Bounded(s) && Full(s)
      && (s.preexisting || Content(backup) == [] ==> Honest(s))
  {
  }

  lemma PartsShift(fragments: seq<Bytes>, first: nat, split: nat, backup: Bytes, current: Bytes)
    requires Parts(fragments, first, split, backup, current)
    ensures Parts(fragments, split, split, [], current)
    ensures Parts(fragments, split, |fragments|, current, [])
  {
    var n := |fragments|;
    assert fragments[split..split] == [] && fragments[n..] == [] && fragments[split..n] == fragments[split..];
  }

  lemma RotateKeepsPartition(s: Log, f: Faults)
    requires Partitioned(s)
    ensures Partitioned(Rotate(s, f).0)
  {
    PartsShift(s.fragments, s.first, s.split, Content(s.backup), Content(s.current));
    hide Parts;
  }

  lemma PartsGrow(fragments: seq<Bytes>, first: nat, split: nat, backup: Bytes, current: Bytes, data: Bytes)
    requires Parts(fragments, first, split, backup, current)
    ensures Parts(fragments + [data], first, split, backup, current + data)
  {
    hide Flatten;
    ConcatGrows(fragments[split..], data);
    assert (fragments + [data])[first..split] == fragments[first..split];
    assert (fragments + [data])[split..] == fragments[split..] + [data];
  }

  lemma AppendKeepsPartition(s: Log, data: Bytes)
    requires Partitioned(s)
    ensures Partitioned(Append(s, data))
  {
    hide Parts;
    PartsGrow(s.fragments, s.first, s.split, Content(s.backup), Content(s.current), data);
  }

  lemma WriteKeepsPartition(s: Log, data: Bytes, f: Faults)
    requires Partitioned(s)
    ensures Partitioned(Write(s, data, f).0)
  {
    hide Parts, Rotate, Append, Written, Flatten;
    RotateKeepsPartition(s, f);
    AppendKeepsPartition(s, Written(data, f));
    AppendKeepsPartition(Rotate(s, f).0, Written(data, f));
  }

  lemma WriteKeepsBounds(s: Log, data: Bytes, f: Faults)
    requires Bounded(s)
    ensures Bounded(Write(s, data, f).0)
  {
  }

  lemma AppendKeepsHonest(s: Log, data: Bytes)
    requires Honest(s)
    ensures Honest(Append(s, data))
  {
  }

  lemma WriteKeepsHonest(s: Log, data: Bytes, f: Faults)
    requires Honest(s)
    ensures Honest(Write(s, data, f).0)
  {
    hide Flatten, Rotate, Append, Written, Content;
    if s.open {
      RotateKeepsHonest(s, f);
      AppendKeepsHonest(s, Written(data, f));
      AppendKeepsHonest(Rotate(s, f).0, Written(data, f));
    }
  }

  lemma RotateKeepsHonest(s: Log, f: Faults)
    requires Honest(s) && s.open
    ensures Honest(Rotate(s, f).0) && (Rotate(s, f).1.None? ==> EarlierHistoryMayBeMissing(Rotate(s, f).0))
    ensures Rotate(s, f).0.fragments == s.fragments
  {
    hide Flatten;
  }

  lemma WriteKeepsFull(s: Log, data: Bytes, f: Faults)
    requires Bounded(s) && Full(s)
    ensures Full(Write(s, data, f).0)
  {
  }

  ghost predicate Inv(s: Log) {
    Partitioned(s) && Bounded(s) && Full(s)
  }

  lemma {:induction false} RunKeepsInv(s: Log, events: seq<Event>)
    requires Inv(s)
    ensures Inv(Run(s, events)) && (Honest(s) ==> Honest(Run(s, events)))
  {
    if events != [] {
      RunKeepsInv(s, events[..|events| - 1]);
      StepKeepsInv(Run(s, events[..|events| - 1]), events[|events| - 1]);
    }
  }

  lemma StepKeepsInv(s: Log, e: Event)
    requires Inv(s)
    ensures Inv(Step(s, e)) && (Honest(s) ==> Honest(Step(s, e)))
  {
    if e.Put? {
      WriteKeepsPartition(s, e.data, e.faults);
      WriteKeepsBounds(s, e.data, e.faults);
      WriteKeepsFull(s, e.data, e.faults);
      if Honest(s) {
        WriteKeepsHonest(s, e.data, e.faults);
      }
    }
    hide Write, Flatten;
  }

  ghost predicate IsSuffix(tail: Bytes, whole: Bytes) {
    |tail| <= |whole| && whole[|whole| - |tail|..] == tail
  }

  /** What the two files hold is always the end of everything ever written, in whole pieces. */
  lemma FilesAreSuffix(s: Log)
    requires Partitioned(s)
    ensures Content(s.backup) + Content(s.current) == Flatten(s.fragments[s.first..])
    ensures IsSuffix(Content(s.backup) + Content(s.current), Flatten(s.fragments))
  {
    hide Flatten;
    var kept := s.fragments[s.first..];
    ConcatSplits(kept, s.split - s.first);
    assert kept[..s.split - s.first] == s.fragments[s.first..s.split];
    assert kept[s.split - s.first..] == s.fragments[s.split..];
    ConcatSplits(s.fragments, s.first);
  }

  /** The records a log without failures accepts. */
  ghost function Records(events: seq<Event>): seq<Bytes> {
    if events == [] then []
    else
      var e := events[|events| - 1];
      Records(events[..|events| - 1]) + if e.Put? && |e.data| <= MAX_FILE_BYTES then [e.data] else []
  }

  predicate Faultless(e: Event) {
    e.Put? && !e.faults.close && !e.faults.remove && !e.faults.rename && !e.faults.open && !e.faults.write
  }

  /** Without an I/O failure every accepted record entered the files whole, one fragment per record. */
  lemma {:induction false} FaultlessRunKeepsRecordsWhole(s: Log, events: seq<Event>)
    requires s.open && forall e | e in events :: Faultless(e)
    ensures Run(s, events).fragments == s.fragments + Records(events)
    ensures Run(s, events).open && Run(s, events).faulty == s.faulty
  {
    hide Step, Faultless;
    if events != [] {
      var last := events[|events| - 1];
      FaultlessRunKeepsRecordsWhole(s, events[..|events| - 1]);
      FaultlessStepAppends(Run(s, events[..|events| - 1]), last);
    }
  }

  lemma FaultlessStepAppends(s: Log, e: Event)
    requires s.open && Faultless(e)
    ensures Step(s, e).fragments == s.fragments + if |e.data| <= MAX_FILE_BYTES then [e.data] else []
    ensures Step(s, e).open && Step(s, e).faulty == s.faulty
    ensures e.Put?
  {
  }

  lemma StepKeepsErrors(s: Log, e: Event)
    requires s.errors != []
    ensures Step(s, e).errors != [] && Step(s, e).errors[0] == s.errors[0]
  {
  }

  /** The first recorded error is kept by everything that follows. */
  lemma {:induction false} FirstErrorIsKept(s: Log, events: seq<Event>)
    requires s.errors != []
    ensures Run(s, events).errors != [] && Run(s, events).errors[0] == s.errors[0]
  {
    if events != [] {
      FirstErrorIsKept(s, events[..|events| - 1]);
      StepKeepsErrors(Run(s, events[..|events| - 1]), events[|events| - 1]);
    }
    hide Step;
  }

  /** A write that fails on an open log without an error so far records exactly its own error. */
  lemma FailureIsRecorded(s: Log, data: Bytes, f: Faults)
    requires s.open && Write(s, data, f).2.Some?
    ensures Write(s, data, f).0.errors == if s.errors == [] then [Write(s, data, f).2.value] else s.errors
  {
  }

  /** A log that has no file refuses every write and changes no more. */
  lemma {:induction false} ClosedLogStays(s: Log, events: seq<Event>)
    requires !s.open
    ensures Run(s, events) == s
  {
    if events != [] {
      ClosedLogStays(s, events[..|events| - 1]);
    }
  }

  // ---------------------------------------------------------------- the history claim

  const ZERO: Bytes := [0]

  function Zeros(n: nat): (z: Bytes)
    ensures |z| == n
  {
    seq(n, i => 0)
  }

  /** A run that fills the file and then loses the backup to a rotation that fails at its rename. */
  lemma LostBackup(s: Log)
    requires Inv(s) && s.open && !EarlierHistoryMayBeMissing(s) && s.size == 0 && Content(s.backup) != []
    ensures var t := Run(s, [Put(Zeros(MAX_FILE_BYTES), NO_FAULTS), Put(ZERO, NO_FAULTS.(rename := true))]);
      !EarlierHistoryMayBeMissing(t) && Content(t.backup) + Content(t.current) != Flatten(t.fragments)
  {
    var fill, lose := Put(Zeros(MAX_FILE_BYTES), NO_FAULTS), Put(ZERO, NO_FAULTS.(rename := true));
    assert [fill, lose][..1] == [fill] && [fill][..0] == [];
    var full := Step(s, fill);
    assert Run(s, [fill]) == full;
    var t := Run(s, [fill, lose]);
    assert t == Step(full, lose);
    StepKeepsInv(s, fill);
    FilesAreSuffix(full);
    assert |Flatten(full.fragments)| >= |Content(full.backup)| + MAX_FILE_BYTES;
  }

  /**
   `earlierHistoryMayBeMissing` being false means that the files hold everything, after every run
   with any failures, if and only if opening noted earlier history, or the backup held none.
   */
  lemma HistoryClaimHoldsIff(current: Option<Bytes>, backup: Option<Bytes>, backupSeen: bool)
    requires |Content(current)| <= MAX_FILE_BYTES && |Content(backup)| <= MAX_FILE_BYTES
    ensures var s := Opened(current, backup, backupSeen);
      (forall events :: !EarlierHistoryMayBeMissing(Run(s, events)) ==>
         Content(Run(s, events).backup) + Content(Run(s, events).current) == Flatten(Run(s, events).fragments))
      <==> Content(current) != [] || backupSeen || Content(backup) == []
  {
    var s := Opened(current, backup, backupSeen);
    OpenedInv(current, backup, backupSeen);
    if s.preexisting || Content(backup) == [] {
      forall events | !EarlierHistoryMayBeMissing(Run(s, events))
        ensures Content(Run(s, events).backup) + Content(Run(s, events).current) == Flatten(Run(s, events).fragments)
      {
        RunKeepsInv(s, events);
      }
    } else {
      LostBackup(s);
    }
  }

  /** The outcome of a write whose record fits behind the current file: the piece that was written, and its length. */
  lemma FittingWrite(s: Log, data: Bytes, f: Faults)
    requires s.open && s.current.Some? && s.size + |data| <= 8388608
    ensures var (t, n, failure) := Write(s, data, f);
      && t.current == Some(s.current.value + data[..n]) && t.backup == s.backup && t.rotations == s.rotations && t.open
      && n == (if f.write && f.written < |data| then f.written else |data|) && t.size == s.size + n
      && failure == if f.write then Some(WriteFailed) else None
  {
    assert data[..|data|] == data;
  }

  /** A log without a file refuses every record, and an open one those above 8 MiB, which it does remember. */
  lemma RefusedWrite(s: Log, data: Bytes, f: Faults)
    requires !s.open || |data| > 8388608
    ensures var (t, n, failure) := Write(s, data, f);
      && n == 0 && failure == Some(if s.open then TooLarge else ErrClosed)
      && t == s.(errors := if s.open && s.errors == [] then [TooLarge] else s.errors)
  {
  }

  /** The first step of a rotation to fail decides what the files hold; a log whose rotation failed has no file. */
  lemma RotatingWrite(s: Log, data: Bytes, f: Faults)
    requires s.open && |data| <= 8388608 < s.size + |data|
    ensures var (t, n, failure) := Write(s, data, f);
      && (f.close ==> failure == Some(CloseFailed) && t.current == s.current && t.backup == s.backup)
      && (!f.close && f.remove ==> failure == Some(RemoveFailed) && t.current == s.current && t.backup == s.backup)
      && (!f.close && !f.remove && f.rename ==> failure == Some(RenameFailed) && t.current == s.current && t.backup == None)
      && (!f.close && !f.remove && !f.rename && f.open ==>
            failure == Some(OpenFailed) && t.current == None && t.backup == s.current)
      && (f.close || f.remove || f.rename || f.open ==> n == 0 && !t.open && t.rotations == s.rotations)
      && (!f.close && !f.remove && !f.rename && !f.open ==>
            && t.backup == s.current && t.current == Some(data[..n]) && t.open && t.rotations == s.rotations + 1
            && n == (if f.write && f.written < |data| then f.written else |data|) && t.size == n
            && failure == if f.write then Some(WriteFailed) else None)
  {
    assert data[..|data|] == data && [] + Written(data, f) == Written(data, f);
  }

  /** Without a failure, any rotation leaves more than one limit in the two files, and never more than two. */
  lemma RotatedFilesAreFull(s: Log, events: seq<Event>)
    requires Inv(s)
    ensures var t := Run(s, events); var kept := |Content(t.backup)| + |Content(t.current)|;
      kept <= 2 * MAX_FILE_BYTES && (!t.faulty && t.rotations > 0 ==> kept > MAX_FILE_BYTES)
  {
    RunKeepsInv(s, events);
  }

  // ---------------------------------------------------------------- the log in place

  /** The failures of opening: listing either file, opening the current one, reading its size, finding the backup. */
  datatype OpenFaults = OpenFaults(check: bool, open: bool, size: bool, backup: bool)

  datatype ReadFaults = ReadFaults(check: bool, open: bool, read: bool)

  datatype Issue = Recorded(errors: seq<Failure>) | NotSynced | Unreadable | Oversize

  /** A file that is there and can be read is part of a snapshot. */
  function Listed(file: Option<Bytes>, f: ReadFaults): seq<Bytes> {
    if file.Some? && !f.check && !f.open && !f.read then [file.value] else []
  }

  /** A file that cannot be looked at or read is an issue, and so is a missing one that must be there. */
  function Trouble(file: Option<Bytes>, f: ReadFaults, required: bool): seq<Issue> {
    if f.check || (if file.None? then required else f.open || f.read) then [Unreadable] else []
  }

  /** One round of the loop of `snapshot`. */
  method SnapshotFile(file: Option<Bytes>, f: ReadFaults, required: bool) returns (log: seq<Bytes>, issue: seq<Issue>)
    requires |Content(file)| <= MAX_FILE_BYTES
    ensures log == Listed(file, f) && issue == Trouble(file, f, required)
  {
    log, issue := [], [];
    if f.check || (file.Some? && |file.value| > MAX_FILE_BYTES) {
      issue := [Unreadable];
    } else if file.None? {
      issue := if required then [Unreadable] else [];
    } else if f.open || f.read {
      issue := [Unreadable];
    } else if |file.value| > MAX_FILE_BYTES {
      issue := [Oversize];
    } else {
      log := [file.value];
    }
  }

  /** What a snapshot without an issue holds is the retained end of everything written. */
  lemma WholeSnapshot(s: Log, f: (ReadFaults, ReadFaults))
    requires Partitioned(s) && Trouble(s.backup, f.0, false) == [] && Trouble(s.current, f.1, true) == []
    ensures Flatten(Listed(s.backup, f.0) + Listed(s.current, f.1)) == Flatten(s.fragments[s.first..])
  {
    FilesAreSuffix(s);
    ConcatOne(s.current.value);
    if s.backup.Some? {
      ConcatOne(s.backup.value);
      ConcatGrows([s.backup.value], s.current.value);
    } else {
      assert [] + [s.current.value] == [s.current.value];
    }
    hide Flatten;
  }

  class DiagnosticLog {
    var open: bool
    var size: nat
    var errors: seq<Failure>
    var rotations: nat
    var preexisting: bool
    var current: Option<Bytes>
    var backup: Option<Bytes>
    ghost var fragments: seq<Bytes>
    ghost var first: nat
    ghost var split: nat
    ghost var faulty: bool

    ghost function State(): Log
      reads this
    {
      Log(open, size, errors, rotations, preexisting, current, backup, fragments, first, split, faulty)
    }

    constructor (current: Bytes, backup: Option<Bytes>, backupSeen: bool)
      ensures State() == Opened(Some(current), backup, backupSeen)
    {
      open, size, errors, rotations, preexisting := true, |current|, [], 0, current != [] || backupSeen;
      this.current, this.backup := Some(current), backup;
      fragments, first, split, faulty := [Content(backup), current], 0, 1, false;
    }

    /** `Open`: refuses files above the limit; a backup whose listing fails counts as absent. */
    static method OpenLog(current: Option<Bytes>, backup: Option<Bytes>, f: OpenFaults)
      returns (r: Result<DiagnosticLog, Failure>)
      ensures r.Ok? ==>
        && fresh(r.value) && r.value.State() == Opened(current, backup, backup.Some? && !f.backup)
        && Inv(r.value.State())
        && r.value.open && r.value.errors == [] && r.value.rotations == 0 && r.value.backup == backup
        && r.value.current == Some(Content(current)) && r.value.size == |Content(current)|
        && (r.value.preexisting <==> Content(current) != [] || (backup.Some? && !f.backup))
      ensures r.Ok? <==>
        && |Content(current)| <= 8 * 1024 * 1024 && |Content(backup)| <= 8 * 1024 * 1024
        && !f.check && !f.open && !f.size
    {
      if f.check || |Content(current)| > MAX_FILE_BYTES || |Content(backup)| > MAX_FILE_BYTES {
        return Err(TooLarge);
      }
      if f.open || f.size {
        return Err(OpenFailed);
      }
      var backupSeen := backup.Some? && !f.backup;
      var log := new DiagnosticLog(Content(current), backup, backupSeen);
      OpenedInv(current, backup, backupSeen);
      return Ok(log);
    }

    method RotateFiles(f: Faults) returns (failure: Option<Failure>)
      modifies this
      ensures (State(), failure) == Rotate(old(State()), f)
    {
      open := false;
      if f.close {
        return Some(CloseFailed);
      }
      if f.remove {
        return Some(RemoveFailed);
      }
      backup, first := None, split;
      if f.rename {
        return Some(RenameFailed);
      }
      backup, current, split := current, None, |fragments|;
      size := 0;
      if f.open {
        return Some(OpenFailed);
      }
      open, current, rotations := true, Some([]), rotations + 1;
      return None;
    }

    method WriteData(data: Bytes, f: Faults) returns (n: nat, failure: Option<Failure>)
      modifies this
      ensures (State(), n, failure) == Write(old(State()), data, f)
    {
      hide Rotate;
      if !open {
        return 0, Some(ErrClosed);
      }
      n, failure := 0, None;
      if |data| > MAX_FILE_BYTES {
        failure := Some(TooLarge);
      } else {
        if size + |data| > MAX_FILE_BYTES {
          failure := RotateFiles(f);
        }
        if failure.None? {
          var piece := Written(data, f);
          n := |piece|;
          current, size, fragments := Some(Content(current) + piece), size + n, fragments + [piece];
          if f.write {
            failure := Some(WriteFailed);
          }
        }
        faulty := faulty || failure.Some?;
      }
      if failure.Some? && errors == [] {
        errors := [failure.value];
      }
    }

    method Close(syncFails: bool, closeFails: bool) returns (result: seq<Failure>)
      modifies this
      ensures State() == CloseLog(old(State()), syncFails, closeFails) && result == errors
      ensures !open && current == old(current) && backup == old(backup) && rotations == old(rotations)
      ensures errors == old(errors)
        + (if old(open) && syncFails then [SyncFailed] else []) + (if old(open) && closeFails then [CloseFailed] else [])
    {
      if open {
        errors := errors + (if syncFails then [SyncFailed] else []) + (if closeFails then [CloseFailed] else []);
        open := false;
      }
      return errors;
    }

    /** `snapshot`: the backup, then the current file; no file can be found above the limit. */
    method Snapshot(syncFails: bool, f: (ReadFaults, ReadFaults)) returns (logs: seq<Bytes>, issues: seq<Issue>)
      requires Inv(State())
      ensures logs == Listed(backup, f.0) + Listed(current, f.1)
      ensures issues == (if errors == [] then [] else [Recorded(errors)]) + (if open && syncFails then [NotSynced] else [])
                        + Trouble(backup, f.0, false) + Trouble(current, f.1, true)
      ensures Oversize !in issues
      ensures issues == [] ==> Flatten(logs) == Flatten(fragments[first..])
    {
      hide Flatten, Listed, Trouble, Inv;
      ghost var noted: seq<Issue> :=
        (if errors == [] then [] else [Recorded(errors)]) + (if open && syncFails then [NotSynced] else []);
      SmallFiles(State());
      issues := (if errors == [] then [] else [Recorded(errors)]) + (if open && syncFails then [NotSynced] else []);
      logs := [];
      for i := 0 to 2
        invariant logs == (if i > 0 then Listed(backup, f.0) else []) + (if i > 1 then Listed(current, f.1) else [])
        invariant issues == noted + (if i > 0 then Trouble(backup, f.0, false) else [])
                            + (if i > 1 then Trouble(current, f.1, true) else [])
      {
        var log, issue := SnapshotFile(if i == 0 then backup else current, if i == 0 then f.0 else f.1, i == 1);
        logs, issues := logs + log, issues + issue;
      }
      OnlyKnownIssues(backup, f.0, false);
      OnlyKnownIssues(current, f.1, true);
      if issues == [] {
        WholeSnapshot(State(), f);
      }
    }
  }

  lemma SmallFiles(s: Log)
    requires Inv(s)
    ensures |Content(s.backup)| <= MAX_FILE_BYTES && |Content(s.current)| <= MAX_FILE_BYTES && Partitioned(s)
  {
  }

  lemma OnlyKnownIssues(file: Option<Bytes>, f: ReadFaults, required: bool)
    ensures Oversize !in Trouble(file, f, required)
  {
  }
}
