/**
 Interval accounting over resource samples in scripts/peer-assisted-benchmark.ts: browser
 process CPU and per-role page runtime. Numbers are exact reals; times are seconds.
 */
module ResourceSummary {
  import opened Common
  import Text

  // ---------------------------------------------------------------- ratios of sums

  /** A measured interval: seconds of work within seconds of wall time. */
  datatype Interval = Interval(work: real, wall: real)

  predicate Measured(i: Interval) {
    i.work >= 0.0 && i.wall > 0.0
  }

  function Utilization(i: Interval): real
    requires Measured(i)
  {
    i.work / i.wall * 100.0
  }

  ghost predicate AllMeasured(intervals: seq<Interval>) {
    forall i | i in intervals :: Measured(i)
  }

  ghost function Work(intervals: seq<Interval>): real {
    if intervals == [] then 0.0
    else Work(intervals[..|intervals| - 1]) + intervals[|intervals| - 1].work
  }

  ghost function Wall(intervals: seq<Interval>): real {
    if intervals == [] then 0.0
    else Wall(intervals[..|intervals| - 1]) + intervals[|intervals| - 1].wall
  }

  /** The largest utilisation of the intervals; none without an interval. */
  ghost predicate IsPeak(intervals: seq<Interval>, peak: Option<real>)
    requires AllMeasured(intervals)
  {
    && (peak.None? <==> intervals == [])
    && (peak.Some? ==> forall i | i in intervals :: Utilization(i) <= peak.value)
    && (peak.Some? ==> exists i | i in intervals :: Utilization(i) == peak.value)
  }

  lemma WithinPeak(i: Interval, peak: real)
    requires Measured(i) && Utilization(i) <= peak
    ensures i.work * 100.0 <= peak * i.wall && peak >= 0.0
  {
  }

  lemma Scaled(a: real, b: real, w: real)
    requires a <= b && w > 0.0
    ensures a * w <= b * w
  {
  }

  lemma {:induction false} WorkWithinPeak(intervals: seq<Interval>, peak: real)
    requires AllMeasured(intervals) && forall i | i in intervals :: Utilization(i) <= peak
    ensures 0.0 <= Work(intervals) && 0.0 <= Wall(intervals) && (intervals != [] ==> Wall(intervals) > 0.0)
    ensures Work(intervals) * 100.0 <= peak * Wall(intervals)
  {
    if intervals != [] {
      var rest, last := intervals[..|intervals| - 1], intervals[|intervals| - 1];
      WorkWithinPeak(rest, peak);
      WithinPeak(last, peak);
      assert peak * (Wall(rest) + last.wall) == peak * Wall(rest) + peak * last.wall;
    }
  }

  ghost function Average(intervals: seq<Interval>): real
    requires Wall(intervals) > 0.0
  {
    Work(intervals) / Wall(intervals) * 100.0
  }

  /** The ratio of the sums never exceeds the largest ratio. */
  lemma AverageWithinPeak(intervals: seq<Interval>, peak: Option<real>)
    requires intervals != [] && AllMeasured(intervals) && IsPeak(intervals, peak)
    ensures Wall(intervals) > 0.0 && Average(intervals) <= peak.value
  {
    WorkWithinPeak(intervals, peak.value);
    Divided(Work(intervals), Wall(intervals), peak.value);
  }

  lemma Divided(a: real, w: real, p: real)
    requires w > 0.0 && a * 100.0 <= p * w
    ensures a / w * 100.0 <= p
  {
    assert a / w * 100.0 * w == a * 100.0;
    if a / w * 100.0 > p {
      Scaled(p, a / w * 100.0, w);
    }
  }

  /** Running totals over intervals, updated one interval at a time. */
  class Accumulator {
    var valid: nat
    var invalid: nat
    var wall: real
    var work: real
    var peak: Option<real>
    ghost var intervals: seq<Interval>

    ghost predicate Valid()
      reads this
    {
      && valid == |intervals| && AllMeasured(intervals) && IsPeak(intervals, peak)
      && wall == Wall(intervals) && work == Work(intervals)
    }

    constructor ()
      ensures Valid() && intervals == [] && invalid == 0
    {
      valid, invalid, wall, work, peak, intervals := 0, 0, 0.0, 0.0, None, [];
    }

    method Add(i: Interval)
      requires Valid() && Measured(i)
      modifies this
      ensures Valid() && intervals == old(intervals) + [i] && invalid == old(invalid)
    {
      valid := valid + 1;
      work, wall := work + i.work, wall + i.wall;
      assert i.work / i.wall >= 0.0;
      peak := Some(MaxReal(if peak.Some? then peak.value else 0.0, Utilization(i)));
      intervals := intervals + [i];
      assert intervals[..|intervals| - 1] == old(intervals);
      assert old(intervals) == [] || old(peak).Some?;
    }

    method Reject()
      requires Valid()
      modifies this
      ensures Valid() && intervals == old(intervals) && invalid == old(invalid) + 1
    {
      invalid := invalid + 1;
    }

    method Finish() returns (s: Summary)
      requires Valid()
      ensures Summarizes(s, intervals, invalid)
    {
      s := Summary(valid, invalid, if valid > 0 then Some(wall) else None, if valid > 0 then Some(work) else None,
                   if wall > 0.0 then Some(work / wall * 100.0) else None, peak);
      if valid > 0 {
        AverageWithinPeak(intervals, peak);
      }
    }
  }

  datatype Summary = Summary(valid: nat, invalid: nat, wall: Option<real>, work: Option<real>,
                             average: Option<real>, peak: Option<real>)

  /** What a summary says of the intervals it was computed from. */
  ghost predicate Summarizes(s: Summary, intervals: seq<Interval>, invalid: nat) {
    && s.valid == |intervals| && s.invalid == invalid
    && AllMeasured(intervals) && IsPeak(intervals, s.peak)
    && (intervals == [] ==> s.wall.None? && s.work.None? && s.average.None?)
    && (intervals != [] ==>
          && s.wall == Some(Wall(intervals)) && s.work == Some(Work(intervals)) && Wall(intervals) > 0.0
          && s.average == Some(Average(intervals)) && s.average.value <= s.peak.value)
  }

  // ---------------------------------------------------------------- processes

  datatype Process = Process(kind: string, id: nat, cpu: real)

  /** `${type}:${id}` */
  function Identity(p: Process): string {
    p.kind + ":" + Text.Digits(p.id, false)
  }

  lemma LastColon(a: string, x: string, b: string, y: string)
    requires ':' !in x && ':' !in y && a + ":" + x == b + ":" + y
    ensures a == b && x == y
  {
    var s, t := a + ":" + x, b + ":" + y;
    assert s[|a|] == ':' && t[|b|] == ':';
    assert forall i | |a| < i < |s| :: s[i] == x[i - |a| - 1];
    assert forall i | |b| < i < |t| :: t[i] == y[i - |b| - 1];
    assert |a| == |b|;
    assert a == s[..|a|] && b == t[..|b|];
    assert x == s[|a| + 1..] && y == t[|b| + 1..];
  }

  /** The textual identity determines the type and the id, even of a type that contains colons. */
  lemma IdentityInjective(p: Process, q: Process)
    requires Identity(p) == Identity(q)
    ensures p.kind == q.kind && p.id == q.id
  {
    LastColon(p.kind, Text.Digits(p.id, false), q.kind, Text.Digits(q.id, false));
    Text.DigitsInjective(p.id, q.id, false);
  }

  ghost function Identities(processes: seq<Process>): set<string> {
    set p | p in processes :: Identity(p)
  }

  ghost predicate UniqueIdentities(processes: seq<Process>) {
    forall i, j | 0 <= i < j < |processes| :: Identity(processes[i]) != Identity(processes[j])
  }

  /** A row of CDP's process list, with what the sampler checks of it. */
  datatype RawProcess = Malformed | RawProcess(kind: string, id: int, cpu: real)

  predicate Usable(raw: RawProcess) {
    raw.RawProcess? && raw.kind != "" && 0 <= raw.id <= MAX_SAFE_INTEGER && raw.cpu >= 0.0
  }

  /** `sampleBrowserProcesses` before its final sort: all rows, or nothing when a row is bad or repeated. */
  method SampleProcesses(raw: seq<RawProcess>) returns (sample: Option<seq<Process>>)
    ensures sample.Some? ==> |sample.value| == |raw| && UniqueIdentities(sample.value) && forall i | 0 <= i < |raw| ::
      Usable(raw[i]) && sample.value[i] == Process(raw[i].kind, raw[i].id, raw[i].cpu)
    ensures sample.Some? ==> forall i | 0 <= i < |raw| ::
      raw[i].RawProcess? && |raw[i].kind| > 0 && 0 <= raw[i].id <= 9007199254740991 && raw[i].cpu >= 0.0
    ensures sample.None? ==>
      || (exists i | 0 <= i < |raw| ::
            raw[i].Malformed? || |raw[i].kind| == 0 || raw[i].id < 0 || raw[i].id > 9007199254740991 || raw[i].cpu < 0.0)
      || (exists i, j | 0 <= i < j < |raw| ::
            Usable(raw[i]) && Usable(raw[j]) && raw[i].kind == raw[j].kind && raw[i].id == raw[j].id)
  {
    hide Identity, UniqueIdentities;
    var processes: seq<Process> := [];
    var identities: set<string> := {};
    NoIdentities();
    for i := 0 to |raw|
      invariant |processes| == i && identities == Identities(processes) && UniqueIdentities(processes)
      invariant forall j | 0 <= j < i ::
        Usable(raw[j]) && processes[j] == Process(raw[j].kind, raw[j].id, raw[j].cpu)
    {
      if !Usable(raw[i]) {
        return None;
      }
      var p := Process(raw[i].kind, raw[i].id, raw[i].cpu);
      if Identity(p) in identities {
        var j :| 0 <= j < i && Identity(processes[j]) == Identity(p);
        IdentityInjective(processes[j], p);
        return None;
      }
      ListGrows(processes, p);
      identities, processes := identities + {Identity(p)}, processes + [p];
    }
    return Some(processes);
  }

  lemma NoIdentities()
    ensures Identities([]) == {} && UniqueIdentities([])
  {
  }

  datatype Sample = Sample(at: real, processes: Option<seq<Process>>)

  /** The CPU time of the process with an identity. */
  ghost function Baseline(processes: seq<Process>, identity: string): real
    requires identity in Identities(processes)
  {
    var p :| p in processes && Identity(p) == identity;
    p.cpu
  }

  ghost predicate Covered(previous: seq<Process>, p: Process) {
    Identity(p) in Identities(previous) && Baseline(previous, Identity(p)) <= p.cpu
  }

  ghost predicate ValidInterval(previous: Sample, current: Sample) {
    && current.at > previous.at
    && previous.processes.Some? && current.processes.Some?
    && |previous.processes.value| == |current.processes.value|
    && UniqueIdentities(previous.processes.value)
    && forall p | p in current.processes.value :: Covered(previous.processes.value, p)
  }

  /** The CPU time the processes of `current` gained since `previous`. */
  ghost function Gain(previous: seq<Process>, current: seq<Process>): real
    requires forall p | p in current :: Identity(p) in Identities(previous)
  {
    if current == [] then 0.0
    else
      var p := current[|current| - 1];
      assert p in current;
      Gain(previous, current[..|current| - 1]) + (p.cpu - Baseline(previous, Identity(p)))
  }

  lemma ListGrows(before: seq<Process>, p: Process)
    ensures Identities(before + [p]) == Identities(before) + {Identity(p)}
    ensures UniqueIdentities(before + [p]) <==> UniqueIdentities(before) && Identity(p) !in Identities(before)
  {
    var after := before + [p];
    assert forall j | 0 <= j < |before| :: after[j] == before[j] && before[j] in before;
    if Identity(p) in Identities(before) {
      var q :| q in before && Identity(q) == Identity(p);
      var j :| 0 <= j < |before| && before[j] == q;
      assert Identity(after[j]) == Identity(after[|before|]);
    }
  }

  lemma CountGrows(s: set<string>, x: string)
    ensures |s + {x}| == |s| + if x in s then 0 else 1
  {
    assert x in s ==> s + {x} == s;
  }

  /** The number of distinct identities falls short of the length exactly when one repeats. */
  lemma {:induction false} IdentityCount(processes: seq<Process>)
    ensures |Identities(processes)| <= |processes|
    ensures |Identities(processes)| == |processes| <==> UniqueIdentities(processes)
  {
    if processes != [] {
      var before, p := processes[..|processes| - 1], processes[|processes| - 1];
      assert processes == before + [p];
      IdentityCount(before);
      ListGrows(before, p);
      CountGrows(Identities(before), Identity(p));
    }
  }

  ghost predicate IsIndex(m: map<string, Process>, processes: seq<Process>) {
    && m.Keys == Identities(processes)
    && forall k | k in m :: m[k] in processes && Identity(m[k]) == k
  }

  /** The `Map` built from a process list; the last process of an identity wins. */
  method ByIdentity(processes: seq<Process>) returns (m: map<string, Process>)
    ensures IsIndex(m, processes)
  {
    hide Identity;
    m := map[];
    for i := 0 to |processes|
      invariant m.Keys == Identities(processes[..i])
      invariant forall k | k in m :: m[k] in processes && Identity(m[k]) == k
    {
      ListGrows(processes[..i], processes[i]);
      assert processes[..i + 1] == processes[..i] + [processes[i]];
      m := m[Identity(processes[i]) := processes[i]];
    }
    assert processes[..|processes|] == processes;
  }

  lemma BaselineIs(processes: seq<Process>, p: Process)
    requires UniqueIdentities(processes) && p in processes
    ensures Identity(p) in Identities(processes) && Baseline(processes, Identity(p)) == p.cpu
  {
  }

  lemma IndexGivesBaseline(m: map<string, Process>, processes: seq<Process>, p: Process)
    requires UniqueIdentities(processes) && IsIndex(m, processes)
    ensures Covered(processes, p) <==> Identity(p) in m && m[Identity(p)].cpu <= p.cpu
    ensures Identity(p) in m ==>
      Identity(p) in Identities(processes) && Baseline(processes, Identity(p)) == m[Identity(p)].cpu
  {
    if Identity(p) in m {
      BaselineIs(processes, m[Identity(p)]);
    }
  }

  lemma GainGrows(previous: seq<Process>, current: seq<Process>, p: Process)
    requires forall q | q in current :: Identity(q) in Identities(previous)
    requires Identity(p) in Identities(previous)
    ensures forall q | q in current + [p] :: Identity(q) in Identities(previous)
    ensures Gain(previous, current + [p]) == Gain(previous, current) + (p.cpu - Baseline(previous, Identity(p)))
  {
  }

  /** The `every` callback over the current processes, which sums the gains on the way. */
  method CompareAll(before: seq<Process>, after: seq<Process>, byIdentity: map<string, Process>)
    returns (covered: bool, cpu: real)
    requires UniqueIdentities(before) && IsIndex(byIdentity, before)
    ensures covered <==> forall p | p in after :: Covered(before, p)
    ensures covered ==> cpu >= 0.0 && cpu == Gain(before, after)
  {
    hide Identity, Baseline, UniqueIdentities, IsIndex, Identities;
    cpu := 0.0;
    ghost var seen: seq<Process> := [];
    for i := 0 to |after|
      invariant |seen| == i && (forall j | 0 <= j < i :: seen[j] == after[j])
      invariant forall p | p in seen :: Covered(before, p)
      invariant cpu >= 0.0 && cpu == Gain(before, seen)
    {
      var p := after[i];
      IndexGivesBaseline(byIdentity, before, p);
      if Identity(p) !in byIdentity || p.cpu < byIdentity[Identity(p)].cpu {
        return false, 0.0;
      }
      GainGrows(before, seen, p);
      seen := seen + [p];
      cpu := cpu + (p.cpu - byIdentity[Identity(p)].cpu);
    }
    assert seen == after;
    return true, cpu;
  }

  /** The test of one interval. */
  method Compare(previous: Sample, current: Sample) returns (valid: bool, cpu: real)
    ensures valid <==> ValidInterval(previous, current)
    ensures valid ==> cpu >= 0.0 && cpu == Gain(previous.processes.value, current.processes.value)
  {
    if current.at <= previous.at || previous.processes.None? || current.processes.None? {
      return false, 0.0;
    }
    var before, after := previous.processes.value, current.processes.value;
    var byIdentity := ByIdentity(before);
    IdentityCount(before);
    if |before| != |after| || |byIdentity.Keys| != |before| {
      return false, 0.0;
    }
    valid, cpu := CompareAll(before, after, byIdentity);
  }

  /** With unique current identities, and only then, a valid interval compares the same processes. */
  lemma ValidIntervalComparesSameProcesses(previous: Sample, current: Sample)
    requires ValidInterval(previous, current)
    ensures Identities(current.processes.value) <= Identities(previous.processes.value)
    ensures Identities(current.processes.value) == Identities(previous.processes.value)
       <==> UniqueIdentities(current.processes.value)
  {
    var before, after := previous.processes.value, current.processes.value;
    assert forall p | p in after :: Covered(before, p);
    IdentityCount(before);
    IdentityCount(after);
    SubsetOfSameSize(Identities(after), Identities(before));
  }

  lemma SubsetOfSameSize(a: set<string>, b: set<string>)
    requires a <= b
    ensures |a| == |b| <==> a == b
  {
    assert |b - a| == |b| - |a|;
    assert a == b <==> b - a == {};
  }

  /** Over distinct identities, valid means: later, the same processes, and no CPU time that shrank. */
  lemma ValidIff(previous: Sample, current: Sample)
    requires previous.processes.Some? && current.processes.Some?
    requires UniqueIdentities(previous.processes.value) && UniqueIdentities(current.processes.value)
    ensures ValidInterval(previous, current) <==>
            && current.at > previous.at
            && Identities(previous.processes.value) == Identities(current.processes.value)
            && forall p, q | p in current.processes.value && q in previous.processes.value && Identity(p) == Identity(q) ::
                 q.cpu <= p.cpu
  {
    hide Identity, Baseline, UniqueIdentities;
    var before, after := previous.processes.value, current.processes.value;
    forall p, q | p in after && q in before && Identity(p) == Identity(q)
      ensures Identity(p) in Identities(before) && Baseline(before, Identity(p)) == q.cpu
    {
      BaselineIs(before, q);
    }
    IdentityCount(before);
    IdentityCount(after);
    if ValidInterval(previous, current) {
      ValidIntervalComparesSameProcesses(previous, current);
    }
    if Identities(before) == Identities(after) {
      forall p | p in after ensures exists q :: q in before && Identity(q) == Identity(p) {
        assert Identity(p) in Identities(before);
      }
    }
  }

  /** Utilisation is work per wall time in percent, of one interval and of many. */
  lemma PercentOfWall(i: Interval, intervals: seq<Interval>)
    requires Measured(i) && Wall(intervals) > 0.0
    ensures Utilization(i) * i.wall == 100.0 * i.work
    ensures Average(intervals) * Wall(intervals) == 100.0 * Work(intervals)
  {
    assert i.work / i.wall * i.wall == i.work;
    assert Work(intervals) / Wall(intervals) * Wall(intervals) == Work(intervals);
  }

  /** Without the sampler's check a vanished process can go unnoticed. */
  lemma RepeatedIdentityHidesAnExit()
    ensures var a, b := Process("tab", 1, 0.0), Process("tab", 2, 0.0);
      var previous, current := Sample(0.0, Some([a, b])), Sample(1.0, Some([a, a]));
      ValidInterval(previous, current) && Identity(b) !in Identities(current.processes.value)
  {
    var a, b := Process("tab", 1, 0.0), Process("tab", 2, 0.0);
    if Identity(a) == Identity(b) {
      IdentityInjective(a, b);
    }
    BaselineIs([a, b], a);
  }

  ghost function CpuTotal(processes: seq<Process>): real {
    if processes == [] then 0.0
    else CpuTotal(processes[..|processes| - 1]) + processes[|processes| - 1].cpu
  }

  ghost function BaselineTotal(previous: seq<Process>, current: seq<Process>): real
    requires forall p | p in current :: Identity(p) in Identities(previous)
  {
    if current == [] then 0.0
    else
      var p := current[|current| - 1];
      assert p in current;
      BaselineTotal(previous, current[..|current| - 1]) + Baseline(previous, Identity(p))
  }

  lemma {:induction false} GainSplits(previous: seq<Process>, current: seq<Process>)
    requires forall p | p in current :: Identity(p) in Identities(previous)
    ensures Gain(previous, current) == CpuTotal(current) - BaselineTotal(previous, current)
  {
    if current != [] {
      GainSplits(previous, current[..|current| - 1]);
    }
  }

  lemma {:induction false} CpuTotalWithout(processes: seq<Process>, i: nat)
    requires i < |processes|
    ensures CpuTotal(processes) == CpuTotal(processes[..i] + processes[i + 1..]) + processes[i].cpu
  {
    var n := |processes| - 1;
    if i < n {
      CpuTotalWithout(processes[..n], i);
      var rest := processes[..i] + processes[i + 1..];
      assert rest[..|rest| - 1] == processes[..n][..i] + processes[..n][i + 1..];
    } else {
      assert processes[..i] + processes[i + 1..] == processes[..n];
    }
  }

  lemma {:induction false} BaselineTotalOverRest(previous: seq<Process>, rest: seq<Process>, current: seq<Process>)
    requires UniqueIdentities(previous) && UniqueIdentities(rest) && forall q | q in rest :: q in previous
    requires forall p | p in current :: Identity(p) in Identities(rest)
    ensures forall p | p in current :: Identity(p) in Identities(previous)
    ensures BaselineTotal(previous, current) == BaselineTotal(rest, current)
  {
    if current != [] {
      var p := current[|current| - 1];
      BaselineTotalOverRest(previous, rest, current[..|current| - 1]);
      var q :| q in rest && Identity(q) == Identity(p);
      BaselineIs(rest, q);
      BaselineIs(previous, q);
    }
  }

  /** Dropping the last current process and its baseline keeps the identities matched. */
  lemma DropLastMatch(previous: seq<Process>, before: seq<Process>, p: Process) returns (i: nat)
    requires UniqueIdentities(previous) && UniqueIdentities(before + [p])
    requires Identities(previous) == Identities(before + [p])
    ensures i < |previous| && Identity(previous[i]) == Identity(p)
    ensures UniqueIdentities(before)
    ensures Identities(previous[..i] + previous[i + 1..]) == Identities(before)
  {
    ListGrows(before, p);
    assert Identity(p) in Identities(previous);
    var q :| q in previous && Identity(q) == Identity(p);
    i :| 0 <= i < |previous| && previous[i] == q;
    WithoutOne(previous, i);
  }

  /** Summing the baselines over the current processes visits every previous process once. */
  lemma {:induction false} BaselinesAreAllPrevious(previous: seq<Process>, current: seq<Process>)
    requires UniqueIdentities(previous) && UniqueIdentities(current)
    requires Identities(previous) == Identities(current)
    ensures forall p | p in current :: Identity(p) in Identities(previous)
    ensures BaselineTotal(previous, current) == CpuTotal(previous)
    decreases |current|
  {
    if current == [] {
      IdentityCount(previous);
    } else {
      var before, p := current[..|current| - 1], current[|current| - 1];
      assert current == before + [p];
      var i := DropLastMatch(previous, before, p);
      var rest := previous[..i] + previous[i + 1..];
      WithoutOne(previous, i);
      BaselinesAreAllPrevious(rest, before);
      BaselineTotalOverRest(previous, rest, before);
      BaselineIs(previous, previous[i]);
      CpuTotalWithout(previous, i);
    }
  }

  lemma WithoutOne(processes: seq<Process>, i: nat)
    requires UniqueIdentities(processes) && i < |processes|
    ensures var rest := processes[..i] + processes[i + 1..];
      && UniqueIdentities(rest) && (forall q | q in rest :: q in processes)
      && Identities(rest) == Identities(processes) - {Identity(processes[i])}
  {
  }

  /** Between two samples of unique identities, a valid interval's CPU time is the growth of the total. */
  lemma ValidIntervalConservesCpu(previous: Sample, current: Sample)
    requires ValidInterval(previous, current) && UniqueIdentities(current.processes.value)
    ensures Gain(previous.processes.value, current.processes.value)
      == CpuTotal(current.processes.value) - CpuTotal(previous.processes.value)
  {
    ValidIntervalComparesSameProcesses(previous, current);
    GainSplits(previous.processes.value, current.processes.value);
    BaselinesAreAllPrevious(previous.processes.value, current.processes.value);
  }

  ghost function IntervalBetween(previous: Sample, current: Sample): seq<Interval> {
    if ValidInterval(previous, current)
    then [Interval(Gain(previous.processes.value, current.processes.value), current.at - previous.at)]
    else []
  }

  /** The valid intervals between the first `n` samples. */
  ghost function ProcessIntervals(samples: seq<Sample>, n: nat): seq<Interval>
    requires n <= |samples|
  {
    if n <= 1 then []
    else ProcessIntervals(samples, n - 1) + IntervalBetween(samples[n - 2], samples[n - 1])
  }

  /** One interval of the loop. */
  method AccountInterval(previous: Sample, current: Sample, totals: Accumulator)
    requires totals.Valid()
    modifies totals
    ensures totals.Valid() && totals.intervals == old(totals.intervals) + IntervalBetween(previous, current)
    ensures |totals.intervals| + totals.invalid == old(|totals.intervals| + totals.invalid) + 1
  {
    hide Gain, AllMeasured, IsPeak, Accumulator.Valid;
    var valid, cpu := Compare(previous, current);
    if valid {
      totals.Add(Interval(cpu, current.at - previous.at));
    } else {
      totals.Reject();
    }
  }

  /** `summarizeBrowserProcessResources`. */
  method SummarizeProcesses(samples: seq<Sample>) returns (s: Summary)
    ensures Summarizes(s, ProcessIntervals(samples, |samples|), s.invalid)
    ensures s.valid + s.invalid == if samples == [] then 0 else |samples| - 1
  {
    hide Accumulator.Valid, IntervalBetween, Wall, Work;
    var totals := new Accumulator();
    for index := 1 to if samples == [] then 1 else |samples|
      invariant totals.Valid() && fresh(totals)
      invariant totals.intervals == ProcessIntervals(samples, Seen(samples, index))
      invariant |totals.intervals| + totals.invalid == index - 1
    {
      AccountInterval(samples[index - 1], samples[index], totals);
    }
    s := totals.Finish();
  }

  // ---------------------------------------------------------------- pages

  datatype Role = HostPage | ViewerPage | RelayPage

  datatype Performance = Performance(timestamp: real, task: real, script: real, layout: real, recalc: real)

  /** `sending` says that the page has an active outbound video. */
  datatype Page = Page(name: string, host: bool, sending: bool, performance: Option<Performance>)

  function RoleOf(page: Page): Role {
    if page.host then HostPage else if page.sending then RelayPage else ViewerPage
  }

  /** The performance sample of the last page with a label. */
  function Before(previous: seq<Page>, name: string): Option<Performance> {
    if previous == [] then None
    else
      var page := previous[|previous| - 1];
      if page.name == name then page.performance else Before(previous[..|previous| - 1], name)
  }

  datatype Verdict = Absent | Bad | Good(interval: Interval)

  /** What one page contributes between two samples. */
  function Judge(before: Option<Performance>, after: Option<Performance>): (v: Verdict)
    ensures v.Good? ==> Measured(v.interval) && before.Some? && after.Some?
  {
    if before.None? && after.None? then Absent
    else if before.None? || after.None? then Bad
    else
      var b, a := before.value, after.value;
      if a.timestamp <= b.timestamp || a.task < b.task || a.script < b.script || a.layout < b.layout || a.recalc < b.recalc
      then Bad
      else Good(Interval(a.task - b.task, a.timestamp - b.timestamp))
  }

  /** Neither sample says nothing, one alone or a clock or counter that runs back is bad, and else task time counts. */
  lemma JudgeIff(before: Option<Performance>, after: Option<Performance>)
    ensures Judge(before, after) == Absent <==> before.None? && after.None?
    ensures forall b, a | before == Some(b) && after == Some(a) && b.timestamp < a.timestamp &&
                          b.task <= a.task && b.script <= a.script && b.layout <= a.layout && b.recalc <= a.recalc ::
              Judge(before, after) == Good(Interval(a.task - b.task, a.timestamp - b.timestamp))
    ensures Judge(before, after).Good? ==>
              && before.Some? && after.Some?
              && var b, a := before.value, after.value;
                 (b.timestamp < a.timestamp && b.task <= a.task && b.script <= a.script
                  && b.layout <= a.layout && b.recalc <= a.recalc)
  {
  }

  /** Hosts count as hosts, and viewers by whether they send video on: relays do, plain viewers do not. */
  lemma RolesAre(page: Page)
    ensures RoleOf(page) == HostPage <==> page.host
    ensures RoleOf(page) == RelayPage <==> !page.host && page.sending
    ensures RoleOf(page) == ViewerPage <==> !page.host && !page.sending
  {
  }

  /** A page is compared with the last page of its label before, or with nothing. */
  lemma {:induction false} BeforeIs(previous: seq<Page>, name: string)
    ensures (forall page | page in previous :: page.name != name) ==> Before(previous, name) == None
    ensures forall i | 0 <= i < |previous| && previous[i].name == name &&
                       (forall j | i < j < |previous| :: previous[j].name != name) ::
              Before(previous, name) == previous[i].performance
  {
    if previous != [] {
      var n := |previous| - 1;
      assert previous == previous[..n] + [previous[n]];
      BeforeIs(previous[..n], name);
    }
  }

  /** The intervals of one role among the pages of a sample. */
  ghost function PageIntervals(previous: seq<Page>, pages: seq<Page>, role: Role): seq<Interval> {
    if pages == [] then []
    else
      var page := pages[|pages| - 1];
      var v := Judge(Before(previous, page.name), page.performance);
      PageIntervals(previous, pages[..|pages| - 1], role) + if v.Good? && RoleOf(page) == role then [v.interval] else []
  }

  ghost function PagesRejected(previous: seq<Page>, pages: seq<Page>, role: Role): nat {
    if pages == [] then 0
    else
      var page := pages[|pages| - 1];
      var v := Judge(Before(previous, page.name), page.performance);
      PagesRejected(previous, pages[..|pages| - 1], role) + if v.Bad? && RoleOf(page) == role then 1 else 0
  }

  ghost function RoleIntervals(samples: seq<seq<Page>>, n: nat, role: Role): seq<Interval>
    requires n <= |samples|
  {
    if n <= 1 then []
    else RoleIntervals(samples, n - 1, role) + PageIntervals(samples[n - 2], samples[n - 1], role)
  }

  ghost function RoleRejected(samples: seq<seq<Page>>, n: nat, role: Role): nat
    requires n <= |samples|
  {
    if n <= 1 then 0
    else RoleRejected(samples, n - 1, role) + PagesRejected(samples[n - 2], samples[n - 1], role)
  }

  lemma PagesGrow(previous: seq<Page>, pages: seq<Page>, i: nat, role: Role)
    requires i < |pages|
    ensures var v := Judge(Before(previous, pages[i].name), pages[i].performance);
      && PageIntervals(previous, pages[..i + 1], role)
         == PageIntervals(previous, pages[..i], role) + (if v.Good? && RoleOf(pages[i]) == role then [v.interval] else [])
      && PagesRejected(previous, pages[..i + 1], role)
         == PagesRejected(previous, pages[..i], role) + (if v.Bad? && RoleOf(pages[i]) == role then 1 else 0)
  {
    assert pages[..i + 1][..i] == pages[..i];
  }

  ghost predicate Holds(totals: Accumulator, intervals: seq<Interval>, invalid: nat)
    reads totals
  {
    totals.Valid() && totals.intervals == intervals && totals.invalid == invalid
  }

  /** What the first pages of a sample have added to the totals of a role. */
  ghost predicate Advanced(totals: Accumulator, intervals: seq<Interval>, invalid: nat,
                           previous: seq<Page>, pages: seq<Page>, role: Role)
    reads totals
  {
    Holds(totals, intervals + PageIntervals(previous, pages, role), invalid + PagesRejected(previous, pages, role))
  }

  lemma AppendsAssociate(a: seq<Interval>, b: seq<Interval>, c: seq<Interval>)
    ensures a + b + c == a + (b + c)
    ensures a + [] == a
  {
  }

  /** The pages of one sample against the sample before. */
  method AccountPages(previous: seq<Page>, pages: seq<Page>, host: Accumulator, viewer: Accumulator, relay: Accumulator)
    requires host != viewer && host != relay && viewer != relay && host.Valid() && viewer.Valid() && relay.Valid()
    modifies host, viewer, relay
    ensures Advanced(host, old(host.intervals), old(host.invalid), previous, pages, HostPage)
    ensures Advanced(viewer, old(viewer.intervals), old(viewer.invalid), previous, pages, ViewerPage)
    ensures Advanced(relay, old(relay.intervals), old(relay.invalid), previous, pages, RelayPage)
  {
    for i := 0 to |pages|
      invariant Advanced(host, old(host.intervals), old(host.invalid), previous, pages[..i], HostPage)
      invariant Advanced(viewer, old(viewer.intervals), old(viewer.invalid), previous, pages[..i], ViewerPage)
      invariant Advanced(relay, old(relay.intervals), old(relay.invalid), previous, pages[..i], RelayPage)
    {
      AccountPage(previous, pages, i, HostPage, host, old(host.intervals), old(host.invalid));
      AccountPage(previous, pages, i, ViewerPage, viewer, old(viewer.intervals), old(viewer.invalid));
      AccountPage(previous, pages, i, RelayPage, relay, old(relay.intervals), old(relay.invalid));
    }
    assert pages[..|pages|] == pages;
  }

  /** Accounts page `i` to the totals of `role` when the page has that role. */
  method AccountPage(previous: seq<Page>, pages: seq<Page>, i: nat, role: Role, totals: Accumulator,
                     ghost intervals: seq<Interval>, ghost invalid: nat)
    requires i < |pages| && Advanced(totals, intervals, invalid, previous, pages[..i], role)
    modifies totals
    ensures Advanced(totals, intervals, invalid, previous, pages[..i + 1], role)
  {
    PagesGrow(previous, pages, i, role);
    var v := Judge(Before(previous, pages[i].name), pages[i].performance);
    AppendsAssociate(intervals, PageIntervals(previous, pages[..i], role), if v.Good? then [v.interval] else []);
    AppendsAssociate(intervals, PageIntervals(previous, pages[..i], role), []);
    if RoleOf(pages[i]) == role {
      match v
      case Absent =>
      case Bad => totals.Reject();
      case Good(interval) => totals.Add(interval);
    }
  }

  ghost predicate HoldsRole(totals: Accumulator, samples: seq<seq<Page>>, n: nat, role: Role)
    requires n <= |samples|
    reads totals
  {
    Holds(totals, RoleIntervals(samples, n, role), RoleRejected(samples, n, role))
  }

  /** Sample `index` against the one before it. */
  method AccountSample(samples: seq<seq<Page>>, index: nat, host: Accumulator, viewer: Accumulator, relay: Accumulator)
    requires 0 < index < |samples| && host != viewer && host != relay && viewer != relay
    requires HoldsRole(host, samples, index, HostPage)
    requires HoldsRole(viewer, samples, index, ViewerPage)
    requires HoldsRole(relay, samples, index, RelayPage)
    modifies host, viewer, relay
    ensures HoldsRole(host, samples, index + 1, HostPage)
    ensures HoldsRole(viewer, samples, index + 1, ViewerPage)
    ensures HoldsRole(relay, samples, index + 1, RelayPage)
  {
    AccountPages(samples[index - 1], samples[index], host, viewer, relay);
  }

  method AccountSamples(samples: seq<seq<Page>>) returns (host: Accumulator, viewer: Accumulator, relay: Accumulator)
    ensures HoldsRole(host, samples, |samples|, HostPage)
    ensures HoldsRole(viewer, samples, |samples|, ViewerPage)
    ensures HoldsRole(relay, samples, |samples|, RelayPage)
  {
    host := new Accumulator();
    viewer := new Accumulator();
    relay := new Accumulator();
    for index := 1 to if samples == [] then 1 else |samples|
      invariant fresh(host) && fresh(viewer) && fresh(relay)
      invariant HoldsRole(host, samples, Seen(samples, index), HostPage)
      invariant HoldsRole(viewer, samples, Seen(samples, index), ViewerPage)
      invariant HoldsRole(relay, samples, Seen(samples, index), RelayPage)
    {
      AccountSample(samples, index, host, viewer, relay);
    }
  }

  /** `summarizePageRuntimeResources`: task time per role. */
  method SummarizePages(samples: seq<seq<Page>>) returns (host: Summary, viewer: Summary, relay: Summary)
    ensures Summarizes(host, RoleIntervals(samples, |samples|, HostPage), RoleRejected(samples, |samples|, HostPage))
    ensures Summarizes(viewer, RoleIntervals(samples, |samples|, ViewerPage), RoleRejected(samples, |samples|, ViewerPage))
    ensures Summarizes(relay, RoleIntervals(samples, |samples|, RelayPage), RoleRejected(samples, |samples|, RelayPage))
  {
    var h, v, r := AccountSamples(samples);
    host := h.Finish();
    viewer := v.Finish();
    relay := r.Finish();
  }

  function Seen<T>(samples: seq<T>, index: nat): nat {
    if samples == [] then 0 else index
  }
}
