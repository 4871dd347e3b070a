/**
 * The CPU sampler (cpu_info.c): model name and core count from /proc/cpuinfo,
 * aggregate and per-core utilisation from the tick counters of /proc/stat,
 * computed as deltas against a counter store that lives for the whole process.
 */
module CpuInfo {
  import opened Common

  /** Longest model name kept (`char model[128]`, terminator excluded). */
  const MODEL_CHARS: nat := 127

  /**
   * Slots in the counter store: slot 0 holds the aggregate line, slot k + 1 core k.
   * The source declares MAX_CPU_CORES slots, one too few (see SlotAsWritten).
   */
  const STORE_SLOTS: nat := MAX_CPU_CORES + 1

  // ----- /proc/cpuinfo -----

  predicate IsModelLine(line: string) {
    StartsWith(line, "model name")
  }

  predicate IsProcessorLine(line: string) {
    StartsWith(line, "processor")
  }

  /**
   * The model text of a line: skip the first ':' and the character after it,
   * cut at the newline, keep at most MODEL_CHARS characters. None when the
   * line has no ':'.
   */
  function ModelText(line: string): (r: Option<string>)
    ensures r.None? <==> ':' !in line
    ensures r.Some? ==> |r.value| <= MODEL_CHARS && '\n' !in r.value
  {
    match IndexOf(line, ':')
    case None => None
    case Some(c) =>
      var from := if c + 2 <= |line| then c + 2 else |line|;
      Some(Take(UpToNewline(line[from..]), MODEL_CHARS))
  }

  /** The model after one more line: only a still-empty model is filled. */
  function NextModel(model: string, line: string): string {
    if model == [] && IsModelLine(line) && ModelText(line).Some? then ModelText(line).value
    else model
  }

  /** A line that yields a non-empty model text. */
  predicate GivesModel(line: string) {
    IsModelLine(line) && ModelText(line).Some? && ModelText(line).value != []
  }

  /** The model the scan of `lines` ends with. */
  function ModelOf(lines: seq<string>): (m: string)
    ensures |m| <= MODEL_CHARS && '\n' !in m
  {
    if lines == [] then ""
    else NextModel(ModelOf(lines[..|lines| - 1]), lines[|lines| - 1])
  }

  /** The number of "processor" lines seen by the scan of `lines`. */
  function ProcessorCount(lines: seq<string>): nat {
    if lines == [] then 0
    else ProcessorCount(lines[..|lines| - 1]) + if IsProcessorLine(lines[|lines| - 1]) then 1 else 0
  }

  /** The indices of the "processor" lines. */
  function ProcessorLines(lines: seq<string>): set<nat> {
    set i: nat | i < |lines| && IsProcessorLine(lines[i])
  }

  /** The core count is the number of lines that start with "processor". */
  lemma {:induction false} ProcessorCountIsLineCount(lines: seq<string>)
    ensures ProcessorCount(lines) == |ProcessorLines(lines)|
  {
    if lines != [] {
      var n := |lines| - 1;
      ProcessorCountIsLineCount(lines[..n]);
      var before := ProcessorLines(lines[..n]);
      if IsProcessorLine(lines[n]) {
        assert ProcessorLines(lines) == before + {n};
      } else {
        assert ProcessorLines(lines) == before;
      }
    }
  }

  /** A model once set is kept; an empty one takes the text of a line that gives one. */
  lemma NextModelStep(model: string, line: string)
    ensures model != [] ==> NextModel(model, line) == model
    ensures model == [] && GivesModel(line) ==> NextModel(model, line) == ModelText(line).value
    ensures model == [] && !GivesModel(line) ==> NextModel(model, line) == []
  {
  }

  /** When no line yields a model text the model stays empty. */
  lemma {:induction false} NoModelLine(lines: seq<string>)
    requires forall j :: 0 <= j < |lines| ==> !GivesModel(lines[j])
    ensures ModelOf(lines) == ""
  {
    if lines != [] {
      var n := |lines| - 1;
      forall j | 0 <= j < n
        ensures !GivesModel(lines[..n][j])
      {
        assert lines[..n][j] == lines[j];
      }
      NoModelLine(lines[..n]);
      NextModelStep(ModelOf(lines[..n]), lines[n]);
    }
  }

  /** The model is the text of the first line that yields a non-empty one. */
  lemma {:induction false} FirstModelLineWins(lines: seq<string>, k: nat)
    requires k < |lines| && GivesModel(lines[k])
    requires forall j :: 0 <= j < k ==> !GivesModel(lines[j])
    ensures ModelOf(lines) == ModelText(lines[k]).value
    decreases |lines|, 1
  {
    if k == |lines| - 1 {
      FirstModelLineLast(lines);
    } else {
      FirstModelLineEarlier(lines, k);
    }
  }

  /** The base case: the line that gives the model is the last one. */
  lemma FirstModelLineLast(lines: seq<string>)
    requires |lines| > 0 && GivesModel(lines[|lines| - 1])
    requires forall j :: 0 <= j < |lines| - 1 ==> !GivesModel(lines[j])
    ensures ModelOf(lines) == ModelText(lines[|lines| - 1]).value
  {
    NoModelLine(lines[..|lines| - 1]);
    ModelTaken(lines);
  }

  /** The inductive case: the line that gives the model is not the last one. */
  lemma {:induction false} FirstModelLineEarlier(lines: seq<string>, k: nat)
    requires k < |lines| - 1 && GivesModel(lines[k])
    requires forall j :: 0 <= j < k ==> !GivesModel(lines[j])
    ensures ModelOf(lines) == ModelText(lines[k]).value
    decreases |lines|, 0
  {
    var before := lines[..|lines| - 1];
    assert before[k] == lines[k];
    FirstModelLineWins(before, k);
    ModelKept(lines);
  }

  /** A non-empty model survives one more line. */
  lemma ModelKept(lines: seq<string>)
    requires |lines| > 0 && ModelOf(lines[..|lines| - 1]) != []
    ensures ModelOf(lines) == ModelOf(lines[..|lines| - 1])
  {
    NextModelStep(ModelOf(lines[..|lines| - 1]), lines[|lines| - 1]);
  }

  /** An empty model takes the text of a last line that gives one. */
  lemma ModelTaken(lines: seq<string>)
    requires |lines| > 0 && ModelOf(lines[..|lines| - 1]) == [] && GivesModel(lines[|lines| - 1])
    ensures ModelOf(lines) == ModelText(lines[|lines| - 1]).value
  {
    NextModelStep([], lines[|lines| - 1]);
  }

  /** The body of the /proc/cpuinfo loop for one line. */
  method ScanLine(model: string, cores: nat, line: string) returns (model': string, cores': nat)
    ensures model' == NextModel(model, line)
    ensures cores' == cores + if IsProcessorLine(line) then 1 else 0
  {
    model', cores' := model, cores;
    if IsModelLine(line) && model == [] {
      match IndexOf(line, ':') {
        case None =>
        case Some(c) =>
          var from := if c + 2 <= |line| then c + 2 else |line|;
          model' := Take(UpToNewline(line[from..]), MODEL_CHARS);
      }
    }
    if IsProcessorLine(line) {
      cores' := cores' + 1;
    }
  }

  /** The /proc/cpuinfo loop: model name and core count. */
  method ScanCpuInfo(lines: seq<string>) returns (model: string, cores: nat)
    ensures model == ModelOf(lines) && cores == ProcessorCount(lines)
  {
    model, cores := "", 0;
    var i := 0;
    while i < |lines|
      invariant 0 <= i <= |lines|
      invariant model == ModelOf(lines[..i]) && cores == ProcessorCount(lines[..i])
    {
      assert lines[..i + 1][..i] == lines[..i];
      model, cores := ScanLine(model, cores, lines[i]);
      i := i + 1;
    }
    assert lines[..i] == lines;
  }

  // ----- /proc/stat -----

  /** The eight tick counters of a cpu line, in file order. */
  datatype Ticks = Ticks(user: U64, nice: U64, system: U64, idle: U64,
                         iowait: U64, irq: U64, softirq: U64, steal: U64)

  /** A /proc/stat line, classified by its first four characters. */
  datatype StatLine =
    | Aggregate(ticks: Ticks)          // "cpu " followed by eight counters
    | PerCore(id: nat, ticks: Ticks)   // "cpuN" followed by eight counters
    | Other                            // any other line

  /** The sum of the eight counters in unsigned 64-bit arithmetic. */
  function TickTotal(t: Ticks): (r: U64)
    ensures var sum := t.user + t.nice + t.system + t.idle + t.iowait + t.irq + t.softirq + t.steal;
            (sum < TWO_TO_THE_64 ==> r == sum) && Congruent64(r, sum)
  {
    (t.user + t.nice + t.system + t.idle + t.iowait + t.irq + t.softirq + t.steal) % TWO_TO_THE_64
  }

  /** The store slot a line updates; None when the line is skipped. */
  function Slot(line: StatLine): (k: Option<nat>)
    ensures k.Some? ==> k.value < STORE_SLOTS
    ensures k == Some(0) <==> line.Aggregate?
    ensures line.PerCore? && line.id < MAX_CPU_CORES ==> k == Some(line.id + 1)
    ensures line.PerCore? && line.id >= MAX_CPU_CORES ==> k.None?
    ensures line.Other? ==> k.None?
  {
    match line
    case Aggregate(_) => Some(0)
    case PerCore(id, _) => if id < MAX_CPU_CORES then Some(id + 1) else None
    case Other => None
  }

  /**
   * Utilisation of a line against the stored (total, idle) pair:
   * 100 * (Δtotal - Δidle) / Δtotal with every difference taken modulo 2^64,
   * or None when Δtotal is 0 (the division-by-zero guard).
   */
  function Utilisation(prevTotal: U64, prevIdle: U64, t: Ticks): (u: Option<real>)
    ensures u.None? <==> TickTotal(t) == prevTotal
    ensures u.Some? ==> u.value == Ratio100(Sub64(Sub64(TickTotal(t), prevTotal), Sub64(t.idle, prevIdle)), Sub64(TickTotal(t), prevTotal))
    ensures u.Some? && Sub64(t.idle, prevIdle) <= Sub64(TickTotal(t), prevTotal) ==> 0.0 <= u.value <= 100.0
  {
    var totalDiff := Sub64(TickTotal(t), prevTotal);
    var idleDiff := Sub64(t.idle, prevIdle);
    if totalDiff > 0 then Some(Ratio100(Sub64(totalDiff, idleDiff), totalDiff)) else None
  }

  /** The ticks spent outside the idle state: iowait, irq, softirq and steal count as busy. */
  function BusyTicks(t: Ticks): int {
    t.user + t.nice + t.system + t.iowait + t.irq + t.softirq + t.steal
  }

  /**
   * Only the raw idle counter counts as idle: between two samples whose counters
   * only grow and do not wrap, utilisation is the share of busy ticks, iowait,
   * irq, softirq and steal included.
   */
  lemma OnlyIdleIsIdle(p: Ticks, t: Ticks)
    requires BusyTicks(t) + t.idle < TWO_TO_THE_64
    requires p.user <= t.user && p.nice <= t.nice && p.system <= t.system && p.idle <= t.idle
    requires p.iowait <= t.iowait && p.irq <= t.irq && p.softirq <= t.softirq && p.steal <= t.steal
    ensures var busy, idle := BusyTicks(t) - BusyTicks(p), t.idle - p.idle;
            Utilisation(TickTotal(p), p.idle, t)
              == if busy + idle > 0 then Some(Ratio100(busy, busy + idle)) else None
  {
  }

  /** The per-call part of the sampler's state: the store and the usage being reported. */
  datatype Sample = Sample(totals: seq<U64>, idles: seq<U64>, usage: seq<real>, totalUsage: real)

  predicate Shaped(s: Sample) {
    |s.totals| == STORE_SLOTS && |s.idles| == STORE_SLOTS && |s.usage| == MAX_CPU_CORES
  }

  function Zeros(): (z: seq<real>)
    ensures |z| == MAX_CPU_CORES && forall i :: 0 <= i < |z| ==> z[i] == 0.0
  {
    seq(MAX_CPU_CORES, _ => 0.0)
  }

  /**
   * One counter line: the store slot takes the line's total and raw idle; unless
   * this is the first run, the slot's utilisation is updated when time elapsed.
   */
  function ApplyLine(firstRun: bool, s: Sample, line: StatLine): (r: Sample)
    requires Shaped(s)
    ensures Shaped(r)
    ensures Slot(line).None? ==> r == s
    ensures Slot(line).Some? ==> var k := Slot(line).value;
      r.totals == s.totals[k := TickTotal(line.ticks)] && r.idles == s.idles[k := line.ticks.idle]
    ensures firstRun ==> r.usage == s.usage && r.totalUsage == s.totalUsage
  {
    match Slot(line)
    case None => s
    case Some(k) =>
      var t := line.ticks;
      var stored := s.(totals := s.totals[k := TickTotal(t)], idles := s.idles[k := t.idle]);
      if firstRun then stored
      else match Utilisation(s.totals[k], s.idles[k], t)
        case None => stored
        case Some(p) =>
          if k == 0 then stored.(totalUsage := p) else stored.(usage := stored.usage[k - 1 := p])
  }

  /** The counter lines in file order. */
  function ApplyLines(firstRun: bool, s: Sample, lines: seq<StatLine>): (r: Sample)
    requires Shaped(s)
    ensures Shaped(r)
  {
    if lines == [] then s
    else ApplyLine(firstRun, ApplyLines(firstRun, s, lines[..|lines| - 1]), lines[|lines| - 1])
  }

  /** The lines of /proc/stat the loop reads: it stops after `cores + 1` lines. */
  function Examined(lines: seq<StatLine>, cores: nat): (r: seq<StatLine>)
    ensures |r| <= cores + 1 && |r| <= |lines| && r == lines[..|r|]
    ensures |lines| <= cores + 1 ==> r == lines
  {
    if |lines| <= cores + 1 then lines else lines[..cores + 1]
  }

  /** On the first run every utilisation keeps the value it started with. */
  lemma {:induction false} FirstRunReportsNothing(s: Sample, lines: seq<StatLine>)
    requires Shaped(s)
    ensures ApplyLines(true, s, lines).usage == s.usage
    ensures ApplyLines(true, s, lines).totalUsage == s.totalUsage
  {
    if lines != [] {
      FirstRunReportsNothing(s, lines[..|lines| - 1]);
    }
  }

  /** A slot no line maps to keeps its pair, and its utilisation is not reported. */
  lemma {:induction false} UntouchedSlot(firstRun: bool, s: Sample, lines: seq<StatLine>, k: nat)
    requires Shaped(s) && k < STORE_SLOTS
    requires forall j :: 0 <= j < |lines| ==> Slot(lines[j]) != Some(k)
    ensures var r := ApplyLines(firstRun, s, lines);
      r.totals[k] == s.totals[k] && r.idles[k] == s.idles[k]
      && (k == 0 ==> r.totalUsage == s.totalUsage)
      && (k > 0 ==> r.usage[k - 1] == s.usage[k - 1])
  {
    if lines != [] {
      UntouchedSlot(firstRun, s, lines[..|lines| - 1], k);
    }
  }

  /** After the lines, a slot holds the total and raw idle of the last line mapped to it. */
  lemma {:induction false} LastLineStored(firstRun: bool, s: Sample, lines: seq<StatLine>, j: nat)
    requires Shaped(s) && j < |lines| && Slot(lines[j]).Some?
    requires forall i :: j < i < |lines| ==> Slot(lines[i]) != Slot(lines[j])
    ensures var r, k := ApplyLines(firstRun, s, lines), Slot(lines[j]).value;
      r.totals[k] == TickTotal(lines[j].ticks) && r.idles[k] == lines[j].ticks.idle
  {
    var n := |lines| - 1;
    if j < n {
      LastLineStored(firstRun, s, lines[..n], j);
      ApplyLineElsewhere(firstRun, ApplyLines(firstRun, s, lines[..n]), lines[n], Slot(lines[j]).value);
    }
  }

  /** No two lines map to the same slot (what a well-formed /proc/stat shows). */
  predicate DistinctSlots(lines: seq<StatLine>) {
    forall i, j :: 0 <= i < j < |lines| && Slot(lines[i]).Some? ==> Slot(lines[i]) != Slot(lines[j])
  }

  /**
   * After the first run, a line's utilisation is reported against the pair the
   * store held when the call began.
   */
  lemma {:induction false} ReportedUtilisation(s: Sample, lines: seq<StatLine>, j: nat, p: real)
    requires Shaped(s) && DistinctSlots(lines) && j < |lines| && Slot(lines[j]).Some?
    requires var k := Slot(lines[j]).value; Utilisation(s.totals[k], s.idles[k], lines[j].ticks) == Some(p)
    ensures var r, k := ApplyLines(false, s, lines), Slot(lines[j]).value;
      (k == 0 ==> r.totalUsage == p) && (k > 0 ==> r.usage[k - 1] == p)
    decreases |lines|, 1
  {
    if j < |lines| - 1 {
      ReportedEarlier(s, lines, j, p);
    } else {
      ReportedLast(s, lines, p);
    }
  }

  /** The inductive case: a later line, mapped to another slot, leaves the reported value alone. */
  lemma {:induction false} ReportedEarlier(s: Sample, lines: seq<StatLine>, j: nat, p: real)
    requires Shaped(s) && DistinctSlots(lines) && j < |lines| - 1 && Slot(lines[j]).Some?
    requires var k := Slot(lines[j]).value; Utilisation(s.totals[k], s.idles[k], lines[j].ticks) == Some(p)
    ensures var r, k := ApplyLines(false, s, lines), Slot(lines[j]).value;
      (k == 0 ==> r.totalUsage == p) && (k > 0 ==> r.usage[k - 1] == p)
    decreases |lines|, 0
  {
    var n := |lines| - 1;
    var before := lines[..n];
    assert forall i :: 0 <= i < n ==> before[i] == lines[i];
    ReportedUtilisation(s, before, j, p);
    ApplyLineElsewhere(false, ApplyLines(false, s, before), lines[n], Slot(lines[j]).value);
  }

  /** The base case: the last line is the first to touch its slot, which still holds the starting pair. */
  lemma ReportedLast(s: Sample, lines: seq<StatLine>, p: real)
    requires Shaped(s) && DistinctSlots(lines) && |lines| > 0 && Slot(lines[|lines| - 1]).Some?
    requires var k := Slot(lines[|lines| - 1]).value;
      Utilisation(s.totals[k], s.idles[k], lines[|lines| - 1].ticks) == Some(p)
    ensures var r, k := ApplyLines(false, s, lines), Slot(lines[|lines| - 1]).value;
      (k == 0 ==> r.totalUsage == p) && (k > 0 ==> r.usage[k - 1] == p)
  {
    var n := |lines| - 1;
    UntouchedSlot(false, s, lines[..n], Slot(lines[n]).value);
  }

  /** A line mapped to another slot leaves slot k and its utilisation alone. */
  lemma ApplyLineElsewhere(firstRun: bool, s: Sample, line: StatLine, k: nat)
    requires Shaped(s) && k < STORE_SLOTS && Slot(line) != Some(k)
    ensures var r := ApplyLine(firstRun, s, line);
      r.totals[k] == s.totals[k] && r.idles[k] == s.idles[k]
      && (k == 0 ==> r.totalUsage == s.totalUsage)
      && (k > 0 ==> r.usage[k - 1] == s.usage[k - 1])
  {
  }

  /**
   * Feeding the same counters twice: on the second call every Δtotal is 0, so
   * nothing is divided and every utilisation stays at the 0 it was reset to.
   */
  lemma RepeatedSampleIsIdle(firstRun: bool, s: Sample, lines: seq<StatLine>)
    requires Shaped(s) && DistinctSlots(lines)
    ensures var once := ApplyLines(firstRun, s, lines);
      var twice := ApplyLines(false, Sample(once.totals, once.idles, Zeros(), 0.0), lines);
      twice.usage == Zeros() && twice.totalUsage == 0.0
  {
    var once := ApplyLines(firstRun, s, lines);
    var z := Sample(once.totals, once.idles, Zeros(), 0.0);
    RepeatIdlePrefix(firstRun, s, lines, |lines|);
    assert lines[..|lines|] == lines;
  }

  lemma {:induction false} RepeatIdlePrefix(firstRun: bool, s: Sample, lines: seq<StatLine>, i: nat)
    requires Shaped(s) && DistinctSlots(lines) && i <= |lines|
    ensures var once := ApplyLines(firstRun, s, lines);
      var r := ApplyLines(false, Sample(once.totals, once.idles, Zeros(), 0.0), lines[..i]);
      r.usage == Zeros() && r.totalUsage == 0.0
      && forall j :: i <= j < |lines| && Slot(lines[j]).Some? ==>
           r.totals[Slot(lines[j]).value] == once.totals[Slot(lines[j]).value]
           && r.idles[Slot(lines[j]).value] == once.idles[Slot(lines[j]).value]
  {
    var once := ApplyLines(firstRun, s, lines);
    var z := Sample(once.totals, once.idles, Zeros(), 0.0);
    if i > 0 {
      RepeatIdlePrefix(firstRun, s, lines, i - 1);
      var before := ApplyLines(false, z, lines[..i - 1]);
      assert lines[..i][..i - 1] == lines[..i - 1];
      var line := lines[i - 1];
      if Slot(line).Some? {
        var k := Slot(line).value;
        LastLineStored(firstRun, s, lines, i - 1);
        assert before.totals[k] == TickTotal(line.ticks);
        assert Utilisation(before.totals[k], before.idles[k], line.ticks).None?;
      }
    }
  }

  // ----- the sampler -----

  /** What read_cpu_info reports. */
  datatype CpuSnapshot = CpuSnapshot(model: string, cores: nat, usage: seq<real>,
                                     totalUsage: real, temperature: real)

  /** The snapshot after `memset(cpu, 0, ...)`. */
  function ZeroCpu(): CpuSnapshot {
    CpuSnapshot("", 0, Zeros(), 0.0, 0.0)
  }

  /** Degrees Celsius from a sensor reading in millidegrees; 0 when no sensor answered. */
  function Temperature(sensor: Option<int>): real {
    match sensor
    case None => 0.0
    case Some(milli) => milli as real / 1000.0
  }

  /** The indices the first-run loop zeroes, as written: every i below the core count, in order. */
  function BootstrapIndicesAsWritten(cores: nat): (w: seq<nat>)
    ensures |w| == cores
  {
    seq(cores, i => i)
  }

  /** With more than MAX_CPU_CORES processors, the loop as written writes past `usage`. */
  lemma BootstrapAsWrittenOverruns()
    ensures var w := BootstrapIndicesAsWritten(MAX_CPU_CORES + 1);
      exists j :: 0 <= j < |w| && w[j] >= MAX_CPU_CORES
  {
    var w := BootstrapIndicesAsWritten(MAX_CPU_CORES + 1);
    assert w[MAX_CPU_CORES] == MAX_CPU_CORES;
  }

  /** The first-run loop's bound, stopped at the end of `usage`. */
  function BootstrapBound(cores: nat): (n: nat)
    ensures n <= MAX_CPU_CORES && n <= cores
    ensures cores <= MAX_CPU_CORES ==> n == cores
  {
    if cores <= MAX_CPU_CORES then cores else MAX_CPU_CORES
  }

  /** The slot a per-core line writes, as written: guarded by id < MAX_CPU_CORES. */
  function SlotAsWritten(id: nat): (k: Option<nat>)
    ensures k.Some? <==> id < MAX_CPU_CORES
    ensures k.Some? ==> k.value == id + 1
  {
    if id < MAX_CPU_CORES then Some(id + 1) else None
  }

  /** The guard admits core MAX_CPU_CORES - 1, whose slot is one past a MAX_CPU_CORES-entry store. */
  lemma SlotAsWrittenOverruns()
    ensures exists id: nat :: SlotAsWritten(id).Some? && SlotAsWritten(id).value >= MAX_CPU_CORES
  {
    assert SlotAsWritten(MAX_CPU_CORES - 1).Some?;
  }

  /** The first-run loop: zero the usage of the first cores (bounded by the array). */
  method ResetUsage(usage: array<real>, cores: nat)
    requires usage.Length == MAX_CPU_CORES
    modifies usage
    ensures forall i :: 0 <= i < BootstrapBound(cores) ==> usage[i] == 0.0
    ensures forall i :: BootstrapBound(cores) <= i < MAX_CPU_CORES ==> usage[i] == old(usage[i])
  {
    var j := 0;
    while j < BootstrapBound(cores)
      invariant 0 <= j <= BootstrapBound(cores)
      invariant forall i :: 0 <= i < j ==> usage[i] == 0.0
      invariant forall i :: j <= i < MAX_CPU_CORES ==> usage[i] == old(usage[i])
    {
      usage[j] := 0.0;
      j := j + 1;
    }
  }

  /** The counter store: the (total, idle) pair of every slot and the first-run flag. */
  class CounterStore {
    var prevTotal: array<U64>
    var prevIdle: array<U64>
    var firstRun: bool

    ghost predicate Valid()
      reads this
    {
      prevTotal.Length == STORE_SLOTS && prevIdle.Length == STORE_SLOTS && prevTotal != prevIdle
    }

    /** The state at process start: every pair 0, first run pending. */
    constructor ()
      ensures Valid() && fresh(prevTotal) && fresh(prevIdle) && firstRun
      ensures forall k :: 0 <= k < STORE_SLOTS ==> prevTotal[k] == 0 && prevIdle[k] == 0
    {
      prevTotal := new U64[STORE_SLOTS](_ => 0);
      prevIdle := new U64[STORE_SLOTS](_ => 0);
      firstRun := true;
    }

    /**
     * The body of the /proc/stat loop for one line: compute the utilisation of
     * the line's slot against the store (after the first run, when time elapsed)
     * and write the line's total and raw idle back.
     */
    method StoreLine(line: StatLine, usage: array<real>, totalUsage: real) returns (newTotalUsage: real)
      requires Valid() && usage.Length == MAX_CPU_CORES
      modifies prevTotal, prevIdle, usage
      ensures Sample(prevTotal[..], prevIdle[..], usage[..], newTotalUsage)
        == ApplyLine(firstRun, Sample(old(prevTotal[..]), old(prevIdle[..]), old(usage[..]), totalUsage), line)
    {
      newTotalUsage := totalUsage;
      match line {
        case Aggregate(t) =>
          var u := StoreSlot(0, t);
          if u.Some? {
            newTotalUsage := u.value;
          }
        case PerCore(id, t) =>
          if id < MAX_CPU_CORES {
            var u := StoreSlot(id + 1, t);
            if u.Some? {
              usage[id] := u.value;
            }
          }
        case Other =>
      }
    }

    /**
     * One slot of the loop body: after the first run, the utilisation of the
     * ticks against the stored pair (None when no time elapsed); then the
     * line's total and raw idle replace the pair.
     */
    method StoreSlot(k: nat, t: Ticks) returns (u: Option<real>)
      requires Valid() && k < STORE_SLOTS
      modifies prevTotal, prevIdle
      ensures u == if firstRun then None else Utilisation(old(prevTotal[k]), old(prevIdle[k]), t)
      ensures prevTotal[..] == old(prevTotal[..])[k := TickTotal(t)]
      ensures prevIdle[..] == old(prevIdle[..])[k := t.idle]
    {
      var total := TickTotal(t);
      u := None;
      if !firstRun {
        var totalDiff := Sub64(total, prevTotal[k]);
        var idleDiff := Sub64(t.idle, prevIdle[k]);
        if totalDiff > 0 {
          u := Some(Ratio100(Sub64(totalDiff, idleDiff), totalDiff));
        }
      }
      prevTotal[k] := total;
      prevIdle[k] := t.idle;
    }

    /**
     * The /proc/stat loop: at most `cores + 1` lines, each applied to the store
     * and to `usage`, which starts all zero.
     */
    method ScanStat(lines: seq<StatLine>, cores: nat, usage: array<real>) returns (totalUsage: real)
      requires Valid() && usage.Length == MAX_CPU_CORES && usage[..] == Zeros()
      modifies prevTotal, prevIdle, usage
      ensures Sample(prevTotal[..], prevIdle[..], usage[..], totalUsage)
        == ApplyLines(firstRun, Sample(old(prevTotal[..]), old(prevIdle[..]), Zeros(), 0.0), Examined(lines, cores))
    {
      ghost var s0 := Sample(prevTotal[..], prevIdle[..], Zeros(), 0.0);
      totalUsage := 0.0;
      var i := 0;
      while i < |lines| && i <= cores
        invariant 0 <= i <= |lines| && i <= cores + 1
        invariant Sample(prevTotal[..], prevIdle[..], usage[..], totalUsage) == ApplyLines(firstRun, s0, lines[..i])
      {
        assert lines[..i + 1][..i] == lines[..i];
        totalUsage := StoreLine(lines[i], usage, totalUsage);
        i := i + 1;
      }
      assert lines[..i] == Examined(lines, cores);
    }

    /**
     * read_cpu_info. `cpuinfo` and `stat` are the lines of /proc/cpuinfo and
     * /proc/stat, None when the file cannot be opened; `sensor` is the
     * millidegree reading of the first thermal sensor that answered.
     */
    method ReadCpuInfo(cpuinfo: Option<seq<string>>, stat: Option<seq<StatLine>>, sensor: Option<int>)
      returns (rc: int, cpu: CpuSnapshot)
      requires Valid()
      modifies this, prevTotal, prevIdle
      ensures Valid() && prevTotal == old(prevTotal) && prevIdle == old(prevIdle)
      ensures cpuinfo.None? ==>
        rc == -1 && cpu == ZeroCpu()
        && firstRun == old(firstRun) && prevTotal[..] == old(prevTotal[..]) && prevIdle[..] == old(prevIdle[..])
      ensures cpuinfo.Some? && stat.None? ==>
        rc == -1
        && cpu == ZeroCpu().(model := ModelOf(cpuinfo.value), cores := ProcessorCount(cpuinfo.value))
        && firstRun == old(firstRun) && prevTotal[..] == old(prevTotal[..]) && prevIdle[..] == old(prevIdle[..])
      ensures cpuinfo.Some? && stat.Some? ==>
        var cores := ProcessorCount(cpuinfo.value);
        var r := ApplyLines(old(firstRun), Sample(old(prevTotal[..]), old(prevIdle[..]), Zeros(), 0.0),
                            Examined(stat.value, cores));
        rc == 0 && !firstRun
        && prevTotal[..] == r.totals && prevIdle[..] == r.idles
        && cpu == CpuSnapshot(ModelOf(cpuinfo.value), cores, r.usage, r.totalUsage, Temperature(sensor))
      ensures cpuinfo.Some? && stat.Some? && old(firstRun) ==>
        cpu.usage == Zeros() && cpu.totalUsage == 0.0
    {
      if cpuinfo.None? {
        return -1, ZeroCpu();
      }
      var model, cores := ScanCpuInfo(cpuinfo.value);
      if stat.None? {
        return -1, ZeroCpu().(model := model, cores := cores);
      }
      var usage := new real[MAX_CPU_CORES](_ => 0.0);
      var totalUsage := ScanStat(stat.value, cores, usage);
      if firstRun {
        FirstRunReportsNothing(Sample(old(prevTotal[..]), old(prevIdle[..]), Zeros(), 0.0), Examined(stat.value, cores));
        firstRun := false;
        totalUsage := 0.0;
        ResetUsage(usage, cores);
        assert usage[..] == Zeros();
      }
      return 0, CpuSnapshot(model, cores, usage[..], totalUsage, Temperature(sensor));
    }
  }
}
