/**
 * The uptime, disk and process samplers (system_info.c).
 */
module SystemInfo {
  import opened Common

  // ----- uptime -----

  /** Whole seconds split into days, hours, minutes and seconds. */
  datatype Duration = Duration(days: nat, hours: nat, minutes: nat, seconds: nat)

  /** Euclidean division by a positive constant is determined by quotient and remainder. */
  lemma DivModUnique(s: int, k: int, q: int, r: int)
    requires k == 86400 || k == 3600 || k == 60
    requires s == q * k + r && 0 <= r < k
    ensures s / k == q && s % k == r
  {
  }

  function Decompose(s: nat): (d: Duration)
    ensures d.days * 86400 + d.hours * 3600 + d.minutes * 60 + d.seconds == s
    ensures d.hours < 24 && d.minutes < 60 && d.seconds < 60
  {
    var days, r1 := s / 86400, s % 86400;
    DivModUnique(s, 86400, days, r1);
    var hours, r2 := r1 / 3600, r1 % 3600;
    DivModUnique(r1, 3600, hours, r2);
    DivModUnique(s, 3600, days * 24 + hours, r2);
    var minutes, seconds := r2 / 60, r2 % 60;
    DivModUnique(r2, 60, minutes, seconds);
    DivModUnique(s, 60, (days * 24 + hours) * 60 + minutes, seconds);
    Duration(days, (s % 86400) / 3600, (s % 3600) / 60, s % 60)
  }

  /** The three layouts of the uptime text; exactly one is used. */
  datatype UptimeForm = DaysHoursMinutes | HoursMinutes | MinutesSeconds

  /** The layout: days if there are any, else hours if there are any, else minutes and seconds. */
  function FormOf(d: Duration): UptimeForm {
    if d.days > 0 then DaysHoursMinutes
    else if d.hours > 0 then HoursMinutes
    else MinutesSeconds
  }

  function Render(form: UptimeForm, d: Duration): string {
    match form
    case DaysHoursMinutes =>
      NatToString(d.days) + " days, " + NatToString(d.hours) + " hours, " + NatToString(d.minutes) + " minutes"
    case HoursMinutes =>
      NatToString(d.hours) + " hours, " + NatToString(d.minutes) + " minutes"
    case MinutesSeconds =>
      NatToString(d.minutes) + " minutes, " + NatToString(d.seconds) + " seconds"
  }

  /** The uptime text for `s` seconds. */
  function FormatUptime(s: nat): string {
    Render(FormOf(Decompose(s)), Decompose(s))
  }

  /** The layout is chosen by thresholds on the seconds: one day, then one hour. */
  lemma FormThresholds(s: nat)
    ensures FormOf(Decompose(s)) == DaysHoursMinutes <==> s >= 86400
    ensures FormOf(Decompose(s)) == HoursMinutes <==> 3600 <= s < 86400
    ensures FormOf(Decompose(s)) == MinutesSeconds <==> s < 3600
  {
  }

  lemma UptimeExampleDays()
    ensures FormatUptime(90000) == "1 days, 1 hours, 0 minutes"
  {
    assert Decompose(90000) == Duration(1, 1, 0, 0);
    assert NatToString(1) == "1" && NatToString(0) == "0";
    // the text is compared piece by piece, as it is concatenated
    assert "1" + " days, " == "1 days, ";
    assert "1 days, " + "1" == "1 days, 1";
    assert "1 days, 1" + " hours, " == "1 days, 1 hours, ";
    assert "1 days, 1 hours, " + "0" == "1 days, 1 hours, 0";
    assert "1 days, 1 hours, 0" + " minutes" == "1 days, 1 hours, 0 minutes";
  }

  lemma UptimeExampleHours()
    ensures FormatUptime(3700) == "1 hours, 1 minutes"
  {
    assert Decompose(3700) == Duration(0, 1, 1, 40);
    assert NatToString(1) == "1";
    assert "1" + " hours, " == "1 hours, ";
    assert "1 hours, " + "1" == "1 hours, 1";
    assert "1 hours, 1" + " minutes" == "1 hours, 1 minutes";
  }

  lemma UptimeExampleMinutes()
    ensures FormatUptime(45) == "0 minutes, 45 seconds"
  {
    assert Decompose(45) == Duration(0, 0, 0, 45);
    assert NatToString(0) == "0" && NatToString(45) == "45";
    assert "0" + " minutes, " == "0 minutes, ";
    assert "0 minutes, " + "45" == "0 minutes, 45";
    assert "0 minutes, 45" + " seconds" == "0 minutes, 45 seconds";
  }

  /** Every uptime of a 64-bit counter fits the 64-byte buffer, so `snprintf` never cuts it. */
  lemma UptimeFitsBuffer(s: U64)
    ensures |FormatUptime(s)| < 64
  {
    var d := Decompose(s);
    TwoToThe64Digits();
    assert d.days <= s;
    NumeralLength(d.days, 20);
    assert Pow10(2) == 100;
    NumeralLength(d.hours, 2);
    NumeralLength(d.minutes, 2);
    NumeralLength(d.seconds, 2);
  }

  /** uptime_info_t. */
  datatype UptimeSnapshot = UptimeSnapshot(uptimeSeconds: U64, formatted: string, sessionTime: U64)

  /**
   * read_uptime_info. `probe` is the whole seconds of /proc/uptime, None when
   * the file cannot be opened or does not start with a number.
   */
  function ReadUptimeInfo(probe: Option<U64>): (r: (int, UptimeSnapshot))
    ensures probe.None? ==> r == (-1, UptimeSnapshot(0, "", 0))
    ensures probe.Some? ==> r.0 == 0 && r.1.uptimeSeconds == probe.value && r.1.sessionTime == 0
    ensures probe.Some? ==> var d := Decompose(probe.value);
      r.1.formatted == Render(FormOf(d), d) && |r.1.formatted| < 64
  {
    match probe
    case None => (-1, UptimeSnapshot(0, "", 0))
    case Some(s) =>
      UptimeFitsBuffer(s);
      (0, UptimeSnapshot(s, FormatUptime(s), 0))
  }

  // ----- disk -----

  /** The fields of `struct statvfs` the sampler reads. */
  datatype StatVfs = StatVfs(blocks: U64, frsize: U64, bfree: U64, bavail: U64)

  /** disk_info_t. */
  datatype DiskSnapshot = DiskSnapshot(filesystem: string, totalBytes: U64, usedBytes: U64,
                                       availableBytes: U64, usagePercent: real)

  lemma MulMonotone(a: nat, b: nat, c: nat)
    requires a <= b
    ensures a * c <= b * c
  {
  }

  /** The block arithmetic without wrap-around: what holds when `blocks * frsize` fits 64 bits. */
  lemma DiskNoWrap(blocks: U64, frsize: U64, bfree: U64, bavail: U64)
    requires blocks * frsize < TWO_TO_THE_64 && bfree <= blocks
    ensures var total, free := Mul64(blocks, frsize), Mul64(bfree, frsize);
      total == blocks * frsize && free == bfree * frsize && free <= total
      && Sub64(total, free) == (blocks - bfree) * frsize
      && (bavail <= bfree ==> Mul64(bavail, frsize) <= free)
  {
    MulMonotone(bfree, blocks, frsize);
    if bavail <= bfree {
      MulMonotone(bavail, bfree, frsize);
    }
    assert (blocks - bfree) * frsize == blocks * frsize - bfree * frsize;
  }


  /**
   * Bytes from blocks: total = blocks * frsize, available = bavail * frsize,
   * used = total - bfree * frsize, all in unsigned 64-bit arithmetic; the
   * usage is 0 on an empty filesystem.
   */
  function DiskFromStat(st: StatVfs): (d: DiskSnapshot)
    ensures d.filesystem == "/"
    ensures Congruent64(d.totalBytes, st.blocks * st.frsize)
    ensures Congruent64(d.availableBytes, st.bavail * st.frsize)
    ensures d.totalBytes == 0 ==> d.usagePercent == 0.0
    ensures st.blocks * st.frsize < TWO_TO_THE_64 && st.bfree <= st.blocks ==>
      d.totalBytes == st.blocks * st.frsize && d.usedBytes == (st.blocks - st.bfree) * st.frsize
      && 0.0 <= d.usagePercent <= 100.0
    ensures st.blocks * st.frsize < TWO_TO_THE_64 && st.bavail <= st.bfree <= st.blocks ==>
      d.usedBytes + d.availableBytes <= d.totalBytes
  {
    var total := Mul64(st.blocks, st.frsize);
    var available := Mul64(st.bavail, st.frsize);
    var used := Sub64(total, Mul64(st.bfree, st.frsize));
    if st.blocks * st.frsize < TWO_TO_THE_64 && st.bfree <= st.blocks then
      DiskNoWrap(st.blocks, st.frsize, st.bfree, st.bavail);
      DiskSnapshot("/", total, used, available, Percent(used, total))
    else
      DiskSnapshot("/", total, used, available, Percent(used, total))
  }

  lemma DiskExample()
    ensures DiskFromStat(StatVfs(1000, 4096, 400, 380))
      == DiskSnapshot("/", 4096000, 2457600, 1556480, 60.0)
  {
  }

  /** read_disk_info. `probe` is what `statvfs("/")` filled in, None when it failed. */
  function ReadDiskInfo(probe: Option<StatVfs>): (r: (int, DiskSnapshot))
    ensures probe.None? ==> r == (-1, DiskSnapshot("", 0, 0, 0, 0.0))
    ensures probe.Some? ==> r == (0, DiskFromStat(probe.value))
  {
    match probe
    case None => (-1, DiskSnapshot("", 0, 0, 0, 0.0))
    case Some(st) => (0, DiskFromStat(st))
  }

  // ----- processes -----

  /** process_info_t. */
  datatype ProcessInfo = ProcessInfo(name: string, pid: int, cpuPercent: real, memoryKb: U64)

  function ZeroProcess(): ProcessInfo {
    ProcessInfo("", 0, 0.0, 0)
  }

  /** /proc/[pid]/comm: not openable, empty, or its first line. */
  datatype CommFile = CommMissing | CommEmpty | CommLine(line: string)

  /**
   * /proc/[pid]/stat: not openable, or the values the `fscanf` assigned, in the
   * order utime, stime, vsize, rss (its return value is their number).
   */
  datatype StatFile = StatMissing | StatFields(values: seq<U64>)

  /** A /proc directory entry with what its two files yield. */
  datatype DirEntry = DirEntry(name: string, comm: CommFile, stat: StatFile)

  /** The leading run of digits of `s`. */
  function LeadingDigits(s: string): (r: string)
    ensures |r| <= |s| && r == s[..|r|] && forall i :: 0 <= i < |r| ==> IsDigit(r[i])
    ensures |r| < |s| ==> !IsDigit(s[|r|])
  {
    if s == [] || !IsDigit(s[0]) then ""
    else
      var rest := LeadingDigits(s[1..]);
      assert s[..|rest| + 1] == [s[0]] + s[1..][..|rest|];
      [s[0]] + rest
  }

  /** `atoi` of a name that starts with a digit. */
  function Atoi(s: string): nat {
    DecimalValue(LeadingDigits(s))
  }

  /** The entries kept: names that start with a digit and whose number is positive. */
  predicate IsPidName(name: string) {
    |name| > 0 && IsDigit(name[0]) && Atoi(name) > 0
  }

  /** The process name: "unknown" for an empty file, else the first line cut at the newline and to 31 characters. */
  function ProcName(comm: CommFile): (name: string)
    requires !comm.CommMissing?
    ensures |name| < MAX_PROC_NAME && '\n' !in name
    ensures comm.CommEmpty? ==> name == "unknown"
    ensures comm.CommLine? ==> |name| <= |comm.line| && name == comm.line[..|name|]
  {
    match comm
    case CommEmpty => "unknown"
    case CommLine(line) => Take(UpToNewline(line), MAX_PROC_NAME - 1)
  }

  /** `(utime + stime) / 10000`: a scaled tick count, not a rate. 0 when fewer than two values were read. */
  function CpuPercentOf(values: seq<U64>): real {
    if |values| >= 2 then Add64(values[0], values[1]) as real / 10000.0 else 0.0
  }

  /** `rss * 4`: resident pages at 4 KB each. 0 when fewer than two values were read. */
  function MemoryKbOf(values: seq<U64>): U64 {
    if |values| >= 2 then Mul64(if |values| >= 4 then values[3] else 0, 4) else 0
  }

  /** The record an entry contributes, or None when it is skipped. */
  function Admit(e: DirEntry): (p: Option<ProcessInfo>)
    ensures p.Some? <==> IsPidName(e.name) && !e.comm.CommMissing? && !e.stat.StatMissing?
    ensures p.Some? ==> p.value.pid > 0 && |p.value.name| < MAX_PROC_NAME
    ensures p.Some? && |e.stat.values| < 2 ==> p.value.cpuPercent == 0.0 && p.value.memoryKb == 0
  {
    if IsPidName(e.name) && !e.comm.CommMissing? && !e.stat.StatMissing? then
      Some(ProcessInfo(ProcName(e.comm), Atoi(e.name), CpuPercentOf(e.stat.values), MemoryKbOf(e.stat.values)))
    else None
  }

  /** The records one entry contributes: its record when admitted, none otherwise. */
  function Contribution(e: DirEntry): (ps: seq<ProcessInfo>)
    ensures |ps| <= 1 && (|ps| == 1 <==> Admit(e).Some?)
  {
    match Admit(e) case None => [] case Some(p) => [p]
  }

  /** The records of every admitted entry, in directory order. */
  function Admitted(entries: seq<DirEntry>): (ps: seq<ProcessInfo>)
    ensures |ps| <= |entries|
  {
    if entries == [] then []
    else Admitted(entries[..|entries| - 1]) + Contribution(entries[|entries| - 1])
  }

  lemma PrefixOfAppend(a: seq<ProcessInfo>, b: seq<ProcessInfo>, k: nat)
    requires k <= |a|
    ensures (a + b)[..k] == a[..k]
  {
  }

  /** The admitted records of a prefix of the directory are a prefix of all admitted records. */
  lemma {:induction false} AdmittedPrefix(entries: seq<DirEntry>, i: nat)
    requires i <= |entries|
    ensures var pre := Admitted(entries[..i]);
      |pre| <= |Admitted(entries)| && pre == Admitted(entries)[..|pre|]
  {
    if i == |entries| {
      assert entries[..i] == entries;
    } else {
      var n := |entries| - 1;
      assert entries[..n][..i] == entries[..i];
      AdmittedPrefix(entries[..n], i);
      var pre, before := Admitted(entries[..i]), Admitted(entries[..n]);
      assert Admitted(entries) == before + Contribution(entries[n]);
      PrefixOfAppend(before, Contribution(entries[n]), |pre|);
    }
  }

  /** One more entry appends its contribution. */
  lemma AdmittedStep(entries: seq<DirEntry>, i: nat)
    requires i < |entries|
    ensures Admitted(entries[..i + 1]) == Admitted(entries[..i]) + Contribution(entries[i])
  {
    assert entries[..i + 1][..i] == entries[..i];
  }

  /** The records collected: the first `maxCount` admitted ones. */
  function Collected(entries: seq<DirEntry>, maxCount: nat): (ps: seq<ProcessInfo>)
    ensures |ps| <= maxCount
  {
    var all := Admitted(entries);
    if |all| <= maxCount then all else all[..maxCount]
  }

  /** Every collected record comes from an entry that passed the filters. */
  lemma {:induction false} AdmittedFromEntries(entries: seq<DirEntry>, k: nat)
    requires k < |Admitted(entries)|
    ensures exists i :: 0 <= i < |entries| && Admit(entries[i]) == Some(Admitted(entries)[k])
  {
    var n := |entries| - 1;
    var pre := Admitted(entries[..n]);
    if k < |pre| {
      AdmittedFromEntries(entries[..n], k);
      var i :| 0 <= i < n && Admit(entries[..n][i]) == Some(pre[k]);
      assert entries[..n][i] == entries[i];
    } else {
      assert Admit(entries[n]) == Some(Admitted(entries)[k]);
    }
  }

  /**
   * compare_processes_by_cpu, the `qsort` comparator: negative when `a` goes
   * first (more CPU), positive when `b` does, 0 on a tie.
   */
  function CompareByCpu(a: ProcessInfo, b: ProcessInfo): (r: int)
    ensures r == 1 <==> b.cpuPercent > a.cpuPercent
    ensures r == -1 <==> b.cpuPercent < a.cpuPercent
    ensures r == 0 <==> b.cpuPercent == a.cpuPercent
  {
    if b.cpuPercent > a.cpuPercent then 1
    else if b.cpuPercent < a.cpuPercent then -1
    else 0
  }

  /** The comparator is a total preorder, as `qsort` needs: antisymmetric and transitive. */
  lemma ComparatorIsPreorder(a: ProcessInfo, b: ProcessInfo, c: ProcessInfo)
    ensures CompareByCpu(a, b) == -CompareByCpu(b, a)
    ensures CompareByCpu(a, b) <= 0 && CompareByCpu(b, c) <= 0 ==> CompareByCpu(a, c) <= 0
  {
  }

  predicate NonIncreasing(s: seq<ProcessInfo>) {
    forall i, j :: 0 <= i < j < |s| ==> s[i].cpuPercent >= s[j].cpuPercent
  }

  /** Exchanges `a[k - 1]` and `a[k]`, keeping the first `n` records a permutation of themselves. */
  method SwapDown(a: array<ProcessInfo>, k: nat, n: nat)
    requires 0 < k < n <= a.Length
    modifies a
    ensures a[k - 1] == old(a[k]) && a[k] == old(a[k - 1])
    ensures forall m :: 0 <= m < a.Length && m != k - 1 && m != k ==> a[m] == old(a[m])
    ensures multiset(a[..n]) == multiset(old(a[..n]))
  {
    a[k - 1], a[k] := a[k], a[k - 1];
    assert a[..n] == old(a[..n])[k - 1 := old(a[k])][k := old(a[k - 1])];
  }

  /**
   * `qsort(processes, n, ..., compare_processes_by_cpu)`: the first `n` records
   * end up a permutation of what they were, in non-increasing CPU order. The
   * order of ties is not specified.
   */
  method SortByCpu(a: array<ProcessInfo>, n: nat)
    requires n <= a.Length
    modifies a
    ensures NonIncreasing(a[..n])
    ensures multiset(a[..n]) == multiset(old(a[..n]))
    ensures forall m :: n <= m < a.Length ==> a[m] == old(a[m])
  {
    var i := 0;
    while i < n
      invariant 0 <= i <= n
      invariant NonIncreasing(a[..i])
      invariant multiset(a[..n]) == multiset(old(a[..n]))
      invariant forall m :: n <= m < a.Length ==> a[m] == old(a[m])
    {
      InsertDown(a, i, n);
      i := i + 1;
    }
  }

  /** One pass of the insertion: `a[i]` moves down past every record with less CPU. */
  method InsertDown(a: array<ProcessInfo>, i: nat, n: nat)
    requires i < n <= a.Length && NonIncreasing(a[..i])
    modifies a
    ensures NonIncreasing(a[..i + 1])
    ensures multiset(a[..n]) == multiset(old(a[..n]))
    ensures forall m :: n <= m < a.Length ==> a[m] == old(a[m])
  {
    var j := i;
    assert forall p :: 0 <= p < i ==> a[..i + 1][p] == a[..i][p];
    while j > 0 && CompareByCpu(a[j - 1], a[j]) > 0
      invariant 0 <= j <= i
      invariant OrderedExcept(a[..i + 1], j) && AboveRest(a[..i + 1], j)
      invariant multiset(a[..n]) == multiset(old(a[..n]))
      invariant forall m :: n <= m < a.Length ==> a[m] == old(a[m])
    {
      MovePast(a, i, j, n);
      j := j - 1;
    }
    InsertedInPlace(a[..i + 1], j);
  }

  /** One step of the pass: the record at `j` swaps with a predecessor that has less CPU. */
  method MovePast(a: array<ProcessInfo>, i: nat, j: nat, n: nat)
    requires 0 < j <= i < n <= a.Length
    requires OrderedExcept(a[..i + 1], j) && AboveRest(a[..i + 1], j)
    requires a[j - 1].cpuPercent < a[j].cpuPercent
    modifies a
    ensures OrderedExcept(a[..i + 1], j - 1) && AboveRest(a[..i + 1], j - 1)
    ensures multiset(a[..n]) == multiset(old(a[..n]))
    ensures forall m :: n <= m < a.Length ==> a[m] == old(a[m])
  {
    ghost var before := a[..i + 1];
    SwapDown(a, j, n);
    SwapKeepsOrder(before, a[..i + 1], j);
  }

  /** Every pair of records in order, except pairs involving the one at `j`. */
  predicate OrderedExcept(s: seq<ProcessInfo>, j: nat) {
    forall p, q :: 0 <= p < q < |s| && p != j && q != j ==> s[p].cpuPercent >= s[q].cpuPercent
  }

  /** The record at `j` has more CPU than every record after it. */
  predicate AboveRest(s: seq<ProcessInfo>, j: nat) {
    j < |s| && forall q :: j < q < |s| ==> s[j].cpuPercent > s[q].cpuPercent
  }

  /** Swapping the record at `j` with a predecessor that has less CPU moves the gap down by one. */
  lemma SwapKeepsOrder(s: seq<ProcessInfo>, t: seq<ProcessInfo>, j: nat)
    requires 0 < j < |s| && OrderedExcept(s, j) && AboveRest(s, j)
    requires s[j - 1].cpuPercent < s[j].cpuPercent
    requires |t| == |s| && t[j - 1] == s[j] && t[j] == s[j - 1]
    requires forall m :: 0 <= m < |s| && m != j - 1 && m != j ==> t[m] == s[m]
    ensures OrderedExcept(t, j - 1) && AboveRest(t, j - 1)
  {
  }

  /**
   * A record at `j` that has more CPU than everything after it and no more than
   * the record before it, in an otherwise ordered sequence, leaves it ordered.
   */
  lemma InsertedInPlace(s: seq<ProcessInfo>, j: nat)
    requires OrderedExcept(s, j) && AboveRest(s, j)
    requires j > 0 ==> s[j - 1].cpuPercent >= s[j].cpuPercent
    ensures NonIncreasing(s)
  {
    forall p, q | 0 <= p < q < |s|
      ensures s[p].cpuPercent >= s[q].cpuPercent
    {
      if q == j && p < j - 1 {
        assert s[p].cpuPercent >= s[j - 1].cpuPercent;
      }
    }
  }

  /** `memset(processes, 0, n * sizeof(process_info_t))`. */
  method ClearSlots(a: array<ProcessInfo>, n: nat)
    requires n <= a.Length
    modifies a
    ensures forall j :: 0 <= j < n ==> a[j] == ZeroProcess()
    ensures forall m :: n <= m < a.Length ==> a[m] == old(a[m])
  {
    var z := 0;
    while z < n
      invariant 0 <= z <= n
      invariant forall j :: 0 <= j < z ==> a[j] == ZeroProcess()
      invariant forall m :: n <= m < a.Length ==> a[m] == old(a[m])
    {
      a[z] := ZeroProcess();
      z := z + 1;
    }
  }

  /**
   * The loop body for one directory entry: an entry that passes the name filter
   * and whose comm file opens gets its name and pid written into slot `count`,
   * even when its stat file then fails to open; it is counted only once the
   * stat file opened, and its CPU and memory are set only when at least two
   * values were read. An entry skipped earlier leaves the slot alone.
   */
  method CollectEntry(e: DirEntry, a: array<ProcessInfo>, count: nat) returns (newCount: nat)
    requires count < a.Length && a[count].cpuPercent == 0.0 && a[count].memoryKb == 0
    modifies a
    ensures newCount == count + (if Admit(e).Some? then 1 else 0)
    ensures a[..newCount] == old(a[..count]) + Contribution(e)
    ensures forall j :: 0 <= j < a.Length && j != count ==> a[j] == old(a[j])
    ensures newCount == count ==> a[count].cpuPercent == 0.0 && a[count].memoryKb == 0
    ensures IsPidName(e.name) && !e.comm.CommMissing? ==>
      a[count].name == ProcName(e.comm) && a[count].pid == Atoi(e.name)
    ensures !(IsPidName(e.name) && !e.comm.CommMissing?) ==> a[count] == old(a[count])
  {
    newCount := count;
    if IsPidName(e.name) && !e.comm.CommMissing? {
      var pid := Atoi(e.name);
      a[count] := a[count].(name := ProcName(e.comm), pid := pid);
      if !e.stat.StatMissing? {
        var values := e.stat.values;
        if |values| >= 2 {
          var rss := if |values| >= 4 then values[3] else 0;
          a[count] := a[count].(cpuPercent := Add64(values[0], values[1]) as real / 10000.0,
                                memoryKb := Mul64(rss, 4));
        }
        newCount := count + 1;
        assert a[..newCount] == old(a[..count]) + [a[count]];
      }
    }
  }

  /**
   * The directory loop of read_top_processes over cleared slots: stops at the
   * end of the directory or when `maxCount` records are counted.
   */
  method GatherEntries(entries: seq<DirEntry>, a: array<ProcessInfo>, maxCount: nat) returns (count: nat)
    requires maxCount <= a.Length
    requires forall j :: 0 <= j < maxCount ==> a[j] == ZeroProcess()
    modifies a
    ensures count <= maxCount && a[..count] == Collected(entries, maxCount)
    ensures forall j :: count < j < maxCount ==> a[j] == ZeroProcess()
    ensures count < maxCount ==> a[count].cpuPercent == 0.0 && a[count].memoryKb == 0
    ensures forall m :: maxCount <= m < a.Length ==> a[m] == old(a[m])
  {
    count := 0;
    var i := 0;
    while i < |entries| && count < maxCount
      invariant 0 <= i <= |entries| && count <= maxCount
      invariant a[..count] == Admitted(entries[..i])
      invariant forall j :: count < j < maxCount ==> a[j] == ZeroProcess()
      invariant count < maxCount ==> a[count].cpuPercent == 0.0 && a[count].memoryKb == 0
      invariant forall m :: maxCount <= m < a.Length ==> a[m] == old(a[m])
    {
      AdmittedStep(entries, i);
      count := CollectEntry(entries[i], a, count);
      i := i + 1;
    }
    LoopExitCollects(entries, i, maxCount);
  }

  /** The loop stops at the end of the directory or with `maxCount` records: either way it holds the collected ones. */
  lemma LoopExitCollects(entries: seq<DirEntry>, i: nat, maxCount: nat)
    requires i <= |entries| && |Admitted(entries[..i])| <= maxCount
    requires i == |entries| || |Admitted(entries[..i])| == maxCount
    ensures Admitted(entries[..i]) == Collected(entries, maxCount)
  {
    AdmittedPrefix(entries, i);
    if i == |entries| {
      assert entries[..i] == entries;
    }
  }

  /**
   * read_top_processes. `procDir` is the entries of /proc in directory order,
   * None when it cannot be opened; the records go into `processes[..maxCount]`.
   */
  method ReadTopProcesses(procDir: Option<seq<DirEntry>>, processes: array<ProcessInfo>, maxCount: nat)
    returns (count: nat)
    requires maxCount <= processes.Length
    modifies processes
    ensures count <= maxCount
    ensures procDir.None? ==> count == 0
    ensures procDir.None? ==> forall j :: 0 <= j < maxCount ==> processes[j] == ZeroProcess()
    ensures procDir.Some? ==> multiset(processes[..count]) == multiset(Collected(procDir.value, maxCount))
    ensures NonIncreasing(processes[..count])
    ensures forall j :: count < j < maxCount ==> processes[j] == ZeroProcess()
    ensures count < maxCount ==> processes[count].cpuPercent == 0.0 && processes[count].memoryKb == 0
    ensures forall m :: maxCount <= m < processes.Length ==> processes[m] == old(processes[m])
  {
    ClearSlots(processes, maxCount);
    count := 0;
    if procDir.None? {
      return;
    }
    count := GatherEntries(procDir.value, processes, maxCount);
    SortByCpu(processes, count);
  }

  /**
   * With `qsort`, the records {pid 1, 5.0}, {pid 2, 5.0}, {pid 3, 9.0} come out
   * with pid 3 first; the order of pids 1 and 2 is not fixed.
   */
  lemma SortExample(s: seq<ProcessInfo>)
    requires var input := [ProcessInfo("a", 1, 5.0, 0), ProcessInfo("b", 2, 5.0, 0), ProcessInfo("c", 3, 9.0, 0)];
      multiset(s) == multiset(input) && NonIncreasing(s)
    ensures |s| == 3 && s[0].pid == 3
    ensures multiset{s[1].pid, s[2].pid} == multiset{1, 2}
  {
  }
}
