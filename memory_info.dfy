/**
 * The memory sampler (memory_info.c): fold the `key value` lines of
 * /proc/meminfo into seven counters, then derive used memory, used swap and
 * the two usage percentages.
 */
module MemoryInfo {
  import opened Common

  /** A /proc/meminfo line as `sscanf(line, "%63s %lu", ...)` sees it: a key and a number, or neither. */
  datatype MemLine = Scanned(key: string, value: U64) | Unscanned

  /** memory_info_t: seven counters read from the file (in KB) and four derived values. */
  datatype MemorySnapshot = MemorySnapshot(
    total: U64, available: U64, used: U64, free: U64, buffers: U64, cached: U64,
    swapTotal: U64, swapUsed: U64, swapFree: U64,
    usagePercent: real, swapPercent: real)

  /** The record after `memset(memory, 0, ...)`. */
  function ZeroMemory(): MemorySnapshot {
    MemorySnapshot(0, 0, 0, 0, 0, 0, 0, 0, 0, 0.0, 0.0)
  }

  /** The keys the sampler recognises, colon included. */
  const KEYS: seq<string> :=
    ["MemTotal:", "MemFree:", "MemAvailable:", "Buffers:", "Cached:", "SwapTotal:", "SwapFree:"]

  /** The counter a recognised key names. */
  function Counter(m: MemorySnapshot, key: string): U64
    requires key in KEYS
  {
    if key == "MemTotal:" then m.total
    else if key == "MemFree:" then m.free
    else if key == "MemAvailable:" then m.available
    else if key == "Buffers:" then m.buffers
    else if key == "Cached:" then m.cached
    else if key == "SwapTotal:" then m.swapTotal
    else m.swapFree
  }

  /** A line that scanned as a key and a number, with one of the seven keys. */
  predicate Recognised(line: MemLine) {
    line.Scanned? && line.key in KEYS
  }

  /**
   * One line of the loop: a recognised line overwrites its counter; any other
   * line leaves the record as it was.
   */
  function ApplyMemLine(m: MemorySnapshot, line: MemLine): (r: MemorySnapshot)
    ensures !Recognised(line) ==> r == m
    ensures Recognised(line) ==> Counter(r, line.key) == line.value
    ensures Recognised(line) ==> forall key :: key in KEYS && key != line.key ==> Counter(r, key) == Counter(m, key)
    ensures r.used == m.used && r.swapUsed == m.swapUsed
    ensures r.usagePercent == m.usagePercent && r.swapPercent == m.swapPercent
  {
    match line
    case Unscanned => m
    case Scanned(key, v) =>
      if key == "MemTotal:" then m.(total := v)
      else if key == "MemFree:" then m.(free := v)
      else if key == "MemAvailable:" then m.(available := v)
      else if key == "Buffers:" then m.(buffers := v)
      else if key == "Cached:" then m.(cached := v)
      else if key == "SwapTotal:" then m.(swapTotal := v)
      else if key == "SwapFree:" then m.(swapFree := v)
      else m
  }

  /** The record after the loop over `lines`. */
  function FoldMem(lines: seq<MemLine>): (m: MemorySnapshot)
    ensures m.used == 0 && m.swapUsed == 0 && m.usagePercent == 0.0 && m.swapPercent == 0.0
  {
    if lines == [] then ZeroMemory()
    else ApplyMemLine(FoldMem(lines[..|lines| - 1]), lines[|lines| - 1])
  }

  /** `lines[j]` carries `key` (the key as scanned, colon included). */
  predicate HasKey(lines: seq<MemLine>, j: int, key: string) {
    0 <= j < |lines| && lines[j].Scanned? && lines[j].key == key
  }

  /** The last occurrence of a recognised key wins. */
  lemma {:induction false} LastOccurrenceWins(lines: seq<MemLine>, key: string, j: nat)
    requires key in KEYS && HasKey(lines, j, key)
    requires forall i :: j < i < |lines| ==> !HasKey(lines, i, key)
    ensures Counter(FoldMem(lines), key) == lines[j].value
  {
    var n := |lines| - 1;
    if j < n {
      assert !HasKey(lines, n, key);
      forall i | j < i < n
        ensures !HasKey(lines[..n], i, key)
      {
        assert lines[..n][i] == lines[i] && !HasKey(lines, i, key);
      }
      LastOccurrenceWins(lines[..n], key, j);
    }
  }

  /** A key that never appears leaves its counter at 0. */
  lemma {:induction false} MissingKeyIsZero(lines: seq<MemLine>, key: string)
    requires key in KEYS
    requires forall i :: 0 <= i < |lines| ==> !HasKey(lines, i, key)
    ensures Counter(FoldMem(lines), key) == 0
  {
    if lines != [] {
      var n := |lines| - 1;
      assert !HasKey(lines, n, key);
      forall i | 0 <= i < n
        ensures !HasKey(lines[..n], i, key)
      {
        assert lines[..n][i] == lines[i] && !HasKey(lines, i, key);
      }
      MissingKeyIsZero(lines[..n], key);
    }
  }

  /** RAM usage: `(total - available) * 100 / total` with the subtraction modulo 2^64, 0 when total is 0. */
  function UsagePercent(total: U64, available: U64): (p: real)
    ensures total == 0 ==> p == 0.0
    ensures available <= total ==> 0.0 <= p <= 100.0
  {
    Percent(Sub64(total, available), total)
  }

  /** With total fixed, usage does not decrease as available memory shrinks. */
  lemma UsagePercentMonotone(total: U64, a1: U64, a2: U64)
    requires a2 <= a1 <= total
    ensures UsagePercent(total, a1) <= UsagePercent(total, a2)
  {
    if total > 0 {
      Ratio100Monotone(total - a1, total - a2, total);
    }
  }

  /** Swap usage: `swap_used * 100 / swap_total`, 0 when there is no swap. */
  function SwapPercent(swapTotal: U64, swapUsed: U64): (p: real)
    ensures swapTotal == 0 ==> p == 0.0
    ensures swapUsed <= swapTotal ==> 0.0 <= p <= 100.0
  {
    Percent(swapUsed, swapTotal)
  }

  /** `total - free - buffers - cached` evaluated left to right in unsigned 64-bit arithmetic. */
  lemma UsedWraps(total: U64, free: U64, buffers: U64, cached: U64)
    ensures var used := Sub64(Sub64(Sub64(total, free), buffers), cached);
      Congruent64(used, total - free - buffers - cached)
      && (free + buffers + cached <= total ==> used == total - free - buffers - cached)
  {
  }

  /**
   * The body of the /proc/meminfo loop: the `strcmp` chain over the seven keys,
   * written as the statements the loop executes. ApplyMemLine is the same step
   * as a function; it specifies this method and is what the lemmas reason about.
   */
  method StoreMemLine(mem: MemorySnapshot, line: MemLine) returns (mem': MemorySnapshot)
    ensures mem' == ApplyMemLine(mem, line)
  {
    mem' := mem;
    match line {
      case Unscanned =>
      case Scanned(key, value) =>
        if key == "MemTotal:" {
          mem' := mem'.(total := value);
        } else if key == "MemFree:" {
          mem' := mem'.(free := value);
        } else if key == "MemAvailable:" {
          mem' := mem'.(available := value);
        } else if key == "Buffers:" {
          mem' := mem'.(buffers := value);
        } else if key == "Cached:" {
          mem' := mem'.(cached := value);
        } else if key == "SwapTotal:" {
          mem' := mem'.(swapTotal := value);
        } else if key == "SwapFree:" {
          mem' := mem'.(swapFree := value);
        }
    }
  }

  /** The derived values: used memory, used swap and the two guarded percentages. */
  method Derive(m: MemorySnapshot) returns (mem: MemorySnapshot)
    requires m.usagePercent == 0.0 && m.swapPercent == 0.0
    ensures forall key :: key in KEYS ==> Counter(mem, key) == Counter(m, key)
    ensures Congruent64(mem.used, mem.total - mem.free - mem.buffers - mem.cached)
    ensures mem.free + mem.buffers + mem.cached <= mem.total ==> mem.used == mem.total - mem.free - mem.buffers - mem.cached
    ensures Congruent64(mem.swapUsed, mem.swapTotal - mem.swapFree)
    ensures mem.swapFree <= mem.swapTotal ==> mem.swapUsed == mem.swapTotal - mem.swapFree
    ensures mem.usagePercent == UsagePercent(mem.total, mem.available)
    ensures mem.swapPercent == SwapPercent(mem.swapTotal, mem.swapUsed)
  {
    mem := m;
    UsedWraps(mem.total, mem.free, mem.buffers, mem.cached);
    mem := mem.(used := Sub64(Sub64(Sub64(mem.total, mem.free), mem.buffers), mem.cached));
    mem := mem.(swapUsed := Sub64(mem.swapTotal, mem.swapFree));
    if mem.total > 0 {
      mem := mem.(usagePercent := Ratio100(Sub64(mem.total, mem.available), mem.total));
    }
    if mem.swapTotal > 0 {
      mem := mem.(swapPercent := Ratio100(mem.swapUsed, mem.swapTotal));
    }
  }

  /**
   * read_memory_info. `meminfo` is the lines of /proc/meminfo, None when the
   * file cannot be opened.
   */
  method ReadMemoryInfo(meminfo: Option<seq<MemLine>>) returns (rc: int, mem: MemorySnapshot)
    ensures meminfo.None? ==> rc == -1 && mem == ZeroMemory()
    ensures meminfo.Some? ==>
      rc == 0 && forall key :: key in KEYS ==> Counter(mem, key) == Counter(FoldMem(meminfo.value), key)
    ensures Congruent64(mem.used, mem.total - mem.free - mem.buffers - mem.cached)
    ensures mem.free + mem.buffers + mem.cached <= mem.total ==> mem.used == mem.total - mem.free - mem.buffers - mem.cached
    ensures Congruent64(mem.swapUsed, mem.swapTotal - mem.swapFree)
    ensures mem.swapFree <= mem.swapTotal ==> mem.swapUsed == mem.swapTotal - mem.swapFree
    ensures mem.usagePercent == UsagePercent(mem.total, mem.available)
    ensures mem.swapPercent == SwapPercent(mem.swapTotal, mem.swapUsed)
  {
    mem := ZeroMemory();
    if meminfo.None? {
      return -1, mem;
    }
    var lines := meminfo.value;
    var i := 0;
    while i < |lines|
      invariant 0 <= i <= |lines|
      invariant mem == FoldMem(lines[..i])
    {
      assert lines[..i + 1][..i] == lines[..i];
      mem := StoreMemLine(mem, lines[i]);
      i := i + 1;
    }
    assert lines[..i] == lines;
    mem := Derive(mem);
    rc := 0;
  }
}
