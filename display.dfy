/**
 * The display helpers of the monitor (sysmon.c): the colour classifier, the
 * byte-unit selection of `format_bytes`, the two ellipsis truncations, the
 * 35-cell usage bar, the process table rows and the temperature row.
 */
module Display {
  import opened Common
  import CpuInfo
  import MemoryInfo
  import SystemInfo

  // ----- colours -----

  /** The three colours the classifier picks from. */
  datatype Color = Green | Yellow | Red

  /** get_color_by_percentage: red from 80, yellow from 60, green below. */
  function ColorFor(percent: real): (c: Color)
    ensures c == Red <==> percent >= 80.0
    ensures c == Yellow <==> 60.0 <= percent < 80.0
    ensures c == Green <==> percent < 60.0
  {
    if percent >= 80.0 then Red
    else if percent >= 60.0 then Yellow
    else Green
  }

  /** Severity order of the colours. */
  function Severity(c: Color): nat {
    match c
    case Green => 0
    case Yellow => 1
    case Red => 2
  }

  /** A higher percentage never gets a milder colour. */
  lemma ColorMonotone(p1: real, p2: real)
    requires p1 <= p2
    ensures Severity(ColorFor(p1)) <= Severity(ColorFor(p2))
  {
  }

  // ----- byte units -----

  /** The unit names of `format_bytes`, indexed by the unit chosen. */
  const UNITS: seq<string> := ["B", "KB", "MB", "GB", "TB"]

  function Pow1024(k: nat): (r: nat)
    ensures r >= 1
  {
    if k == 0 then 1 else 1024 * Pow1024(k - 1)
  }

  lemma {:induction false} Pow1024Monotone(j: nat, k: nat)
    requires j <= k
    ensures Pow1024(j) <= Pow1024(k)
    decreases k
  {
    if j < k {
      Pow1024Monotone(j, k - 1);
    }
  }

  /**
   * `k` is the unit for `bytes`: the largest power of 1024 not above `bytes`,
   * capped at TB (4); B (0) for anything below 1024.
   */
  predicate IsUnitFor(bytes: nat, k: nat) {
    k < |UNITS|
    && (k == 0 || Pow1024(k) <= bytes)
    && (k == |UNITS| - 1 || bytes < Pow1024(k + 1))
  }

  /** The unit is determined by the byte count. */
  lemma UnitUnique(bytes: nat, k1: nat, k2: nat)
    requires IsUnitFor(bytes, k1) && IsUnitFor(bytes, k2)
    ensures k1 == k2
  {
    if k1 < k2 {
      Pow1024Monotone(k1 + 1, k2);
    } else if k2 < k1 {
      Pow1024Monotone(k2 + 1, k1);
    }
  }

  /** Dividing the size by 1024 while multiplying the scale by 1024 keeps the product. */
  lemma ScaleStep(size: real, p: nat)
    ensures (size / 1024.0) * (1024 * p) as real == size * p as real
  {
  }

  /** A scaled size between 1 and 1024 places the byte count between the scale and 1024 times it. */
  lemma ScaleBounds(size: real, scale: real, bytes: real)
    requires scale >= 1.0 && size * scale == bytes
    ensures size >= 1.0 ==> scale <= bytes
    ensures size < 1024.0 ==> bytes < 1024.0 * scale
  {
    assert (size - 1.0) * scale == bytes - scale;
    assert (1024.0 - size) * scale == 1024.0 * scale - bytes;
    if size >= 1.0 {
      NonNegativeProduct(size - 1.0, scale);
    }
    if size < 1024.0 {
      PositiveProduct(1024.0 - size, scale);
    }
  }

  lemma NonNegativeProduct(x: real, y: real)
    requires x >= 0.0 && y >= 0.0
    ensures x * y >= 0.0
  {
  }

  lemma PositiveProduct(x: real, y: real)
    requires x > 0.0 && y > 0.0
    ensures x * y > 0.0
  {
  }

  /** A size in [1, 1024) of the unit (or any size at least 1 in TB) names the unit of the count. */
  lemma UnitOfScaled(bytes: nat, size: real, unit: nat)
    requires unit < |UNITS| && size * Pow1024(unit) as real == bytes as real
    requires unit > 0 ==> size >= 1.0
    requires unit < |UNITS| - 1 ==> size < 1024.0
    ensures IsUnitFor(bytes, unit)
  {
    var scale := Pow1024(unit);
    ScaleBounds(size, scale as real, bytes as real);
    assert Pow1024(unit + 1) == 1024 * scale;
    assert (1024 * scale) as real == 1024.0 * scale as real;
  }

  /**
   * The unit loop of format_bytes: divide by 1024 while the size is at least
   * 1024 and the unit is below TB. The size is exact here (no rounding).
   */
  method FormatBytes(bytes: U64) returns (size: real, unit: nat)
    ensures IsUnitFor(bytes, unit)
    ensures size * Pow1024(unit) as real == bytes as real
    ensures unit < |UNITS| - 1 ==> size < 1024.0
    ensures unit > 0 ==> size >= 1.0
  {
    size := bytes as real;
    unit := 0;
    while size >= 1024.0 && unit < 4
      invariant 0 <= unit <= 4
      invariant size * Pow1024(unit) as real == bytes as real
      invariant unit > 0 ==> size >= 1.0
    {
      ScaleStep(size, Pow1024(unit));
      size := size / 1024.0;
      unit := unit + 1;
    }
    UnitOfScaled(bytes, size, unit);
  }

  /** The byte count shown for a value in KB: `kb * 1024` in unsigned 64-bit arithmetic. */
  function KbToBytes(kb: U64): (b: U64)
    ensures kb < TWO_TO_THE_64 / 1024 ==> b == kb * 1024
    ensures Congruent64(b, kb * 1024)
  {
    Mul64(kb, 1024)
  }

  // ----- truncation -----

  /**
   * A string that fits `width` characters is kept; a longer one becomes its
   * first `width - 3` characters followed by "...", exactly `width` long.
   */
  function Ellipsized(s: string, width: nat): (r: string)
    requires width >= 3
    ensures |r| <= width
    ensures |s| <= width ==> r == s
    ensures |s| > width ==> |r| == width && r[..width - 3] == s[..width - 3] && r[width - 3..] == "..."
  {
    if |s| <= width then s else s[..width - 3] + "..."
  }

  /** The model field of the CPU panel is 60 characters wide. */
  const MODEL_WIDTH: nat := 60
  /** The name column of the process table is 16 characters wide. */
  const NAME_WIDTH: nat := 16

  /**
   * The truncation into a `width + 1` character buffer: `strncpy` of
   * `width - 3` characters and three dots for a long string, `strcpy` for a
   * short one; the text is NUL-terminated.
   */
  method TruncateInto(buf: array<char>, s: string, width: nat)
    requires width >= 3 && buf.Length == width + 1
    modifies buf
    ensures var r := Ellipsized(s, width); buf[..|r|] == r && buf[|r|] == '\0'
  {
    var r := Ellipsized(s, width);
    var n := if |s| > width then width - 3 else |s|;
    var k := 0;
    while k < n
      invariant 0 <= k <= n
      invariant buf[..k] == s[..k]
    {
      buf[k] := s[k];
      k := k + 1;
    }
    if |s| > width {
      buf[width - 3] := '.';
      buf[width - 2] := '.';
      buf[width - 1] := '.';
      buf[width] := '\0';
      assert buf[..width] == buf[..width - 3] + "...";
    } else {
      buf[n] := '\0';
    }
  }

  // ----- usage bars -----

  /** Number of cells of a usage bar. */
  const BAR_LENGTH: nat := 35

  /** A C cast from `double` to `int`: rounds toward zero. */
  function Trunc(x: real): (r: int)
    ensures x >= 0.0 ==> r as real <= x < r as real + 1.0
    ensures x < 0.0 ==> r as real - 1.0 < x <= r as real
  {
    if x >= 0.0 then x.Floor else -((-x).Floor)
  }

  /** `(int)(pct * 35 / 100.0)`: the number of filled cells the bar asks for. */
  function Filled(pct: real): int {
    Trunc(pct * BAR_LENGTH as real / 100.0)
  }

  /** A percentage in [0, 100] fills between 0 and 35 cells; 100 fills all of them. */
  lemma FilledBounds(pct: real)
    requires 0.0 <= pct <= 100.0
    ensures 0 <= Filled(pct) <= BAR_LENGTH
    ensures pct == 100.0 ==> Filled(pct) == BAR_LENGTH
  {
  }

  /** A higher percentage never fills fewer cells. */
  lemma FilledMonotone(p1: real, p2: real)
    requires p1 <= p2
    ensures Filled(p1) <= Filled(p2)
  {
  }

  /** One cell of a usage bar: filled (█) or empty (░). */
  datatype Cell = Full | Empty

  /** The number of filled cells in a bar. */
  function FullCount(cells: seq<Cell>): (n: nat)
    ensures n <= |cells|
  {
    if cells == [] then 0
    else FullCount(cells[..|cells| - 1]) + (if cells[|cells| - 1] == Full then 1 else 0)
  }

  /**
   * The bar loop: 35 cells, the first `filled` of them full. A `filled` below
   * 0 leaves every cell empty and one above 35 fills them all.
   */
  method DrawBar(pct: real) returns (cells: seq<Cell>)
    ensures |cells| == BAR_LENGTH
    ensures forall i :: 0 <= i < |cells| ==> (cells[i] == Full <==> i < Filled(pct))
  {
    var filled := Filled(pct);
    cells := [];
    var i := 0;
    while i < BAR_LENGTH
      invariant 0 <= i <= BAR_LENGTH && |cells| == i
      invariant forall k :: 0 <= k < i ==> (cells[k] == Full <==> k < filled)
    {
      if i < filled {
        cells := cells + [Full];
      } else {
        cells := cells + [Empty];
      }
      i := i + 1;
    }
  }

  /** A bar drawn for a fill count `f` has `f` full cells, clipped to 0 and its length. */
  lemma {:induction false} FullCountOfBar(cells: seq<Cell>, f: int)
    requires forall i :: 0 <= i < |cells| ==> (cells[i] == Full <==> i < f)
    ensures FullCount(cells) == if f <= 0 then 0 else if f >= |cells| then |cells| else f
  {
    if cells != [] {
      var n := |cells| - 1;
      forall i | 0 <= i < n
        ensures cells[..n][i] == Full <==> i < f
      {
        assert cells[..n][i] == cells[i];
      }
      FullCountOfBar(cells[..n], f);
    }
  }

  // ----- panels -----

  /** The temperature row: shown only above 0 °C, in red above 70 °C. */
  function TemperatureColor(t: real): (c: Option<Color>)
    ensures c.None? <==> t <= 0.0
    ensures t > 70.0 ==> c == Some(Red)
    ensures 0.0 < t <= 70.0 ==> c == Some(ColorFor(t))
  {
    if t > 0.0 then Some(ColorFor(if t > 70.0 then 80.0 else t)) else None
  }

  /** Temperatures from 60 °C up to 70 °C are yellow, and none is ever green above 60 °C. */
  lemma TemperatureThresholds(t: real)
    requires t > 0.0
    ensures 60.0 <= t <= 70.0 ==> TemperatureColor(t) == Some(Yellow)
    ensures t < 60.0 ==> TemperatureColor(t) == Some(Green)
    ensures t >= 60.0 ==> TemperatureColor(t) != Some(Green)
  {
  }

  /** What display_cpu_info shows, apart from the box drawing. */
  datatype CpuPanel = CpuPanel(model: string, cores: nat, usageColor: Color, filled: int,
                               temperature: Option<Color>)

  function CpuPanelOf(cpu: CpuInfo.CpuSnapshot): (p: CpuPanel)
    ensures |p.model| <= MODEL_WIDTH && p.cores == cpu.cores
    ensures |cpu.model| <= MODEL_WIDTH ==> p.model == cpu.model
    ensures p.usageColor == ColorFor(cpu.totalUsage) && p.filled == Filled(cpu.totalUsage)
    ensures p.temperature.Some? <==> cpu.temperature > 0.0
  {
    CpuPanel(Ellipsized(cpu.model, MODEL_WIDTH), cpu.cores, ColorFor(cpu.totalUsage),
             Filled(cpu.totalUsage), TemperatureColor(cpu.temperature))
  }

  /** What display_memory_info shows: byte counts from KB, the RAM colour and bar, and a swap row when there is swap. */
  datatype MemoryPanel = MemoryPanel(totalBytes: U64, usedBytes: U64, freeBytes: U64, availableBytes: U64,
                                     swapTotalBytes: U64, swapUsedBytes: U64, usageColor: Color, filled: int,
                                     swapColor: Option<Color>)

  function MemoryPanelOf(m: MemoryInfo.MemorySnapshot): (p: MemoryPanel)
    ensures Congruent64(p.totalBytes, m.total * 1024) && Congruent64(p.usedBytes, m.used * 1024)
    ensures Congruent64(p.freeBytes, m.free * 1024) && Congruent64(p.availableBytes, m.available * 1024)
    ensures Congruent64(p.swapTotalBytes, m.swapTotal * 1024) && Congruent64(p.swapUsedBytes, m.swapUsed * 1024)
    ensures p.usageColor == ColorFor(m.usagePercent) && p.filled == Filled(m.usagePercent)
    ensures p.swapColor.Some? <==> m.swapTotal > 0
    ensures p.swapColor.Some? ==> p.swapColor.value == ColorFor(m.swapPercent)
  {
    MemoryPanel(KbToBytes(m.total), KbToBytes(m.used), KbToBytes(m.free), KbToBytes(m.available),
                KbToBytes(m.swapTotal), KbToBytes(m.swapUsed), ColorFor(m.usagePercent),
                Filled(m.usagePercent), if m.swapTotal > 0 then Some(ColorFor(m.swapPercent)) else None)
  }

  /** What display_disk_info shows: byte counts as they are, the usage colour and bar. */
  datatype DiskPanel = DiskPanel(filesystem: string, totalBytes: U64, usedBytes: U64, availableBytes: U64,
                                 usageColor: Color, filled: int)

  function DiskPanelOf(d: SystemInfo.DiskSnapshot): (p: DiskPanel)
    ensures p.totalBytes == d.totalBytes && p.usedBytes == d.usedBytes && p.availableBytes == d.availableBytes
    ensures p.usageColor == ColorFor(d.usagePercent) && p.filled == Filled(d.usagePercent)
  {
    DiskPanel(d.filesystem, d.totalBytes, d.usedBytes, d.availableBytes,
              ColorFor(d.usagePercent), Filled(d.usagePercent))
  }

  // ----- process table -----

  /** One row of the process table. */
  datatype ProcessRow = ProcessRow(pid: int, name: string, color: Color, cpuPercent: real, memoryBytes: U64)

  function RowOf(p: SystemInfo.ProcessInfo): (r: ProcessRow)
    ensures r.pid == p.pid && r.cpuPercent == p.cpuPercent && r.color == ColorFor(p.cpuPercent)
    ensures |r.name| <= NAME_WIDTH && (|p.name| <= NAME_WIDTH ==> r.name == p.name)
    ensures Congruent64(r.memoryBytes, p.memoryKb * 1024)
  {
    ProcessRow(p.pid, Ellipsized(p.name, NAME_WIDTH), ColorFor(p.cpuPercent), p.cpuPercent, KbToBytes(p.memoryKb))
  }

  /** The number of rows drawn for `count` records: at most the ten slots. */
  function RowCount(count: int): (n: nat)
    ensures n <= TOP_PROCESSES
    ensures 0 <= count <= TOP_PROCESSES ==> n == count
  {
    if count <= 0 then 0 else if count < TOP_PROCESSES then count else TOP_PROCESSES
  }

  /** The row loop of display_processes: `i < count && i < 10`. */
  method ProcessRows(processes: array<SystemInfo.ProcessInfo>, count: int) returns (rows: seq<ProcessRow>)
    requires RowCount(count) <= processes.Length
    ensures |rows| == RowCount(count) && |rows| <= TOP_PROCESSES
    ensures forall i :: 0 <= i < |rows| ==> rows[i] == RowOf(processes[i])
  {
    rows := [];
    var i := 0;
    while i < count && i < TOP_PROCESSES
      invariant 0 <= i <= RowCount(count) && |rows| == i
      invariant forall k :: 0 <= k < i ==> rows[k] == RowOf(processes[k])
    {
      rows := rows + [RowOf(processes[i])];
      i := i + 1;
    }
  }
}
