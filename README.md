# sysmon core in Dafny

A model of the sampling and display core of a terminal system monitor. The monitor
reads CPU, memory, uptime, disk and process figures from the Linux `/proc` interface
and `statvfs`. It then shows them as coloured panels with usage bars.

- `common.dfy` (`Common`) holds the constants of `sysmon.h`. It also holds C's unsigned
  64-bit arithmetic, written out modulo 2^64, and the string and numeral helpers.
- `cpu_info.dfy` (`CpuInfo`) models `read_cpu_info`:
  - the scan of `/proc/cpuinfo` for the model name and the number of `processor` lines;
  - the per-line utilisation computed from the `/proc/stat` tick counters. Each line is
    measured against a counter store kept across calls, modelled as the class
    `CounterStore`, whose arrays and first-run flag the sampler updates in place;
  - the first-run bootstrap.
- `memory_info.dfy` (`MemoryInfo`) models `read_memory_info`. It folds the seven
  recognised `/proc/meminfo` keys (the last occurrence wins), then derives used memory,
  used swap and the two percentages.
- `system_info.dfy` (`SystemInfo`) models three samplers:
  - `read_uptime_info`: decomposition and the three text layouts;
  - `read_disk_info`: bytes from blocks;
  - `read_top_processes`: directory filter, name and stat extraction, the cap at
    `max_count`, and the sort by CPU with the `qsort` comparator, as an insertion sort
    on the array.
- `display.dfy` (`Display`) models the computations inside the display routines of
  `sysmon.c`:
  - the colour classifier;
  - the unit loop of `format_bytes`;
  - the two ellipsis truncations;
  - the 35-cell usage bar;
  - the process table rows;
  - the temperature row.

File contents are inputs to the model:
- a file that cannot be opened is `None`;
- a text file is the sequence of lines `fgets` returns;
- `/proc/stat` lines are already classified as the aggregate line, a per-core line or
  another line;
- `/proc/meminfo` lines are what `sscanf("%63s %lu")` extracts;
- a `/proc` directory entry carries what its `comm` and `stat` files yield.

Percentages are exact reals.

## Model

| member | source | states |
|---|---|---|
| Common.Add64 | system_info.c:135 | unsigned addition: the exact sum when it fits 64 bits, the sum minus 2^64 when it wraps |
| Common.Wrap | memory_info.c:42-43 | reduction modulo 2^64: the value itself when in range, one 2^64 off when just outside it, and always congruent to the input |
| Common.Sub64 | memory_info.c:42-43 | unsigned subtraction: the exact difference when no underflow, otherwise the difference plus 2^64 |
| Common.Mul64 | system_info.c:58-60 | unsigned multiplication: the exact product when it fits, and always congruent to it modulo 2^64 |
| Common.Percent | memory_info.c:46-52 | the zero-denominator guard: 0 when the whole is 0, otherwise 100·part/whole, within [0,100] when 0 ≤ part ≤ whole |
| Common.Ratio100 | cpu_info.c:70 | defines 100·part/whole for a positive whole, within [0,100] when 0 ≤ part ≤ whole |
| Common.Ratio100Monotone | memory_info.c:47 | for a fixed denominator the percentage grows with the numerator |
| Common.IndexOf | cpu_info.c:25 | `strchr`: None exactly when the character is absent, otherwise the index of its first occurrence |
| Common.UpToNewline | cpu_info.c:28-29 | cutting at the first newline leaves a prefix with no newline, followed in the original by a newline when there was one |
| Common.Take | system_info.c:114-117 | the prefix of length min(n, length) |
| Common.NatToString | system_info.c:31-38 | `%lu` yields at least one character, all decimal digits |
| Common.DecimalRoundTrip | system_info.c:31-32 | reading a `%lu` numeral back as decimal gives the number printed |
| Common.NumeralLength | system_info.c:31-38 | a number below 10^k prints in at most k digits |
| Common.TwoToThe64Digits | sysmon.h:58 | every 64-bit unsigned value has at most 20 decimal digits |
| CpuInfo.ModelText | cpu_info.c:25-31 | no text exactly when the line has no ':'; otherwise at most 127 characters, with no newline |
| CpuInfo.NextModel | cpu_info.c:24-33 | defines one step of the model scan: only a still-empty model takes the text of a "model name" line that has a ':' |
| CpuInfo.ModelOf | cpu_info.c:22-33 | the model is at most 127 characters and has no newline |
| CpuInfo.ProcessorCount | cpu_info.c:35-37 | defines the core count as the fold that adds one per line starting with "processor" |
| CpuInfo.ProcessorCountIsLineCount | cpu_info.c:35-37 | the core count equals the number of lines starting with "processor" |
| CpuInfo.NoModelLine | cpu_info.c:24-32 | with no line yielding a model text, the model stays empty |
| CpuInfo.NextModelStep | cpu_info.c:24-32 | a model once set is kept; an empty model takes the text of a line that gives a non-empty one and otherwise stays empty |
| CpuInfo.FirstModelLineWins | cpu_info.c:24-32 | the model is the text of the first "model name" line that yields a non-empty text; later lines do not change it |
| CpuInfo.FirstModelLineLast | cpu_info.c:24-32 | when the only line giving a model is the last, the model is its text |
| CpuInfo.FirstModelLineEarlier | cpu_info.c:24-32 | when the line giving the model comes earlier, the lines after it do not change the model |
| CpuInfo.ScanLine | cpu_info.c:24-37 | one iteration of the /proc/cpuinfo loop advances the model and the core count exactly as the specification fold does |
| CpuInfo.ScanCpuInfo | cpu_info.c:22-41 | the loop over /proc/cpuinfo returns exactly the model and core count of the specification fold |
| CpuInfo.TickTotal | cpu_info.c:62 | the sum of the eight counters modulo 2^64, exact when it does not wrap |
| CpuInfo.Slot | cpu_info.c:58-99 | the aggregate line uses slot 0; core k < 32 uses slot k+1; other lines and cores ≥ 32 are skipped; every slot is within the 33-pair store |
| CpuInfo.Utilisation | cpu_info.c:65-71 | no value exactly when Δtotal is 0; otherwise 100·(Δtotal−Δidle)/Δtotal with wrapping differences, within [0,100] when Δidle ≤ Δtotal |
| CpuInfo.OnlyIdleIsIdle | cpu_info.c:62-70 | for growing counters that do not wrap, utilisation is the share of non-idle ticks, iowait, irq, softirq and steal counted as busy |
| CpuInfo.ApplyLine | cpu_info.c:54-101 | a skipped line changes nothing; otherwise its slot stores the line's total and raw idle; the first run reports no utilisation |
| CpuInfo.ApplyLines | cpu_info.c:53-104 | the /proc/stat loop keeps the store at 33 pairs and the usage at 32 entries |
| CpuInfo.Examined | cpu_info.c:53 | the loop reads at most cores+1 lines, a prefix of the file |
| CpuInfo.FirstRunReportsNothing | cpu_info.c:65-95 | on the first run no per-core or aggregate utilisation is written |
| CpuInfo.UntouchedSlot | cpu_info.c:74-99 | a slot no line maps to keeps its pair and its utilisation |
| CpuInfo.LastLineStored | cpu_info.c:74-99 | after the loop a slot holds the total and raw idle of the last line that mapped to it |
| CpuInfo.ReportedUtilisation | cpu_info.c:64-95 | after the first run, a line's reported utilisation is measured against the pair stored when the call began |
| CpuInfo.ReportedEarlier | cpu_info.c:64-99 | a later line mapped to another slot leaves an already reported utilisation unchanged |
| CpuInfo.ReportedLast | cpu_info.c:64-95 | the last line, first to touch its slot, is measured against the pair stored when the call began |
| CpuInfo.ApplyLineElsewhere | cpu_info.c:74-99 | a line mapped to another slot leaves a slot's pair and utilisation unchanged |
| CpuInfo.RepeatedSampleIsIdle | cpu_info.c:66-70 | sampling unchanged counters twice reports 0 everywhere on the second call (every Δtotal is 0) |
| CpuInfo.RepeatIdlePrefix | cpu_info.c:66-70 | every prefix of the repeated pass reports 0, and the pairs still to be read are as the first pass left them |
| CpuInfo.BootstrapIndicesAsWritten | cpu_info.c:131-133 | the first-run loop as written zeroes one index per counted core |
| CpuInfo.BootstrapAsWrittenOverruns | cpu_info.c:131-133 | with 33 processor lines the loop as written zeroes index 32 of the 32-entry usage array |
| CpuInfo.BootstrapBound | cpu_info.c:131 | the corrected bound never exceeds 32 and equals the core count when that fits |
| CpuInfo.SlotAsWritten | cpu_info.c:84-99 | the per-core guard as written admits exactly ids below 32 and writes slot id+1 |
| CpuInfo.SlotAsWrittenOverruns | cpu_info.c:84-99 | some admitted id writes slot 32, past the 32-entry store |
| CpuInfo.Temperature | cpu_info.c:108-125 | defines the temperature: the millidegree reading of the sensor that answered divided by 1000, and 0 when none answered |
| CpuInfo.CounterStore.constructor | cpu_info.c:4-6 | at process start every stored pair is 0 and the first run is pending |
| CpuInfo.CounterStore.StoreLine | cpu_info.c:54-101 | one iteration updates the store arrays and the usage array exactly as the specification step does |
| CpuInfo.CounterStore.StoreSlot | cpu_info.c:65-76 | one slot: after the first run the utilisation against the stored pair (none when no time elapsed), then the pair replaced by the line's total and raw idle, the other slots unchanged |
| CpuInfo.CounterStore.ScanStat | cpu_info.c:53-104 | the /proc/stat loop leaves the store and the usage array equal to the specification fold over the examined lines |
| CpuInfo.ResetUsage | cpu_info.c:131-133 | the first-run reset zeroes the usage entries below the corrected bound and leaves the rest |
| CpuInfo.CounterStore.ReadCpuInfo | cpu_info.c:8-138 | -1 with a cleared snapshot when /proc/cpuinfo is missing; -1 with model and cores when /proc/stat is missing, store untouched; otherwise 0, the store advanced by the examined lines, the first-run flag cleared, and the snapshot's usage from the fold; on the first run all usage is 0 |
| MemoryInfo.ApplyMemLine | memory_info.c:20-37 | an unrecognised or unscanned line changes nothing; a recognised key sets its counter and leaves the other six |
| MemoryInfo.StoreMemLine | memory_info.c:20-37 | the `strcmp` chain for one line updates the record exactly as the specification step does |
| MemoryInfo.FoldMem | memory_info.c:9-38 | after the loop the derived fields are still 0 |
| MemoryInfo.LastOccurrenceWins | memory_info.c:19-38 | a counter holds the value of the last line with its key |
| MemoryInfo.MissingKeyIsZero | memory_info.c:9-38 | a key that never appears leaves its counter 0 |
| MemoryInfo.UsagePercent | memory_info.c:46-48 | 0 when total is 0; within [0,100] when available ≤ total |
| MemoryInfo.UsagePercentMonotone | memory_info.c:47 | with total fixed, less available memory never lowers the usage |
| MemoryInfo.SwapPercent | memory_info.c:50-52 | 0 without swap; within [0,100] when used ≤ total |
| MemoryInfo.UsedWraps | memory_info.c:42 | the chained unsigned subtraction is congruent to total−free−buffers−cached, and exact when that is not negative |
| MemoryInfo.Derive | memory_info.c:41-52 | the seven counters are kept; used and swap used are congruent to their differences (exact without underflow); both percentages follow the zero-denominator guard |
| MemoryInfo.ReadMemoryInfo | memory_info.c:3-55 | -1 and a cleared record when the file is missing; otherwise 0, the seven counters of the fold, used and swap used congruent to their differences (exact without underflow), and both percentages as specified |
| SystemInfo.Decompose | system_info.c:25-28 | days·86400 + hours·3600 + minutes·60 + seconds recombines to the input, with hours < 24, minutes < 60, seconds < 60 |
| SystemInfo.FormOf | system_info.c:30-39 | defines the layout choice: days when there are days, else hours when there are hours, else minutes and seconds |
| SystemInfo.Render | system_info.c:31-38 | defines the three `snprintf` texts, each number printed as by `%lu` |
| SystemInfo.FormatUptime | system_info.c:25-39 | defines the uptime text as the chosen layout of the decomposition |
| SystemInfo.DivModUnique | system_info.c:25-28 | helper of Decompose, not a property of the monitor: for the divisors 86400, 3600 and 60, a quotient and remainder in range are the ones `/` and `%` give |
| SystemInfo.FormThresholds | system_info.c:30-39 | the days layout exactly from one day up, the hours layout exactly from one hour to under a day, minutes and seconds below an hour |
| SystemInfo.UptimeExampleDays | system_info.c:31-32 | 90000 s reads "1 days, 1 hours, 0 minutes" |
| SystemInfo.UptimeExampleHours | system_info.c:34-35 | 3700 s reads "1 hours, 1 minutes" |
| SystemInfo.UptimeExampleMinutes | system_info.c:37-38 | 45 s reads "0 minutes, 45 seconds" |
| SystemInfo.UptimeFitsBuffer | system_info.c:30-39 | every 64-bit uptime text is shorter than the 64-byte buffer, so `snprintf` never truncates |
| SystemInfo.ReadUptimeInfo | system_info.c:3-42 | -1 and a cleared record without a reading; otherwise 0, the seconds, the layout chosen from the decomposition, session time 0 |
| SystemInfo.DiskNoWrap | system_info.c:58-60 | without wrap-around, total and free bytes are the exact products, used is (blocks−bfree)·frsize, and available ≤ free |
| SystemInfo.DiskFromStat | system_info.c:55-65 | filesystem "/", total and available congruent to their products, usage 0 on an empty filesystem, and without wrap-around exact bytes, usage in [0,100], used + available ≤ total |
| SystemInfo.DiskExample | system_info.c:58-64 | 1000 blocks of 4096 with 400 free and 380 available give 4096000 total, 2457600 used, 1556480 available, 60% |
| SystemInfo.ReadDiskInfo | system_info.c:44-68 | -1 and a cleared record when `statvfs` fails, otherwise 0 and the computed snapshot |
| SystemInfo.LeadingDigits | system_info.c:102 | the digits `atoi` reads: the longest all-digit prefix |
| SystemInfo.Atoi | system_info.c:102 | defines `atoi` on a directory name as the decimal value of its leading digits |
| SystemInfo.IsPidName | system_info.c:100-103 | defines the name filter: a first character that is a digit and a parsed pid above 0 |
| SystemInfo.CpuPercentOf | system_info.c:130-137 | defines the CPU figure as (utime + stime) modulo 2^64 over 10000, and 0 when fewer than two values were scanned |
| SystemInfo.MemoryKbOf | system_info.c:130-137 | defines the memory figure as rss·4 modulo 2^64 (rss 0 when not scanned), and 0 when fewer than two values were scanned |
| SystemInfo.ProcName | system_info.c:110-120 | "unknown" for an empty comm file; otherwise a prefix of the first line with no newline and at most 31 characters |
| SystemInfo.Admit | system_info.c:99-140 | an entry is counted exactly when its name starts with a digit and parses to a positive pid and both files open; then pid > 0, the name fits, and CPU and memory stay 0 when fewer than two values were scanned |
| SystemInfo.Contribution | system_info.c:99-140 | an entry contributes one record exactly when it is admitted, none otherwise |
| SystemInfo.Admitted | system_info.c:98-141 | no more records than entries |
| SystemInfo.AdmittedPrefix | system_info.c:98 | the records of a prefix of the directory are a prefix of all records |
| SystemInfo.AdmittedStep | system_info.c:98-141 | one more directory entry appends exactly its own contribution to the admitted records |
| SystemInfo.Collected | system_info.c:98 | at most `max_count` records |
| SystemInfo.AdmittedFromEntries | system_info.c:99-103 | every record comes from a directory entry that passed the filters |
| SystemInfo.CompareByCpu | system_info.c:71-78 | 1 exactly when b has more CPU, -1 exactly when less, 0 exactly on a tie |
| SystemInfo.ComparatorIsPreorder | system_info.c:71-78 | the comparator is antisymmetric and transitive, as `qsort` requires |
| SystemInfo.SwapDown | system_info.c:145 | an exchange of neighbours keeps the sorted range a permutation |
| SystemInfo.InsertDown | system_info.c:145 | one insertion pass extends the non-increasing prefix by one and permutes the range |
| SystemInfo.MovePast | system_info.c:145 | one step of the pass moves the record past a predecessor with less CPU, keeping the rest ordered and the range a permutation |
| SystemInfo.SwapKeepsOrder | system_info.c:71-78 | swapping the inserted record with a predecessor with less CPU keeps every other pair ordered and the record above all that follow |
| SystemInfo.InsertedInPlace | system_info.c:145 | once the inserted record has no more CPU than its predecessor, the whole prefix is non-increasing |
| SystemInfo.SortByCpu | system_info.c:145 | the first n records end non-increasing in CPU and a permutation of what they were, the rest untouched |
| SystemInfo.ClearSlots | system_info.c:88 | the first `max_count` slots are zeroed, the rest untouched |
| SystemInfo.CollectEntry | system_info.c:99-140 | one entry appends its record exactly when admitted; an entry passing the name filter whose comm file opens gets its name and pid written to the next slot even if the stat file then fails; an entry skipped at the name, pid or comm check leaves the slot untouched; no other slot changes |
| SystemInfo.GatherEntries | system_info.c:98-141 | the directory loop fills the first slots with exactly the first `max_count` admitted records |
| SystemInfo.LoopExitCollects | system_info.c:98 | the loop, ended by the directory running out or by `max_count` records, holds exactly the collected records |
| SystemInfo.ReadTopProcesses | system_info.c:80-148 | 0, with every one of the `max_count` slots zeroed, when /proc cannot be opened; otherwise the count is at most `max_count`, and the records are a permutation of the collected ones in non-increasing CPU order; later slots are zero |
| SystemInfo.SortExample | system_info.c:145 | with records of 5.0, 5.0 and 9.0 CPU, the 9.0 record comes first, and either order of the tied pair is allowed |
| Display.ColorFor | sysmon.c:4-8 | red exactly from 80, yellow exactly in [60,80), green exactly below 60 |
| Display.ColorMonotone | sysmon.c:4-8 | a higher percentage never gets a milder colour |
| Display.UnitUnique | sysmon.c:12-20 | at most one unit index satisfies the unit rule for a byte count |
| Display.FormatBytes | sysmon.c:11-27 | the unit is min(4, the largest k with 1024^k ≤ bytes); size·1024^unit equals the bytes; size < 1024 below TB and ≥ 1 above B |
| Display.UnitOfScaled | sysmon.c:12-20 | a size in [1,1024) of the unit (any size ≥ 1 for TB, any size for B below 1024) makes the unit the right one for the byte count |
| Display.KbToBytes | sysmon.c:112-117 | `kb * 1024` is exact when it fits, and always congruent modulo 2^64 |
| Display.Ellipsized | sysmon.c:62-71 | a string within the width is kept; a longer one becomes its first width−3 characters and "...", exactly width long |
| Display.TruncateInto | sysmon.c:62-71 | the buffer holds the ellipsized text followed by a NUL |
| Display.Trunc | sysmon.c:85 | the `(int)` cast rounds toward zero: within 1 below a non-negative value, within 1 above a negative one |
| Display.Filled | sysmon.c:85 | defines the filled-cell count as `(int)(usage * 35 / 100.0)`, rounded toward zero |
| Display.FilledBounds | sysmon.c:85 | a percentage in [0,100] asks for 0 to 35 cells, and 100 asks for all 35 |
| Display.FilledMonotone | sysmon.c:85 | a higher percentage never asks for fewer cells |
| Display.FullCount | sysmon.c:87-93 | the number of filled cells is at most the bar length |
| Display.DrawBar | sysmon.c:84-94 | exactly 35 cells, cell i filled exactly when i < filled |
| Display.FullCountOfBar | sysmon.c:86-93 | such a bar has `filled` clipped to [0,35] filled cells |
| Display.TemperatureColor | sysmon.c:97-101 | the row is shown exactly above 0 °C; above 70 °C it is red; otherwise the colour of the temperature |
| Display.TemperatureThresholds | sysmon.c:97-101 | from 60 to 70 °C the row is yellow, below 60 green, never green from 60 |
| Display.CpuPanelOf | sysmon.c:57-106 | the model is kept when within 60 characters and never longer; the usage colour and bar follow the total usage; the temperature row is shown exactly above 0 |
| Display.MemoryPanelOf | sysmon.c:108-153 | all six byte counts (total, used, free, available, swap total, swap used) are their KB counters times 1024 modulo 2^64; RAM colour and bar follow the usage; the swap row appears exactly when there is swap |
| Display.DiskPanelOf | sysmon.c:165-198 | byte counts shown as they are; colour and bar follow the usage |
| Display.RowOf | sysmon.c:208-228 | a row keeps pid and CPU, colours by CPU, never shows a name longer than 16, keeps names within 16, and shows memory as KB times 1024 |
| Display.RowCount | sysmon.c:208 | at most 10 rows, exactly `count` when 0 ≤ count ≤ 10 |
| Display.ProcessRows | sysmon.c:200-233 | the row loop draws min(count, 10) rows (none for a non-positive count), row i from record i |

## Left out

- File and directory access is not modelled: `fopen`, `fgets`, `sscanf`, `fscanf`, `statvfs`, `opendir`, `readdir`. Their results are the inputs of the model.
- Lines longer than 511 characters, which `fgets` delivers in pieces, are not modelled; each line is one chunk as delivered.
- The `sscanf` calls at cpu_info.c:59 and cpu_info.c:81 are not checked in the source. The model takes those lines as well-formed.
- Characters are taken to contain no NUL, so `strlen` is the length of the line.
- When ':' is the last character of a "model name" line with no newline, `colon += 2` reads past the terminator into stale buffer contents. CpuInfo.ModelText gives the empty text there.
- Temperature probing (cpu_info.c:108-125) is I/O. It is a parameter: the millidegree reading of whichever sensor answered.
- Floating point is exact reals. Rounding of the divisions and of `%.0f`, `%.1f` and `%6.1f` printing is not modelled. So is the `/1000.0` conversion and the cast of the uptime double to whole seconds; the uptime is taken as whole seconds.
- Display.FormatBytes: returns the scaled size and unit index, not the formatted 32-byte string.
- Display.Trunc: does not model the undefined behaviour of `(int)` on a value outside the `int` range.
- SystemInfo.Atoi: does not model `atoi` overflow on a name with more digits than an `int` holds.
- The pid and the CPU percentage are unbounded integers and reals, not C `int` and `double`.
- `qsort` is not a stable sort. SystemInfo.SortByCpu promises only a permutation in non-increasing CPU order, which is all `qsort` guarantees. The tie order is left open, not fixed by directory order.
- The derived memory values `used` and `swap_used` wrap modulo 2^64 on underflow, as the C code computes them; they do not saturate at zero.
- A process whose stat file opens but yields fewer than two values is still counted, with CPU and memory 0. This follows system_info.c:130-140.
- `main.c` is not part of this model: argument parsing, the refresh loop and signal handling.
- `clear_screen` and `display_header` are not modelled; the header uses the wall-clock time.
- `display_system_info` is only declared in `sysmon.h`; no source file defines it.
- The box drawing, column padding and ANSI colour escapes of the display routines are not modelled, nor `display_uptime_info`, which only prints the formatted text.
- The concurrency of `/proc`, whose files can change between reads, is not modelled. Each file is a single snapshot.

## Findings

| source | as written | input that shows it | evidently intended | confidence | as-written member | corrected member |
|---|---|---|---|---|---|---|
| cpu_info.c:84-99 | the guard `cpu_num < MAX_CPU_CORES` admits core 31, which writes `prev_total[32]` and `prev_idle[32]` of arrays declared with 32 entries | a /proc/stat line `cpu31 ...`, on any machine with 32 or more cores | a store of MAX_CPU_CORES + 1 pairs (slot 0 for the aggregate line, slot k+1 for core k) | high; not executed | CpuInfo.SlotAsWrittenOverruns | CpuInfo.Slot |
| cpu_info.c:131-133 | the first-run loop zeroes `usage[i]` for every i below `cpu->cores`, the number of "processor" lines, which may exceed the 32 entries of `usage` | a first call on a machine whose /proc/cpuinfo has 33 or more "processor" lines | stop at min(cores, MAX_CPU_CORES) | high; not executed | CpuInfo.BootstrapAsWrittenOverruns | CpuInfo.BootstrapBound |
