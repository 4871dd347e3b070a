/** Shapes, limits and machine arithmetic shared by the samplers (sysmon.h). */
module Common {

  /** Number of per-core utilisation entries in a CPU snapshot. */
  const MAX_CPU_CORES: nat := 32
  /** Size of a process-name buffer, terminator included. */
  const MAX_PROC_NAME: nat := 32
  /** Number of process slots in a system snapshot. */
  const TOP_PROCESSES: nat := 10

  const TWO_TO_THE_64: int := 0x1_0000_0000_0000_0000

  /** A C `unsigned long` on a 64-bit target. */
  type U64 = x: int | 0 <= x < TWO_TO_THE_64

  datatype Option<T> = None | Some(value: T)

  /** Reduction of an integer into the unsigned 64-bit range. */
  function Wrap(q: int): (r: U64)
    ensures 0 <= q < TWO_TO_THE_64 ==> r == q
    ensures TWO_TO_THE_64 <= q < 2 * TWO_TO_THE_64 ==> r == q - TWO_TO_THE_64
    ensures -TWO_TO_THE_64 <= q < 0 ==> r == q + TWO_TO_THE_64
    ensures (r - q) % TWO_TO_THE_64 == 0
  {
    var r := q % TWO_TO_THE_64;
    assert q == (q / TWO_TO_THE_64) * TWO_TO_THE_64 + r;
    r
  }

  /** `a + b` in unsigned 64-bit arithmetic. */
  function Add64(a: U64, b: U64): (r: U64)
    ensures a + b < TWO_TO_THE_64 ==> r == a + b
    ensures a + b >= TWO_TO_THE_64 ==> r == a + b - TWO_TO_THE_64
  {
    Wrap(a + b)
  }

  /** `a - b` in unsigned 64-bit arithmetic: wraps instead of going negative. */
  function Sub64(a: U64, b: U64): (r: U64)
    ensures b <= a ==> r == a - b
    ensures a < b ==> r == a - b + TWO_TO_THE_64
  {
    Wrap(a - b)
  }

  /** `a * b` in unsigned 64-bit arithmetic. */
  function Mul64(a: U64, b: U64): (r: U64)
    ensures a * b < TWO_TO_THE_64 ==> r == a * b
    ensures (r - a * b) % TWO_TO_THE_64 == 0
  {
    Wrap(a * b)
  }

  /** `x` and `y` are the same value once reduced modulo 2^64. */
  predicate Congruent64(x: int, y: int) {
    (x - y) % TWO_TO_THE_64 == 0
  }

  /** `100 * part / whole` as the samplers compute it, on exact reals. */
  function Ratio100(part: int, whole: int): (r: real)
    requires whole > 0
    ensures 0 <= part <= whole ==> 0.0 <= r <= 100.0
  {
    var p, w := part as real, whole as real;
    assert 0.0 <= p <= w ==> 100.0 * p / w <= 100.0 * w / w;
    100.0 * p / w
  }

  lemma Ratio100Monotone(p1: int, p2: int, whole: int)
    requires whole > 0 && p1 <= p2
    ensures Ratio100(p1, whole) <= Ratio100(p2, whole)
  {
  }

  /** A percentage guarded against a zero denominator: 0 when `whole` is 0. */
  function Percent(part: int, whole: int): (p: real)
    ensures whole == 0 ==> p == 0.0
    ensures whole > 0 ==> p == Ratio100(part, whole)
    ensures whole > 0 && 0 <= part <= whole ==> 0.0 <= p <= 100.0
  {
    if whole > 0 then Ratio100(part, whole) else 0.0
  }

  // ----- strings -----

  predicate StartsWith(s: string, prefix: string) {
    |prefix| <= |s| && s[..|prefix|] == prefix
  }

  /** The position of the first `c` in `s` (`strchr`). */
  function IndexOf(s: string, c: char): (r: Option<nat>)
    ensures r.None? ==> c !in s
    ensures r.Some? ==> r.value < |s| && s[r.value] == c && c !in s[..r.value]
  {
    if s == [] then None
    else if s[0] == c then Some(0)
    else match IndexOf(s[1..], c)
      case None => None
      case Some(k) =>
        assert s[1..][..k] == s[1..k + 1];
        assert s[..k + 1] == [s[0]] + s[1..k + 1];
        Some(k + 1)
  }

  /** `s` cut at its first newline, as `*strchr(s, '\n') = '\0'` does. */
  function UpToNewline(s: string): (r: string)
    ensures '\n' !in r
    ensures '\n' in s ==> |r| < |s| && s[|r|] == '\n'
    ensures '\n' !in s ==> r == s
    ensures r == s[..|r|]
  {
    match IndexOf(s, '\n')
    case None => s
    case Some(k) => s[..k]
  }

  /** At most the first `n` characters of `s`. */
  function Take(s: string, n: nat): (r: string)
    ensures |r| <= n && |r| <= |s| && r == s[..|r|]
    ensures |s| <= n ==> r == s
    ensures |s| > n ==> |r| == n
  {
    if |s| <= n then s else s[..n]
  }

  // ----- decimal numerals (`%lu`, `%d`, `atoi`) -----

  function DigitChar(d: nat): (c: char)
    requires d < 10
    ensures IsDigit(c) && DigitValue(c) == d
  {
    ('0' as int + d) as char
  }

  predicate IsDigit(c: char) {
    '0' <= c <= '9'
  }

  function DigitValue(c: char): nat
    requires IsDigit(c)
  {
    (c as int - '0' as int) as nat
  }

  /** The decimal numeral of `n`, without leading zeros. */
  function NatToString(n: nat): (s: string)
    ensures |s| >= 1
    ensures forall i :: 0 <= i < |s| ==> IsDigit(s[i])
    decreases n
  {
    if n < 10 then [DigitChar(n)] else NatToString(n / 10) + [DigitChar(n % 10)]
  }

  /** The value of a string of decimal digits (read left to right). */
  function DecimalValue(s: string): nat
    requires forall i :: 0 <= i < |s| ==> IsDigit(s[i])
  {
    if s == [] then 0 else DecimalValue(s[..|s| - 1]) * 10 + DigitValue(s[|s| - 1])
  }

  lemma {:induction false} DecimalRoundTrip(n: nat)
    ensures DecimalValue(NatToString(n)) == n
    decreases n
  {
    var s := NatToString(n);
    if n >= 10 {
      DecimalRoundTrip(n / 10);
      assert s[..|s| - 1] == NatToString(n / 10);
      assert s[|s| - 1] == DigitChar(n % 10);
      assert DecimalValue(s) == DecimalValue(s[..|s| - 1]) * 10 + DigitValue(s[|s| - 1]);
    } else {
      assert s == [DigitChar(n)];
    }
  }

  function Pow10(k: nat): (r: nat)
    ensures r >= 1
  {
    if k == 0 then 1 else 10 * Pow10(k - 1)
  }

  /** A value below 10^k has at most k digits. */
  lemma {:induction false} NumeralLength(n: nat, k: nat)
    requires 1 <= k && n < Pow10(k)
    ensures |NatToString(n)| <= k
    decreases k
  {
    if n >= 10 {
      assert k >= 2;
      assert n / 10 < Pow10(k - 1);
      NumeralLength(n / 10, k - 1);
    }
  }

  lemma TwoToThe64Digits()
    ensures TWO_TO_THE_64 < Pow10(20)
  {
    Pow10Add(5, 5);
    Pow10Add(10, 10);
    assert Pow10(5) == 100_000;
  }

  lemma {:induction false} Pow10Add(a: nat, b: nat)
    ensures Pow10(a + b) == Pow10(a) * Pow10(b)
  {
    if a > 0 {
      Pow10Add(a - 1, b);
    }
  }
}
