/** Turning one sample of the host into the percentage a dial shows: the
    "percent used" arithmetic for memory, swap and disk, the sum over all
    mounted filesystems, and the skip on a failed sensor. */
module Usage {
  import opened Wrappers
  import opened Text
  import opened Dial
  import opened Metrics

  const U64_MODULUS: int := 0x1_0000_0000_0000_0000

  /** An unsigned 64-bit integer (a byte count). */
  type U64 = x: int | 0 <= x < U64_MODULUS

  /** `percent_free = free / (total / 100)`, which needs `total / 100 > 0`. */
  function PercentFree(total: U64, free: U64): nat
    requires total >= 100
  {
    free / (total / 100)
  }

  /** What the memory, swap and disk arithmetic does as written. */
  datatype UsageAsWritten =
    | DivideByZero                  // `total / 100 == 0`: the task panics
    | Rejected(error: PercentError)   // `Percent::new(..)?` fails: the task ends with an error
    | Used(percent: Percent)

  /** The arithmetic as written, in a release build: `u64` division (a zero
      divisor panics), wrapping `u64` subtraction, then a truncating
      `as u8` cast and `Percent::new`. */
  function AsWritten(total: U64, free: U64): (u: UsageAsWritten)
    ensures u.DivideByZero? <==> total < 100
    ensures total >= 100 ==> (u.Used? <==> (100 - PercentFree(total, free)) % 256 <= 100)
    ensures u.Used? ==> u.percent.value == (100 - PercentFree(total, free)) % 256
  {
    if total / 100 == 0 then DivideByZero
    else
      var percentUsed := (100 - free / (total / 100)) % U64_MODULUS;
      var truncated := percentUsed % 256;
      WrapThenTruncate(100 - free / (total / 100));
      match NewPercent(truncated)
      case Err(e) => Rejected(e)
      case Ok(p) => Used(p)
  }

  /** Wrapping to 64 bits and then truncating to 8 keeps the low 8 bits. */
  lemma WrapThenTruncate(x: int)
    ensures (x % U64_MODULUS) % 256 == x % 256
  {
    var k := U64_MODULUS / 256;
    assert U64_MODULUS == 256 * k;
    var q := x / U64_MODULUS;
    assert x % U64_MODULUS == x - q * U64_MODULUS == x - (q * k) * 256;
  }

  /** The corrected arithmetic: `percent_free` is capped at 100, and a total
      below 100 units (no swap configured, no filesystem mounted) yields no
      reading instead of dividing by zero. */
  function UsedPercent(total: U64, free: U64): (r: Option<Percent>)
    ensures r.None? <==> total < 100
  {
    if total < 100 then None
    else
      var percentFree := PercentFree(total, free);
      Some(MkPercent(100 - (if percentFree > 100 then 100 else percentFree)))
  }

  /** Wherever the code as written is well defined and in range, the
      corrected arithmetic gives the same percentage. */
  lemma UsedPercentAgrees(total: U64, free: U64)
    requires total >= 100 && PercentFree(total, free) <= 100
    ensures UsedPercent(total, free).Some?
    ensures AsWritten(total, free) == Used(UsedPercent(total, free).value)
  {
  }

  lemma QuotientBelow(n: nat, d: nat, bound: nat)
    requires d > 0 && n < bound * d
    ensures n / d < bound
  {
  }

  lemma QuotientMonotone(a: nat, b: nat, d: nat)
    requires d > 0 && a <= b
    ensures a / d <= b / d
  {
    QuotientBelow(a, d, b / d + 1);
  }

  lemma QuotientAtLeast(n: nat, d: nat, bound: nat)
    requires d > 0 && bound * d <= n
    ensures n / d >= bound
  {
    QuotientMonotone(bound * d, n, d);
    assert (bound * d) / d == bound;
  }

  /** When no more is free than there is in total, the code as written
      never shows a wrong value: it either shows what the corrected
      arithmetic shows, panics (total below 100) or fails (the subtraction
      wrapped). */
  lemma AsWrittenNeverMisreports(total: U64, free: U64)
    requires free <= total
    ensures AsWritten(total, free).Used? ==>
              UsedPercent(total, free) == Some(AsWritten(total, free).percent)
  {
    if total >= 100 {
      var d := total / 100;
      assert total < 100 * d + 100 <= 200 * d;
      QuotientBelow(total, d, 200);
      QuotientMonotone(free, total, d);
    }
  }

  /** Nothing free means the dial reads 100. */
  lemma UsedPercentNothingFree(total: U64)
    requires total >= 100
    ensures UsedPercent(total, 0) == Some(MkPercent(100))
  {
  }

  /** Everything free means the dial reads 0. */
  lemma UsedPercentAllFree(total: U64)
    requires total >= 100
    ensures UsedPercent(total, total) == Some(MkPercent(0))
  {
    QuotientAtLeast(total, total / 100, 100);
  }

  /** More free space never shows as more used. */
  lemma UsedPercentAntitone(total: U64, free1: U64, free2: U64)
    requires total >= 100 && free1 <= free2
    ensures UsedPercent(total, free2).value.value <= UsedPercent(total, free1).value.value
  {
    QuotientMonotone(free1, free2, total / 100);
  }

  /** A host with no swap configured reports a swap total of zero: the code
      as written divides by zero, the corrected arithmetic skips the reading. */
  lemma NoSwapDividesByZero()
    ensures AsWritten(0, 0) == DivideByZero
    ensures UsedPercent(0, 0) == None
  {
  }

  /** With 199 units, all free, `percent_free` is 199 and the subtraction
      wraps to 157 after the cast, which `Percent::new` rejects; the
      corrected arithmetic reads 0. */
  lemma SmallTotalWraps()
    ensures AsWritten(199, 199) == Rejected(PercentError(157))
    ensures UsedPercent(199, 199) == Some(MkPercent(0))
  {
    assert PercentFree(199, 199) == 199;
    WrapThenTruncate(-99);
    assert (-99) % 256 == 157;
  }

  /** A mounted filesystem's size and free space, in bytes. */
  datatype Mount = Mount(total: U64, free: U64)

  /** Memory or swap (or the disk sums): total and free. */
  datatype Totals = Totals(total: U64, free: U64)

  function SumTotal(mounts: seq<Mount>): nat {
    if mounts == [] then 0 else SumTotal(mounts[..|mounts| - 1]) + mounts[|mounts| - 1].total
  }

  function SumFree(mounts: seq<Mount>): nat {
    if mounts == [] then 0 else SumFree(mounts[..|mounts| - 1]) + mounts[|mounts| - 1].free
  }

  lemma AddWrapped(a: int, b: int)
    ensures ((a % U64_MODULUS) + b) % U64_MODULUS == (a + b) % U64_MODULUS
  {
    var q := a / U64_MODULUS;
    assert a % U64_MODULUS + b == (a + b) - q * U64_MODULUS;
  }

  /** The disk fold: sizes and free space of all mounts added up from the
      first, in `u64` arithmetic, which wraps in a release build. */
  function DiskTotals(mounts: seq<Mount>): (t: Totals)
    ensures t.total == SumTotal(mounts) % U64_MODULUS
    ensures t.free == SumFree(mounts) % U64_MODULUS
  {
    if mounts == [] then Totals(0, 0)
    else
      var before := DiskTotals(mounts[..|mounts| - 1]);
      var fs := mounts[|mounts| - 1];
      AddWrapped(SumTotal(mounts[..|mounts| - 1]), fs.total);
      AddWrapped(SumFree(mounts[..|mounts| - 1]), fs.free);
      Totals((before.total + fs.total) % U64_MODULUS, (before.free + fs.free) % U64_MODULUS)
  }

  /** With no filesystem mounted the disk total is zero, so the code as
      written divides by zero there too. */
  lemma NoMountsDividesByZero()
    ensures DiskTotals([]) == Totals(0, 0) && AsWritten(0, 0) == DivideByZero
  {
  }

  /** One sample of the host. `None` is a sensor that returned an error; the
      CPU load, CPU temperature and battery readings are given after their
      conversion from floating point to `u8`. */
  datatype Host = Host(cpuLoad: Option<U8>, memory: Option<Totals>, swap: Option<Totals>,
                       cpuTemp: Option<U8>, battery: Option<U8>,
                       mounts: Option<seq<Mount>>)

  /** What a sensor gives for a metric: a number to show directly, or a total
      and free amount. */
  datatype Sample = Direct(value: U8) | Amounts(totals: Totals)

  function SampleOf(m: Metric, h: Host): Option<Sample> {
    match m
    case CpuLoad => if h.cpuLoad.Some? then Some(Direct(h.cpuLoad.value)) else None
    case CpuTemp => if h.cpuTemp.Some? then Some(Direct(h.cpuTemp.value)) else None
    case Battery => if h.battery.Some? then Some(Direct(h.battery.value)) else None
    case Mem => if h.memory.Some? then Some(Amounts(h.memory.value)) else None
    case Swap => if h.swap.Some? then Some(Amounts(h.swap.value)) else None
    case DiskUsage => if h.mounts.Some? then Some(Amounts(DiskTotals(h.mounts.value))) else None
  }

  /** The outcome of one sample: skip the iteration, end the task because
      `Percent::new` refused the number, or show the percentage. */
  datatype Reading = Skip | Invalid(error: PercentError) | Value(percent: Percent)

  /** The value computation of one loop iteration of `DialManager::run`,
      with memory, swap and disk usage computed by the corrected
      `UsedPercent` rather than by `AsWritten`: a total below 100 skips the
      iteration instead of dividing by zero, and a free share that rounds
      above 100 reads as 0% used instead of wrapping.
      `ReadMetricMatchesSource` states where the two agree. */
  function ReadMetric(m: Metric, h: Host): (r: Reading)
    ensures SampleOf(m, h).None? ==> r.Skip?
    ensures r.Invalid? <==> SampleOf(m, h).Some? && SampleOf(m, h).value.Direct?
                            && SampleOf(m, h).value.value > 100
    ensures r.Invalid? ==> r.error == PercentError(SampleOf(m, h).value.value)
    ensures r.Value? && SampleOf(m, h).value.Direct? ==>
              r.percent.value == SampleOf(m, h).value.value
    ensures r.Value? && SampleOf(m, h).value.Amounts? ==>
              Some(r.percent) == UsedPercent(SampleOf(m, h).value.totals.total,
                                             SampleOf(m, h).value.totals.free)
    ensures r.Skip? && SampleOf(m, h).Some? ==>
              SampleOf(m, h).value.Amounts? && SampleOf(m, h).value.totals.total < 100
  {
    match SampleOf(m, h)
    case None => Skip
    case Some(Direct(v)) =>
      (match NewPercent(v)
       case Err(e) => Invalid(e)
       case Ok(p) => Value(p))
    case Some(Amounts(t)) =>
      (match UsedPercent(t.total, t.free)
       case None => Skip
       case Some(p) => Value(p))
  }

  /** Wherever the code as written shows a memory, swap or disk value, this
      reading shows the same value, and it skips exactly where the code as
      written divides by zero. */
  lemma ReadMetricMatchesSource(m: Metric, h: Host)
    requires SampleOf(m, h).Some? && SampleOf(m, h).value.Amounts?
    requires SampleOf(m, h).value.totals.free <= SampleOf(m, h).value.totals.total
    ensures AsWritten(SampleOf(m, h).value.totals.total, SampleOf(m, h).value.totals.free).Used? ==>
              ReadMetric(m, h) == Value(AsWritten(SampleOf(m, h).value.totals.total,
                                                  SampleOf(m, h).value.totals.free).percent)
    ensures ReadMetric(m, h).Skip? <==>
              AsWritten(SampleOf(m, h).value.totals.total, SampleOf(m, h).value.totals.free).DivideByZero?
  {
    var t := SampleOf(m, h).value.totals;
    AsWrittenNeverMisreports(t.total, t.free);
  }

  /** With more free than total, which only a wrapped disk sum can give,
      the code as written can show a wrapped value in range: 56% used for a
      total of 100 with 300 free, where the corrected reading shows 0%. */
  lemma FreeAboveTotalShowsWrapped()
    ensures AsWritten(100, 300) == Used(MkPercent(56))
    ensures UsedPercent(100, 300) == Some(MkPercent(0))
  {
    assert PercentFree(100, 300) == 300;
    assert (100 - 300) % 256 == 56;
  }

  /** A failed sensor never leads to a value being set. */
  lemma SensorErrorSkips(m: Metric, h: Host)
    requires m == CpuLoad ==> h.cpuLoad.None?
    requires m == Mem ==> h.memory.None?
    requires m == Swap ==> h.swap.None?
    requires m == CpuTemp ==> h.cpuTemp.None?
    requires m == Battery ==> h.battery.None?
    requires m == DiskUsage ==> h.mounts.None?
    ensures ReadMetric(m, h) == Skip
  {
  }
}
