/// CPU-utilisation arithmetic of the system reporter (src/sysinfo.cpp).
/// The counters are 32-bit unsigned; the two sums wrap modulo 2^32, and the
/// final division is done in double precision, modelled here with exact reals.
module SysInfo {

  const U32: int := 0x1_0000_0000

  newtype u32 = x: int | 0 <= x < 0x1_0000_0000

  /// The outcome of `100.0 * used / total` as an IEEE double would give it:
  /// a finite value, +infinity for x/0 with x > 0, or NaN for 0/0.
  datatype Percentage = Value(v: real) | PosInfinity | NaN

  /// Jiffies counters read from one line of /proc/stat.
  datatype CpuTimes = CpuTimes(user: u32, nice: u32, sys: u32, idle: u32)

  /// The three "busy" deltas summed with 32-bit wrap-around.
  function UsedDelta(cur: CpuTimes, prev: CpuTimes): (r: u32)
    requires prev.user <= cur.user && prev.nice <= cur.nice && prev.sys <= cur.sys
    ensures r as int == ((cur.user - prev.user) as int + (cur.nice - prev.nice) as int
                         + (cur.sys - prev.sys) as int) % U32
  {
    (((cur.user - prev.user) as int + (cur.nice - prev.nice) as int
      + (cur.sys - prev.sys) as int) % U32) as u32
  }

  /// `total_used + (idle - prev_idle)`, again wrapping.
  function TotalDelta(cur: CpuTimes, prev: CpuTimes): (r: u32)
    requires prev.user <= cur.user && prev.nice <= cur.nice && prev.sys <= cur.sys
    requires prev.idle <= cur.idle
  {
    ((UsedDelta(cur, prev) as int + (cur.idle - prev.idle) as int) % U32) as u32
  }

  /// Models calc_cpu_percentage: -1 when any counter went backwards,
  /// otherwise 100 * used / total.
  function CpuPercentage(cur: CpuTimes, prev: CpuTimes): (r: Percentage)
  {
    if cur.user < prev.user || cur.nice < prev.nice || cur.sys < prev.sys
       || cur.idle < prev.idle then
      Value(-1.0)
    else
      var used := UsedDelta(cur, prev);
      var total := TotalDelta(cur, prev);
      if total != 0 then Value(100.0 * used as real / total as real)
      else if used != 0 then PosInfinity
      else NaN
  }

  /// True when none of the partial sums exceeded 32 bits.
  predicate NoWrap(cur: CpuTimes, prev: CpuTimes)
  {
    && prev.user <= cur.user && prev.nice <= cur.nice && prev.sys <= cur.sys
    && prev.idle <= cur.idle
    && (cur.user - prev.user) as int + (cur.nice - prev.nice) as int
       + (cur.sys - prev.sys) as int + (cur.idle - prev.idle) as int < U32
  }

  /// Any counter that went backwards yields the -1 sentinel, and only then.
  lemma BackwardsIsSentinel(cur: CpuTimes, prev: CpuTimes)
    ensures (cur.user < prev.user || cur.nice < prev.nice || cur.sys < prev.sys
             || cur.idle < prev.idle) <==> CpuPercentage(cur, prev) == Value(-1.0)
  {
    if !(cur.user < prev.user || cur.nice < prev.nice || cur.sys < prev.sys
         || cur.idle < prev.idle) {
      var used := UsedDelta(cur, prev);
      var total := TotalDelta(cur, prev);
      if total != 0 {
        assert 0.0 <= used as real && 0.0 < total as real;
        assert 100.0 * used as real / total as real >= 0.0;
      }
    }
  }

  /// Without wrap-around, and with some progress, the result is a percentage.
  lemma PercentageInRange(cur: CpuTimes, prev: CpuTimes)
    requires NoWrap(cur, prev)
    requires cur != prev
    ensures CpuPercentage(cur, prev).Value?
    ensures 0.0 <= CpuPercentage(cur, prev).v <= 100.0
  {
    NoWrapSums(cur, prev);
    var used := UsedDelta(cur, prev) as int;
    var total := TotalDelta(cur, prev) as int;
    var idle := (cur.idle - prev.idle) as int;
    assert used >= 0 && idle >= 0;
    assert total > 0;
    var u, t := used as real, total as real;
    assert u <= t;
    RatioBounds(u, t);
    ScaledRatio(u, t);
  }

  /// Scaling the numerator scales the quotient.
  lemma ScaledRatio(a: real, b: real)
    requires 0.0 < b
    ensures (100.0 * a) / b == 100.0 * (a / b)
  {
    var q := a / b;
    var r := (100.0 * a) / b;
    assert q * b == a;
    assert r * b == 100.0 * a;
    assert (r - 100.0 * q) * b == 0.0;
  }

  /// 0 <= a <= b with b > 0 gives 0 <= a / b <= 1.
  lemma RatioBounds(a: real, b: real)
    requires 0.0 <= a <= b && 0.0 < b
    ensures 0.0 <= a / b <= 1.0
  {
    var q := a / b;
    assert q * b == a;
    assert (1.0 - q) * b == b - a;
  }

  /// Without wrap-around the two sums are the plain sums of the deltas.
  lemma NoWrapSums(cur: CpuTimes, prev: CpuTimes)
    requires NoWrap(cur, prev)
    ensures UsedDelta(cur, prev) as int == (cur.user - prev.user) as int
              + (cur.nice - prev.nice) as int + (cur.sys - prev.sys) as int
    ensures TotalDelta(cur, prev) as int == UsedDelta(cur, prev) as int
              + (cur.idle - prev.idle) as int
  {
  }

  /// Only idle time passed: the CPU was 0% busy.
  lemma IdleOnlyIsZero(cur: CpuTimes, prev: CpuTimes)
    requires NoWrap(cur, prev)
    requires cur.user == prev.user && cur.nice == prev.nice && cur.sys == prev.sys
    requires cur.idle > prev.idle
    ensures CpuPercentage(cur, prev) == Value(0.0)
  {
  }

  /// No idle progress but some busy progress: the CPU was 100% busy.
  lemma NoIdleIsHundred(cur: CpuTimes, prev: CpuTimes)
    requires NoWrap(cur, prev)
    requires cur.idle == prev.idle && cur != prev
    ensures CpuPercentage(cur, prev) == Value(100.0)
  {
    NoWrapSums(cur, prev);
    var used := UsedDelta(cur, prev);
    assert TotalDelta(cur, prev) == used;
    assert used != 0;
    var u := used as real;
    assert (100.0 * u) / u == 100.0;
  }

  /// All four deltas zero: the division is 0/0.
  lemma NoProgressIsNaN(cur: CpuTimes)
    ensures CpuPercentage(cur, cur) == NaN
  {
  }

  /// The 32-bit sums can wrap: a busy delta of 2^32 - 1 plus one idle jiffy
  /// gives total 0 and the division becomes x/0.
  lemma WrappedTotalIsInfinite()
    ensures CpuPercentage(CpuTimes(0xFFFF_FFFF, 0, 0, 1), CpuTimes(0, 0, 0, 0)) == PosInfinity
  {
  }
}
