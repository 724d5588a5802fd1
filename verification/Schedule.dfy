/** Absolute deadlines: nanosecond arithmetic, skipping of missed periods, and the DC application times. */
module Schedule {
  import opened Arithmetic
  import opened Bytes

  const SECOND: int := 1000000000

  datatype Timespec = Timespec(sec: int, nsec: int) {
    predicate Normalized() {
      0 <= nsec < SECOND
    }
  }

  /** Division and remainder as C++ rounds them: toward zero, remainder with the sign of the dividend. */
  function TruncDiv(a: int, b: int): int
    requires b > 0
  {
    if a >= 0 then a / b else -(-a / b)
  }

  function TruncMod(a: int, b: int): int
    requires b > 0
  {
    a - b * TruncDiv(a, b)
  }

  function ToNs(t: Timespec): int {
    t.sec * SECOND + t.nsec
  }

  function FromNs(n: int): Timespec {
    var sec, nsec := TruncDiv(n, SECOND), TruncMod(n, SECOND);
    if nsec < 0 then Timespec(sec - 1, nsec + SECOND) else Timespec(sec, nsec)
  }

  /** Nanosecond counts and normalized timespecs are the same thing, before the epoch too. */
  lemma NsRoundTrip(n: int, t: Timespec)
    ensures ToNs(FromNs(n)) == n && FromNs(n).Normalized()
    ensures t.Normalized() ==> FromNs(ToNs(t)) == t
  {
    FromNsIsExact(n);
    if t.Normalized() {
      FromNsIsExact(ToNs(t));
      var u := FromNs(ToNs(t));
      assert (u.sec - t.sec) * SECOND == t.nsec - u.nsec;
    }
  }

  lemma FromNsIsExact(n: int)
    ensures ToNs(FromNs(n)) == n && FromNs(n).Normalized()
  {
    if n < 0 {
      var q := -n / SECOND;
      assert -n == SECOND * q + -n % SECOND;
    }
  }

  datatype Advance = Advance(deadline: Timespec, missed: nat)

  function PeriodNs(periodUs: uint32): nat {
    periodUs * 1000
  }

  function AdvanceDeadline(previous: Timespec, periodUs: uint32, now: Timespec): Advance {
    if periodUs == 0 then Advance(previous, 0)
    else
      var period, previousNs, nowNs := PeriodNs(periodUs), ToNs(previous), ToNs(now);
      var intervals := if nowNs >= previousNs + period then TruncDiv(nowNs - previousNs, period) + 1 else 1;
      var missed := if nowNs >= previousNs + period then TruncDiv(nowNs - previousNs, period) else 0;
      Advance(FromNs(previousNs + intervals * period), missed)
  }

  /** The new deadline is the least point of the grid of the old one that lies beyond both the old deadline
      and now, and `missed` counts the grid points skipped on the way. */
  lemma LeastGridPoint(previous: Timespec, periodUs: uint32, now: Timespec)
    requires periodUs > 0
    ensures var r := AdvanceDeadline(previous, periodUs, now);
      && r.deadline.Normalized()
      && ToNs(r.deadline) == ToNs(previous) + (1 + r.missed) * PeriodNs(periodUs)
      && ToNs(r.deadline) > ToNs(previous) && ToNs(r.deadline) > ToNs(now)
      && forall k: int | k > 0 && ToNs(previous) + k * PeriodNs(periodUs) > ToNs(now) :: k >= 1 + r.missed
  {
    hide FromNs, ToNs;
    var r, period := AdvanceDeadline(previous, periodUs, now), PeriodNs(periodUs);
    var elapsed := ToNs(now) - ToNs(previous);
    FromNsIsExact(ToNs(previous) + (1 + r.missed) * period);
    MulMonotone(1, 1 + r.missed, period);
    if elapsed >= period {
      DivBounds(elapsed, period);
      assert r.missed == elapsed / period;
      assert (1 + r.missed) * period == elapsed / period * period + period;
    }
    forall k: int | k > 0 && ToNs(previous) + k * period > ToNs(now) ensures k >= 1 + r.missed {
      if k <= r.missed {
        MulMonotone(k, r.missed, period);
      }
    }
  }

  // ---------- whole runs ----------

  /** The deadline after these finish times, and all periods skipped so far. */
  function After(first: Timespec, periodUs: uint32, finishes: seq<Timespec>): Advance {
    if finishes == [] then Advance(first, 0)
    else
      var before := After(first, periodUs, finishes[..|finishes| - 1]);
      var next := AdvanceDeadline(before.deadline, periodUs, finishes[|finishes| - 1]);
      Advance(next.deadline, before.missed + next.missed)
  }

  lemma Regroup(a: int, k: nat, missed: nat, more: nat, period: nat)
    ensures a + (k + missed) * period + (1 + more) * period == a + (k + 1 + (missed + more)) * period
  {
  }

  /** No period is lost or invented: after k iterations the deadline is k + missed periods after the first. */
  lemma {:induction false} ScheduleConserved(first: Timespec, periodUs: uint32, finishes: seq<Timespec>)
    requires periodUs > 0
    ensures var r := After(first, periodUs, finishes);
      ToNs(r.deadline) == ToNs(first) + (|finishes| + r.missed) * PeriodNs(periodUs)
  {
    if finishes != [] {
      var n := |finishes| - 1;
      ScheduleConserved(first, periodUs, finishes[..n]);
      hide ToNs, AdvanceDeadline, PeriodNs;
      var before := After(first, periodUs, finishes[..n]);
      LeastGridPoint(before.deadline, periodUs, finishes[n]);
      Regroup(ToNs(first), n, before.missed, AdvanceDeadline(before.deadline, periodUs, finishes[n]).missed,
              PeriodNs(periodUs));
    }
  }

  /** Deadlines strictly increase from iteration to iteration, and never fall behind a finish time. */
  lemma {:induction false} DeadlinesIncrease(first: Timespec, periodUs: uint32, finishes: seq<Timespec>, i: nat, j: nat)
    requires periodUs > 0 && i < j <= |finishes|
    ensures ToNs(After(first, periodUs, finishes[..i]).deadline) < ToNs(After(first, periodUs, finishes[..j]).deadline)
    ensures ToNs(finishes[j - 1]) < ToNs(After(first, periodUs, finishes[..j]).deadline)
    decreases j
  {
    hide ToNs, AdvanceDeadline;
    assert finishes[..j][..j - 1] == finishes[..j - 1];
    LeastGridPoint(After(first, periodUs, finishes[..j - 1]).deadline, periodUs, finishes[j - 1]);
    if i < j - 1 {
      DeadlinesIncrease(first, periodUs, finishes, i, j - 1);
    }
  }

  /** The first deadline of the loop. With DC the phase is that of the first application time (zero: no DC),
      however long activation took. */
  function FirstDeadline(origin: nat, periodUs: uint32, now: Timespec): Timespec {
    if origin != 0 then AdvanceDeadline(FromNs(origin), periodUs, now).deadline
    else FromNs(ToNs(now) + PeriodNs(periodUs))
  }

  /** On the grid of the phase origin. */
  ghost predicate InPhase(origin: int, periodUs: uint32, time: int) {
    exists k: int :: time == origin + k * PeriodNs(periodUs)
  }

  /** With DC on, every deadline, and with it every application time of the loop, keeps the phase of the
      origin, and all lie after the origin and after the start of the loop. */
  lemma DcPhaseKept(origin: nat, periodUs: uint32, now: Timespec, finishes: seq<Timespec>)
    requires periodUs > 0 && origin != 0
    ensures var d := ToNs(After(FirstDeadline(origin, periodUs, now), periodUs, finishes).deadline);
      InPhase(origin, periodUs, d) && d > origin && d > ToNs(now)
  {
    hide AdvanceDeadline, ToNs, PeriodNs;
    var first, period := FirstDeadline(origin, periodUs, now), PeriodNs(periodUs);
    FromNsIsExact(origin);
    LeastGridPoint(FromNs(origin), periodUs, now);
    ScheduleConserved(first, periodUs, finishes);
    var skipped := AdvanceDeadline(FromNs(origin), periodUs, now).missed;
    var passed := |finishes| + After(first, periodUs, finishes).missed;
    assert (1 + skipped) * period + passed * period == (1 + skipped + passed) * period;
    assert passed * period >= 0;
  }

  // ---------- in nanoseconds ----------

  lemma Units(t: Timespec, periodUs: uint32)
    ensures ToNs(t) == t.sec * 1000000000 + t.nsec && PeriodNs(periodUs) == periodUs * 1000
    ensures t.Normalized() <==> 0 <= t.nsec < 1000000000
  {
  }

  /** One step of the deadline, with a period of periodUs thousand nanoseconds: the grid points up to now are
      skipped, and no others. */
  lemma StepInNanoseconds(previous: Timespec, periodUs: uint32, now: Timespec)
    requires periodUs > 0
    ensures var r := AdvanceDeadline(previous, periodUs, now);
      var was, due := previous.sec * 1000000000 + previous.nsec, r.deadline.sec * 1000000000 + r.deadline.nsec;
      var clock := now.sec * 1000000000 + now.nsec;
      && due == was + (1 + r.missed) * (periodUs * 1000) && due > clock && 0 <= r.deadline.nsec < 1000000000
      && (r.missed > 0 ==> was + r.missed * (periodUs * 1000) <= clock)
  {
    var r := AdvanceDeadline(previous, periodUs, now);
    LeastGridPoint(previous, periodUs, now);
    hide ToNs, PeriodNs, AdvanceDeadline, Timespec.Normalized;
    Units(previous, periodUs);
    Units(now, periodUs);
    Units(r.deadline, periodUs);
    var k: int := r.missed;
    assert k > 0 && ToNs(previous) + k * PeriodNs(periodUs) > ToNs(now) ==> k >= 1 + r.missed;
  }

  /** After k iterations the deadline is k + missed periods after the first. */
  lemma ScheduleInNanoseconds(first: Timespec, periodUs: uint32, finishes: seq<Timespec>)
    requires periodUs > 0
    ensures var r := After(first, periodUs, finishes);
      r.deadline.sec * 1000000000 + r.deadline.nsec ==
      first.sec * 1000000000 + first.nsec + (|finishes| + r.missed) * (periodUs * 1000)
  {
    ScheduleConserved(first, periodUs, finishes);
    hide ToNs, PeriodNs, After;
    Units(first, periodUs);
    Units(After(first, periodUs, finishes).deadline, periodUs);
  }

  /** The grid point of the origin after the k-th; the clock has reached the k-th if there is one behind it. */
  predicate AfterSkipping(origin: int, periodUs: uint32, clock: int, due: int, k: nat) {
    due == origin + (1 + k) * (periodUs * 1000) && (k > 0 ==> origin + k * (periodUs * 1000) <= clock)
  }

  /** The first deadline: one period from now, or with DC the least grid point of the origin beyond it and now. */
  lemma FirstInNanoseconds(origin: nat, periodUs: uint32, now: Timespec) returns (k: nat)
    requires periodUs > 0
    ensures var d, clock := FirstDeadline(origin, periodUs, now), now.sec * 1000000000 + now.nsec;
      var due := d.sec * 1000000000 + d.nsec;
      && 0 <= d.nsec < 1000000000
      && (origin == 0 ==> due == clock + periodUs * 1000)
      && (origin != 0 ==> due > origin && due > clock && AfterSkipping(origin, periodUs, clock, due, k))
  {
    hide AdvanceDeadline, FromNs;
    k := 0;
    Units(now, periodUs);
    if origin == 0 {
      FromNsIsExact(ToNs(now) + PeriodNs(periodUs));
    } else {
      FromNsIsExact(origin);
      StepInNanoseconds(FromNs(origin), periodUs, now);
      LeastGridPoint(FromNs(origin), periodUs, now);
      k := AdvanceDeadline(FromNs(origin), periodUs, now).missed;
    }
  }

  const TIME_RANGE: int := 0x2000_0000_0000_0000

  predicate Int64(n: int) {
    -0x8000_0000_0000_0000 <= n < 0x8000_0000_0000_0000
  }

  /** Within 73 years of the epoch of the clock no step of the computation leaves 64 bits. */
  lemma NoOverflow(previous: Timespec, periodUs: uint32, now: Timespec)
    requires periodUs > 0 && -TIME_RANGE <= ToNs(previous) <= TIME_RANGE && -TIME_RANGE <= ToNs(now) <= TIME_RANGE
    ensures var r, period := AdvanceDeadline(previous, periodUs, now), PeriodNs(periodUs);
      && Int64(ToNs(previous) + period) && Int64(ToNs(now) - ToNs(previous))
      && Int64((1 + r.missed) * period) && Int64(ToNs(r.deadline))
  {
    hide ToNs;
    var r, period := AdvanceDeadline(previous, periodUs, now), PeriodNs(periodUs);
    LeastGridPoint(previous, periodUs, now);
    var elapsed := ToNs(now) - ToNs(previous);
    if elapsed >= period {
      DivBounds(elapsed, period);
      assert (1 + r.missed) * period == elapsed / period * period + period;
    } else {
      assert r.missed == 0;
    }
  }
}
