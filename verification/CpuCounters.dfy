/**
 CPU tick frames and their differences (backend/src/monitoring.rs). Percentages are reals: rounding
 is not modelled.
 */
module CpuCounters {
  import opened Wrappers
  import opened Decimals
  import opened Metrics

  datatype Ticks = Ticks(user: U64, nice: U64, system: U64, idle: U64, iowait: U64, irq: U64, softirq: U64, steal: U64)

  datatype CpuFrame = CpuFrame(aggregate: Ticks, perCpu: map<string, Ticks>)

  datatype CpuRate = CpuRate(busyPct: real, iowaitPct: real, stealPct: real, totalDeltaTicks: U64)

  function Listed(t: Ticks): seq<U64> {
    [t.user, t.nice, t.system, t.idle, t.iowait, t.irq, t.softirq, t.steal]
  }

  /** Checked addition from left to right; None once a partial sum leaves 64 bits. */
  function CheckedSum(values: seq<U64>, acc: U64): Option<U64>
    decreases |values|
  {
    if values == [] then Some(acc)
    else if acc + values[0] < U64_LIMIT then CheckedSum(values[1..], acc + values[0])
    else None
  }

  function CpuTotal(t: Ticks): Option<U64> {
    CheckedSum(Listed(t), 0)
  }

  function Sum(t: Ticks): nat {
    t.user + t.nice + t.system + t.idle + t.iowait + t.irq + t.softirq + t.steal
  }

  predicate Fits(t: Ticks) {
    Sum(t) < U64_LIMIT
  }

  lemma CheckedSumStep(first: U64, rest: seq<U64>, acc: U64)
    ensures CheckedSum([first] + rest, acc) == if acc + first < U64_LIMIT then CheckedSum(rest, acc + first) else None
  {
    assert ([first] + rest)[1..] == rest;
  }

  /** The checked total is the exact sum, missing exactly when that sum does not fit 64 bits. */
  lemma TotalIsExactSum(t: Ticks)
    ensures CpuTotal(t) == if Fits(t) then Some(Sum(t)) else None
  {
    var tail := [t.irq, t.softirq, t.steal];
    assert Listed(t) == [t.user] + ([t.nice] + ([t.system] + ([t.idle] + ([t.iowait] + tail))));
    assert tail == [t.irq] + ([t.softirq] + ([t.steal] + []));
    CheckedSumStep(t.user, [t.nice] + ([t.system] + ([t.idle] + ([t.iowait] + tail))), 0);
    if t.user + t.nice < U64_LIMIT {
      CheckedSumStep(t.nice, [t.system] + ([t.idle] + ([t.iowait] + tail)), t.user);
      var two := t.user + t.nice;
      TotalOfSix(t, two, tail);
    } else {
      CheckedSumStep(t.nice, [t.system] + ([t.idle] + ([t.iowait] + tail)), t.user);
    }
  }

  lemma TotalOfSix(t: Ticks, two: U64, tail: seq<U64>)
    requires two == t.user + t.nice && tail == [t.irq] + ([t.softirq] + ([t.steal] + []))
    ensures CheckedSum([t.system] + ([t.idle] + ([t.iowait] + tail)), two) == if Fits(t) then Some(Sum(t)) else None
  {
    CheckedSumStep(t.system, [t.idle] + ([t.iowait] + tail), two);
    if two + t.system < U64_LIMIT {
      CheckedSumStep(t.idle, [t.iowait] + tail, two + t.system);
      if two + t.system + t.idle < U64_LIMIT {
        CheckedSumStep(t.iowait, tail, two + t.system + t.idle);
        if two + t.system + t.idle + t.iowait < U64_LIMIT {
          TotalOfThree(t, two + t.system + t.idle + t.iowait);
        }
      }
    }
  }

  lemma TotalOfThree(t: Ticks, five: U64)
    requires five == t.user + t.nice + t.system + t.idle + t.iowait
    ensures CheckedSum([t.irq] + ([t.softirq] + ([t.steal] + [])), five) == if Fits(t) then Some(Sum(t)) else None
  {
    CheckedSumStep(t.irq, [t.softirq] + ([t.steal] + []), five);
    if five + t.irq < U64_LIMIT {
      CheckedSumStep(t.softirq, [t.steal] + [], five + t.irq);
      if five + t.irq + t.softirq < U64_LIMIT {
        CheckedSumStep(t.steal, [], five + t.irq + t.softirq);
      }
    }
  }

  // ---- differences -----------------------------------------------------------------

  function Percent(numerator: nat, denominator: nat): real
    requires denominator > 0
  {
    numerator as real * 100.0 / denominator as real
  }

  predicate SteadyDecreased(previous: Ticks, current: Ticks) {
    || current.user < previous.user || current.nice < previous.nice || current.system < previous.system
    || current.idle < previous.idle || current.irq < previous.irq || current.softirq < previous.softirq
    || current.steal < previous.steal
  }

  function Deltas(previous: Ticks, current: Ticks): Ticks
    requires !SteadyDecreased(previous, current) && previous.iowait <= current.iowait
  {
    Ticks(current.user - previous.user, current.nice - previous.nice, current.system - previous.system,
          current.idle - previous.idle, current.iowait - previous.iowait, current.irq - previous.irq,
          current.softirq - previous.softirq, current.steal - previous.steal)
  }

  function DiffCpuTicks(previous: Ticks, current: Ticks, dt: real): FamilyObservation<CpuRate> {
    if !ValidInterval(dt) then Without(InsufficientInterval)
    else if SteadyDecreased(previous, current) then Without(CounterReset)
    else if current.iowait < previous.iowait then Without(CounterUnreliable)
    else
      var deltas := Deltas(previous, current);
      var total := CpuTotal(deltas);
      if total.None? then Without(CounterUnreliable)
      else if total.value == 0 then Without(InsufficientInterval)
      else
        var busy := SaturatingSub(SaturatingSub(total.value, deltas.idle), deltas.iowait);
        FamilyObservation(Observed, Some(CpuRate(
          Percent(busy, total.value), Percent(deltas.iowait, total.value), Percent(deltas.steal, total.value),
              total.value)))
  }

  predicate Grew(previous: Ticks, current: Ticks) {
    !SteadyDecreased(previous, current) && previous.iowait <= current.iowait
  }

  /**
   The differences of two frames that fit add up to the difference of their totals, so the overflow
   branch is never taken.
   */
  lemma DeltasFit(previous: Ticks, current: Ticks)
    requires Grew(previous, current) && Fits(current)
    ensures Fits(Deltas(previous, current))
    ensures CpuTotal(Deltas(previous, current)) == Some(Sum(current) - Sum(previous))
  {
    TotalIsExactSum(Deltas(previous, current));
  }

  /**
   Each quality has exactly one cause between frames that fit; in particular unreliable only ever
   means that iowait fell.
   */
  lemma QualityHasOneCause(previous: Ticks, current: Ticks, dt: real)
    requires Fits(previous) && Fits(current)
    ensures var r := DiffCpuTicks(previous, current, dt);
            && (r.quality == Observed <==> ValidInterval(dt) && Grew(previous, current) && Sum(previous) < Sum(current))
            && (r.quality == CounterReset <==> ValidInterval(dt) && SteadyDecreased(previous, current))
            && (r.quality == CounterUnreliable
                <==> ValidInterval(dt) && !SteadyDecreased(previous, current) && current.iowait < previous.iowait)
            && (r.quality == InsufficientInterval
                <==> !ValidInterval(dt) || (Grew(previous, current) && Sum(previous) == Sum(current)))
            && (r.value.Some? <==> r.quality == Observed)
  {
    if Grew(previous, current) {
      DeltasFit(previous, current);
    }
  }

  lemma PercentBounds(part: nat, whole: nat)
    requires part <= whole && whole > 0
    ensures 0.0 <= Percent(part, whole) <= 100.0
  {
    var p, w := part as real, whole as real;
    assert p * 100.0 <= w * 100.0;
    assert w * 100.0 / w == 100.0;
    assert p * 100.0 / w <= w * 100.0 / w;
  }

  lemma PercentAdds(a: nat, b: nat, whole: nat)
    requires whole > 0
    ensures Percent(a + b, whole) == Percent(a, whole) + Percent(b, whole)
  {
  }

  lemma Shares(busy: nat, idle: nat, iowait: nat, steal: nat)
    requires steal <= busy && busy + idle + iowait > 0
    ensures var total := busy + idle + iowait;
            && Percent(busy, total) + Percent(idle, total) + Percent(iowait, total) == 100.0
            && 0.0 <= Percent(steal, total) <= Percent(busy, total) <= 100.0 && 0.0 <= Percent(iowait, total) <= 100.0
  {
    var total := busy + idle + iowait;
    PercentAdds(busy, idle, total);
    PercentAdds(busy + idle, iowait, total);
    PercentAdds(busy - steal, steal, total);
    PercentBounds(busy, total);
    PercentBounds(busy - steal, total);
    PercentBounds(iowait, total);
    PercentBounds(steal, total);
    AllOfIt(total);
  }

  lemma AllOfIt(whole: nat)
    requires whole > 0
    ensures Percent(whole, whole) == 100.0
  {
  }

  /**
   An observed rate counts every tick once: busy is the six non-idle kinds, and busy, idle and iowait
   make up the whole.
   */
  lemma ObservedRateAddsUp(previous: Ticks, current: Ticks, dt: real)
    requires Fits(previous) && Fits(current) && DiffCpuTicks(previous, current, dt).quality == Observed
    ensures Grew(previous, current)
    ensures var d := Deltas(previous, current); var r := DiffCpuTicks(previous, current, dt).value.value;
            && r.totalDeltaTicks == Sum(current) - Sum(previous) > 0
            && d.idle + d.iowait <= r.totalDeltaTicks
            && r.busyPct == Percent(d.user + d.nice + d.system + d.irq + d.softirq + d.steal, r.totalDeltaTicks)
            && r.busyPct + Percent(d.idle, r.totalDeltaTicks) + r.iowaitPct == 100.0
            && 0.0 <= r.stealPct <= r.busyPct <= 100.0 && 0.0 <= r.iowaitPct <= 100.0
  {
    QualityHasOneCause(previous, current, dt);
    DeltasFit(previous, current);
    var d := Deltas(previous, current);
    Shares(d.user + d.nice + d.system + d.irq + d.softirq + d.steal, d.idle, d.iowait, d.steal);
  }

  // ---- chains ------------------------------------------------------------------------

  predicate ObservedChain(frames: seq<Ticks>, intervals: seq<real>) {
    && |intervals| == |frames| - 1
    && (forall i :: 0 <= i < |frames| ==> Fits(frames[i]))
    && (forall i :: 0 <= i < |intervals| ==> DiffCpuTicks(frames[i], frames[i + 1], intervals[i]).quality == Observed)
  }

  function TotalAlong(frames: seq<Ticks>, intervals: seq<real>): nat
    requires ObservedChain(frames, intervals)
  {
    if intervals == [] then 0
    else
      var n := |intervals| - 1;
      QualityHasOneCause(frames[n], frames[n + 1], intervals[n]);
      TotalAlong(frames[..n + 1], intervals[..n]) + DiffCpuTicks(frames[n], frames[n + 1],
          intervals[n]).value.value.totalDeltaTicks
  }

  /**
   Along any chain of observed steps the total deltas telescope, and the step from the first frame to
   the last is observed with that total.
   */
  lemma {:induction false} TotalsTelescope(frames: seq<Ticks>, intervals: seq<real>, dt: real)
    requires ObservedChain(frames, intervals)
    ensures Grew(frames[0], frames[|frames| - 1])
    ensures TotalAlong(frames, intervals) == Sum(frames[|frames| - 1]) - Sum(frames[0])
    ensures intervals != [] && ValidInterval(dt) ==>
              && DiffCpuTicks(frames[0], frames[|frames| - 1], dt).quality == Observed
              && DiffCpuTicks(frames[0], frames[|frames| - 1], dt).value.value.totalDeltaTicks
                 == TotalAlong(frames, intervals)
  {
    if intervals != [] {
      var n := |intervals| - 1;
      TotalsTelescope(frames[..n + 1], intervals[..n], dt);
      ObservedRateAddsUp(frames[n], frames[n + 1], intervals[n]);
      QualityHasOneCause(frames[0], frames[n + 1], dt);
      DeltasFit(frames[0], frames[n + 1]);
    }
  }
}
