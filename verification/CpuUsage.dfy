/** `ContainerStats::get_cpu` and its caller (cmha/src/container_device.rs). Percentages are exact rationals. */
module CpuUsage {
  import opened Wrappers

  /** `totalUsage` is missing when the whole `cpu_usage` is. */
  datatype CpuStats = CpuStats(totalUsage: Option<nat>, systemUsage: Option<nat>, onlineCpus: Option<nat>)

  datatype Error = NoStats

  predicate Complete(s: CpuStats) {
    s.totalUsage.Some? && s.systemUsage.Some? && s.onlineCpus.Some?
  }

  function SaturatingSub(a: nat, b: nat): nat {
    if a >= b then a - b else 0
  }

  function Percentage(cpuDelta: nat, systemDelta: nat, cpus: nat): real
    requires systemDelta > 0
  {
    100.0 * cpuDelta as real / systemDelta as real * cpus as real
  }

  /** The usage between two samples, the later of which needs its CPU count too. */
  function Usage(last: CpuStats, now: CpuStats): Result<Option<real>, Error> {
    if Complete(now) && last.totalUsage.Some? && last.systemUsage.Some? then
      var cpuDelta := SaturatingSub(now.totalUsage.value, last.totalUsage.value);
      var systemDelta := SaturatingSub(now.systemUsage.value, last.systemUsage.value);
      if systemDelta == 0 || cpuDelta == 0 then Ok(Some(0.0))
      else Ok(Some(Percentage(cpuDelta, systemDelta, now.onlineCpus.value)))
    else Err(NoStats)
  }

  /** One reading of a container: not running, or running with the stats that came, if any. */
  datatype Reading = NotRunning | Running(stats: Option<CpuStats>)

  class ContainerStats {
    var lastCpuStats: Option<CpuStats>

    constructor ()
      ensures lastCpuStats == None
    {
      lastCpuStats := None;
    }

    method GetCpu(stats: Option<CpuStats>) returns (r: Result<Option<real>, Error>)
      modifies this
      ensures (lastCpuStats, r) == Step(old(lastCpuStats), Running(stats))
    {
      match stats {
        case None =>
          return Err(NoStats);
        case Some(cpuStats) =>
          var last := lastCpuStats;
          lastCpuStats := Some(cpuStats);
          match last {
            case None =>
              return Ok(None);
            case Some(l) =>
              if
                && cpuStats.totalUsage.Some? && cpuStats.systemUsage.Some? && cpuStats.onlineCpus.Some?
                && l.totalUsage.Some? && l.systemUsage.Some?
              {
                var cpuDelta := SaturatingSub(cpuStats.totalUsage.value, l.totalUsage.value);
                var systemCpuDelta := SaturatingSub(cpuStats.systemUsage.value, l.systemUsage.value);
                if systemCpuDelta == 0 || cpuDelta == 0 {
                  return Ok(Some(0.0));
                }
                return Ok(Some(Percentage(cpuDelta, systemCpuDelta, cpuStats.onlineCpus.value)));
              } else {
                return Err(NoStats);
              }
          }
      }
    }

    /** The part of `get_entity_data` that concerns the CPU: a container that is not running forgets its last sample. */
    method GetEntityData(reading: Reading) returns (r: Result<Option<real>, Error>)
      modifies this
      ensures (lastCpuStats, r) == Step(old(lastCpuStats), reading)
    {
      match reading {
        case NotRunning =>
          lastCpuStats := None;
          return Ok(None);
        case Running(stats) =>
          r := GetCpu(stats);
      }
    }
  }

  function Step(last: Option<CpuStats>, reading: Reading): (Option<CpuStats>, Result<Option<real>, Error>) {
    match reading
    case NotRunning => (None, Ok(None))
    case Running(None) => (last, Err(NoStats))
    case Running(Some(now)) => (Some(now), if last.None? then Ok(None) else Usage(last.value, now))
  }

  function Values(last: Option<CpuStats>, readings: seq<Reading>): seq<Result<Option<real>, Error>>
    decreases readings
  {
    if readings == [] then []
    else [Step(last, readings[0]).1] + Values(Step(last, readings[0]).0, readings[1..])
  }

  /** The last sample before reading `i`, unless the container stopped since. */
  function LastSample(last: Option<CpuStats>, readings: seq<Reading>, i: nat): Option<CpuStats>
    requires i <= |readings|
  {
    if i == 0 then last
    else
      match readings[i - 1]
      case NotRunning => None
      case Running(Some(s)) => Some(s)
      case Running(None) => LastSample(last, readings, i - 1)
  }

  /** Each value depends on the last two samples alone, even when one of them was refused; the first after a stop is
      empty. */
  lemma {:induction false} ValueOfTwoSamples(last: Option<CpuStats>, readings: seq<Reading>, i: nat)
    requires i < |readings|
    ensures |Values(last, readings)| == |readings|
    ensures Values(last, readings)[i] ==
            match readings[i]
            case NotRunning => Ok(None)
            case Running(None) => Err(NoStats)
            case Running(Some(now)) =>
              var before := LastSample(last, readings, i);
              if before.None? then Ok(None) else Usage(before.value, now)
    decreases readings
  {
    if |readings| == 1 {
      assert Values(last, readings)[1..] == Values(Step(last, readings[0]).0, []);
    } else {
      var next := Step(last, readings[0]).0;
      ValueOfTwoSamples(next, readings[1..], if i > 0 then i - 1 else 0);
      if i > 0 {
        SampleShift(last, readings, i);
      }
    }
  }

  lemma {:induction false} SampleShift(last: Option<CpuStats>, readings: seq<Reading>, i: nat)
    requires 0 < i <= |readings|
    ensures LastSample(Step(last, readings[0]).0, readings[1..], i - 1) == LastSample(last, readings, i)
    decreases i
  {
    if i == 1 {
    } else {
      SampleShift(last, readings, i - 1);
    }
  }

  // ----- Telescoping -----

  /** A complete sample, without the CPU count. */
  datatype Sample = Sample(total: nat, system: nat)

  function Stats(s: Sample, cpus: nat): CpuStats {
    CpuStats(Some(s.total), Some(s.system), Some(cpus))
  }

  /** A stretch over which the system usage grows from each sample to the next. */
  predicate Stretch(samples: seq<Sample>) {
    samples != [] && forall i :: 0 < i < |samples| ==> samples[i - 1].system < samples[i].system
  }

  predicate NonDecreasing(samples: seq<Sample>) {
    forall i :: 0 < i < |samples| ==> samples[i - 1].total <= samples[i].total
  }

  /** The CPU time used so far, in percent of one CPU. */
  function UsedPercent(s: Sample, cpus: nat): real {
    100.0 * cpus as real * s.total as real
  }

  /** The value reported for the second sample, weighted by the system time since the first. */
  function Weighted(a: Sample, b: Sample, cpus: nat): real {
    match Usage(Stats(a, cpus), Stats(b, cpus))
    case Ok(Some(value)) => value * (b.system - a.system) as real
    case _ => 0.0
  }

  /** The weighted value is the growth of the CPU time used, or nothing when the total went back. */
  lemma WeightedIsGrowth(a: Sample, b: Sample, cpus: nat)
    requires a.system < b.system && cpus > 0
    ensures a.total <= b.total ==> Weighted(a, b, cpus) == UsedPercent(b, cpus) - UsedPercent(a, cpus)
    ensures b.total < a.total ==> Weighted(a, b, cpus) == 0.0 && UsedPercent(b, cpus) < UsedPercent(a, cpus)
  {
    var k := 100.0 * cpus as real;
    if a.total < b.total {
      var d := b.total - a.total;
      assert Weighted(a, b, cpus) == Percentage(d, b.system - a.system, cpus) * (b.system - a.system) as real;
      Cancel(d as real, (b.system - a.system) as real, cpus as real);
      Distribute(k, a.total as real, d as real);
    } else if b.total < a.total {
      var d := a.total - b.total;
      assert k * d as real > 0.0;
      Distribute(k, b.total as real, d as real);
    }
  }

  lemma Cancel(d: real, s: real, c: real)
    requires s != 0.0
    ensures 100.0 * d / s * c * s == 100.0 * c * d
  {
    var q := 100.0 * d / s;
    assert q * s == 100.0 * d;
    assert q * c * s == q * s * c;
  }

  lemma Distribute(k: real, a: real, b: real)
    ensures k * (a + b) == k * a + k * b
  {
  }

  /** The sum of what each pair of neighbours weighs. */
  function Sum(terms: seq<real>): real {
    if terms == [] then 0.0 else Sum(terms[..|terms| - 1]) + terms[|terms| - 1]
  }

  function WeightedValues(samples: seq<Sample>, cpus: nat): seq<real>
    requires samples != []
  {
    seq(|samples| - 1, i requires 0 <= i < |samples| - 1 => Weighted(samples[i], samples[i + 1], cpus))
  }

  /** Terms that follow the growth of a sequence of points, and stay at nothing when it goes back. */
  ghost predicate Follows(terms: seq<real>, points: seq<real>) {
    && |points| == |terms| + 1
    && forall i :: 0 <= i < |terms| ==>
         if points[i] <= points[i + 1] then terms[i] == points[i + 1] - points[i] else terms[i] == 0.0
  }

  lemma {:induction false} GrowthTelescopesIff(terms: seq<real>, points: seq<real>)
    requires Follows(terms, points)
    ensures Sum(terms) >= points[|terms|] - points[0]
    ensures Sum(terms) == points[|terms|] - points[0] <==> Growing(points)
  {
    if terms == [] {
    } else {
      var n := |terms| - 1;
      var before := points[..n + 1];
      GrowthTelescopesIff(terms[..n], before);
      assert Growing(points) <==> Growing(before) && points[n] <= points[n + 1];
    }
  }

  lemma OnePair(a: Sample, b: Sample, cpus: nat)
    requires a.system < b.system && cpus > 0
    ensures UsedPercent(a, cpus) <= UsedPercent(b, cpus) <==> a.total <= b.total
    ensures if UsedPercent(a, cpus) <= UsedPercent(b, cpus)
            then Weighted(a, b, cpus) == UsedPercent(b, cpus) - UsedPercent(a, cpus)
            else Weighted(a, b, cpus) == 0.0
  {
    WeightedIsGrowth(a, b, cpus);
    if a.total <= b.total {
      Monotone(100.0 * cpus as real, a.total as real, b.total as real);
    }
  }

  lemma Monotone(k: real, a: real, b: real)
    requires k > 0.0 && a <= b
    ensures k * a <= k * b
  {
  }

  function UsedPercents(samples: seq<Sample>, cpus: nat): (points: seq<real>)
    ensures |points| == |samples|
  {
    seq(|samples|, i requires 0 <= i < |samples| => UsedPercent(samples[i], cpus))
  }

  ghost predicate Growing(points: seq<real>) {
    forall i :: 0 <= i < |points| - 1 ==> points[i] <= points[i + 1]
  }

  lemma ValuesFollow(samples: seq<Sample>, cpus: nat)
    requires Stretch(samples) && cpus > 0
    ensures Follows(WeightedValues(samples, cpus), UsedPercents(samples, cpus))
    ensures Growing(UsedPercents(samples, cpus)) <==> NonDecreasing(samples)
  {
    var terms, points := WeightedValues(samples, cpus), UsedPercents(samples, cpus);
    forall i | 0 <= i < |terms|
      ensures if points[i] <= points[i + 1] then terms[i] == points[i + 1] - points[i] else terms[i] == 0.0
      ensures points[i] <= points[i + 1] <==> samples[i].total <= samples[i + 1].total
    {
      OnePair(samples[i], samples[i + 1], cpus);
    }
    if Growing(points) {
      forall i | 0 < i < |samples|
        ensures samples[i - 1].total <= samples[i].total
      {
        assert points[i - 1] <= points[i - 1 + 1];
      }
    }
  }

  /** Over a running stretch with complete samples, growing system usage and a fixed number of CPUs, the weighted values
      add up to the CPU time used between the first sample and the last if and only if the total usage never goes back;
      otherwise they overstate it. */
  lemma PercentagesTelescopeIff(samples: seq<Sample>, cpus: nat)
    requires Stretch(samples) && cpus > 0
    ensures var used := UsedPercents(samples, cpus)[|samples| - 1] - UsedPercents(samples, cpus)[0];
            && Sum(WeightedValues(samples, cpus)) >= used
            && (Sum(WeightedValues(samples, cpus)) == used <==> NonDecreasing(samples))
  {
    ValuesFollow(samples, cpus);
    GrowthTelescopesIff(WeightedValues(samples, cpus), UsedPercents(samples, cpus));
  }

  /** Two samples give a value exactly when they are complete, the first without its CPU count; it is zero when the
      system usage or the total has not grown. */
  lemma UsageIs(last: CpuStats, now: CpuStats)
    ensures Usage(last, now).Err? <==>
              now.totalUsage.None? || now.systemUsage.None? || now.onlineCpus.None? ||
              last.totalUsage.None? || last.systemUsage.None?
    ensures Usage(last, now).Err? ==> Usage(last, now) == Err(NoStats)
    ensures Usage(last, now).Ok? ==>
              (now.systemUsage.value <= last.systemUsage.value || now.totalUsage.value <= last.totalUsage.value ==>
                 Usage(last, now) == Ok(Some(0.0)))
  {
  }
}
