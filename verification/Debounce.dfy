/** `DebouncedHandler` (cmha/src/devices/mod.rs): reads that come too soon after an accepted one are skipped. */
module Debounce {
  import opened Wrappers
  import opened MessageCache
  import opened DeviceModel
  import CacheRuns
  import DeviceReadings

  /** Times and durations in the same unit. */
  class DebouncedHandler {
    const duration: int
    var lastPool: int

    constructor (duration: int, minUtc: int)
      ensures this.duration == duration && lastPool == minUtc
    {
      this.duration := duration;
      lastPool := minUtc;
    }

    /** An accepted read moves the window even when the inner read fails. */
    method GetEntityData(now: int, inner: Reading) returns (r: Reading)
      modifies this
      ensures var accepted := now > old(lastPool) + duration;
              && r == (if accepted then inner else Ok(map[]))
              && lastPool == (if accepted then now else old(lastPool))
    {
      var expires := lastPool + duration;
      if now > expires {
        lastPool := now;
        r := inner;
      } else {
        r := Ok(map[]);
      }
    }
  }

  /** The clock readings, of a sequence of calls, at which the inner handler is read. */
  function Accepted(lastPool: int, duration: int, clocks: seq<int>): seq<int>
    decreases clocks
  {
    if clocks == [] then []
    else if clocks[0] > lastPool + duration then [clocks[0]] + Accepted(clocks[0], duration, clocks[1..])
    else Accepted(lastPool, duration, clocks[1..])
  }

  type Reading = Result<Payloads, DeviceError>

  /** What the calls answer: the inner reading when it is taken, an empty one when it is skipped. */
  function Answers(lastPool: int, duration: int, clocks: seq<int>, inner: seq<Reading>): seq<Reading>
    requires |inner| == |clocks|
    decreases clocks
  {
    if clocks == [] then []
    else if clocks[0] > lastPool + duration then [inner[0]] + Answers(clocks[0], duration, clocks[1..], inner[1..])
    else [Ok(map[])] + Answers(lastPool, duration, clocks[1..], inner[1..])
  }

  /** The handler over a whole run of calls: it reads the inner handler at exactly the accepted times. */
  method Follow(duration: int, minUtc: int, clocks: seq<int>, inner: seq<Reading>)
    returns (answers: seq<Reading>, times: seq<int>)
    requires |inner| == |clocks|
    ensures times == Accepted(minUtc, duration, clocks)
    ensures answers == Answers(minUtc, duration, clocks, inner)
  {
    var handler := new DebouncedHandler(duration, minUtc);
    answers, times := [], [];
    for i := 0 to |clocks|
      invariant fresh(handler) && handler.duration == duration
      invariant Accepted(minUtc, duration, clocks) == times + Accepted(handler.lastPool, duration, clocks[i..])
      invariant Answers(minUtc, duration, clocks, inner) ==
                answers + Answers(handler.lastPool, duration, clocks[i..], inner[i..])
    {
      assert clocks[i..][1..] == clocks[i + 1..] && inner[i..][1..] == inner[i + 1..];
      var before := handler.lastPool;
      var r := handler.GetEntityData(clocks[i], inner[i]);
      if clocks[i] > before + duration {
        times := times + [clocks[i]];
      }
      answers := answers + [r];
    }
  }

  predicate Spaced(times: seq<int>, duration: int) {
    forall i :: 0 < i < |times| ==> times[i] > times[i - 1] + duration
  }

  lemma {:induction false} AcceptedAreSpaced(lastPool: int, duration: int, clocks: seq<int>)
    ensures var times := Accepted(lastPool, duration, clocks);
            Spaced(times, duration) && (times != [] ==> times[0] > lastPool + duration)
    decreases clocks
  {
    if clocks == [] {
    } else {
      if clocks[0] > lastPool + duration {
        AcceptedAreSpaced(clocks[0], duration, clocks[1..]);
      } else {
        AcceptedAreSpaced(lastPool, duration, clocks[1..]);
      }
    }
  }

  lemma {:induction false} SpacedAtAnyDistance(times: seq<int>, duration: int, i: nat, j: nat)
    requires Spaced(times, duration) && i < j < |times|
    ensures times[j] > times[i] + (j - i) * duration
    decreases j
  {
    if j == i + 1 {
    } else {
      SpacedAtAnyDistance(times, duration, i, j - 1);
      assert (j - i) * duration == (j - 1 - i) * duration + duration;
    }
  }

  /** The accepted reads of any sequence of calls, with the clock going forth and back: the k-th after the first comes
      more than k durations after it. */
  lemma AcceptedReadsAreApart(lastPool: int, duration: int, clocks: seq<int>, k: nat)
    requires 0 < k < |Accepted(lastPool, duration, clocks)|
    ensures var times := Accepted(lastPool, duration, clocks); times[k] > times[0] + k * duration
  {
    AcceptedAreSpaced(lastPool, duration, clocks);
    SpacedAtAnyDistance(Accepted(lastPool, duration, clocks), duration, 0, k);
  }

  function CountWithin(times: seq<int>, from: int, length: int): nat {
    if times == [] then 0
    else
      var n := |times| - 1;
      CountWithin(times[..n], from, length) + if from <= times[n] <= from + length then 1 else 0
  }

  lemma AtLeastOne(k: int, duration: int)
    requires k >= 1 && duration > 0
    ensures k * duration >= duration
  {
  }

  lemma {:induction false} CountOfSpaced(times: seq<int>, duration: int, from: int, length: nat, whole: nat)
    requires Spaced(times, duration) && length < whole * duration + duration
    ensures CountWithin(times, from, length) <= whole + 1
  {
    if times == [] {
    } else {
      var n := |times| - 1;
      var before := times[..n];
      assert Spaced(before, duration);
      if from <= times[n] <= from + length {
        forall i | 0 <= i < n
          ensures before[i] < from + length - duration
        {
          SpacedAtAnyDistance(times, duration, i, n);
          AtLeastOne(n - i, duration);
        }
        if length < duration {
          NoneWithin(before, from, length);
        } else {
          assert whole > 0;
          assert whole * duration == (whole - 1) * duration + duration;
          CountOfSpaced(before, duration, from, length - duration, whole - 1);
          SameCount(before, from, length, length - duration);
        }
      } else {
        CountOfSpaced(before, duration, from, length, whole);
      }
    }
  }

  lemma {:induction false} NoneWithin(times: seq<int>, from: int, length: int)
    requires forall i :: 0 <= i < |times| ==> !(from <= times[i] <= from + length)
    ensures CountWithin(times, from, length) == 0
  {
    if times == [] {
    } else {
      NoneWithin(times[..|times| - 1], from, length);
    }
  }

  lemma {:induction false} SameCount(times: seq<int>, from: int, length: int, shorter: int)
    requires shorter <= length && forall i :: 0 <= i < |times| ==> times[i] <= from + shorter
    ensures CountWithin(times, from, length) == CountWithin(times, from, shorter)
  {
    if times == [] {
    } else {
      SameCount(times[..|times| - 1], from, length, shorter);
    }
  }

  /** So any window of a given length holds at most one inner read more than the durations that fit in it. */
  lemma WindowBound(lastPool: int, duration: int, clocks: seq<int>, from: int, length: nat)
    requires duration > 0
    ensures CountWithin(Accepted(lastPool, duration, clocks), from, length) <= length / duration + 1
  {
    AcceptedAreSpaced(lastPool, duration, clocks);
    assert length == length / duration * duration + length % duration;
    CountOfSpaced(Accepted(lastPool, duration, clocks), duration, from, length, length / duration);
  }

  lemma {:induction false} MapsOfBoth(a: seq<DeviceReadings.Reading>, b: seq<DeviceReadings.Reading>)
    ensures DeviceReadings.OkMaps(a + b) == DeviceReadings.OkMaps(a) + DeviceReadings.OkMaps(b)
  {
    if b == [] {
      assert a + b == a;
    } else {
      var n := |b| - 1;
      MapsOfBoth(a, b[..n]);
      assert (a + b)[..|a + b| - 1] == a + b[..n] && (a + b)[|a + b| - 1] == b[n];
    }
  }

  lemma {:induction false} ReplayOfBoth(a: seq<Payloads>, b: seq<Payloads>)
    ensures CacheRuns.Replay(a + b) == CacheRuns.Replay(a) + CacheRuns.Replay(b)
  {
    if b == [] {
      assert a + b == a;
    } else {
      var n := |b| - 1;
      ReplayOfBoth(a, b[..n]);
      assert b == b[..n] + [b[n]] && a + b == (a + b[..n]) + [b[n]];
      DeviceReadings.ReplaySnoc(a + b[..n], b[n]);
      DeviceReadings.ReplaySnoc(b[..n], b[n]);
      CacheRuns.UnionAssociates(CacheRuns.Replay(a), CacheRuns.Replay(b[..n]), b[n]);
    }
  }

  lemma MergedOfBoth(a: seq<DeviceReadings.Reading>, b: seq<DeviceReadings.Reading>)
    ensures DeviceReadings.Merged(a + b) == DeviceReadings.Merged(a) + DeviceReadings.Merged(b)
  {
    MapsOfBoth(a, b);
    ReplayOfBoth(DeviceReadings.OkMaps(a), DeviceReadings.OkMaps(b));
  }

  /** A handler that skips its read adds an empty map, and so nothing, to what its device reads; nor does a device all
      of whose handlers skip add anything to what a pass merges. */
  lemma SkippedHandlerAddsNothing(a: seq<DeviceReadings.Reading>, b: seq<DeviceReadings.Reading>)
    ensures DeviceReadings.Merged(a + [Ok(map[])] + b) == DeviceReadings.Merged(a + b)
  {
    var skipped: DeviceReadings.Reading := Ok(map[]);
    MergedOfBoth(a + [skipped], b);
    MergedOfBoth(a, [skipped]);
    MergedOfBoth(a, b);
    SkippedAlone();
    assert DeviceReadings.Merged(a) + map[] == DeviceReadings.Merged(a);
  }

  lemma SkippedAlone()
    ensures DeviceReadings.Merged([Ok(map[])]) == map[]
  {
    var alone: seq<DeviceReadings.Reading> := [Ok(map[])];
    DeviceReadings.NextResult(alone, 0);
    assert alone[..1] == alone && alone[..0] == [];
    assert DeviceReadings.Merged([]) == map[];
  }

  /** A skipped read that is all a pass reads reaches the publisher as an empty map, and makes no difference to what
      subscribers hold, then or later. */
  lemma {:induction false} SkippedReadIsInvisible(cache: Payloads, before: seq<CacheRuns.Step>,
                                                  after: seq<CacheRuns.Step>)
    ensures CacheRuns.Replay(CacheRuns.Emissions(cache, before + [CacheRuns.Pass(map[], {}, {})] + after)) ==
            CacheRuns.Replay(CacheRuns.Emissions(cache, before + after))
    decreases before
  {
    var skipped := CacheRuns.Pass(map[], {}, {});
    if before == [] {
      assert ([] + [skipped] + after)[1..] == after && [] + after == after;
      assert CacheRuns.CacheAfter(cache, skipped) == cache && CacheRuns.Emitted(cache, skipped) == map[];
      assert CacheRuns.Emissions(cache, [skipped] + after) == [map[]] + CacheRuns.Emissions(cache, after);
      var rest := CacheRuns.Replay(CacheRuns.Emissions(cache, after));
      assert map[] + rest == rest;
    } else {
      SkippedReadIsInvisible(CacheRuns.CacheAfter(cache, before[0]), before[1..], after);
      assert (before + [skipped] + after)[1..] == before[1..] + [skipped] + after;
      assert (before + after)[1..] == before[1..] + after;
    }
  }
}
