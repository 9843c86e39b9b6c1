/** `get_events_from_devices` (cmha/src/update_engine.rs): one pass over all devices, merging the readings
    and keeping every error, with the accumulator handled by `swap_remove` and `insert`. */
module DeviceReadings {
  import opened Wrappers
  import opened MessageCache
  import CacheRuns
  import Orders

  type Reading = Result<Payloads, Error>

  // ----- Reference definitions -----

  function OkMaps(results: seq<Reading>): seq<Payloads> {
    if results == [] then []
    else
      var n := |results| - 1;
      OkMaps(results[..n]) + if results[n].Ok? then [results[n].value] else []
  }

  function Errors(results: seq<Reading>): seq<Reading> {
    if results == [] then []
    else
      var n := |results| - 1;
      Errors(results[..n]) + if results[n].Err? then [results[n]] else []
  }

  /** The readings of all devices, a later device winning on a topic that an earlier one also reads. */
  function Merged(results: seq<Reading>): Payloads {
    CacheRuns.Replay(OkMaps(results))
  }

  /** The last element brought to the front, as `swap_remove(0)` leaves what follows the first. */
  function Rotated(s: seq<Reading>): seq<Reading> {
    if s == [] then [] else [s[|s| - 1]] + s[..|s| - 1]
  }

  /** The errors in the order the accumulator holds them: a new error goes last, each map merged rotates them. */
  function ErrorsAsKept(results: seq<Reading>): seq<Reading> {
    if results == [] then []
    else
      var n := |results| - 1;
      var kept := ErrorsAsKept(results[..n]);
      if results[n].Err? then kept + [results[n]]
      else Rotated(kept)
  }

  lemma {:induction false} ReplaySnoc(ms: seq<Payloads>, m: Payloads)
    ensures CacheRuns.Replay(ms + [m]) == CacheRuns.Replay(ms) + m
  {
    if ms == [] {
      assert [m][1..] == [];
      assert map[] + m == m + map[];
    } else {
      ReplaySnoc(ms[1..], m);
      assert (ms + [m])[1..] == ms[1..] + [m];
      CacheRuns.UnionAssociates(ms[0], CacheRuns.Replay(ms[1..]), m);
    }
  }

  /** One more result extends both accumulations. */
  lemma NextResult(results: seq<Reading>, i: nat)
    requires i < |results|
    ensures Merged(results[..i + 1]) ==
            if results[i].Ok? then Merged(results[..i]) + results[i].value else Merged(results[..i])
    ensures ErrorsAsKept(results[..i + 1]) ==
            if results[i].Err? then ErrorsAsKept(results[..i]) + [results[i]] else Rotated(ErrorsAsKept(results[..i]))
  {
    assert results[..i + 1][..i] == results[..i];
    if results[i].Ok? {
      ReplaySnoc(OkMaps(results[..i]), results[i].value);
    } else {
      assert OkMaps(results[..i]) + [] == OkMaps(results[..i]);
    }
  }

  /** However the accumulator moves them, the errors kept are the errors that came in, each once. */
  lemma {:induction false} EveryErrorKeptOnce(results: seq<Reading>)
    ensures multiset(Rotated(ErrorsAsKept(results))) == multiset(ErrorsAsKept(results)) == multiset(Errors(results))
  {
    RotationPermutes(ErrorsAsKept(results));
    if results == [] {
    } else {
      var n := |results| - 1;
      EveryErrorKeptOnce(results[..n]);
      assert Errors(results[..n]) + [] == Errors(results[..n]);
    }
  }

  /** The errors that come out are those that came in. */
  lemma KeptErrors(results: seq<Reading>, e: Error)
    ensures Err(e) in Rotated(ErrorsAsKept(results)) <==> Err(e) in results
  {
    EveryErrorKeptOnce(results);
    assert Err(e) in multiset(Rotated(ErrorsAsKept(results))) <==> Err(e) in multiset(Errors(results));
    ErrorsAreThose(results, e);
  }

  lemma {:induction false} ErrorsAreThose(results: seq<Reading>, e: Error)
    ensures Err(e) in Errors(results) <==> Err(e) in results
  {
    if results == [] {
    } else {
      var n := |results| - 1;
      ErrorsAreThose(results[..n], e);
      assert results == results[..n] + [results[n]];
    }
  }

  lemma RotationPermutes(s: seq<Reading>)
    ensures multiset(Rotated(s)) == multiset(s)
  {
    if s != [] {
      assert s == s[..|s| - 1] + [s[|s| - 1]];
    }
  }

  // ----- Vec operations -----

  /** `Vec::swap_remove(0)`: takes the first element out and puts the last one in its place. */
  function SwapRemoveFirst<T>(s: seq<T>): (T, seq<T>)
    requires s != []
  {
    var n := |s| - 1;
    (s[0], if n == 0 then [] else [s[n]] + s[1..n])
  }

  /** The last element takes the place of the first, and the others keep theirs. */
  lemma SwapRemoveIs<T>(s: seq<T>)
    requires |s| > 1
    ensures var (first, rest) := SwapRemoveFirst(s);
            && first == s[0] && |rest| == |s| - 1 && rest[0] == s[|s| - 1]
            && forall i :: 0 < i < |rest| ==> rest[i] == s[i]
  {
  }

  lemma SwapRemoveRotates(head: Reading, tail: seq<Reading>)
    ensures SwapRemoveFirst([head] + tail) == (head, Rotated(tail))
  {
    if tail != [] {
      assert ([head] + tail)[1..|tail|] == tail[..|tail| - 1];
    }
  }

  // ----- The method -----

  /** The fold. The accumulator always has the merged map in front; the branches that the source marks as bugs
      are the ones closed by `assert false`, here and below. */
  method MergeResults(results: seq<Reading>) returns (acc: seq<Reading>)
    ensures acc == [Ok(Merged(results))] + ErrorsAsKept(results)
  {
    acc := [Ok(map[])];
    var i := 0;
    while i < |results|
      invariant 0 <= i <= |results|
      invariant acc == [Ok(Merged(results[..i]))] + ErrorsAsKept(results[..i])
    {
      NextResult(results, i);
      match results[i] {
        case Ok(events) =>
          if acc == [] {
            assert false;
          }
          SwapRemoveRotates(Ok(Merged(results[..i])), ErrorsAsKept(results[..i]));
          var (first, rest) := SwapRemoveFirst(acc);
          var eventsAcc: Payloads := map[];
          match first {
            case Ok(m) => eventsAcc := m;
            case Err(_) => assert false;
          }
          acc := [Ok(eventsAcc + events)] + rest;
        case Err(_) =>
          acc := acc + [results[i]];
      }
      i := i + 1;
    }
    assert results[..i] == results;
  }

  lemma NoEntries(cache: Payloads, schedule: Schedule)
    ensures Early(cache.Keys, schedule, []) == Late(cache.Keys, schedule, []) == {}
    ensures Fresh(cache - {}, map[]) == map[] && (cache + map[]) - {} == cache
  {
  }

  /** The errors come first, each exactly once, and the filtered readings last; the filter fails exactly when a wait
      for the lock is refused. */
  method GetEventsFromDevices(results: seq<Reading>, lastMessages: LastMessages, schedule: Schedule,
                              refused: set<string>)
    returns (out: seq<Reading>, ghost order: seq<string>)
    modifies lastMessages
    ensures results == [] ==> out == [Ok(map[])] && lastMessages.messages == old(lastMessages.messages)
    ensures out != []
    ensures out[..|out| - 1] == Rotated(ErrorsAsKept(results))
    ensures multiset(out[..|out| - 1]) == multiset(Errors(results))
    ensures var filtered, data := out[|out| - 1], Merged(results);
            var topics := old(lastMessages.messages).Keys + data.Keys;
            && (filtered.Ok? <==> data.Keys !! refused)
            && (filtered.Ok? ==>
                  && Orders.Lists(order, data.Keys)
                  && filtered.value == Fresh(old(lastMessages.messages) - Early(topics, schedule, order), data)
                  && lastMessages.messages == (old(lastMessages.messages) + data) - Late(topics, schedule, order))
            && (filtered.Err? ==>
                  && filtered.error == Cancellation
                  && CutShort(old(lastMessages.messages), data, schedule, refused, order, lastMessages.messages))
  {
    order := [];
    if results == [] {
      NoEntries(lastMessages.messages, schedule);
      return [Ok(map[])], order;
    }
    var acc := MergeResults(results);
    if acc == [] {
      assert false;
    }
    SwapRemoveRotates(Ok(Merged(results)), ErrorsAsKept(results));
    var (first, rest) := SwapRemoveFirst(acc);
    var events: Payloads := map[];
    match first {
      case Ok(m) => events := m;
      case Err(_) => assert false;
    }
    var filtered;
    filtered, order := lastMessages.FilterData(events, schedule, refused);
    EveryErrorKeptOnce(results);
    out := rest + [filtered];
  }

  /** `Devices::get_entities_data`, over the readings of the devices, and `Device::get_entities_data`, over those of its
      handlers: the first error decides; with none, the result is what a pass over the devices merges. */
  method GetEntitiesData(results: seq<Reading>) returns (r: Reading)
    ensures r.Ok? <==> forall i :: 0 <= i < |results| ==> results[i].Ok?
    ensures r.Ok? ==> r.value == Merged(results)
    ensures r.Err? ==> exists i :: 0 <= i < |results| && r == results[i] && forall j :: 0 <= j < i ==> results[j].Ok?
  {
    var entitiesData: Payloads := map[];
    for i := 0 to |results|
      invariant entitiesData == Merged(results[..i])
      invariant forall j :: 0 <= j < i ==> results[j].Ok?
    {
      NextResult(results, i);
      match results[i] {
        case Err(_) =>
          return results[i];
        case Ok(data) =>
          entitiesData := entitiesData + data;
      }
    }
    assert results[..|results|] == results;
    return Ok(entitiesData);
  }

  /** What a pass merges, topic by topic: one is there if and only if some device reads it, ... */
  lemma {:induction false} MergedIff(results: seq<Reading>, t: string)
    ensures t in Merged(results) <==> exists i :: 0 <= i < |results| && ReadsTopic(results[i], t)
  {
    if results == [] {
    } else {
      var n := |results| - 1;
      MergedIff(results[..n], t);
      NextResult(results, n);
      assert results[..n + 1] == results;
      if i :| 0 <= i < n && ReadsTopic(results[..n][i], t) {
        assert ReadsTopic(results[i], t);
      }
      if i :| 0 <= i < |results| && ReadsTopic(results[i], t) {
        assert i < n ==> ReadsTopic(results[..n][i], t);
      }
    }
  }

  /** ... with what the last device that reads it reads. */
  lemma {:induction false} LastReadingWins(results: seq<Reading>, i: nat, t: string)
    requires i < |results| && ReadsTopic(results[i], t)
    requires forall j :: i < j < |results| ==> !ReadsTopic(results[j], t)
    ensures t in Merged(results) && Merged(results)[t] == results[i].value[t]
  {
    var n := |results| - 1;
    NextResult(results, n);
    assert results[..n + 1] == results;
    if i == n {
    } else {
      assert forall j :: i < j < n ==> results[..n][j] == results[j];
      LastReadingWins(results[..n], i, t);
    }
  }

  predicate ReadsTopic(result: Reading, t: string) {
    result.Ok? && t in result.value
  }
}
