/** Whole runs of the change-suppressing publisher against the publisher it stands for, the one that
    publishes every reading (cmha/src/update_engine.rs). */
module CacheRuns {
  import opened Wrappers
  import opened Topics
  import opened MessageCache

  /** A finished pass, a purge between passes, or a new session, which starts with an empty cache.
      `early` and `late` are the topics purged while the pass ran, as in `FilterData`. */
  datatype Step =
    | Pass(data: Payloads, early: set<string>, late: set<string>)
    | Purge(dropped: set<string>)
    | NewSession

  function CacheAfter(cache: Payloads, step: Step): Payloads {
    match step
    case Pass(data, _, late) => (cache + data) - late
    case Purge(dropped) => cache - dropped
    case NewSession => map[]
  }

  function Emitted(cache: Payloads, step: Step): Payloads {
    if step.Pass? then Fresh(cache - step.early, step.data) else map[]
  }

  function Read(step: Step): Payloads {
    if step.Pass? then step.data else map[]
  }

  function CacheAfterAll(cache: Payloads, steps: seq<Step>): Payloads
    decreases steps
  {
    if steps == [] then cache else CacheAfterAll(CacheAfter(cache, steps[0]), steps[1..])
  }

  function Emissions(cache: Payloads, steps: seq<Step>): seq<Payloads>
    decreases steps
  {
    if steps == [] then [] else [Emitted(cache, steps[0])] + Emissions(CacheAfter(cache, steps[0]), steps[1..])
  }

  function Readings(steps: seq<Step>): seq<Payloads> {
    if steps == [] then [] else [Read(steps[0])] + Readings(steps[1..])
  }

  /** What a subscriber holds after these maps were published in order. */
  function Replay(batches: seq<Payloads>): Payloads {
    if batches == [] then map[] else batches[0] + Replay(batches[1..])
  }

  predicate Agrees(cache: Payloads, view: Payloads) {
    forall t :: t in cache ==> t in view && view[t] == cache[t]
  }

  // ----- Publishing the changes is publishing everything -----

  lemma UnionAssociates(a: Payloads, b: Payloads, c: Payloads)
    ensures (a + b) + c == a + (b + c)
  {
  }

  lemma StepRefines(cache: Payloads, view: Payloads, step: Step)
    requires Agrees(cache, view)
    ensures view + Emitted(cache, step) == view + Read(step)
    ensures Agrees(CacheAfter(cache, step), view + Emitted(cache, step))
  {
  }

  lemma {:induction false} RunRefines(cache: Payloads, view: Payloads, steps: seq<Step>)
    requires Agrees(cache, view)
    ensures view + Replay(Emissions(cache, steps)) == view + Replay(Readings(steps))
    ensures Agrees(CacheAfterAll(cache, steps), view + Replay(Emissions(cache, steps)))
    decreases steps
  {
    if steps == [] {
      assert view + map[] == view;
    } else {
      var e, r := Emitted(cache, steps[0]), Read(steps[0]);
      var es, rs := Emissions(CacheAfter(cache, steps[0]), steps[1..]), Readings(steps[1..]);
      StepRefines(cache, view, steps[0]);
      RunRefines(CacheAfter(cache, steps[0]), view + e, steps[1..]);
      assert Emissions(cache, steps)[1..] == es && Readings(steps)[1..] == rs;
      UnionAssociates(view, e, Replay(es));
      UnionAssociates(view, r, Replay(rs));
    }
  }

  /** In the middle of a pass too: the cache agrees with what was emitted and what the pass has gathered so far. */
  lemma PassInProgressAgrees(cache: Payloads, view: Payloads, data: Payloads, done: set<string>,
                             early: set<string>, late: set<string>, out: Payloads, now: Payloads)
    requires Agrees(cache, view) && PassAt(cache, data, done, early, late, out, now)
    ensures Agrees(now, view + out)
  {
  }

  /** Main result. From an empty cache, whatever subscribers held before, after any run of passes, purges
      (between passes or in their midst) and new sessions they hold what publishing every reading would
      have left them, and the cache agrees with them on every topic it records. */
  lemma {:induction false} CacheRefinesPublishEverything(view: Payloads, steps: seq<Step>)
    ensures view + Replay(Emissions(map[], steps)) == view + Replay(Readings(steps))
    ensures Agrees(CacheAfterAll(map[], steps), view + Replay(Emissions(map[], steps)))
  {
    RunRefines(map[], view, steps);
  }

  /** In particular the topics published since a session began are exactly those read since. */
  lemma {:induction false} FreshSessionPublishesAll(steps: seq<Step>)
    ensures Replay(Emissions(map[], steps)) == Replay(Readings(steps))
  {
    RunRefines(map[], map[], steps);
    assert forall m: Payloads :: map[] + m == m;
  }

  /** A run with one more step. */
  lemma {:induction false} OneMoreStep(cache: Payloads, steps: seq<Step>, step: Step)
    ensures CacheAfterAll(cache, steps + [step]) == CacheAfter(CacheAfterAll(cache, steps), step)
    ensures Emissions(cache, steps + [step]) == Emissions(cache, steps) + [Emitted(CacheAfterAll(cache, steps), step)]
    decreases steps
  {
    if steps == [] {
      assert [step][1..] == [];
    } else {
      OneMoreStep(CacheAfter(cache, steps[0]), steps[1..], step);
      assert (steps + [step])[1..] == steps[1..] + [step];
    }
  }

  lemma {:induction false} EmissionAt(cache: Payloads, steps: seq<Step>, i: nat)
    requires i < |steps|
    ensures i < |Emissions(cache, steps)|
    ensures Emissions(cache, steps)[i] == Emitted(CacheAfterAll(cache, steps[..i]), steps[i])
    decreases steps
  {
    if i == 0 {
    } else {
      EmissionAt(CacheAfter(cache, steps[0]), steps[1..], i - 1);
      assert steps[..i][1..] == steps[1..][..i - 1];
    }
  }

  /** A purge just before a pass comes to the same as one at its beginning. */
  lemma PurgeJoinsPass(cache: Payloads, dropped: set<string>, data: Payloads, early: set<string>, late: set<string>)
    ensures var joined := Pass(data, early + dropped, late + (dropped - data.Keys));
            && CacheAfter(cache, joined) == CacheAfter(cache - dropped, Pass(data, early, late))
            && Emitted(cache, joined) == Emitted(cache - dropped, Pass(data, early, late))
  {
  }

  // ----- Minimal traffic -----

  /** The payloads of one topic in a list of batches, in order. */
  function PayloadsOf(batches: seq<Payloads>, t: string): seq<string> {
    if batches == [] then []
    else (if t in batches[0] then [batches[0][t]] else []) + PayloadsOf(batches[1..], t)
  }

  /** The payloads that differ from the one before them. */
  function Changes(last: Option<string>, payloads: seq<string>): seq<string>
    decreases payloads
  {
    if payloads == [] then []
    else (if last == Some(payloads[0]) then [] else [payloads[0]]) + Changes(Some(payloads[0]), payloads[1..])
  }

  predicate Forgets(step: Step, t: string) {
    match step
    case Pass(_, early, late) => t in early || t in late
    case Purge(dropped) => t in dropped
    case NewSession => true
  }

  predicate Undisturbed(steps: seq<Step>, t: string) {
    forall s :: s in steps ==> !Forgets(s, t)
  }

  /** While nothing purges a topic, what is published on it is exactly the changes of what is read on it. */
  lemma {:induction false} TrafficIsTheChanges(cache: Payloads, steps: seq<Step>, t: string)
    requires Undisturbed(steps, t)
    ensures PayloadsOf(Emissions(cache, steps), t) ==
            Changes(if t in cache then Some(cache[t]) else None, PayloadsOf(Readings(steps), t))
    decreases steps
  {
    if steps == [] {
    } else {
      var s := steps[0];
      var next := CacheAfter(cache, s);
      assert s in steps;
      TrafficIsTheChanges(next, steps[1..], t);
      assert Emissions(cache, steps)[1..] == Emissions(next, steps[1..]);
      assert Readings(steps)[1..] == Readings(steps[1..]);
      var ps := PayloadsOf(Readings(steps), t);
      if s.Pass? && t in s.data {
        assert ps[0] == s.data[t] && ps[1..] == PayloadsOf(Readings(steps[1..]), t);
        assert t in next && next[t] == s.data[t];
      } else {
        assert ps == PayloadsOf(Readings(steps[1..]), t);
        assert PayloadsOf(Emissions(cache, steps), t) == PayloadsOf(Emissions(next, steps[1..]), t);
        assert t in next <==> t in cache;
      }
    }
  }

  lemma {:induction false} ChangesNeverRepeat(last: Option<string>, payloads: seq<string>)
    ensures var c := Changes(last, payloads);
            (c != [] ==> last != Some(c[0])) && forall i :: 0 < i < |c| ==> c[i - 1] != c[i]
    decreases payloads
  {
    if payloads == [] {
    } else {
      ChangesNeverRepeat(Some(payloads[0]), payloads[1..]);
    }
  }

  /** So no payload is published twice in succession on a topic. */
  lemma NoRepeatedPublish(cache: Payloads, steps: seq<Step>, t: string)
    requires Undisturbed(steps, t)
    ensures var p := PayloadsOf(Emissions(cache, steps), t); forall i :: 0 < i < |p| ==> p[i - 1] != p[i]
  {
    TrafficIsTheChanges(cache, steps, t);
    ChangesNeverRepeat(if t in cache then Some(cache[t]) else None, PayloadsOf(Readings(steps), t));
  }

  // ----- What a removal does to the next pass -----

  /** After the purge for a removed device every reading of its entities is published whatever was recorded,
      and the readings of devices with other identifiers are filtered as if nothing had been removed. */
  lemma RemovalRepublishesItsDeviceOnly(cache: Payloads, data: Payloads, removed: set<EntityDetails>,
                                        f: EntityDetails, item: Option<string>, kind: Kind)
    requires TopicFor(f, item, kind) in data
    ensures f in removed ==> TopicFor(f, item, kind) in Fresh(Retained(cache, PathsOf(removed)), data)
    ensures
      (forall e :: e in removed ==> LevelName(e.deviceIdentifier) && LevelName(e.id)) &&
      LevelName(f.deviceIdentifier) &&
      (forall e :: e in removed ==> e.deviceIdentifier != f.deviceIdentifier)
      ==> (TopicFor(f, item, kind) in Fresh(Retained(cache, PathsOf(removed)), data) <==>
           TopicFor(f, item, kind) in Fresh(cache, data))
  {
    PurgeIsPrecise(removed, f, item, kind);
  }

  /** A pass already under way when the purge comes is another matter. Whatever was purged before it handles an entry
      (`early`), it records the topic again, and the next pass publishes the same reading if and only if a purge met the
      topic afterwards. `RemovalRuns` has what that means for a device that is removed and comes back. */
  lemma PassUnderWayRecordsAgain(cache: Payloads, data: Payloads, early: set<string>, late: set<string>,
                                 later: Payloads, t: string)
    requires t in data && t in later && later[t] == data[t]
    ensures var next := CacheAfter(cache, Pass(data, early, late));
            && (t in next <==> t !in late)
            && (t in Emitted(next, Pass(later, {}, {})) <==> t in late)
  {
  }

  /** A pass that reads again what the pass before it read publishes nothing if and only if no topic was purged since
      its entry was handled. */
  lemma RepeatedReadingIsSilentIff(cache: Payloads, data: Payloads, early: set<string>, late: set<string>,
                                   again: set<string>)
    ensures Emitted(CacheAfter(cache, Pass(data, early, late)), Pass(data, again, {})) == map[] <==>
            data.Keys !! late && data.Keys !! again
  {
    var batch := Emitted(CacheAfter(cache, Pass(data, early, late)), Pass(data, again, {}));
    assert forall t :: t in batch <==> t in data && (t in late || t in again);
    assert batch == map[] <==> forall t :: t !in batch;
  }

  // ----- When the guarantee breaks, exactly -----

  /** A publish that bypasses the cache (a command reply, or an initialisation during a session) keeps the cache in
      step exactly when it publishes, on every topic recorded, the payload recorded. */
  lemma BypassKeepsStepIff(cache: Payloads, view: Payloads, updates: Payloads)
    requires Agrees(cache, view)
    ensures Agrees(cache, view + updates) <==> forall t :: t in updates && t in cache ==> cache[t] == updates[t]
  {
    assert forall t :: t in updates ==> (view + updates)[t] == updates[t];
  }

  /** A pass published only in part keeps the cache in step exactly when subscribers already held what was lost. */
  lemma PartialDeliveryKeepsStepIff(cache: Payloads, view: Payloads, data: Payloads, delivered: set<string>)
    requires Agrees(cache, view)
    ensures Agrees(cache + data, view + Restricted(Fresh(cache, data), delivered)) <==>
            forall t :: t in Fresh(cache, data) && t !in delivered ==> t in view && view[t] == data[t]
  {
    var view' := view + Restricted(Fresh(cache, data), delivered);
    if Agrees(cache + data, view') {
      forall t | t in Fresh(cache, data) && t !in delivered
        ensures t in view && view[t] == data[t]
      {
        assert t in cache + data && t !in Restricted(Fresh(cache, data), delivered);
      }
    }
    if forall t :: t in Fresh(cache, data) && t !in delivered ==> t in view && view[t] == data[t] {
      forall t | t in cache + data
        ensures t in view' && view'[t] == (cache + data)[t]
      {
        assert t in data && t !in Fresh(cache, data) ==> t in cache && cache[t] == data[t];
      }
    }
  }

  predicate Holds(view: Payloads, t: string, p: string) {
    t in view && view[t] == p
  }

  /** Every reading of `t` is `p`. */
  predicate Steady(steps: seq<Step>, t: string, p: string) {
    forall s :: s in steps && s.Pass? && t in s.data ==> s.data[t] == p
  }

  /** Some pass reads `t` after the cache has forgotten it (`forgotten`: it already has). */
  predicate ReadAfterForgetting(forgotten: bool, steps: seq<Step>, t: string)
    decreases steps
  {
    steps != [] &&
    match steps[0]
    case Pass(data, early, late) =>
      if t in data then forgotten || t in early || ReadAfterForgetting(t in late, steps[1..], t)
      else ReadAfterForgetting(forgotten || t in late, steps[1..], t)
    case Purge(dropped) => ReadAfterForgetting(forgotten || t in dropped, steps[1..], t)
    case NewSession => ReadAfterForgetting(true, steps[1..], t)
  }

  lemma {:induction false} OnceHeldAlwaysHeld(cache: Payloads, view: Payloads, steps: seq<Step>, t: string, p: string)
    requires Steady(steps, t, p) && Holds(view, t, p)
    ensures Holds(view + Replay(Emissions(cache, steps)), t, p)
    decreases steps
  {
    if steps == [] {
    } else {
      var e, next := Emitted(cache, steps[0]), CacheAfter(cache, steps[0]);
      assert steps[0] in steps;
      OnceHeldAlwaysHeld(next, view + e, steps[1..], t, p);
      assert Emissions(cache, steps)[1..] == Emissions(next, steps[1..]);
      UnionAssociates(view, e, Replay(Emissions(next, steps[1..])));
    }
  }

  /** Once subscribers miss a recorded payload (its publish failed, or a bypass overwrote it), and while the reading
      stays the same, they get it back if and only if a pass reads the topic after the cache has forgotten it. */
  lemma {:induction false} StaleUntilForgotten(cache: Payloads, view: Payloads, forgotten: bool,
                                               steps: seq<Step>, t: string, p: string)
    requires if forgotten then t !in cache else Holds(cache, t, p)
    requires !Holds(view, t, p) && Steady(steps, t, p)
    ensures Holds(view + Replay(Emissions(cache, steps)), t, p) <==> ReadAfterForgetting(forgotten, steps, t)
    decreases steps
  {
    if steps == [] {
      assert view + map[] == view;
    } else {
      var e, next := Emitted(cache, steps[0]), CacheAfter(cache, steps[0]);
      assert steps[0] in steps;
      if t in e {
        OnceHeldAlwaysHeld(next, view + e, steps[1..], t, p);
      } else {
        StaleUntilForgotten(next, view + e, t !in next, steps[1..], t, p);
      }
      assert Emissions(cache, steps)[1..] == Emissions(next, steps[1..]);
      UnionAssociates(view, e, Replay(Emissions(next, steps[1..])));
    }
  }

  /** A command reply that reports another payload than the one recorded leaves subscribers with it for as long as
      the readings stay at the recorded one, until the cache forgets the topic and it is read again. */
  lemma BypassLeavesStale(cache: Payloads, view: Payloads, updates: Payloads, steps: seq<Step>, t: string)
    requires t in updates && t in cache && cache[t] != updates[t] && Steady(steps, t, cache[t])
    ensures Holds(view + updates + Replay(Emissions(cache, steps)), t, cache[t]) <==>
            ReadAfterForgetting(false, steps, t)
  {
    StaleUntilForgotten(cache, view + updates, false, steps, t, cache[t]);
  }
}
