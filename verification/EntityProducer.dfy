/** The entity stream of one session (`create_entity_update_event_producer` in cmha/src/update_engine.rs), from the
    readings of the devices to the batches that the loop over it publishes (`publish_sensor_data_in_a_loop` in
    cmha/src/device_manager.rs). */
module EntityProducer {
  import opened Wrappers
  import opened Topics
  import opened MessageCache
  import opened DeviceReadings
  import CacheRuns
  import Orders

  /** One turn of the loop, as its surroundings decide it: the purges that discovery makes before it (`purges`) and
      during its pass (`schedule`), whether the wait for the tick is refused, what the devices answer, and the topics
      for which a wait for the lock would be refused. */
  datatype Turn = Turn(purges: seq<set<string>>, cancelled: bool, results: seq<Reading>,
                       schedule: Schedule, refused: set<string>)

  /** The pass brings the error of a cancellation: from a device, or from a wait for the lock. */
  predicate Breaks(turn: Turn) {
    Err(Cancellation) in turn.results || !(Merged(turn.results).Keys !! turn.refused)
  }

  predicate Ends(turn: Turn) {
    turn.cancelled || Breaks(turn)
  }

  /** What each pass reads from all devices. */
  function Readings(turns: seq<Turn>): seq<Payloads> {
    if turns == [] then [] else Readings(turns[..|turns| - 1]) + [Merged(turns[|turns| - 1].results)]
  }

  /** Finishing a pass from a cache that agrees with what was published keeps both what is claimed of a session. */
  lemma PassPublishes(cache: Payloads, published: seq<Payloads>, readings: seq<Payloads>,
                      data: Payloads, early: set<string>, late: set<string>)
    requires CacheRuns.Agrees(cache, CacheRuns.Replay(published))
    requires CacheRuns.Replay(published) == CacheRuns.Replay(readings)
    ensures var batch := Fresh(cache - early, data);
            && CacheRuns.Agrees((cache + data) - late, CacheRuns.Replay(published + [batch]))
            && CacheRuns.Replay(published + [batch]) == CacheRuns.Replay(readings + [data])
  {
    var step := CacheRuns.Pass(data, early, late);
    CacheRuns.StepRefines(cache, CacheRuns.Replay(published), step);
    ReplaySnoc(published, CacheRuns.Emitted(cache, step));
    ReplaySnoc(readings, data);
  }

  lemma CancellationShows(results: seq<Reading>, out: seq<Reading>)
    requires out != [] && out[..|out| - 1] == Rotated(ErrorsAsKept(results))
    ensures Err(Cancellation) in out <==> Err(Cancellation) in results || out[|out| - 1] == Err(Cancellation)
  {
    KeptErrors(results, Cancellation);
    assert out == out[..|out| - 1] + [out[|out| - 1]];
  }

  /** The pass of one turn: its filtered readings are published unless it brings the error of a cancellation; other
      errors are logged. What it publishes and records is what that pass of a run does, for the order in which the
      entries came. */
  method ProducePass(turn: Turn, lastMessages: LastMessages) returns (batch: Option<Payloads>, ghost order: seq<string>)
    modifies lastMessages
    ensures batch.None? <==> Breaks(turn)
    ensures batch.Some? ==>
              var pass := PassOf(old(lastMessages.messages), turn, order);
              && Orders.Lists(order, Merged(turn.results).Keys)
              && batch.value == CacheRuns.Emitted(old(lastMessages.messages), pass)
              && lastMessages.messages == CacheRuns.CacheAfter(old(lastMessages.messages), pass)
  {
    var out;
    out, order := GetEventsFromDevices(turn.results, lastMessages, turn.schedule, turn.refused);
    var filtered := out[|out| - 1];
    CancellationShows(turn.results, out);
    batch := if Err(Cancellation) in out then None else Some(filtered.value);
  }

  /** The step of a run that the pass of a turn comes to: the topics purged before and after their entry. */
  function PassOf(found: Payloads, turn: Turn, order: seq<string>): CacheRuns.Step {
    var data := Merged(turn.results);
    var topics := found.Keys + data.Keys;
    CacheRuns.Pass(data, Early(topics, turn.schedule, order), Late(topics, turn.schedule, order))
  }

  /** The step that a whole turn comes to: the purges before its pass count as early for every entry. */
  function StepOf(found: Payloads, turn: Turn, order: seq<string>): CacheRuns.Step {
    var data, before := Merged(turn.results), Together(turn.purges);
    var topics := found.Keys + data.Keys;
    var dropped := set t | t in topics && Purged(t, before);
    CacheRuns.Pass(data, Early(topics, turn.schedule, order) + dropped,
                   Late(topics, turn.schedule, order) + (dropped - data.Keys))
  }

  /** What a turn publishes, topic by topic: the readings that differ from what was recorded when the turn began, and
      those of the topics purged since, up to the wait for their entry. */
  lemma PublishedIff(found: Payloads, turn: Turn, order: seq<string>, t: string)
    ensures var data, batch := Merged(turn.results), CacheRuns.Emitted(found, StepOf(found, turn, order));
            t in batch <==>
              && t in data
              && (!(t in found && found[t] == data[t]) || Purged(t, Together(turn.purges)) ||
                  Purged(t, Prefixes(turn.schedule, Orders.UpTo(order, t))))
  {
  }

  /** Purges made before a pass, and the pass on the cache they leave, are one step on the cache before them. */
  lemma PurgesJoinPass(found: Payloads, turn: Turn, order: seq<string>)
    ensures var purged, step := Retained(found, Together(turn.purges)), StepOf(found, turn, order);
            && CacheRuns.CacheAfter(found, step) == CacheRuns.CacheAfter(purged, PassOf(purged, turn, order))
            && CacheRuns.Emitted(found, step) == CacheRuns.Emitted(purged, PassOf(purged, turn, order))
  {
    var before, data := Together(turn.purges), Merged(turn.results);
    var purged, topics := Retained(found, before), found.Keys + data.Keys;
    var dropped := set t | t in topics && Purged(t, before);
    var early, late := Early(topics, turn.schedule, order), Late(topics, turn.schedule, order);
    var some := purged.Keys + data.Keys;
    assert purged == found - dropped;
    assert Early(some, turn.schedule, order) == early * some && Late(some, turn.schedule, order) == late * some;
    WithinTopics(purged, data, early, late);
    CacheRuns.PurgeJoinsPass(found, dropped, data, early, late);
  }

  lemma WithinTopics(cache: Payloads, data: Payloads, early: set<string>, late: set<string>)
    ensures var some := cache.Keys + data.Keys;
            var pass, within := CacheRuns.Pass(data, early, late), CacheRuns.Pass(data, early * some, late * some);
            && CacheRuns.CacheAfter(cache, within) == CacheRuns.CacheAfter(cache, pass)
            && CacheRuns.Emitted(cache, within) == CacheRuns.Emitted(cache, pass)
  {
  }

  /** One turn, from its purges to its batch. */
  method TakeTurn(turn: Turn, lastMessages: LastMessages) returns (batch: Option<Payloads>, ghost order: seq<string>)
    modifies lastMessages
    ensures batch.None? <==> Ends(turn)
    ensures batch.Some? ==>
              var step := StepOf(old(lastMessages.messages), turn, order);
              && Orders.Lists(order, Merged(turn.results).Keys)
              && batch.value == CacheRuns.Emitted(old(lastMessages.messages), step)
              && lastMessages.messages == CacheRuns.CacheAfter(old(lastMessages.messages), step)
  {
    ghost var found := lastMessages.messages;
    order := [];
    lastMessages.LetDiscoveryRun(turn.purges);
    if turn.cancelled {
      return None, order;
    }
    batch, order := ProducePass(turn, lastMessages);
    PurgesJoinPass(found, turn, order);
  }

  /** The turn does not end the loop, and with this order of its entries it comes to the next step after `before`. */
  ghost predicate Makes(turn: Turn, order: seq<string>, before: seq<CacheRuns.Step>, step: CacheRuns.Step) {
    && !Ends(turn)
    && Orders.Lists(order, Merged(turn.results).Keys)
    && step == StepOf(CacheRuns.CacheAfterAll(map[], before), turn, order)
  }

  /** The first turns make these steps, each after those before it. */
  ghost predicate Follows(turns: seq<Turn>, orders: seq<seq<string>>, steps: seq<CacheRuns.Step>) {
    && |orders| == |steps| <= |turns|
    && forall i :: 0 <= i < |steps| ==> Makes(turns[i], orders[i], steps[..i], steps[i])
  }

  lemma FollowsFurther(turns: seq<Turn>, orders: seq<seq<string>>, steps: seq<CacheRuns.Step>, order: seq<string>)
    requires Follows(turns, orders, steps) && |steps| < |turns| && !Ends(turns[|steps|])
    requires Orders.Lists(order, Merged(turns[|steps|].results).Keys)
    ensures var step := StepOf(CacheRuns.CacheAfterAll(map[], steps), turns[|steps|], order);
            Follows(turns, orders + [order], steps + [step])
  {
    var n := |steps|;
    var orders', steps' := orders + [order], steps + [StepOf(CacheRuns.CacheAfterAll(map[], steps), turns[n], order)];
    assert steps'[..n] == steps;
    forall i | 0 <= i < n
      ensures Makes(turns[i], orders'[i], steps'[..i], steps'[i])
    {
      assert Makes(turns[i], orders[i], steps[..i], steps[i]);
      assert orders'[i] == orders[i] && steps'[..i] == steps[..i] && steps'[i] == steps[i];
    }
  }

  /** A session as it stands after these turns, with the cache it has come to. */
  ghost predicate SessionAt(turns: seq<Turn>, orders: seq<seq<string>>, steps: seq<CacheRuns.Step>,
                            batches: seq<Payloads>, cache: Payloads)
  {
    && |batches| == |steps| && Follows(turns, orders, steps)
    && batches == CacheRuns.Emissions(map[], steps) && cache == CacheRuns.CacheAfterAll(map[], steps)
    && CacheRuns.Agrees(cache, CacheRuns.Replay(batches))
    && CacheRuns.Replay(batches) == CacheRuns.Replay(Readings(turns[..|steps|]))
  }

  lemma TurnKeepsSession(turns: seq<Turn>, orders: seq<seq<string>>, steps: seq<CacheRuns.Step>,
                         batches: seq<Payloads>, cache: Payloads, order: seq<string>)
    requires SessionAt(turns, orders, steps, batches, cache) && |steps| < |turns| && !Ends(turns[|steps|])
    requires Orders.Lists(order, Merged(turns[|steps|].results).Keys)
    ensures var step := StepOf(cache, turns[|steps|], order);
            SessionAt(turns, orders + [order], steps + [step], batches + [CacheRuns.Emitted(cache, step)],
                      CacheRuns.CacheAfter(cache, step))
  {
    var i := |steps|;
    var step := StepOf(cache, turns[i], order);
    FollowsFurther(turns, orders, steps, order);
    CacheRuns.OneMoreStep(map[], steps, step);
    PassPublishes(cache, batches, Readings(turns[..i]), step.data, step.early, step.late);
    assert turns[..i + 1][..i] == turns[..i];
  }

  /** The loop: it waits for a tick and makes a pass, until the wait is refused or the pass is cancelled, and no sooner.
      Turn by turn the batches are those of the run of the filter that the purges and the orders of the entries make;
      subscribers to them hold exactly what publishing every reading would have left them. */
  method ProduceEntityUpdates(turns: seq<Turn>)
    returns (batches: seq<Payloads>, ghost orders: seq<seq<string>>, ghost steps: seq<CacheRuns.Step>)
    ensures |steps| == |batches| && Follows(turns, orders, steps)
    ensures |batches| < |turns| ==> Ends(turns[|batches|])
    ensures batches == CacheRuns.Emissions(map[], steps)
    ensures CacheRuns.Replay(batches) == CacheRuns.Replay(Readings(turns[..|batches|]))
  {
    var lastMessages := new LastMessages();
    batches, orders, steps := [], [], [];
    for i := 0 to |turns|
      invariant |steps| == i && fresh(lastMessages)
      invariant SessionAt(turns, orders, steps, batches, lastMessages.messages)
    {
      ghost var cache := lastMessages.messages;
      var batch, order := TakeTurn(turns[i], lastMessages);
      if batch.None? {
        return;
      }
      TurnKeepsSession(turns, orders, steps, batches, cache, order);
      batches, orders, steps := batches + [batch.value], orders + [order], steps + [StepOf(cache, turns[i], order)];
    }
  }

  /** Batch by batch, over a whole session: a reading is published if and only if it differs from what was recorded when
      its turn began, or some purge since, up to the wait for its entry, met its topic. */
  lemma BatchesAre(turns: seq<Turn>, orders: seq<seq<string>>, steps: seq<CacheRuns.Step>, i: nat, t: string)
    requires Follows(turns, orders, steps) && i < |steps|
    ensures var found, data := CacheRuns.CacheAfterAll(map[], steps[..i]), Merged(turns[i].results);
            && i < |CacheRuns.Emissions(map[], steps)|
            && (t in CacheRuns.Emissions(map[], steps)[i] <==>
                  && t in data
                  && (!(t in found && found[t] == data[t]) || Purged(t, Together(turns[i].purges)) ||
                      Purged(t, Prefixes(turns[i].schedule, Orders.UpTo(orders[i], t)))))
  {
    assert Makes(turns[i], orders[i], steps[..i], steps[i]);
    CacheRuns.EmissionAt(map[], steps, i);
    PublishedIff(CacheRuns.CacheAfterAll(map[], steps[..i]), turns[i], orders[i], t);
  }

  /** Whatever other errors the devices answer, a turn goes on: it ends the loop if and only if its wait is refused,
      some device was cancelled, or a wait for the lock of an entry that some device reads is refused. */
  lemma EndsIff(turn: Turn)
    ensures Ends(turn) <==>
              || turn.cancelled
              || (exists i :: 0 <= i < |turn.results| && turn.results[i] == Err(Cancellation))
              || (exists i, t :: 0 <= i < |turn.results| && ReadsTopic(turn.results[i], t) && t in turn.refused)
  {
    forall t
      ensures t in Merged(turn.results) <==> exists i :: 0 <= i < |turn.results| && ReadsTopic(turn.results[i], t)
    {
      MergedIff(turn.results, t);
    }
    if t :| t in Merged(turn.results) && t in turn.refused {
      var i :| 0 <= i < |turn.results| && ReadsTopic(turn.results[i], t);
    }
    if i, t :| 0 <= i < |turn.results| && ReadsTopic(turn.results[i], t) && t in turn.refused {
      assert t in Merged(turn.results);
      assert t in Merged(turn.results).Keys * turn.refused;
    }
  }
}
