/** The change-suppressing publisher (cmha/src/update_engine.rs): `filter_data` publishes a reading only when
    the payload differs from the last one recorded for its topic, while the discovery stream purges records. */
module MessageCache {
  import opened Wrappers
  import opened Topics
  import opened Orders

  type Payloads = map<string, string>

  datatype Error = Cancellation | Devices(message: string) | Unexpected(message: string)

  // ----- Specification of one pass and one purge -----

  function Restricted(m: Payloads, topics: set<string>): Payloads {
    map t | t in m && t in topics :: m[t]
  }

  /** The readings a pass publishes when it finds `cache`. */
  function Fresh(cache: Payloads, data: Payloads): Payloads {
    map t | t in data && !(t in cache && cache[t] == data[t]) :: data[t]
  }

  function Retained(m: Payloads, prefixes: set<string>): Payloads {
    map t | t in m && !Purged(t, prefixes) :: m[t]
  }

  /** The prefixes of several purges; one after the other they purge what one with all of them would. */
  function Together(purges: seq<set<string>>): set<string> {
    set i, p | 0 <= i < |purges| && p in purges[i] :: p
  }

  /** Discovery comes by whenever the lock is free: `schedule[t]` holds the purges it makes before the wait for the lock
      of the entry of `t`. */
  type Schedule = map<string, seq<set<string>>>

  /** The prefixes of the purges before the waits of `topics`. */
  function Prefixes(schedule: Schedule, topics: set<string>): set<string> {
    set t, p | t in topics && p in Together(At(schedule, t)) :: p
  }

  function At(schedule: Schedule, t: string): seq<set<string>> {
    if t in schedule then schedule[t] else []
  }

  /** These are the prefixes of every purge scheduled before a wait of one of the topics, and no others. */
  lemma PrefixesAre(schedule: Schedule, topics: set<string>, p: string)
    ensures p in Prefixes(schedule, topics) <==>
            exists t, i :: t in topics && t in schedule && 0 <= i < |schedule[t]| && p in schedule[t][i]
  {
    if t, i :| t in topics && t in schedule && 0 <= i < |schedule[t]| && p in schedule[t][i] {
      assert p in Together(At(schedule, t));
    }
    if p in Prefixes(schedule, topics) {
      var t :| t in topics && p in Together(At(schedule, t));
      var i :| 0 <= i < |At(schedule, t)| && p in At(schedule, t)[i];
      assert t in schedule && p in schedule[t][i];
    }
  }

  lemma TogetherIs(purges: seq<set<string>>, p: string)
    ensures p in Together(purges) <==> exists i :: 0 <= i < |purges| && p in purges[i]
  {
  }

  lemma OneMoreWait(schedule: Schedule, topics: set<string>, t: string)
    ensures Prefixes(schedule, topics + {t}) == Prefixes(schedule, topics) + Together(At(schedule, t))
  {
    forall p
      ensures p in Prefixes(schedule, topics + {t}) <==>
              p in Prefixes(schedule, topics) || p in Together(At(schedule, t))
    {
      if p in Prefixes(schedule, topics) {
        var u :| u in topics && p in Together(At(schedule, u));
        assert u in topics + {t};
      }
      if p in Together(At(schedule, t)) {
        assert t in topics + {t};
      }
    }
  }

  lemma RetainedTwice(m: Payloads, a: set<string>, b: set<string>)
    ensures Retained(Retained(m, a), b) == Retained(m, a + b)
  {
    forall t
      ensures Purged(t, a + b) <==> Purged(t, a) || Purged(t, b)
    {
      if p :| (p in a || p in b) && StartsWith(t, p) {
        assert p in a + b;
      }
    }
  }

  /** Where a pass over `data` stands: it found `cache`, has handled the entries in `done` and has gathered `out`;
      the cache is now `now`. `early` and `late` are as in `FilterData`. */
  ghost predicate PassAt(cache: Payloads, data: Payloads, done: set<string>, early: set<string>, late: set<string>,
                         out: Payloads, now: Payloads)
  {
    && done <= data.Keys
    && early - done == late - done
    && now == (cache + Restricted(data, done)) - late
    && out == Fresh(cache - early, Restricted(data, done))
  }

  lemma PurgeKeepsPass(cache: Payloads, data: Payloads, done: set<string>, early: set<string>, late: set<string>,
                       out: Payloads, now: Payloads, dropped: set<string>)
    requires PassAt(cache, data, done, early, late, out, now)
    ensures PassAt(cache, data, done, early + (dropped - done), late + dropped, out, now - dropped)
  {
    var early', late' := early + (dropped - done), late + dropped;
    assert forall t :: t !in done ==> (t in early <==> t in early - done) && (t in late <==> t in late - done);
    assert early' - done == late' - done;
    assert forall t :: t in done ==> (t in early <==> t in early');
  }

  lemma EntryKeepsPass(cache: Payloads, data: Payloads, done: set<string>, early: set<string>, late: set<string>,
                       out: Payloads, now: Payloads, topic: string)
    requires PassAt(cache, data, done, early, late, out, now)
    requires topic in data && topic !in done
    ensures
      var known := topic in now && now[topic] == data[topic];
      PassAt(cache, data, done + {topic}, early, late - {topic},
             if known then out else out[topic := data[topic]], now[topic := data[topic]])
  {
    var done', late' := done + {topic}, late - {topic};
    assert topic in early - done <==> topic in late - done;
    assert early - done' == (early - done) - {topic} == (late - done) - {topic} == late' - done';
    assert Restricted(data, done') == Restricted(data, done)[topic := data[topic]];
  }

  // ----- A whole pass, entry by entry and at once -----

  /** What a pass has gathered, and the cache as it is. */
  datatype Passing = Passing(out: Payloads, now: Payloads)

  /** One more entry, after the purges made before its wait. */
  function Turned(p: Passing, data: Payloads, t: string, purges: seq<set<string>>): Passing
    requires t in data
  {
    var now := Retained(p.now, Together(purges));
    Passing(if t in now && now[t] == data[t] then p.out else p.out[t := data[t]], now[t := data[t]])
  }

  /** The entries of `order`, one after the other. */
  function Passed(found: Payloads, data: Payloads, schedule: Schedule, order: seq<string>): Passing
    requires forall t :: t in order ==> t in data
  {
    if order == [] then Passing(map[], found)
    else
      var n := |order| - 1;
      Turned(Passed(found, data, schedule, order[..n]), data, order[n], At(schedule, order[n]))
  }

  /** Of `topics`, those purged by the time their entry is handled, or at all when they have none. */
  function Early(topics: set<string>, schedule: Schedule, order: seq<string>): set<string> {
    set t | t in topics && Purged(t, Prefixes(schedule, UpTo(order, t)))
  }

  /** Of `topics`, those purged since their entry was handled, or at all when they have none. */
  function Late(topics: set<string>, schedule: Schedule, order: seq<string>): set<string> {
    set t | t in topics && Purged(t, Prefixes(schedule, After(order, t)))
  }

  lemma PurgedByEither(t: string, a: set<string>, b: set<string>)
    ensures Purged(t, a + b) <==> Purged(t, a) || Purged(t, b)
  {
    if p :| (p in a || p in b) && StartsWith(t, p) {
      assert p in a + b;
    }
  }

  /** One more entry adds to the topics purged early and late what the purges before its wait meet. */
  lemma PurgesGrow(topics: set<string>, schedule: Schedule, order: seq<string>, t: string)
    ensures var dropped := set u | u in topics && Purged(u, Together(At(schedule, t)));
            && Early(topics, schedule, order + [t]) == Early(topics, schedule, order) + (dropped - Elements(order))
            && Late(topics, schedule, order + [t]) == (Late(topics, schedule, order) + dropped) - {t}
  {
    var order', more := order + [t], Together(At(schedule, t));
    NextKey(order, t);
    forall u | u in topics
      ensures Purged(u, Prefixes(schedule, UpTo(order', u))) <==>
              Purged(u, Prefixes(schedule, UpTo(order, u))) || (u !in order && Purged(u, more))
      ensures Purged(u, Prefixes(schedule, After(order', u))) <==>
              u != t && (Purged(u, Prefixes(schedule, After(order, u))) || Purged(u, more))
    {
      if u !in order {
        Unvisited(order, u);
        OneMoreWait(schedule, Elements(order), t);
        PurgedByEither(u, Prefixes(schedule, Elements(order)), more);
      }
      if u != t {
        OneMoreWait(schedule, After(order, u), t);
        PurgedByEither(u, Prefixes(schedule, After(order, u)), more);
      }
    }
  }

  /** Entry by entry comes to the same as at once: a pass publishes what differs from what it found without the topics
      purged early, and leaves the cache with every entry recorded but the topics purged late. */
  lemma {:induction false} PassedIs(found: Payloads, data: Payloads, schedule: Schedule, order: seq<string>)
    requires Distinct(order) && forall t :: t in order ==> t in data
    ensures var topics, pass := found.Keys + data.Keys, Passed(found, data, schedule, order);
            PassAt(found, data, Elements(order), Early(topics, schedule, order), Late(topics, schedule, order),
                   pass.out, pass.now)
  {
    var topics := found.Keys + data.Keys;
    if order == [] {
      assert Early(topics, schedule, []) == {} == Late(topics, schedule, []);
    } else {
      var n := |order| - 1;
      PassedIs(found, data, schedule, order[..n]);
      assert order == order[..n] + [order[n]];
      NextKey(order[..n], order[n]);
      TurnKeepsPass(found, data, schedule, order[..n], order[n], Passed(found, data, schedule, order[..n]));
    }
  }

  lemma TurnKeepsPass(found: Payloads, data: Payloads, schedule: Schedule, order: seq<string>, t: string, pass: Passing)
    requires t in data && t !in order
    requires var topics := found.Keys + data.Keys;
             PassAt(found, data, Elements(order), Early(topics, schedule, order), Late(topics, schedule, order),
                    pass.out, pass.now)
    ensures var topics, order' := found.Keys + data.Keys, order + [t];
            var pass' := Turned(pass, data, t, At(schedule, t));
            PassAt(found, data, Elements(order'), Early(topics, schedule, order'), Late(topics, schedule, order'),
                   pass'.out, pass'.now)
  {
    var topics, done := found.Keys + data.Keys, Elements(order);
    var early, late := Early(topics, schedule, order), Late(topics, schedule, order);
    var dropped := set u | u in topics && Purged(u, Together(At(schedule, t)));
    NextKey(order, t);
    PurgesGrow(topics, schedule, order, t);
    RetainedWithin(pass.now, topics, Together(At(schedule, t)));
    PurgeKeepsPass(found, data, done, early, late, pass.out, pass.now, dropped);
    EntryKeepsPass(found, data, done, early + (dropped - done), late + dropped, pass.out, pass.now - dropped, t);
  }

  lemma RetainedWithin(m: Payloads, topics: set<string>, prefixes: set<string>)
    requires m.Keys <= topics
    ensures Retained(m, prefixes) == m - (set t | t in topics && Purged(t, prefixes))
  {
  }

  /** Only what some purge of the schedule meets is dropped, and off the entries all of that. */
  lemma DropsAre(found: Payloads, data: Payloads, schedule: Schedule, order: seq<string>)
    requires Lists(order, data.Keys)
    ensures var topics, prefixes := found.Keys + data.Keys, Prefixes(schedule, data.Keys);
            var early, late := Early(topics, schedule, order), Late(topics, schedule, order);
            && DropsOnly(early, late, prefixes)
            && early - data.Keys == late - data.Keys
            && ((found + data) - late) - data.Keys == Retained(found - data.Keys, prefixes)
  {
    var topics, prefixes := found.Keys + data.Keys, Prefixes(schedule, data.Keys);
    var early, late := Early(topics, schedule, order), Late(topics, schedule, order);
    forall t | t in topics
      ensures t in early || t in late ==> Purged(t, prefixes)
      ensures t !in data ==> (t in early <==> Purged(t, prefixes)) && (t in late <==> Purged(t, prefixes))
    {
      DropOf(data, schedule, order, t);
    }
  }

  lemma DropOf(data: Payloads, schedule: Schedule, order: seq<string>, t: string)
    requires Lists(order, data.Keys)
    ensures Purged(t, Prefixes(schedule, UpTo(order, t))) ==> Purged(t, Prefixes(schedule, data.Keys))
    ensures Purged(t, Prefixes(schedule, After(order, t))) ==> Purged(t, Prefixes(schedule, data.Keys))
    ensures t !in data ==> UpTo(order, t) == After(order, t) == data.Keys
  {
    assert Elements(order) == data.Keys;
    if t in data {
      var i :| 0 <= i < |order| && order[i] == t;
      UpToMeans(order, i);
      AfterMeans(order, i);
      FewerPrefixes(schedule, UpTo(order, t), data.Keys);
      FewerPrefixes(schedule, After(order, t), data.Keys);
    } else {
      Unvisited(order, t);
    }
  }

  lemma FewerPrefixes(schedule: Schedule, some: set<string>, all: set<string>)
    requires some <= all
    ensures forall t :: Purged(t, Prefixes(schedule, some)) ==> Purged(t, Prefixes(schedule, all))
  {
    forall p | p in Prefixes(schedule, some)
      ensures p in Prefixes(schedule, all)
    {
      var t :| t in some && p in Together(At(schedule, t));
      assert t in all;
    }
  }

  ghost predicate DropsOnly(early: set<string>, late: set<string>, prefixes: set<string>) {
    forall t :: t in early || t in late ==> Purged(t, prefixes)
  }

  /** A pass whose wait for some entry was refused: the entries of `order` were handled, and the purges before that wait
      had run. */
  ghost predicate CutShort(found: Payloads, data: Payloads, schedule: Schedule, refused: set<string>,
                           order: seq<string>, now: Payloads)
  {
    && Distinct(order) && (forall t :: t in order ==> t in data && t !in refused)
    && exists last ::
         && last in data.Keys * refused
         && now == Retained((found + Restricted(data, Elements(order))) - Late(found.Keys + data.Keys, schedule, order),
                            Together(At(schedule, last)))
  }

  class LastMessages {
    var messages: Payloads

    constructor ()
      ensures messages == map[]
    {
      messages := map[];
    }

    method Retain(prefixes: set<string>)
      modifies this
      ensures messages == Retained(old(messages), prefixes)
    {
      messages := map t | t in messages && forall p | p in prefixes :: !StartsWith(t, p) :: messages[t];
    }

    /** What the discovery stream does while the lock is free. */
    method LetDiscoveryRun(purges: seq<set<string>>)
      modifies this
      ensures messages == Retained(old(messages), Together(purges))
    {
      for i := 0 to |purges|
        invariant messages == Retained(old(messages), Together(purges[..i]))
      {
        Retain(purges[i]);
        RetainedTwice(old(messages), Together(purges[..i]), purges[i]);
        assert Together(purges[..i + 1]) == Together(purges[..i]) + purges[i];
      }
      assert purges[..|purges|] == purges;
    }

    /** One iteration of the loop of `filter_data`, with the lock held. */
    method FilterEntry(topic: string, payload: string) returns (publish: bool)
      modifies this
      ensures publish <==> !(topic in old(messages) && old(messages)[topic] == payload)
      ensures messages == old(messages)[topic := payload]
    {
      if topic in messages {
        if messages[topic] == payload {
          publish := false;
        } else {
          publish := true;
          messages := messages[topic := payload];
        }
      } else {
        publish := true;
        messages := messages[topic := payload];
      }
    }

    /** One turn of a pass: the wait for the lock, during which discovery makes `purges`, and, unless it is cancelled,
        the entry with the lock held. */
    method TakeTurn(topic: string, data: Payloads, entitiesData: Payloads, purges: seq<set<string>>, cancelled: bool)
      returns (entitiesData': Payloads)
      requires topic in data
      modifies this
      ensures Passing(entitiesData', messages) ==
              if cancelled then Passing(entitiesData, Retained(old(messages), Together(purges)))
              else Turned(Passing(entitiesData, old(messages)), data, topic, purges)
    {
      LetDiscoveryRun(purges);
      entitiesData' := entitiesData;
      if !cancelled {
        var publish := FilterEntry(topic, data[topic]);
        if publish {
          entitiesData' := entitiesData[topic := data[topic]];
        }
      }
    }

    /** The loop of a pass. The entries come in any order and the lock is taken anew for each one, so purges run between
        any two of them; a wait of one of the `refused` topics is cancelled.
        `order`: the topics handled; `last`: the one whose wait was cancelled, if any. */
    method FilterEntries(data: Payloads, schedule: Schedule, refused: set<string>)
      returns (entitiesData: Payloads, ghost order: seq<string>, last: Option<string>)
      modifies this
      ensures Distinct(order) && forall t :: t in order ==> t in data && t !in refused
      ensures last.None? <==> data.Keys !! refused
      ensures last.None? ==> Lists(order, data.Keys)
      ensures last.Some? ==> last.value in data.Keys * refused
      ensures var pass := Passed(old(messages), data, schedule, order);
              && entitiesData == pass.out
              && messages == if last.None? then pass.now else Retained(pass.now, Together(At(schedule, last.value)))
    {
      entitiesData, order, last := map[], [], None;
      var rest := data.Keys;
      while rest != {}
        invariant rest <= data.Keys && forall t :: t in data ==> (t in rest <==> t !in order)
        invariant Distinct(order) && forall t :: t in order ==> t in data && t !in refused
        invariant Passing(entitiesData, messages) == Passed(old(messages), data, schedule, order)
        decreases rest
      {
        var topic :| topic in rest;
        var cancelled := topic in refused;
        entitiesData := TakeTurn(topic, data, entitiesData, At(schedule, topic), cancelled);
        if cancelled {
          last := Some(topic);
          return;
        }
        NextKey(order, topic);
        rest, order := rest - {topic}, order + [topic];
      }
    }

    /** The whole pass: it fails exactly when a wait is cancelled, and both what it publishes and the cache it leaves
        follow from the cache it found, the purges of the schedule and the order of the entries. */
    method FilterData(data: Payloads, schedule: Schedule, refused: set<string>)
      returns (result: Result<Payloads, Error>, ghost order: seq<string>)
      modifies this
      ensures result.Ok? <==> data.Keys !! refused
      ensures result.Ok? ==>
                var topics := old(messages).Keys + data.Keys;
                && Lists(order, data.Keys)
                && result.value == Fresh(old(messages) - Early(topics, schedule, order), data)
                && messages == (old(messages) + data) - Late(topics, schedule, order)
      ensures result.Err? ==>
                result.error == Cancellation && CutShort(old(messages), data, schedule, refused, order, messages)
    {
      var entitiesData, last;
      entitiesData, order, last := FilterEntries(data, schedule, refused);
      PassedIs(old(messages), data, schedule, order);
      if last.Some? {
        return Err(Cancellation), order;
      }
      assert Elements(order) == data.Keys && Restricted(data, data.Keys) == data;
      return Ok(entitiesData), order;
    }
  }
}
