/** Discovery and filtering together: the registry and the cache over any run of ticks and passes
    (cmha/src/update_engine.rs), and what a removed device's records come to. */
module RemovalRuns {
  import opened Wrappers
  import opened Topics
  import opened MessageCache
  import opened DeviceModel
  import opened Discovery
  import opened DiscoveryRuns

  /** A tick in the midst of a pass, when the entries of `handled` have been handled. */
  datatype Midway = Midway(attempt: Attempt, handled: set<string>)

  /** A tick between passes, or a pass over `data` with the ticks in its midst. */
  datatype Round = Discover(attempt: Attempt) | Pass(data: Payloads, ticks: seq<Midway>)

  datatype State = State(registry: Registry, cache: Payloads)

  function Attempts(ticks: seq<Midway>): seq<Attempt> {
    if ticks == [] then [] else [ticks[0].attempt] + Attempts(ticks[1..])
  }

  /** The prefixes that a tick purges; a tick that fails purges nothing. */
  function PurgedBy(p: Provider, reg: Registry, a: Attempt, deviceToken: Option<TokenId>): set<string> {
    match a
    case Full(l) => PathsOf(EntitiesOf(Tick(p, reg, l.first, l.second, l.token, deviceToken).removed))
    case Half(_, _) => {}
  }

  function PurgedByAll(p: Provider, reg: Registry, run: seq<Attempt>, deviceToken: Option<TokenId>): set<string>
    decreases run
  {
    if run == [] then {}
    else PurgedBy(p, reg, run[0], deviceToken) +
         PurgedByAll(p, AfterAttempt(p, reg, run[0], deviceToken), run[1..], deviceToken)
  }

  /** Some of the ticks purges `t` at a time when its entry has (`since`) or has not been handled. */
  predicate PurgedMidway(p: Provider, reg: Registry, ticks: seq<Midway>, deviceToken: Option<TokenId>, data: Payloads,
                         t: string, since: bool)
    decreases ticks
  {
    ticks != [] &&
    (((t in data && t in ticks[0].handled) == since && Purged(t, PurgedBy(p, reg, ticks[0].attempt, deviceToken))) ||
     PurgedMidway(p, AfterAttempt(p, reg, ticks[0].attempt, deviceToken), ticks[1..], deviceToken, data, t, since))
  }

  /** The topics that the ticks in the midst of a pass purge before their entry is handled, or when they have none. */
  function EarlyOf(p: Provider, st: State, pass: Round, deviceToken: Option<TokenId>): set<string>
    requires pass.Pass?
  {
    set t |
      && t in st.cache.Keys + pass.data.Keys
      && PurgedMidway(p, st.registry, pass.ticks, deviceToken, pass.data, t, false)
  }

  /** And those that they purge after it, or when they have none. */
  function LateOf(p: Provider, st: State, pass: Round, deviceToken: Option<TokenId>): set<string>
    requires pass.Pass?
  {
    set t |
      && t in st.cache.Keys + pass.data.Keys
      && (PurgedMidway(p, st.registry, pass.ticks, deviceToken, pass.data, t, true) ||
          (t !in pass.data && PurgedMidway(p, st.registry, pass.ticks, deviceToken, pass.data, t, false)))
  }

  function Apply(p: Provider, st: State, round: Round, deviceToken: Option<TokenId>): State {
    match round
    case Discover(a) =>
      st.(registry := AfterAttempt(p, st.registry, a, deviceToken),
          cache := Retained(st.cache, PurgedBy(p, st.registry, a, deviceToken)))
    case Pass(data, ticks) =>
      st.(registry := AfterAttempts(p, st.registry, Attempts(ticks), deviceToken),
          cache := (st.cache + data) - LateOf(p, st, round, deviceToken))
  }

  /** What a pass publishes. */
  function Published(p: Provider, st: State, pass: Round, deviceToken: Option<TokenId>): Payloads
    requires pass.Pass?
  {
    Fresh(st.cache - EarlyOf(p, st, pass, deviceToken), pass.data)
  }

  function Run(p: Provider, st: State, rounds: seq<Round>, deviceToken: Option<TokenId>): State
    decreases rounds
  {
    if rounds == [] then st else Run(p, Apply(p, st, rounds[0], deviceToken), rounds[1..], deviceToken)
  }

  /** Every tick, in order. */
  function TicksOf(round: Round): seq<Attempt> {
    match round
    case Discover(a) => [a]
    case Pass(_, ticks) => Attempts(ticks)
  }

  /** Some tick of the run, between passes or in the midst of one, purges `t`. */
  predicate PurgedIn(p: Provider, st: State, rounds: seq<Round>, deviceToken: Option<TokenId>, t: string)
    decreases rounds
  {
    rounds != [] &&
    (Purged(t, PurgedByAll(p, st.registry, TicksOf(rounds[0]), deviceToken)) ||
     PurgedIn(p, Apply(p, st, rounds[0], deviceToken), rounds[1..], deviceToken, t))
  }

  /** No pass reads `t`: its device is gone. */
  predicate Unread(rounds: seq<Round>, t: string) {
    forall r :: r in rounds && r.Pass? ==> t !in r.data
  }

  /** Every purge in the midst of a pass counts, as one before the entry or as one after it. */
  lemma {:induction false} PurgedMidwayIff(p: Provider, reg: Registry, ticks: seq<Midway>, deviceToken: Option<TokenId>,
                                           data: Payloads, t: string)
    ensures Purged(t, PurgedByAll(p, reg, Attempts(ticks), deviceToken)) <==>
              || PurgedMidway(p, reg, ticks, deviceToken, data, t, false)
              || PurgedMidway(p, reg, ticks, deviceToken, data, t, true)
    ensures t !in data ==> !PurgedMidway(p, reg, ticks, deviceToken, data, t, true)
    decreases ticks
  {
    if ticks == [] {
    } else {
      var a, rest := ticks[0].attempt, Attempts(ticks[1..]);
      var reg' := AfterAttempt(p, reg, a, deviceToken);
      PurgedMidwayIff(p, reg', ticks[1..], deviceToken, data, t);
      assert Attempts(ticks)[1..] == rest;
      PurgedByEither(t, PurgedBy(p, reg, a, deviceToken), PurgedByAll(p, reg', rest, deviceToken));
    }
  }

  lemma RoundKeepsUnreadIff(p: Provider, st: State, round: Round, deviceToken: Option<TokenId>, t: string)
    requires round.Pass? ==> t !in round.data
    ensures var next := Apply(p, st, round, deviceToken);
            && (t in next.cache <==>
                  t in st.cache && !Purged(t, PurgedByAll(p, st.registry, TicksOf(round), deviceToken)))
            && (t in next.cache ==> next.cache[t] == st.cache[t])
  {
    match round
    case Discover(a) =>
      assert PurgedByAll(p, st.registry, [a], deviceToken) == PurgedBy(p, st.registry, a, deviceToken) by {
        assert [a][1..] == [];
      }
    case Pass(data, ticks) =>
      PurgedMidwayIff(p, st.registry, ticks, deviceToken, data, t);
  }

  /** Over any run that does not read a topic, its record stays, unchanged, if and only if no tick purges it. */
  lemma {:induction false} UnreadRecordStaysIff(p: Provider, st: State, rounds: seq<Round>,
                                                deviceToken: Option<TokenId>, t: string)
    requires Unread(rounds, t)
    ensures var end := Run(p, st, rounds, deviceToken);
            && (t in end.cache <==> t in st.cache && !PurgedIn(p, st, rounds, deviceToken, t))
            && (t in end.cache ==> end.cache[t] == st.cache[t])
    decreases rounds
  {
    if rounds == [] {
    } else {
      assert rounds[0] in rounds && forall r :: r in rounds[1..] ==> r in rounds;
      RoundKeepsUnreadIff(p, st, rounds[0], deviceToken, t);
      UnreadRecordStaysIff(p, Apply(p, st, rounds[0], deviceToken), rounds[1..], deviceToken, t);
    }
  }

  /** A device is read in a pass, is then away for any run of ticks and passes, and is read again: a reading is
      published if and only if it has changed, or a tick purged its topic after its entry in the first pass, in between,
      or before its entry in the last. A purge in the first pass before the entry, its own removal's too, does not
      count. */
  lemma ReturnIsPublishedIff(p: Provider, st: State, seen: Round, away: seq<Round>, back: Round,
                             deviceToken: Option<TokenId>, t: string)
    requires seen.Pass? && back.Pass? && t in seen.data && t in back.data && Unread(away, t)
    ensures var left := Apply(p, st, seen, deviceToken);
            var end := Run(p, left, away, deviceToken);
            t in Published(p, end, back, deviceToken) <==>
              || back.data[t] != seen.data[t]
              || PurgedMidway(p, st.registry, seen.ticks, deviceToken, seen.data, t, true)
              || PurgedIn(p, left, away, deviceToken, t)
              || PurgedMidway(p, end.registry, back.ticks, deviceToken, back.data, t, false)
  {
    UnreadRecordStaysIff(p, Apply(p, st, seen, deviceToken), away, deviceToken, t);
  }

  // ----- A removal in the midst of a pass -----

  /** The tick that finds a container gone purges every topic of its entities, and of the registry it removes only this
      and the others that are not listed. */
  lemma RemovalPurges(p: Provider, reg: Registry, name: string, gone: Listing, deviceToken: Option<TokenId>,
                      f: EntityDetails, item: Option<string>, kind: Kind)
    requires WellKeyed(reg) && name in ContainerKeys(reg) && name !in Names(gone) && f in reg[name].entities
    ensures var a := Full(Listings([], gone, 0));
            var reg' := AfterAttempt(p, reg, a, deviceToken);
            && Purged(TopicFor(f, item, kind), PurgedBy(p, reg, a, deviceToken))
            && name !in reg' && WellKeyed(reg') && ContainerKeys(reg') == ContainerKeys(reg) * Names(gone)
  {
    TickFollowsTheListings(p, reg, [], gone, 0, deviceToken);
    var tick := Tick(p, reg, [], gone, 0, deviceToken);
    AddedLookup(p, reg, [], 0, deviceToken);
    assert AddDiscovered(p, reg, [], 0, deviceToken).0 == reg;
    MissingKeys(reg, gone);
    assert name in Missing(reg, gone) && reg[name] in tick.removed;
    assert f in EntitiesOf(tick.removed);
    PurgeIsPrecise(EntitiesOf(tick.removed), f, item, kind);
  }

  /** The tick that finds it again, with everything else that is held, removes and purges nothing. */
  lemma ReturnPurgesNothing(p: Provider, reg: Registry, name: string, again: Listing, deviceToken: Option<TokenId>)
    requires WellKeyed(reg) && ContainerKeys(reg) + {name} <= Names(again)
    ensures var a := Full(Listings(again, again, 0));
            && PurgedBy(p, reg, a, deviceToken) == {}
            && name in AfterAttempt(p, reg, a, deviceToken)
  {
    TickFollowsTheListings(p, reg, again, again, 0, deviceToken);
    var tick := Tick(p, reg, again, again, 0, deviceToken);
    assert RemovedIds(tick) == {};
    assert forall d :: d in tick.removed ==> Identifier(d) in RemovedIds(tick);
    assert tick.removed == {};
  }

  /** A container is removed in the midst of a pass that has read it, the next tick finds it again, and the next pass
      reads the same of it. The removal purges every topic of the container, yet what the pass recorded afterwards is
      not published again: a reading is published if and only if its entry had been handled when the container was
      removed. */
  lemma RemovalHidesReturnIff(p: Provider, st: State, data: Payloads, name: string, handled: set<string>, gone: Listing,
                              again: Listing, deviceToken: Option<TokenId>,
                              f: EntityDetails, item: Option<string>, kind: Kind)
    requires WellKeyed(st.registry) && name in ContainerKeys(st.registry) && f in st.registry[name].entities
    requires name !in Names(gone) && ContainerKeys(st.registry) * Names(gone) + {name} <= Names(again)
    requires TopicFor(f, item, kind) in data
    ensures var t := TopicFor(f, item, kind);
            var removal, finding := Full(Listings([], gone, 0)), Discover(Full(Listings(again, again, 0)));
            var left := Apply(p, st, Pass(data, [Midway(removal, handled)]), deviceToken);
            var end := Apply(p, left, finding, deviceToken);
            && Purged(t, PurgedBy(p, st.registry, removal, deviceToken))
            && name !in left.registry && name in end.registry
            && (t in Published(p, end, Pass(data, []), deviceToken) <==> t in handled)
  {
    var t := TopicFor(f, item, kind);
    var removal, a := Full(Listings([], gone, 0)), Full(Listings(again, again, 0));
    var seen, back := Pass(data, [Midway(removal, handled)]), Pass(data, []);
    var reg' := AfterAttempt(p, st.registry, removal, deviceToken);
    RemovalPurges(p, st.registry, name, gone, deviceToken, f, item, kind);
    OneTick(p, st.registry, Midway(removal, handled), deviceToken, data, t);
    ReturnPurgesNothing(p, reg', name, again, deviceToken);
    var left := Apply(p, st, seen, deviceToken);
    assert left.registry == reg';
    var end := Apply(p, left, Discover(a), deviceToken);
    assert Run(p, left, [Discover(a)], deviceToken) == Run(p, end, [], deviceToken);
    NothingPurged(p, left, a, deviceToken, t);
    ReturnIsPublishedIff(p, st, seen, [Discover(a)], back, deviceToken, t);
  }

  lemma OneTick(p: Provider, reg: Registry, m: Midway, deviceToken: Option<TokenId>, data: Payloads, t: string)
    requires t in data
    ensures PurgedMidway(p, reg, [m], deviceToken, data, t, true) <==>
            t in m.handled && Purged(t, PurgedBy(p, reg, m.attempt, deviceToken))
    ensures AfterAttempts(p, reg, Attempts([m]), deviceToken) == AfterAttempt(p, reg, m.attempt, deviceToken)
  {
    assert [m][1..] == [] && Attempts([m]) == [m.attempt] && [m.attempt][1..] == [];
  }

  lemma NothingPurged(p: Provider, st: State, a: Attempt, deviceToken: Option<TokenId>, t: string)
    requires PurgedBy(p, st.registry, a, deviceToken) == {}
    ensures !PurgedIn(p, st, [Discover(a)], deviceToken, t)
  {
    assert [a][1..] == [] && [Discover(a)][1..] == [];
    assert PurgedByAll(p, st.registry, [a], deviceToken) == {};
  }
}
