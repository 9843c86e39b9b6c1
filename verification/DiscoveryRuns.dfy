/** What discovery keeps over any sequence of ticks (cmha/src/container_device.rs, cmha/src/update_engine.rs). */
module DiscoveryRuns {
  import opened Wrappers
  import opened Topics
  import opened MessageCache
  import opened DeviceModel
  import opened Registries
  import opened Discovery
  import Dispatch
  import Protocol = CancellationProtocol

  // ----- The registry after adding -----

  lemma RetokenedKeeps(devices: seq<Device>, token: Option<TokenId>)
    ensures Identifiers(Retokened(devices, token)) == Identifiers(devices)
    ensures forall e :: e in Retokened(devices, token) ==> exists d :: d in devices && e == d.(token := e.token)
  {
    var renewed := Retokened(devices, token);
    assert |renewed| == |devices|;
    forall i | 0 <= i < |devices|
      ensures Identifier(renewed[i]) == Identifier(devices[i]) && renewed[i] == devices[i].(token := renewed[i].token)
    {
    }
    forall id | id in Identifiers(devices)
      ensures id in Identifiers(renewed)
    {
      var i :| 0 <= i < |devices| && Identifier(devices[i]) == id;
      assert renewed[i] in renewed;
    }
  }

  /** After adding, a key holds what it held, or a container device made for the name it is. */
  lemma AddedLookup(p: Provider, reg: Registry, listing: Listing, token: TokenId, deviceToken: Option<TokenId>)
    ensures var (reg', created) := AddDiscovered(p, reg, listing, token, deviceToken);
            && created == Names(listing) - reg.Keys
            && reg'.Keys == reg.Keys + Names(listing)
            && (forall k :: k in reg ==> reg'[k] == reg[k])
            && (forall k :: k in created ==> reg'[k] == ContainerDevice(p, k, reg'[k].token))
  {
    var made := ContainerDevices(p, NewContainers(listing, reg.Keys), token);
    var added := Retokened(made, deviceToken);
    var reg' := Extended(reg, added);
    CreatedNames(p, listing, reg.Keys, token);
    DevicesMade(p, NewContainers(listing, reg.Keys), token);
    RetokenedKeeps(made, deviceToken);
    ExtendedKeys(reg, added);
    forall k | k in reg'
      ensures k in reg ==> reg'[k] == reg[k]
      ensures k !in reg ==> reg'[k] == ContainerDevice(p, k, reg'[k].token)
    {
      ExtendedLookup(reg, added, k);
      if k !in reg {
        var d :| d in made && reg'[k] == d.(token := reg'[k].token);
        assert d == ContainerDevice(p, Identifier(d), token);
      }
    }
  }

  /** The keys after a tick, for any registry at all: what was there and what is listed, without the source ids that
      the second listing misses. */
  lemma TickKeys(p: Provider, reg: Registry, first: Listing, second: Listing, token: TokenId,
                 deviceToken: Option<TokenId>)
    ensures var tick := Tick(p, reg, first, second, token, deviceToken);
            && tick.created == Names(first) - reg.Keys
            && tick.registry.Keys ==
               (reg.Keys + Names(first)) - Missing(AddDiscovered(p, reg, first, token, deviceToken).0, second)
  {
    AddedLookup(p, reg, first, token, deviceToken);
  }

  // ----- Well-keyed registries -----

  /** Every container device sits under its source id. */
  predicate WellKeyed(reg: Registry) {
    forall k :: k in reg && reg[k].sourceId.Some? ==>
      reg[k].sourceId.value == k && HOST_DEVICE_METADATA !in reg[k].metadata
  }

  function ContainerKeys(reg: Registry): set<string> {
    set k | k in reg && reg[k].sourceId.Some?
  }

  lemma MissingKeys(reg: Registry, listing: Listing)
    requires WellKeyed(reg)
    ensures Missing(reg, listing) == ContainerKeys(reg) - Names(listing)
  {
    forall k | k in ContainerKeys(reg) - Names(listing)
      ensures k in Missing(reg, listing)
    {
      assert k in reg && reg[k].sourceId.value == k;
    }
  }

  /** What adding does to a registry, seen from outside. */
  ghost predicate Adds(reg: Registry, reg': Registry, created: set<string>) {
    && created !! reg.Keys
    && reg'.Keys == reg.Keys + created
    && (forall k :: k in reg ==> reg'[k] == reg[k])
    && (forall k :: k in created ==> reg'[k].sourceId == Some(k) && reg'[k].metadata == [])
  }

  lemma AddDiscoveredAdds(p: Provider, reg: Registry, listing: Listing, token: TokenId,
                          deviceToken: Option<TokenId>)
    ensures var (reg', created) := AddDiscovered(p, reg, listing, token, deviceToken);
            created == Names(listing) - reg.Keys && Adds(reg, reg', created)
  {
    AddedLookup(p, reg, listing, token, deviceToken);
    var (reg', created) := AddDiscovered(p, reg, listing, token, deviceToken);
    forall k | k in created
      ensures reg'[k].sourceId == Some(k) && reg'[k].metadata == []
    {
      assert reg'[k] == ContainerDevice(p, k, reg'[k].token);
    }
  }

  /** What is left after a removal that follows an addition. */
  ghost predicate Follows(reg: Registry, reg': Registry, created: set<string>, listed: set<string>) {
    && WellKeyed(reg')
    && ContainerKeys(reg') == (ContainerKeys(reg) + created) * listed
    && reg'.Keys == (reg.Keys + created) - ((ContainerKeys(reg) + created) - listed)
    && (forall k :: k in reg && reg[k].sourceId.None? ==> k in reg' && reg'[k] == reg[k])
    && (forall k :: k in reg' && k in reg ==> reg'[k] == reg[k])
  }

  lemma RemovalFollows(reg: Registry, reg': Registry, created: set<string>, listing: Listing)
    requires WellKeyed(reg) && Adds(reg, reg', created)
    ensures WellKeyed(reg') && Missing(reg', listing) == (ContainerKeys(reg) + created) - Names(listing)
    ensures Follows(reg, reg' - Missing(reg', listing), created, Names(listing))
  {
    assert ContainerKeys(reg') == ContainerKeys(reg) + created;
    MissingKeys(reg', listing);
  }

  /** The identifiers in the event of the devices removed. */
  function RemovedIds(tick: TickOutcome): set<string> {
    set d | d in tick.removed :: Identifier(d)
  }

  /** A tick leaves exactly the containers that were known or newly listed and are still listed, leaves every other
      device alone, keeps the registry well keyed, and removes the rest. */
  lemma TickFollowsTheListings(p: Provider, reg: Registry, first: Listing, second: Listing, token: TokenId,
                               deviceToken: Option<TokenId>)
    requires WellKeyed(reg)
    ensures var tick := Tick(p, reg, first, second, token, deviceToken);
            && tick.created == Names(first) - reg.Keys
            && Follows(reg, tick.registry, Names(first) - reg.Keys, Names(second))
            && RemovedIds(tick) ==
               (ContainerKeys(reg) + (Names(first) - reg.Keys)) - Names(second)
  {
    AddDiscoveredAdds(p, reg, first, token, deviceToken);
    var (reg', created) := AddDiscovered(p, reg, first, token, deviceToken);
    RemovalFollows(reg, reg', created, second);
    RemovedIdentifiers(reg', Missing(reg', second));
  }

  lemma RemovedIdentifiers(reg: Registry, missing: set<string>)
    requires WellKeyed(reg) && missing <= ContainerKeys(reg)
    ensures var removed := set k | k in reg && k in missing :: reg[k];
            (set d | d in removed :: Identifier(d)) == missing
  {
    var removed := set k | k in reg && k in missing :: reg[k];
    forall k | k in missing
      ensures exists d :: d in removed && Identifier(d) == k
    {
      assert k in reg && reg[k] in removed && Identifier(reg[k]) == k;
    }
  }

  // ----- Runs of ticks -----

  datatype Listings = Listings(first: Listing, second: Listing, token: TokenId)

  function Outcomes(p: Provider, reg: Registry, ticks: seq<Listings>, deviceToken: Option<TokenId>): seq<TickOutcome>
    decreases ticks
  {
    if ticks == [] then []
    else
      var tick := Tick(p, reg, ticks[0].first, ticks[0].second, ticks[0].token, deviceToken);
      [tick] + Outcomes(p, tick.registry, ticks[1..], deviceToken)
  }

  function RegistryAfter(p: Provider, reg: Registry, ticks: seq<Listings>, deviceToken: Option<TokenId>): Registry
    decreases ticks
  {
    if ticks == [] then reg
    else
      var tick := Tick(p, reg, ticks[0].first, ticks[0].second, ticks[0].token, deviceToken);
      RegistryAfter(p, tick.registry, ticks[1..], deviceToken)
  }

  /** What a reader of the events makes of a set of identifiers. */
  function ReplayEvents(known: set<string>, outcomes: seq<TickOutcome>): set<string>
    decreases outcomes
  {
    if outcomes == [] then known
    else ReplayEvents((known + outcomes[0].created) - RemovedIds(outcomes[0]), outcomes[1..])
  }

  /** Applying the events of any run of ticks to the identifiers the registry began with yields the identifiers it
      holds. */
  lemma {:induction false} EventsTellTheRegistry(p: Provider, reg: Registry, ticks: seq<Listings>,
                                                 deviceToken: Option<TokenId>)
    requires WellKeyed(reg)
    ensures WellKeyed(RegistryAfter(p, reg, ticks, deviceToken))
    ensures ReplayEvents(reg.Keys, Outcomes(p, reg, ticks, deviceToken)) ==
            RegistryAfter(p, reg, ticks, deviceToken).Keys
    decreases ticks
  {
    if ticks == [] {
    } else {
      var l := ticks[0];
      var tick := Tick(p, reg, l.first, l.second, l.token, deviceToken);
      TickFollowsTheListings(p, reg, l.first, l.second, l.token, deviceToken);
      assert tick.registry.Keys == (reg.Keys + tick.created) - RemovedIds(tick);
      EventsTellTheRegistry(p, tick.registry, ticks[1..], deviceToken);
      assert Outcomes(p, reg, ticks, deviceToken)[1..] == Outcomes(p, tick.registry, ticks[1..], deviceToken);
    }
  }

  /** A listing that shows every container of a well-keyed registry and nothing that it lacks leaves it as it is. */
  lemma KnownListingIsSilent(p: Provider, reg: Registry, listing: Listing, token: TokenId,
                             deviceToken: Option<TokenId>)
    requires WellKeyed(reg) && ContainerKeys(reg) <= Names(listing) <= reg.Keys
    ensures Tick(p, reg, listing, listing, token, deviceToken) == TickOutcome(reg, {}, {})
  {
    AddDiscoveredAdds(p, reg, listing, token, deviceToken);
    var (reg', created) := AddDiscovered(p, reg, listing, token, deviceToken);
    assert created == {} && reg' == reg;
    MissingKeys(reg, listing);
    assert Missing(reg', listing) == {};
    assert reg' - {} == reg;
  }

  /** A tick that finds the listing that ended the tick before it unchanged reports nothing and changes nothing, unless
      that listing showed a container that was neither held nor in the listing before. */
  lemma RepeatedListingIsSilent(p: Provider, reg: Registry, first: Listing, listing: Listing, token: TokenId,
                                again: TokenId, deviceToken: Option<TokenId>)
    requires WellKeyed(reg) && Names(listing) <= Names(first) + reg.Keys
    ensures var tick := Tick(p, reg, first, listing, token, deviceToken);
            Tick(p, tick.registry, listing, listing, again, deviceToken) == TickOutcome(tick.registry, {}, {})
  {
    TickFollowsTheListings(p, reg, first, listing, token, deviceToken);
    KnownListingIsSilent(p, Tick(p, reg, first, listing, token, deviceToken).registry, listing, again, deviceToken);
  }

  // ----- Where the events or the keys go wrong, exactly -----

  /** A tick whose second listing fails changes the keys if and only if the first listing brought something new; the
      tick after it does not create that again. */
  lemma FailedTickAddsIff(p: Provider, reg: Registry, first: Listing, next: Listings, token: TokenId,
                          deviceToken: Option<TokenId>)
    ensures var reg' := AddDiscovered(p, reg, first, token, deviceToken).0;
            && (reg'.Keys == reg.Keys <==> Names(first) <= reg.Keys)
            && Tick(p, reg', next.first, next.second, next.token, deviceToken).created !! Names(first)
  {
    AddedLookup(p, reg, first, token, deviceToken);
    var reg' := AddDiscovered(p, reg, first, token, deviceToken).0;
    AddedLookup(p, reg', next.first, next.token, deviceToken);
  }

  /** An event of the run names `name`. */
  ghost predicate Told(outcomes: seq<TickOutcome>, name: string) {
    exists o :: o in outcomes && (name in o.created || name in RemovedIds(o))
  }

  /** Every second listing of the run shows `name`. */
  predicate AlwaysListed(ticks: seq<Listings>, name: string) {
    forall l :: l in ticks ==> name in Names(l.second)
  }

  lemma ToldNowOrLater(outcomes: seq<TickOutcome>, name: string)
    requires outcomes != []
    ensures Told(outcomes, name) <==>
            name in outcomes[0].created || name in RemovedIds(outcomes[0]) || Told(outcomes[1..], name)
  {
    assert outcomes == [outcomes[0]] + outcomes[1..];
  }

  /** Some event of a run names a container that the registry holds if and only if some second listing misses it. */
  lemma {:induction false} HeldContainerIsToldIff(p: Provider, reg: Registry, ticks: seq<Listings>, name: string,
                                                  deviceToken: Option<TokenId>)
    requires WellKeyed(reg) && name in ContainerKeys(reg)
    ensures Told(Outcomes(p, reg, ticks, deviceToken), name) <==> !AlwaysListed(ticks, name)
    ensures AlwaysListed(ticks, name) ==> name in RegistryAfter(p, reg, ticks, deviceToken)
    decreases ticks
  {
    if ticks == [] {
    } else {
      var l, rest := ticks[0], ticks[1..];
      var tick := Tick(p, reg, l.first, l.second, l.token, deviceToken);
      TickFollowsTheListings(p, reg, l.first, l.second, l.token, deviceToken);
      ToldNowOrLater(Outcomes(p, reg, ticks, deviceToken), name);
      assert Outcomes(p, reg, ticks, deviceToken)[1..] == Outcomes(p, tick.registry, rest, deviceToken);
      assert ticks == [l] + rest;
      if name in Names(l.second) {
        HeldContainerIsToldIff(p, tick.registry, rest, name, deviceToken);
      }
    }
  }

  /** The containers a run leaves unnamed, of some that the registry holds. */
  function Untold(names: set<string>, ticks: seq<Listings>): set<string> {
    set n | n in names && AlwaysListed(ticks, n)
  }

  lemma {:induction false} EventsMissUntold(p: Provider, reg: Registry, names: set<string>, ticks: seq<Listings>,
                                            deviceToken: Option<TokenId>)
    requires WellKeyed(reg) && names <= ContainerKeys(reg)
    ensures var end := RegistryAfter(p, reg, ticks, deviceToken);
            && Untold(names, ticks) <= end.Keys
            && ReplayEvents(reg.Keys - names, Outcomes(p, reg, ticks, deviceToken)) == end.Keys - Untold(names, ticks)
    decreases ticks
  {
    if ticks == [] {
      assert Untold(names, ticks) == names;
    } else {
      var l, rest := ticks[0], ticks[1..];
      var tick := Tick(p, reg, l.first, l.second, l.token, deviceToken);
      TickFollowsTheListings(p, reg, l.first, l.second, l.token, deviceToken);
      var left := names * Names(l.second);
      EventsMissUntold(p, tick.registry, left, rest, deviceToken);
      assert ticks == [l] + rest;
      assert Untold(names, ticks) == Untold(left, rest);
      assert tick.registry.Keys - left == ((reg.Keys - names) + tick.created) - RemovedIds(tick);
      assert Outcomes(p, reg, ticks, deviceToken)[1..] == Outcomes(p, tick.registry, rest, deviceToken);
    }
  }

  /** A tick whose second listing fails keeps what it added and reports nothing. A reader of the events of any run of
      ticks that follows then knows every identifier held but the new ones that have been listed ever since; so the
      events tell the registry again if and only if every one of those has been missing from some second listing. */
  lemma FailedTickIsToldIff(p: Provider, reg: Registry, first: Listing, ticks: seq<Listings>, token: TokenId,
                            deviceToken: Option<TokenId>)
    requires WellKeyed(reg)
    ensures var reg' := AddDiscovered(p, reg, first, token, deviceToken).0;
            var known := ReplayEvents(reg.Keys, Outcomes(p, reg', ticks, deviceToken));
            var held := RegistryAfter(p, reg', ticks, deviceToken).Keys;
            && known == held - Untold(Names(first) - reg.Keys, ticks)
            && (known == held <==> forall n :: n in Names(first) - reg.Keys ==> !AlwaysListed(ticks, n))
  {
    var (reg', created) := AddDiscovered(p, reg, first, token, deviceToken);
    AddDiscoveredAdds(p, reg, first, token, deviceToken);
    RemovalFollows(reg, reg', created, first);
    EventsMissUntold(p, reg', created, ticks, deviceToken);
    assert reg'.Keys - created == reg.Keys;
    assert forall n :: n in created && AlwaysListed(ticks, n) ==> n in Untold(created, ticks);
  }

  // ----- Runs in which ticks succeed and fail -----

  /** A tick whose listings both arrived, or one whose second listing failed. */
  datatype Attempt = Full(listings: Listings) | Half(first: Listing, token: TokenId)

  function AfterAttempt(p: Provider, reg: Registry, a: Attempt, deviceToken: Option<TokenId>): Registry {
    match a
    case Full(l) => Tick(p, reg, l.first, l.second, l.token, deviceToken).registry
    case Half(first, token) => AddDiscovered(p, reg, first, token, deviceToken).0
  }

  function AfterAttempts(p: Provider, reg: Registry, run: seq<Attempt>, deviceToken: Option<TokenId>): Registry
    decreases run
  {
    if run == [] then reg else AfterAttempts(p, AfterAttempt(p, reg, run[0], deviceToken), run[1..], deviceToken)
  }

  /** Only a full tick reports. */
  function OutcomesOf(p: Provider, reg: Registry, run: seq<Attempt>, deviceToken: Option<TokenId>): seq<TickOutcome>
    decreases run
  {
    if run == [] then []
    else
      (match run[0]
       case Full(l) => [Tick(p, reg, l.first, l.second, l.token, deviceToken)]
       case Half(_, _) => [])
      + OutcomesOf(p, AfterAttempt(p, reg, run[0], deviceToken), run[1..], deviceToken)
  }

  /** What a run leaves unreported, starting from `names`: a half tick adds what it creates, a full tick reports what
      its second listing misses. */
  function Unreported(p: Provider, reg: Registry, names: set<string>, run: seq<Attempt>, deviceToken: Option<TokenId>)
    : set<string>
    decreases run
  {
    if run == [] then names
    else
      var names' := match run[0]
                    case Full(l) => names * Names(l.second)
                    case Half(first, _) => names + (Names(first) - reg.Keys);
      Unreported(p, AfterAttempt(p, reg, run[0], deviceToken), names', run[1..], deviceToken)
  }

  /** Every full tick of the run lists `n` in the end. */
  predicate AlwaysShown(run: seq<Attempt>, n: string) {
    forall a :: a in run && a.Full? ==> n in Names(a.listings.second)
  }

  /** The attempt at place `i` is a half tick that creates `n`, and every full tick since lists it in the end. */
  predicate CreatedAt(p: Provider, reg: Registry, run: seq<Attempt>, deviceToken: Option<TokenId>, n: string, i: nat)
    requires i < |run|
  {
    && run[i].Half?
    && n in Names(run[i].first) && n !in AfterAttempts(p, reg, run[..i], deviceToken)
    && AlwaysShown(run[i + 1..], n)
  }

  ghost predicate CreatedUnseen(p: Provider, reg: Registry, run: seq<Attempt>, deviceToken: Option<TokenId>, n: string)
  {
    exists i: nat :: i < |run| && CreatedAt(p, reg, run, deviceToken, n, i)
  }

  lemma CreatedLater(p: Provider, reg: Registry, run: seq<Attempt>, deviceToken: Option<TokenId>, n: string, i: nat)
    requires 0 < i < |run|
    ensures CreatedAt(p, reg, run, deviceToken, n, i) <==>
            CreatedAt(p, AfterAttempt(p, reg, run[0], deviceToken), run[1..], deviceToken, n, i - 1)
  {
    assert run[..i][1..] == run[1..][..i - 1];
    assert run[i + 1..] == run[1..][i..];
  }

  lemma CreatedNowOrLater(p: Provider, reg: Registry, run: seq<Attempt>, deviceToken: Option<TokenId>, n: string)
    requires run != []
    ensures CreatedUnseen(p, reg, run, deviceToken, n) <==>
            (run[0].Half? && n in Names(run[0].first) - reg.Keys && AlwaysShown(run[1..], n)) ||
            CreatedUnseen(p, AfterAttempt(p, reg, run[0], deviceToken), run[1..], deviceToken, n)
  {
    var rest, reg' := run[1..], AfterAttempt(p, reg, run[0], deviceToken);
    assert CreatedAt(p, reg, run, deviceToken, n, 0) <==>
           run[0].Half? && n in Names(run[0].first) - reg.Keys && AlwaysShown(rest, n);
    if i: nat :| i < |run| && CreatedAt(p, reg, run, deviceToken, n, i) {
      if i > 0 {
        CreatedLater(p, reg, run, deviceToken, n, i);
      }
    }
    if j: nat :| j < |rest| && CreatedAt(p, reg', rest, deviceToken, n, j) {
      CreatedLater(p, reg, run, deviceToken, n, j + 1);
      assert CreatedAt(p, reg, run, deviceToken, n, j + 1);
    }
  }

  lemma {:induction false} UnreportedIff(p: Provider, reg: Registry, names: set<string>, run: seq<Attempt>,
                                         deviceToken: Option<TokenId>, n: string)
    ensures n in Unreported(p, reg, names, run, deviceToken) <==>
            (n in names && AlwaysShown(run, n)) || CreatedUnseen(p, reg, run, deviceToken, n)
    decreases run
  {
    if run == [] {
    } else {
      CreatedNowOrLater(p, reg, run, deviceToken, n);
      assert run == [run[0]] + run[1..];
      var names' := match run[0]
                    case Full(l) => names * Names(l.second)
                    case Half(first, _) => names + (Names(first) - reg.Keys);
      UnreportedIff(p, AfterAttempt(p, reg, run[0], deviceToken), names', run[1..], deviceToken, n);
    }
  }

  lemma HalfKeeps(p: Provider, reg: Registry, first: Listing, token: TokenId, deviceToken: Option<TokenId>)
    requires WellKeyed(reg)
    ensures var reg' := AddDiscovered(p, reg, first, token, deviceToken).0;
            && WellKeyed(reg')
            && reg'.Keys == reg.Keys + Names(first)
            && ContainerKeys(reg') == ContainerKeys(reg) + (Names(first) - reg.Keys)
  {
    AddDiscoveredAdds(p, reg, first, token, deviceToken);
    var (reg', created) := AddDiscovered(p, reg, first, token, deviceToken);
    RemovalFollows(reg, reg', created, first);
    assert ContainerKeys(reg') == ContainerKeys(reg) + created;
  }

  lemma {:induction false} EventsMissUnreported(p: Provider, reg: Registry, names: set<string>, run: seq<Attempt>,
                                                deviceToken: Option<TokenId>)
    requires WellKeyed(reg) && names <= ContainerKeys(reg)
    ensures var end := AfterAttempts(p, reg, run, deviceToken);
            var left := Unreported(p, reg, names, run, deviceToken);
            && WellKeyed(end) && left <= ContainerKeys(end)
            && ReplayEvents(reg.Keys - names, OutcomesOf(p, reg, run, deviceToken)) == end.Keys - left
    decreases run
  {
    if run == [] {
    } else {
      var reg', rest := AfterAttempt(p, reg, run[0], deviceToken), run[1..];
      match run[0]
      case Full(l) =>
        var tick := Tick(p, reg, l.first, l.second, l.token, deviceToken);
        TickFollowsTheListings(p, reg, l.first, l.second, l.token, deviceToken);
        EventsMissUnreported(p, reg', names * Names(l.second), rest, deviceToken);
        assert reg'.Keys - names * Names(l.second) == ((reg.Keys - names) + tick.created) - RemovedIds(tick);
        assert OutcomesOf(p, reg, run, deviceToken)[1..] == OutcomesOf(p, reg', rest, deviceToken);
      case Half(first, token) =>
        HalfKeeps(p, reg, first, token, deviceToken);
        EventsMissUnreported(p, reg', names + (Names(first) - reg.Keys), rest, deviceToken);
        assert reg'.Keys - (names + (Names(first) - reg.Keys)) == reg.Keys - names;
        assert OutcomesOf(p, reg, run, deviceToken) == OutcomesOf(p, reg', rest, deviceToken);
    }
  }

  /** Over any run in which ticks succeed and fail, a reader of the events knows every identifier held but those that
      some failed tick created and every successful tick since has listed; so the events tell the registry if and only
      if there is no such identifier. */
  lemma EventsTellMixedRunIff(p: Provider, reg: Registry, run: seq<Attempt>, deviceToken: Option<TokenId>)
    requires WellKeyed(reg)
    ensures var known := ReplayEvents(reg.Keys, OutcomesOf(p, reg, run, deviceToken));
            var held := AfterAttempts(p, reg, run, deviceToken).Keys;
            && (forall n :: n in known <==> n in held && !CreatedUnseen(p, reg, run, deviceToken, n))
            && (known == held <==> forall n :: !CreatedUnseen(p, reg, run, deviceToken, n))
  {
    EventsMissUnreported(p, reg, {}, run, deviceToken);
    assert reg.Keys - {} == reg.Keys;
    forall n
      ensures n in Unreported(p, reg, {}, run, deviceToken) <==> CreatedUnseen(p, reg, run, deviceToken, n)
    {
      UnreportedIff(p, reg, {}, run, deviceToken, n);
    }
  }

  /** `get_devices`: the container devices and the host device, keyed by their details. */
  function InitialDevices(p: Provider, listing: Listing, host: Device, token: TokenId): Registry {
    KeyedByDetails(map[], ContainerDevices(p, listing, token) + [host])
  }

  lemma {:induction false} KeyedLookup(reg: Registry, devices: seq<Device>)
    ensures forall k :: k in KeyedByDetails(reg, devices) ==>
              var found := KeyedByDetails(reg, devices)[k];
              (found in devices && found.identifier == k) || (k in reg && found == reg[k])
    ensures forall d :: d in devices ==> d.identifier in KeyedByDetails(reg, devices)
    ensures forall d, k :: d in devices && k == d.identifier ==> KeyedByDetails(reg, devices)[k] in devices
    ensures reg.Keys <= KeyedByDetails(reg, devices).Keys
    decreases devices
  {
    if devices == [] {
    } else {
      KeyedLookup(reg[devices[0].identifier := devices[0]], devices[1..]);
      assert devices == [devices[0]] + devices[1..];
    }
  }

  /** With distinct identifiers, the initial registry is well keyed if and only if every container's identifier, the
      slug of its prefixed name, is its name. */
  lemma InitialWellKeyedIff(p: Provider, listing: Listing, host: Device, token: TokenId)
    requires host.sourceId.None?
    requires forall a, b :: a in SourceNames(listing) && b in SourceNames(listing) ==>
               (DeviceIdentifier(p, a) == DeviceIdentifier(p, b) ==> a == b)
    requires forall a :: a in SourceNames(listing) ==> DeviceIdentifier(p, a) != host.identifier
    ensures WellKeyed(InitialDevices(p, listing, host, token)) <==>
            forall a :: a in SourceNames(listing) ==> DeviceIdentifier(p, a) == a
  {
    var made := ContainerDevices(p, listing, token);
    var reg := InitialDevices(p, listing, host, token);
    DevicesMade(p, listing, token);
    KeyedLookup(map[], made + [host]);
    forall a | a in SourceNames(listing)
      ensures DeviceIdentifier(p, a) in reg && reg[DeviceIdentifier(p, a)].sourceId == Some(a)
    {
      assert a in Identifiers(made);
      var d :| d in made && Identifier(d) == a;
      assert d == ContainerDevice(p, a, token) && d in made + [host];
      var found := reg[d.identifier];
      assert found in made + [host] && found.identifier == d.identifier;
      assert found != host && found in made;
      assert found == ContainerDevice(p, Identifier(found), token) && Identifier(found) in Identifiers(made);
    }
    forall k | k in reg && reg[k].sourceId.Some?
      ensures reg[k].metadata == [] && reg[k].sourceId.value in SourceNames(listing)
      ensures k == DeviceIdentifier(p, reg[k].sourceId.value)
    {
      var found := reg[k];
      assert found in made + [host];
      assert found in made && found == ContainerDevice(p, Identifier(found), token);
      assert Identifier(found) in Identifiers(made);
    }
  }

  /** A container whose identifier is not its name is taken for a new one by the first tick that lists it. If it is
      still listed, the tick leaves it under its name, and its first entry stays beside it, with the same identifier,
      if and only if a container is listed under that identifier as its name or no removable device has it as source
      id. */
  lemma MiskeyedContainerIsDoubled(p: Provider, reg: Registry, first: Listing, second: Listing, name: string,
                                   token: TokenId, deviceToken: Option<TokenId>)
    requires var k := DeviceIdentifier(p, name);
             k in reg && k != name && name !in reg && reg[k] == ContainerDevice(p, name, reg[k].token)
    requires name in Names(first) && name in Names(second)
    ensures var k, tick := DeviceIdentifier(p, name), Tick(p, reg, first, second, token, deviceToken);
            && name in tick.created && name in tick.registry
            && (k in tick.registry <==>
                  k in Names(second) ||
                  forall l :: l in reg && reg[l].sourceId == Some(k) ==> HOST_DEVICE_METADATA in reg[l].metadata)
            && (k in tick.registry ==>
                  tick.registry[k] == reg[k] && tick.registry[name].identifier == reg[k].identifier)
  {
    AddedLookup(p, reg, first, token, deviceToken);
    var (reg', created) := AddDiscovered(p, reg, first, token, deviceToken);
    var k := DeviceIdentifier(p, name);
    assert forall l :: l in created ==> reg'[l].sourceId == Some(l) && l != k;
    assert name !in Missing(reg', second);
    if k in Missing(reg', second) {
      var l :| l in reg' && reg'[l].sourceId == Some(k) && HOST_DEVICE_METADATA !in reg'[l].metadata;
      assert l in reg;
    }
  }

  /** No tick creates a device under a key that is taken. */
  lemma TakenKeyIsNotCreated(p: Provider, reg: Registry, first: Listing, second: Listing, token: TokenId,
                             deviceToken: Option<TokenId>, k: string)
    requires k in reg
    ensures k !in Tick(p, reg, first, second, token, deviceToken).created
  {
    AddedLookup(p, reg, first, token, deviceToken);
  }

  /** No device that may be removed has `k` as its source id. */
  predicate NobodysSource(reg: Registry, k: string) {
    forall l :: l in reg && reg[l].sourceId == Some(k) ==> HOST_DEVICE_METADATA in reg[l].metadata
  }

  lemma AttemptKeepsNobodysSource(p: Provider, reg: Registry, k: string, a: Attempt, deviceToken: Option<TokenId>)
    requires k in reg && NobodysSource(reg, k)
    ensures var reg' := AfterAttempt(p, reg, a, deviceToken); k in reg' && reg'[k] == reg[k] && NobodysSource(reg', k)
  {
    var first := if a.Full? then a.listings.first else a.first;
    var token := if a.Full? then a.listings.token else a.token;
    AddedLookup(p, reg, first, token, deviceToken);
    var reg' := AddDiscovered(p, reg, first, token, deviceToken).0;
    assert NobodysSource(reg', k);
  }

  /** A device whose key is nobody's source id is never removed, whatever is listed and whichever ticks fail; and a
      container with that very name never gets a device. */
  lemma {:induction false} MiskeyedDeviceIsNeverRemoved(p: Provider, reg: Registry, k: string, run: seq<Attempt>,
                                                        deviceToken: Option<TokenId>)
    requires k in reg && NobodysSource(reg, k)
    ensures k in AfterAttempts(p, reg, run, deviceToken) && AfterAttempts(p, reg, run, deviceToken)[k] == reg[k]
    ensures forall o :: o in OutcomesOf(p, reg, run, deviceToken) ==> k !in o.created
    decreases run
  {
    if run == [] {
    } else {
      AttemptKeepsNobodysSource(p, reg, k, run[0], deviceToken);
      MiskeyedDeviceIsNeverRemoved(p, AfterAttempt(p, reg, run[0], deviceToken), k, run[1..], deviceToken);
      if run[0].Full? {
        var l := run[0].listings;
        TakenKeyIsNotCreated(p, reg, l.first, l.second, l.token, deviceToken, k);
      }
    }
  }

  /** Some run of ticks ends without a device under `k`. */
  ghost predicate CanBeRemoved(p: Provider, reg: Registry, k: string, deviceToken: Option<TokenId>) {
    exists run :: k !in AfterAttempts(p, reg, run, deviceToken)
  }

  /** The device under a key can ever be removed if and only if some removable device has that key as its source id. */
  lemma DeviceCanBeRemovedIff(p: Provider, reg: Registry, k: string, deviceToken: Option<TokenId>)
    requires k in reg
    ensures CanBeRemoved(p, reg, k, deviceToken) <==> !NobodysSource(reg, k)
  {
    if NobodysSource(reg, k) {
      forall run
        ensures k in AfterAttempts(p, reg, run, deviceToken)
      {
        MiskeyedDeviceIsNeverRemoved(p, reg, k, run, deviceToken);
      }
    } else {
      var none := Full(Listings([], [], 0));
      AddedLookup(p, reg, [], 0, deviceToken);
      assert AddDiscovered(p, reg, [], 0, deviceToken).0 == reg;
      assert k in Missing(reg, []);
      var reg' := AfterAttempt(p, reg, none, deviceToken);
      assert AfterAttempts(p, reg, [none], deviceToken) == AfterAttempts(p, reg', [], deviceToken);
    }
  }

  // ----- Devices outlive sessions -----

  /** A tick that fails after it has added devices has given them the process token too. */
  lemma {:induction false} TicksKeepToken(p: Provider, reg: Registry, run: seq<Attempt>, token: TokenId)
    requires AllCarry(reg, token)
    ensures AllCarry(AfterAttempts(p, reg, run, Some(token)), token)
    decreases run
  {
    if run == [] {
    } else {
      var first := if run[0].Full? then run[0].listings.first else run[0].first;
      var session := if run[0].Full? then run[0].listings.token else run[0].token;
      AddedDevicesCarry(reg, ContainerDevices(p, NewContainers(first, reg.Keys), session), token);
      TicksKeepToken(p, AfterAttempt(p, reg, run[0], Some(token)), run[1..], token);
    }
  }

  /** Whatever tokens of whatever sessions discover devices, also in ticks cut off half-way, and whatever sources are
      cancelled in whatever interleaving, as long as the process's own source is not: every device's own token stays
      unflagged, so none of its waits is refused. */
  lemma {:induction false} DevicesOutliveSessions(p: Provider, parts: seq<Registry>, run: seq<Attempt>,
                                                  token: TokenId, st: Protocol.State, steps: seq<Protocol.Step>,
                                                  k: string)
    requires forall i :: 0 <= i < |parts| ==> AllCarry(parts[i], token)
    requires Protocol.Inv(st) && token < |st.tokens| && st.sources[st.tokens[token].source].cutoff.None?
    requires Protocol.BeginCancel(st.tokens[token].source) !in steps
    requires k in AfterAttempts(p, Unions(parts), run, Some(token))
    ensures var own := AfterAttempts(p, Unions(parts), run, Some(token))[k].token;
            own == token && own < |Protocol.Run(st, steps).tokens| && !Protocol.Run(st, steps).tokens[own].flagged
  {
    UnionsCarry(parts, token);
    TicksKeepToken(p, Unions(parts), run, token);
    Protocol.UncancelledSourceNeverFlags(st, steps, token);
  }

  // ----- Commands and records of container devices -----

  /** A device that takes the commands of the container `name`, whatever state its handlers are in. */
  predicate TakesCommandsOf(p: Provider, d: Device, name: string) {
    && d.identifier == DeviceIdentifier(p, name)
    && |d.handlers| == |HANDLER_BUTTONS|
    && forall i :: 0 <= i < |HANDLER_BUTTONS| ==>
         d.handlers[i].commandTopics == HandlerOf(p, name, HANDLER_BUTTONS[i]).commandTopics
  }

  /** Container devices, and devices that take no command. */
  ghost predicate OfContainers(p: Provider, reg: Registry) {
    forall k :: k in reg ==>
      match reg[k].sourceId
      case Some(name) => TakesCommandsOf(p, reg[k], name)
      case None => forall h :: h in reg[k].handlers ==> h.commandTopics == []
  }

  /** What is asked of `slug`: one topic level, and button names stay apart. */
  ghost predicate Slugs(slug: string -> string) {
    && (forall s :: LevelName(slug(s)))
    && (forall i, j :: 0 <= i < |HANDLER_BUTTONS| && 0 <= j < |HANDLER_BUTTONS| && i != j &&
                       HANDLER_BUTTONS[i].Some? && HANDLER_BUTTONS[j].Some? ==>
          slug(HANDLER_BUTTONS[i].value) != slug(HANDLER_BUTTONS[j].value))
  }

  /** No two containers have the same identifier. */
  predicate IdentifiersApart(reg: Registry) {
    forall k, l ::
      k in reg && l in reg && reg[k].sourceId.Some? && reg[l].sourceId.Some? && reg[k].identifier == reg[l].identifier
      ==> k == l
  }

  lemma ClaimsOfContainers(p: Provider, reg: Registry, k: string, i: nat, l: string, j: nat, topic: string)
    requires OfContainers(p, reg) && Slugs(p.slug) && k in reg && l in reg
    requires Dispatch.Claims(reg[k], i, topic) && Dispatch.Claims(reg[l], j, topic)
    ensures reg[k].sourceId.Some? && reg[l].sourceId.Some? && reg[k].identifier == reg[l].identifier && i == j
  {
    assert reg[k].handlers[i] in reg[k].handlers && reg[l].handlers[j] in reg[l].handlers;
    var e := EntityOf(p, reg[k].sourceId.value, HANDLER_BUTTONS[i].value);
    var f := EntityOf(p, reg[l].sourceId.value, HANDLER_BUTTONS[j].value);
    TopicsCoincide(e, None, Kind.Command, f, None, Kind.Command);
  }

  lemma SharedRestart(p: Provider, reg: Registry, k: string, l: string)
    requires OfContainers(p, reg) && k in reg && l in reg
    requires reg[k].sourceId.Some? && reg[l].sourceId.Some? && reg[k].identifier == reg[l].identifier
    ensures var topic := TopicFor(EntityOf(p, reg[k].sourceId.value, "Restart"), None, Kind.Command);
            Dispatch.Claims(reg[k], 4, topic) && Dispatch.Claims(reg[l], 4, topic)
  {
    var topic := TopicFor(EntityOf(p, reg[k].sourceId.value, "Restart"), None, Kind.Command);
    assert reg[k].handlers[4].commandTopics == [topic] && reg[l].handlers[4].commandTopics == [topic];
  }

  /** In a registry of container devices and devices without commands, command topics are pairwise disjoint if and only
      if no two containers share an identifier. */
  lemma ContainerTopicsDisjointIff(p: Provider, reg: Registry)
    requires OfContainers(p, reg) && Slugs(p.slug)
    ensures Dispatch.DisjointTopics(reg) <==> IdentifiersApart(reg)
  {
    forall k, i: nat, l, j: nat, topic |
      k in reg && l in reg && Dispatch.Claims(reg[k], i, topic) && Dispatch.Claims(reg[l], j, topic)
      ensures reg[k].sourceId.Some? && reg[l].sourceId.Some? && reg[k].identifier == reg[l].identifier && i == j
    {
      ClaimsOfContainers(p, reg, k, i, l, j, topic);
    }
    if k, l :| k in reg && l in reg && reg[k].sourceId.Some? && reg[l].sourceId.Some? &&
               reg[k].identifier == reg[l].identifier && k != l {
      SharedRestart(p, reg, k, l);
    }
  }

  /** And exactly then the order in which the devices are visited makes no difference to any command. */
  lemma ContainerOrderIrrelevantIff(p: Provider, reg: Registry)
    requires OfContainers(p, reg) && Slugs(p.slug)
    ensures (forall topic :: Dispatch.OrderIrrelevant(reg, topic)) <==> IdentifiersApart(reg)
  {
    ContainerTopicsDisjointIff(p, reg);
    if IdentifiersApart(reg) {
      forall topic
        ensures Dispatch.OrderIrrelevant(reg, topic)
      {
        Dispatch.OrderIrrelevantIff(reg, topic);
      }
    }
    if k, l :| k in reg && l in reg && reg[k].sourceId.Some? && reg[l].sourceId.Some? &&
               reg[k].identifier == reg[l].identifier && k != l {
      SharedRestart(p, reg, k, l);
      var topic := TopicFor(EntityOf(p, reg[k].sourceId.value, "Restart"), None, Kind.Command);
      Dispatch.OrderIrrelevantIff(reg, topic);
      assert !Dispatch.OneDeviceClaims(reg, topic);
    }
  }

  /** A tick's purge forgets every topic of every entity of a removed device, and keeps every record of a device whose
      identifier no removed device has. */
  lemma TickForgetsItsRemovedDevices(cache: Payloads, removed: set<Device>, d: Device, e: EntityDetails,
                                     item: Option<string>, kind: Kind)
    requires e in d.entities
    ensures var kept := Retained(cache, PathsOf(EntitiesOf(removed)));
            && (d in removed ==> TopicFor(e, item, kind) !in kept)
            && ((forall r, f :: r in removed && f in r.entities ==>
                   f.deviceIdentifier == r.identifier && LevelName(f.deviceIdentifier) && LevelName(f.id)) &&
                e.deviceIdentifier == d.identifier && LevelName(e.deviceIdentifier) &&
                (forall r :: r in removed ==> r.identifier != d.identifier)
                ==> (TopicFor(e, item, kind) in kept <==> TopicFor(e, item, kind) in cache))
  {
    PurgeIsPrecise(EntitiesOf(removed), e, item, kind);
  }
}
