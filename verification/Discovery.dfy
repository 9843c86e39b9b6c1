/** Keeping the registry in step with the containers of the engine (cmha/src/container_device.rs), and the events
    that report it (`get_new_and_removed_devices_events_from_device_managers` in cmha/src/update_engine.rs). */
module Discovery {
  import opened Wrappers
  import opened Topics
  import opened MessageCache
  import opened DeviceModel
  import opened Registries
  import Orders

  /** What the engine lists of a container. */
  datatype Container = Container(names: Option<seq<string>>, id: Option<string>)

  type Listing = seq<Container>

  /** `slug` is the library function that makes identifiers. */
  datatype Provider = Provider(name: string, prefix: Option<string>, slug: string -> string)

  const HOST_DEVICE_METADATA := "host_device"

  const ENTITY_NAMES := [
    "Logs", "Get Logs", "Used Memory", "Used CPUs", "Run Status", "Image",
    "Restart", "Start", "Stop", "Remove", "Health"
  ]

  /** The buttons, in the order of their handlers among the others, which take no command. */
  const HANDLER_BUTTONS := [
    None, Some("Get Logs"), None, None,
    Some("Restart"), Some("Start"), Some("Stop"), Some("Remove"), None
  ]

  // ----- Containers and their devices -----

  /** `trim_start_matches('/')`. */
  function TrimSlashes(s: string): string {
    if s != "" && s[0] == '/' then TrimSlashes(s[1..]) else s
  }

  function FirstName(c: Container): Option<string> {
    if c.names.Some? && c.names.value != [] then Some(TrimSlashes(c.names.value[0])) else None
  }

  /** A container with no name is known by its id. */
  function SourceName(c: Container): Option<string> {
    if FirstName(c).Some? then FirstName(c) else c.id
  }

  function Prefixed(p: Provider, name: string): string {
    match p.prefix
    case Some(prefix) => prefix + "_" + name
    case None => name
  }

  function DeviceIdentifier(p: Provider, name: string): string {
    p.slug(Prefixed(p, name))
  }

  function EntityOf(p: Provider, name: string, entity: string): EntityDetails {
    EntityDetails(DeviceIdentifier(p, name), p.slug(entity))
  }

  function HandlerOf(p: Provider, name: string, button: Option<string>): Handler {
    match button
    case Some(b) => Handler([TopicFor(EntityOf(p, name, b), None, Kind.Command)], b, "")
    case None => Handler([], "", "")
  }

  function ContainerDevice(p: Provider, name: string, token: TokenId): Device {
    Device(DeviceIdentifier(p, name), Some(name), [],
           seq(|ENTITY_NAMES|, i requires 0 <= i < |ENTITY_NAMES| => EntityOf(p, name, ENTITY_NAMES[i])),
           seq(|HANDLER_BUTTONS|, i requires 0 <= i < |HANDLER_BUTTONS| => HandlerOf(p, name, HANDLER_BUTTONS[i])),
           token)
  }

  function ContainerDevices(p: Provider, containers: seq<Container>, token: TokenId): seq<Device> {
    if containers == [] then []
    else
      var n := |containers| - 1;
      var devices := ContainerDevices(p, containers[..n], token);
      match SourceName(containers[n])
      case Some(name) => devices + [ContainerDevice(p, name, token)]
      case None => devices
  }

  method CreateContainerDevices(p: Provider, containers: seq<Container>, token: TokenId) returns (devices: seq<Device>)
    ensures devices == ContainerDevices(p, containers, token)
  {
    devices := [];
    for i := 0 to |containers|
      invariant devices == ContainerDevices(p, containers[..i], token)
    {
      assert containers[..i + 1][..i] == containers[..i];
      match SourceName(containers[i]) {
        case Some(name) =>
          devices := devices + [ContainerDevice(p, name, token)];
        case None =>
      }
    }
    assert containers[..|containers|] == containers;
  }

  /** The name of a container is its first one without the slashes in front; without any it is known by its id. */
  lemma SourceNameIs(c: Container)
    ensures SourceName(c).None? <==> (c.names.None? || c.names.value == []) && c.id.None?
    ensures FirstName(c).Some? ==> SourceName(c) == FirstName(c)
    ensures FirstName(c).None? ==> SourceName(c) == c.id
    ensures FirstName(c).Some? ==> exists slashes: nat ::
              slashes <= |c.names.value[0]| && c.names.value[0][slashes..] == FirstName(c).value &&
              forall i :: 0 <= i < slashes ==> c.names.value[0][i] == '/'
    ensures FirstName(c).Some? && FirstName(c).value != "" ==> FirstName(c).value[0] != '/'
  {
    if FirstName(c).Some? {
      var _ := Trimmed(c.names.value[0]);
    }
  }

  lemma {:induction false} Trimmed(s: string) returns (slashes: nat)
    ensures slashes <= |s| && s[slashes..] == TrimSlashes(s) && forall i :: 0 <= i < slashes ==> s[i] == '/'
    ensures TrimSlashes(s) != "" ==> TrimSlashes(s)[0] != '/'
  {
    if s == "" || s[0] != '/' {
      slashes := 0;
    } else {
      slashes := Trimmed(s[1..]);
      slashes := slashes + 1;
    }
  }

  /** Names stay apart under one prefix, and prefixes under one name; without a prefix a name is itself. */
  lemma PrefixedApart(p: Provider, q: Provider, a: string, b: string)
    ensures p.prefix == q.prefix && Prefixed(p, a) == Prefixed(q, b) ==> a == b
    ensures p.prefix.Some? && q.prefix.Some? && Prefixed(p, a) == Prefixed(q, a) ==> p.prefix == q.prefix
    ensures p.prefix.None? ==> Prefixed(p, a) == a
    ensures p.prefix.Some? ==> |Prefixed(p, a)| == |p.prefix.value| + 1 + |a| && p.prefix.value <= Prefixed(p, a)
  {
    if p.prefix.Some? && p.prefix == q.prefix && Prefixed(p, a) == Prefixed(q, b) {
      assert a == Prefixed(p, a)[|p.prefix.value| + 1..];
      assert b == Prefixed(q, b)[|p.prefix.value| + 1..];
    }
    if p.prefix.Some? && q.prefix.Some? && Prefixed(p, a) == Prefixed(q, a) {
      var whole := Prefixed(p, a);
      assert |whole| == |p.prefix.value| + 1 + |a| == |q.prefix.value| + 1 + |a|;
      assert p.prefix.value == whole[..|p.prefix.value|] && q.prefix.value == whole[..|q.prefix.value|];
    }
  }

  /** A container device is known by its name, has the slug of its prefixed name as identifier, and an entity under the
      slug of each of the entity names. */
  lemma ContainerDeviceIs(p: Provider, name: string, token: TokenId)
    ensures var d := ContainerDevice(p, name, token);
            && d.sourceId == Some(name) && d.token == token && d.metadata == []
            && d.identifier == p.slug(if p.prefix.Some? then p.prefix.value + "_" + name else name)
            && |d.entities| == |ENTITY_NAMES|
            && forall i :: 0 <= i < |ENTITY_NAMES| ==>
                 d.entities[i] == EntityDetails(d.identifier, p.slug(ENTITY_NAMES[i]))
  {
  }

  /** Every entity of a container device is the device's own, and the commands it takes are those of its entities: for
      each button but not for the sensors, on the command topic of the entity with the button's name. */
  lemma CommandsAreOfEntities(p: Provider, name: string, token: TokenId, i: nat, topic: string)
    ensures var d := ContainerDevice(p, name, token);
            && (forall e :: e in d.entities ==> e.deviceIdentifier == d.identifier)
            && (i < |d.handlers| && topic in d.handlers[i].commandTopics ==>
                  exists e :: e in d.entities && topic == TopicFor(e, None, Kind.Command))
            && (forall button :: button in ["Get Logs", "Restart", "Start", "Stop", "Remove"] ==>
                  exists h :: h in d.handlers &&
                    TopicFor(EntityDetails(d.identifier, p.slug(button)), None, Kind.Command) in h.commandTopics)
  {
    var d := ContainerDevice(p, name, token);
    if i < |d.handlers| && topic in d.handlers[i].commandTopics {
      var b := HANDLER_BUTTONS[i].value;
      var j := if i == 1 then 1 else i + 2;
      assert ENTITY_NAMES[j] == b;
      assert d.entities[j] == EntityOf(p, name, b) && d.entities[j] in d.entities;
    }
    forall button | button in ["Get Logs", "Restart", "Start", "Stop", "Remove"]
      ensures exists h :: h in d.handlers &&
                TopicFor(EntityDetails(d.identifier, p.slug(button)), None, Kind.Command) in h.commandTopics
    {
      var k := if button == "Get Logs" then 1 else if button == "Restart" then 4 else if button == "Start" then 5
               else if button == "Stop" then 6 else 7;
      assert HANDLER_BUTTONS[k] == Some(button);
      assert d.handlers[k] in d.handlers && d.handlers[k] == HandlerOf(p, name, Some(button));
    }
  }

  /** The names a listing gives; a container without a name gives none. */
  function Names(listing: Listing): set<string> {
    set c | c in listing && FirstName(c).Some? :: FirstName(c).value
  }

  function NewContainers(listing: Listing, known: set<string>): seq<Container> {
    if listing == [] then []
    else
      var n := |listing| - 1;
      var name := FirstName(listing[n]);
      NewContainers(listing[..n], known) + if name.Some? && name.value !in known then [listing[n]] else []
  }

  lemma IdentifiersSnoc(devices: seq<Device>, d: Device)
    ensures Identifiers(devices + [d]) == Identifiers(devices) + {Identifier(d)}
  {
    forall id | id in Identifiers(devices) + {Identifier(d)}
      ensures id in Identifiers(devices + [d])
    {
      var e :| (e in devices || e == d) && id == Identifier(e);
      assert e in devices + [d];
    }
  }

  function SourceNames(containers: seq<Container>): set<string> {
    set c | c in containers && SourceName(c).Some? :: SourceName(c).value
  }

  /** The devices made are those of the containers that have a name or an id, each under its source name. */
  lemma {:induction false} DevicesMade(p: Provider, containers: seq<Container>, token: TokenId)
    ensures Identifiers(ContainerDevices(p, containers, token)) == SourceNames(containers)
    ensures forall d :: d in ContainerDevices(p, containers, token) ==> d == ContainerDevice(p, Identifier(d), token)
  {
    if containers == [] {
    } else {
      var n := |containers| - 1;
      DevicesMade(p, containers[..n], token);
      SnocSourceNames(containers[..n], containers[n]);
      assert containers == containers[..n] + [containers[n]];
      if SourceName(containers[n]).Some? {
        var d := ContainerDevice(p, SourceName(containers[n]).value, token);
        IdentifiersSnoc(ContainerDevices(p, containers[..n], token), d);
      }
    }
  }

  lemma SnocSourceNames(containers: seq<Container>, c: Container)
    ensures SourceNames(containers + [c]) ==
            SourceNames(containers) + if SourceName(c).Some? then {SourceName(c).value} else {}
  {
    forall id | id in SourceNames(containers) || (SourceName(c).Some? && id == SourceName(c).value)
      ensures id in SourceNames(containers + [c])
    {
      var e :| (e in containers || e == c) && SourceName(e) == Some(id);
      assert e in containers + [c];
    }
  }

  lemma {:induction false} NewContainersAre(listing: Listing, known: set<string>)
    ensures forall c :: c in NewContainers(listing, known) <==>
                        c in listing && FirstName(c).Some? && FirstName(c).value !in known
  {
    if listing == [] {
    } else {
      var n := |listing| - 1;
      NewContainersAre(listing[..n], known);
      assert listing == listing[..n] + [listing[n]];
    }
  }

  /** The identifiers reported as created are the names listed that the registry does not hold. */
  lemma CreatedNames(p: Provider, listing: Listing, known: set<string>, token: TokenId)
    ensures Identifiers(ContainerDevices(p, NewContainers(listing, known), token)) == Names(listing) - known
  {
    NewContainersAre(listing, known);
    DevicesMade(p, NewContainers(listing, known), token);
  }

  // ----- One tick -----

  /** `add_discovered_devices` with a listing that arrived: the registry and the identifiers reported. */
  function AddDiscovered(p: Provider, reg: Registry, listing: Listing, token: TokenId, deviceToken: Option<TokenId>)
    : (Registry, set<string>)
  {
    var created := ContainerDevices(p, NewContainers(listing, reg.Keys), token);
    (Extended(reg, Retokened(created, deviceToken)), Identifiers(created))
  }

  /** The source ids of devices that the listing does not show. */
  function Missing(reg: Registry, listing: Listing): set<string> {
    set k |
      && k in reg && reg[k].sourceId.Some?
      && reg[k].sourceId.value !in Names(listing) && HOST_DEVICE_METADATA !in reg[k].metadata
      :: reg[k].sourceId.value
  }

  datatype TickOutcome = TickOutcome(registry: Registry, created: set<string>, removed: set<Device>)

  /** A tick whose two listings arrived. */
  function Tick(p: Provider, reg: Registry, first: Listing, second: Listing, token: TokenId,
                deviceToken: Option<TokenId>)
    : TickOutcome
  {
    var (reg', created) := AddDiscovered(p, reg, first, token, deviceToken);
    var missing := Missing(reg', second);
    TickOutcome(reg' - missing, created, set k | k in reg' && k in missing :: reg'[k])
  }

  datatype UpdateEvent = DevicesCreated(identifiers: set<string>) | DevicesRemoved(devices: seq<Device>)

  /** The first half of a tick fails when its listing does, or when it has something to add and is cancelled. */
  predicate AddingFails(reg: Registry, listing: Result<Listing, DeviceError>, cancelled: bool) {
    listing.Err? || (cancelled && NewContainers(listing.value, reg.Keys) != [])
  }

  method AddDiscoveredDevices(p: Provider, devices: Devices, listing: Result<Listing, DeviceError>, token: TokenId,
                              cancelled: bool)
    returns (r: Result<set<string>, DeviceError>)
    modifies devices`devices
    ensures r.Err? ==> devices.devices == old(devices.devices)
    ensures r.Err? <==> AddingFails(old(devices.devices), listing, cancelled)
    ensures r.Err? ==> r.error == if listing.Err? then listing.error else Cancelled
    ensures r.Ok? ==>
              (devices.devices, r.value) ==
              AddDiscovered(p, old(devices.devices), listing.value, token, devices.deviceCancellationToken)
  {
    if listing.Err? {
      return Err(listing.error);
    }
    var newContainers := NewContainers(listing.value, devices.devices.Keys);
    if newContainers == [] {
      assert Retokened(ContainerDevices(p, newContainers, token), devices.deviceCancellationToken) == [];
      assert Identifiers(ContainerDevices(p, newContainers, token)) == {};
      return Ok({});
    }
    var devicesToAdd := CreateContainerDevices(p, newContainers, token);
    var added := devices.AddDevices(devicesToAdd, cancelled);
    if added.Err? {
      return Err(added.error);
    }
    return Ok(Identifiers(devicesToAdd));
  }

  method RemoveMissingDevices(devices: Devices, listing: Result<Listing, DeviceError>, cancelled: bool)
    returns (r: Result<seq<Device>, DeviceError>)
    modifies devices`devices
    ensures r.Err? ==> devices.devices == old(devices.devices)
    ensures r.Err? <==> listing.Err? || cancelled
    ensures r.Err? ==> r.error == if listing.Err? then listing.error else Cancelled
    ensures r.Ok? ==>
              var missing := Missing(old(devices.devices), listing.value);
              && devices.devices == old(devices.devices) - missing
              && (set d | d in r.value) == set k | k in old(devices.devices) && k in missing :: old(devices.devices)[k]
  {
    if listing.Err? {
      return Err(listing.error);
    }
    var missing := Missing(devices.devices, listing.value);
    ghost var order;
    ghost var before := devices.devices;
    r, order := devices.RemoveDevices(missing, cancelled);
    if r.Ok? {
      RemovedSet(before, missing, order, r.value);
    }
  }

  lemma RemovedSet(reg: Registry, missing: set<string>, order: seq<string>, removed: seq<Device>)
    requires Orders.Lists(order, missing * reg.Keys) && |removed| == |order|
    requires forall i :: 0 <= i < |order| ==> order[i] in reg && removed[i] == reg[order[i]]
    ensures (set d | d in removed) == set k | k in reg && k in missing :: reg[k]
  {
    forall k | k in reg && k in missing
      ensures reg[k] in removed
    {
      assert k in order;
      var i :| 0 <= i < |order| && order[i] == k;
    }
    forall d | d in removed
      ensures exists k :: k in reg && k in missing && d == reg[k]
    {
      var i :| 0 <= i < |removed| && removed[i] == d;
      assert order[i] in missing * reg.Keys;
    }
  }

  function EntitiesOf(devices: set<Device>): set<EntityDetails> {
    set d, e | d in devices && e in d.entities :: e
  }

  /** The whole tick of one provider: add, remove, purge the records of what was removed, report. It fails exactly when
      one of its halves does. When the first does, nothing changes; when the second does, what the first added stays,
      nothing is purged and nothing is reported. */
  method DiscoveryTick(p: Provider, devices: Devices, lastMessages: LastMessages,
                       first: Result<Listing, DeviceError>, second: Result<Listing, DeviceError>,
                       token: TokenId, cancelledAdding: bool, cancelledRemoving: bool)
    returns (r: Result<seq<UpdateEvent>, DeviceError>)
    modifies devices`devices, lastMessages
    ensures
      var refused := AddingFails(old(devices.devices), first, cancelledAdding);
      && (r.Err? <==> refused || second.Err? || cancelledRemoving)
      && (r.Err? ==>
            && lastMessages.messages == old(lastMessages.messages)
            && devices.devices == if refused then old(devices.devices) else
                 AddDiscovered(p, old(devices.devices), first.value, token, devices.deviceCancellationToken).0)
    ensures r.Ok? ==>
              && first.Ok? && second.Ok?
              && (var tick := Tick(p, old(devices.devices), first.value, second.value, token,
                                   devices.deviceCancellationToken);
                  && devices.devices == tick.registry
                  && lastMessages.messages == Retained(old(lastMessages.messages), PathsOf(EntitiesOf(tick.removed)))
                  && Reports(r.value, tick))
  {
    var added := AddDiscoveredDevices(p, devices, first, token, cancelledAdding);
    if added.Err? {
      return Err(added.error);
    }
    var removed := RemoveMissingDevices(devices, second, cancelledRemoving);
    if removed.Err? {
      return Err(removed.error);
    }
    var removedDevices := set d | d in removed.value;
    assert removed.value != [] ==> removed.value[0] in removedDevices;
    lastMessages.Retain(PathsOf(EntitiesOf(removedDevices)));
    var events: seq<UpdateEvent> := [];
    if added.value != {} {
      events := events + [DevicesCreated(added.value)];
    }
    if removed.value != [] {
      events := events + [DevicesRemoved(removed.value)];
    }
    return Ok(events);
  }

  /** The events of a tick: the identifiers created if any, then the devices removed if any. */
  ghost predicate Reports(events: seq<UpdateEvent>, tick: TickOutcome) {
    && |events| == (if tick.created != {} then 1 else 0) + (if tick.removed != {} then 1 else 0)
    && (tick.created != {} ==> events[0] == DevicesCreated(tick.created))
    && (tick.removed != {} ==>
          var last := events[|events| - 1];
          last.DevicesRemoved? && (set d | d in last.devices) == tick.removed)
  }

  /** The events of a tick name exactly what it created and what it removed, and none of them is empty. */
  lemma ReportsTell(events: seq<UpdateEvent>, tick: TickOutcome)
    requires Reports(events, tick)
    ensures (set e, id | e in events && e.DevicesCreated? && id in e.identifiers :: id) == tick.created
    ensures (set e, d | e in events && e.DevicesRemoved? && d in e.devices :: d) == tick.removed
    ensures forall e :: e in events ==> if e.DevicesCreated? then e.identifiers != {} else e.devices != []
  {
    if tick.created != {} {
      assert events[0] in events;
    }
    if tick.removed != {} {
      var last := events[|events| - 1];
      assert last in events;
      assert forall d :: d in tick.removed <==> d in last.devices;
    }
  }
}
