/** The keyed registry of devices (cmha/src/devices/devices.rs). */
module Registries {
  import opened Wrappers
  import opened MessageCache
  import opened DeviceModel
  import opened Dispatch
  import opened Orders

  // ----- Specification -----

  /** `HashMap::extend` with devices under their `identifier()`: a later device replaces an earlier one. */
  function Extended(reg: Registry, devices: seq<Device>): Registry
    decreases devices
  {
    if devices == [] then reg else Extended(reg[Identifier(devices[0]) := devices[0]], devices[1..])
  }

  /** `new_from_many_devices` keys by `details.identifier` instead. */
  function KeyedByDetails(reg: Registry, devices: seq<Device>): Registry
    decreases devices
  {
    if devices == [] then reg else KeyedByDetails(reg[devices[0].identifier := devices[0]], devices[1..])
  }

  function Retokened(devices: seq<Device>, token: Option<TokenId>): seq<Device> {
    match token
    case None => devices
    case Some(t) => seq(|devices|, i requires 0 <= i < |devices| => WithCancellationToken(devices[i], t))
  }

  function Unions(parts: seq<Registry>): Registry {
    if parts == [] then map[] else Unions(parts[..|parts| - 1]) + parts[|parts| - 1]
  }

  /** A provider's registry, and whether something else still shares it. */
  datatype Provided = Provided(devices: Registry, shared: bool)

  function Drained(part: Provided): Registry {
    if part.shared then map[] else part.devices
  }

  function Identifiers(devices: seq<Device>): set<string> {
    set d | d in devices :: Identifier(d)
  }

  /** The provider answers with a registry of its own that holds `k`. */
  predicate Offers(part: Result<Provided, DeviceError>, k: string) {
    part.Ok? && !part.value.shared && k in part.value.devices
  }

  /** A key of the union is a key of some part, and the last such part has its device. */
  lemma {:induction false} UnionsLookup(parts: seq<Registry>)
    ensures forall k :: k in Unions(parts) <==> exists i :: 0 <= i < |parts| && k in parts[i]
    ensures forall i, k ::
              0 <= i < |parts| && k in parts[i] && (forall j :: i < j < |parts| ==> k !in parts[j]) ==>
                k in Unions(parts) && Unions(parts)[k] == parts[i][k]
  {
    if parts == [] {
    } else {
      var n := |parts| - 1;
      UnionsLookup(parts[..n]);
      forall k | k in Unions(parts[..n])
        ensures exists i :: 0 <= i < |parts| && k in parts[i]
      {
        var i :| 0 <= i < n && k in parts[..n][i];
        assert parts[i] == parts[..n][i];
      }
      forall i, k | 0 <= i < |parts| && k in parts[i]
        ensures k in Unions(parts)
        ensures (forall j :: i < j < |parts| ==> k !in parts[j]) ==> Unions(parts)[k] == parts[i][k]
      {
        if i < n {
          assert parts[..n][i] == parts[i];
          assert forall j :: i < j < n ==> parts[..n][j] == parts[j];
        }
      }
    }
  }

  lemma OffersLookup(provided: seq<Result<Provided, DeviceError>>, parts: seq<Registry>)
    requires |parts| == |provided|
    requires forall i :: 0 <= i < |parts| ==> provided[i].Ok? && parts[i] == Drained(provided[i].value)
    ensures forall k :: k in Unions(parts) <==> exists i :: 0 <= i < |provided| && Offers(provided[i], k)
    ensures forall i, k ::
              0 <= i < |provided| && Offers(provided[i], k) &&
              (forall j :: i < j < |provided| ==> !Offers(provided[j], k)) ==>
                k in Unions(parts) && Unions(parts)[k] == provided[i].value.devices[k]
  {
    UnionsLookup(parts);
    assert forall i, k :: 0 <= i < |parts| ==> (k in parts[i] <==> Offers(provided[i], k));
  }

  // ----- The registry -----

  class Devices {
    var devices: Registry
    const deviceCancellationToken: Option<TokenId>

    constructor (devices: Registry, token: Option<TokenId>)
      ensures this.devices == devices && deviceCancellationToken == token
    {
      this.devices := devices;
      deviceCancellationToken := token;
    }

    static method NewFromManyDevices(many: seq<Device>) returns (d: Devices)
      ensures fresh(d) && d.devices == KeyedByDetails(map[], many) && d.deviceCancellationToken == None
    {
      var reg: Registry := map[];
      var i := 0;
      while i < |many|
        invariant 0 <= i <= |many|
        invariant KeyedByDetails(map[], many) == KeyedByDetails(reg, many[i..])
      {
        reg := reg[many[i].identifier := many[i]];
        i := i + 1;
      }
      d := new Devices(reg, None);
    }

    /** The first provider that fails decides the result; otherwise the registry holds the devices of all,
        and the token it was given. A registry shared elsewhere cannot be emptied, and its devices are left out. */
    static method FromDeviceProviders(provided: seq<Result<Provided, DeviceError>>, token: TokenId)
      returns (r: Result<Devices, DeviceError>)
      ensures r.Ok? <==> forall i :: 0 <= i < |provided| ==> provided[i].Ok?
      ensures r.Err? ==> exists i ::
                0 <= i < |provided| && provided[i] == Err(r.error) && forall j :: 0 <= j < i ==> provided[j].Ok?
      ensures r.Ok? ==>
                && fresh(r.value) && r.value.deviceCancellationToken == Some(token)
                && r.value.devices ==
                   Unions(seq(|provided|, i requires 0 <= i < |provided| && provided[i].Ok? =>
                                Drained(provided[i].value)))
      // a key is one of a part that is not shared, and the last such part has its device
      ensures r.Ok? ==> forall k :: k in r.value.devices <==> exists i :: 0 <= i < |provided| && Offers(provided[i], k)
      ensures r.Ok? ==> forall i, k ::
                0 <= i < |provided| && Offers(provided[i], k) &&
                (forall j :: i < j < |provided| ==> !Offers(provided[j], k)) ==>
                  k in r.value.devices && r.value.devices[k] == provided[i].value.devices[k]
    {
      var all: Registry := map[];
      var i := 0;
      ghost var parts: seq<Registry> := [];
      while i < |provided|
        invariant 0 <= i <= |provided| && |parts| == i
        invariant forall j :: 0 <= j < i ==> provided[j].Ok? && parts[j] == Drained(provided[j].value)
        invariant all == Unions(parts)
      {
        match provided[i] {
          case Err(e) =>
            return Err(e);
          case Ok(part) =>
            if !part.shared {
              all := all + part.devices;
            }
            assert (parts + [Drained(part)])[..|parts|] == parts;
            parts := parts + [Drained(part)];
        }
        i := i + 1;
      }
      assert parts == seq(|provided|, i requires 0 <= i < |provided| && provided[i].Ok? => Drained(provided[i].value));
      OffersLookup(provided, parts);
      var d := new Devices(all, Some(token));
      return Ok(d);
    }

    /** The new devices take the registry's own token, when it has one, whoever adds them. */
    method AddDevices(newDevices: seq<Device>, cancelled: bool) returns (r: Result<(), DeviceError>)
      modifies this`devices
      ensures r == if cancelled then Err(Cancelled) else Ok(())
      ensures devices == if cancelled then old(devices)
                         else Extended(old(devices), Retokened(newDevices, deviceCancellationToken))
    {
      if cancelled {
        return Err(Cancelled);
      }
      var added := Retokened(newDevices, deviceCancellationToken);
      var i := 0;
      while i < |added|
        invariant 0 <= i <= |added|
        invariant Extended(old(devices), added) == Extended(devices, added[i..])
      {
        devices := devices[Identifier(added[i]) := added[i]];
        i := i + 1;
      }
      return Ok(());
    }

    /** The devices removed come back, each once, in the order in which the identifiers were visited. */
    method RemoveDevices(identifiers: set<string>, cancelled: bool)
      returns (r: Result<seq<Device>, DeviceError>, ghost order: seq<string>)
      modifies this`devices
      ensures cancelled ==> r == Err(Cancelled) && devices == old(devices)
      ensures !cancelled ==>
                && devices == old(devices) - identifiers
                && Lists(order, identifiers * old(devices).Keys)
                && r.Ok? && |r.value| == |order|
                && forall i :: 0 <= i < |order| ==> order[i] in old(devices) && r.value[i] == old(devices)[order[i]]
    {
      order := [];
      if cancelled {
        return Err(Cancelled), order;
      }
      var removed: seq<Device> := [];
      var rest := identifiers;
      while rest != {}
        invariant rest <= identifiers
        invariant devices == old(devices) - (identifiers - rest)
        invariant Lists(order, (identifiers - rest) * old(devices).Keys)
        invariant |removed| == |order|
        invariant forall i :: 0 <= i < |order| ==> order[i] in old(devices) && removed[i] == old(devices)[order[i]]
        decreases rest
      {
        var id :| id in rest;
        assert id !in (identifiers - rest) * old(devices).Keys && id !in order;
        if id in devices {
          removed, order := removed + [devices[id]], order + [id];
          devices := devices - {id};
        }
        rest := rest - {id};
      }
      return Ok(removed), order;
    }

    method Filter(identifiers: set<string>) returns (d: Devices)
      ensures fresh(d) && d.deviceCancellationToken == deviceCancellationToken
      ensures d.devices == map k | k in devices && k in identifiers :: devices[k]
    {
      d := new Devices(map k | k in devices && k in identifiers :: devices[k], deviceCancellationToken);
    }

    /** The devices are visited in some order, until one of them handles the command or fails. */
    method VisitDevices(topic: string, payload: string, behave: Behaviour)
      returns (r: Result<Payloads, DeviceError>, ghost order: seq<string>)
      modifies this`devices
      ensures Lists(order, old(devices).Keys)
      ensures var reply := Command(old(devices), order, topic, payload, behave);
              devices == reply.registry && r == reply.result
    {
      var visited := KeysInSomeOrder(devices.Keys);
      order := visited;
      var i := 0;
      while i < |visited|
        invariant 0 <= i <= |visited| && devices.Keys == old(devices).Keys
        invariant var whole := Command(old(devices), visited, topic, payload, behave);
                  var rest := Command(devices, visited[i..], topic, payload, behave);
                  rest.registry == whole.registry && rest.result == whole.result
      {
        assert visited[i] in visited && visited[i..][1..] == visited[i + 1..];
        var device, outcome := HandleDeviceCommand(devices[visited[i]], topic, payload, behave);
        devices := devices[visited[i] := device];
        match outcome {
          case Err(e) =>
            return Err(e), order;
          case Ok(c) =>
            if c.handled {
              var stateUpdates: Payloads := map[];
              if c.stateUpdateTopics.Some? {
                stateUpdates := stateUpdates + c.stateUpdateTopics.value;
              }
              assert stateUpdates == Updates(c);
              return Ok(stateUpdates), order;
            }
        }
        i := i + 1;
      }
      return Ok(map[]), order;
    }

    /** `handle_command`, for any number of claimants. */
    method HandleCommand(topic: string, payload: string, behave: Behaviour)
      returns (r: Result<Payloads, DeviceError>, ghost order: seq<string>)
      modifies this`devices
      ensures Lists(order, old(devices).Keys)
      ensures var reply := Command(old(devices), order, topic, payload, behave);
              devices == reply.registry && r == reply.result
      // with one claimant the answer is that handler's own
      ensures forall key, c: nat :: SoleClaimant(old(devices), key, c, topic) ==>
                r == match behave(old(devices)[key].handlers[c], topic, payload).1
                     case Err(e) => Err(e)
                     case Ok(CommandResult(true, Some(updates))) => Ok(updates)
                     case Ok(_) => Ok(map[])
    {
      ghost var reg := devices;
      r, order := VisitDevices(topic, payload, behave);
      forall key, c: nat | SoleClaimant(reg, key, c, topic)
        ensures r == match behave(reg[key].handlers[c], topic, payload).1
                     case Err(e) => Err(e)
                     case Ok(CommandResult(true, Some(updates))) => Ok(updates)
                     case Ok(_) => Ok(map[])
      {
        SoleClaimantRuns(reg, order, key, c, topic, payload, behave);
      }
    }
  }

  // ----- What adding devices does -----

  lemma {:induction false} ExtendedKeys(reg: Registry, devices: seq<Device>)
    ensures Extended(reg, devices).Keys == reg.Keys + Identifiers(devices)
    decreases devices
  {
    if devices == [] {
    } else {
      ExtendedKeys(reg[Identifier(devices[0]) := devices[0]], devices[1..]);
      assert devices == [devices[0]] + devices[1..];
      assert Identifiers(devices) == {Identifier(devices[0])} + Identifiers(devices[1..]);
    }
  }

  /** Every device of the result was there before under a key that none of the new ones takes, or is a new one. */
  lemma {:induction false} ExtendedLookup(reg: Registry, devices: seq<Device>, k: string)
    requires k in Extended(reg, devices)
    ensures var found := Extended(reg, devices)[k];
            if k in Identifiers(devices) then found in devices && Identifier(found) == k
            else k in reg && found == reg[k]
    decreases devices
  {
    if devices == [] {
    } else {
      ExtendedLookup(reg[Identifier(devices[0]) := devices[0]], devices[1..], k);
      assert devices == [devices[0]] + devices[1..];
      assert Identifiers(devices) == {Identifier(devices[0])} + Identifiers(devices[1..]);
    }
  }

  /** A device is added under its source id, or under its identifier when it has none; of several with the same one the
      last stays. */
  lemma {:induction false} LastAddedStays(reg: Registry, devices: seq<Device>, i: nat)
    requires i < |devices|
    requires forall j :: i < j < |devices| ==> Identifier(devices[j]) != Identifier(devices[i])
    ensures var d := devices[i];
            var k := if d.sourceId.Some? then d.sourceId.value else d.identifier;
            k in Extended(reg, devices) && Extended(reg, devices)[k] == d
    decreases devices
  {
    var d, rest := devices[i], devices[1..];
    var reg' := reg[Identifier(devices[0]) := devices[0]];
    if i == 0 {
      ExtendedKeys(reg', rest);
      assert Identifier(d) !in Identifiers(rest) by {
        assert forall e :: e in rest ==> exists j :: 0 < j < |devices| && devices[j] == e;
      }
      ExtendedLookup(reg', rest, Identifier(d));
    } else {
      LastAddedStays(reg', rest, i - 1);
    }
  }

  lemma {:induction false} LastKeyedStays(reg: Registry, devices: seq<Device>, i: nat)
    requires i < |devices|
    requires forall j :: i < j < |devices| ==> devices[j].identifier != devices[i].identifier
    ensures var k := devices[i].identifier;
            k in KeyedByDetails(reg, devices) && KeyedByDetails(reg, devices)[k] == devices[i]
    decreases devices
  {
    var reg', rest := reg[devices[0].identifier := devices[0]], devices[1..];
    if i == 0 {
      UnkeyedStays(reg', rest, devices[i].identifier);
    } else {
      LastKeyedStays(reg', rest, i - 1);
    }
  }

  lemma {:induction false} UnkeyedStays(reg: Registry, devices: seq<Device>, k: string)
    requires k in reg && forall j :: 0 <= j < |devices| ==> devices[j].identifier != k
    ensures k in KeyedByDetails(reg, devices) && KeyedByDetails(reg, devices)[k] == reg[k]
    decreases devices
  {
    if devices == [] {
    } else {
      UnkeyedStays(reg[devices[0].identifier := devices[0]], devices[1..], k);
    }
  }

  // ----- Devices keep the process token -----

  predicate AllCarry(reg: Registry, token: TokenId) {
    forall k :: k in reg ==> reg[k].token == token
  }

  lemma {:induction false} UnionsCarry(parts: seq<Registry>, token: TokenId)
    requires forall i :: 0 <= i < |parts| ==> AllCarry(parts[i], token)
    ensures AllCarry(Unions(parts), token)
  {
    if parts == [] {
    } else {
      UnionsCarry(parts[..|parts| - 1], token);
    }
  }

  /** Whatever token the added devices were made with. */
  lemma AddedDevicesCarry(reg: Registry, devices: seq<Device>, token: TokenId)
    requires AllCarry(reg, token)
    ensures AllCarry(Extended(reg, Retokened(devices, Some(token))), token)
  {
    var added := Retokened(devices, Some(token));
    forall k | k in Extended(reg, added)
      ensures Extended(reg, added)[k].token == token
    {
      ExtendedLookup(reg, added, k);
    }
  }
}
