/** Command dispatch over the handlers of a device and the devices of a registry
    (cmha/src/devices/mod.rs, cmha/src/devices/device.rs, cmha/src/devices/devices.rs). */
module Dispatch {
  import opened Wrappers
  import opened MessageCache
  import opened DeviceModel
  import opened Orders

  datatype CommandResult = CommandResult(handled: bool, stateUpdateTopics: Option<Payloads>)

  const UNHANDLED := CommandResult(false, None)

  type Outcome = Result<CommandResult, DeviceError>

  /** `do_handle_command` of each handler: the state it leaves and what it answers. */
  type Behaviour = (Handler, string, string) -> (string, Outcome)

  /** `calls` counts the runs of `do_handle_command`. */
  datatype DeviceReply = DeviceReply(device: Device, outcome: Outcome, calls: nat)
  datatype Reply = Reply(registry: Registry, result: Result<Payloads, DeviceError>, calls: nat)

  function HandlerCommand(h: Handler, topic: string, payload: string, behave: Behaviour): (Handler, Outcome, nat) {
    if topic in h.commandTopics then
      var (state, outcome) := behave(h, topic, payload);
      (h.(state := state), outcome, 1)
    else (h, Ok(UNHANDLED), 0)
  }

  /** Goes on to the next handler only after an answer that is neither an error nor `handled`. */
  predicate Stops(outcome: Outcome) {
    outcome.Err? || outcome.value.handled
  }

  /** `Device::handle_command` from handler `i` on. */
  function DeviceCommand(d: Device, i: nat, topic: string, payload: string, behave: Behaviour): DeviceReply
    requires i <= |d.handlers|
    decreases |d.handlers| - i
  {
    if i == |d.handlers| then DeviceReply(d, Ok(UNHANDLED), 0)
    else
      var (h, outcome, calls) := HandlerCommand(d.handlers[i], topic, payload, behave);
      var d' := d.(handlers := d.handlers[i := h]);
      if Stops(outcome) then DeviceReply(d', outcome, calls)
      else
        var rest := DeviceCommand(d', i + 1, topic, payload, behave);
        rest.(calls := calls + rest.calls)
  }

  function Updates(c: CommandResult): Payloads {
    if c.handled && c.stateUpdateTopics.Some? then c.stateUpdateTopics.value else map[]
  }

  function ToResult(outcome: Outcome): Result<Payloads, DeviceError> {
    match outcome
    case Ok(c) => Ok(Updates(c))
    case Err(e) => Err(e)
  }

  /** `Devices::handle_command`, visiting the devices in the order given. */
  function Command(reg: Registry, order: seq<string>, topic: string, payload: string, behave: Behaviour): Reply
    decreases order
  {
    if order == [] then Reply(reg, Ok(map[]), 0)
    else if order[0] !in reg then Command(reg, order[1..], topic, payload, behave)
    else
      var reply := DeviceCommand(reg[order[0]], 0, topic, payload, behave);
      var reg' := reg[order[0] := reply.device];
      if Stops(reply.outcome) then Reply(reg', ToResult(reply.outcome), reply.calls)
      else
        var rest := Command(reg', order[1..], topic, payload, behave);
        rest.(calls := reply.calls + rest.calls)
  }

  // ----- Who may claim a topic -----

  predicate Claims(d: Device, i: nat, topic: string) {
    i < |d.handlers| && topic in d.handlers[i].commandTopics
  }

  /** No two handlers, of the same device or of different ones, share a command topic. */
  ghost predicate DisjointTopics(reg: Registry) {
    forall k, i, l, j, topic ::
      k in reg && l in reg && Claims(reg[k], i, topic) && Claims(reg[l], j, topic) ==> k == l && i == j
  }

  lemma {:induction false} NoClaimInDevice(d: Device, i: nat, topic: string, payload: string, behave: Behaviour)
    requires i <= |d.handlers| && forall j :: i <= j < |d.handlers| ==> !Claims(d, j, topic)
    ensures DeviceCommand(d, i, topic, payload, behave) == DeviceReply(d, Ok(UNHANDLED), 0)
    decreases |d.handlers| - i
  {
    if i == |d.handlers| {
    } else {
      assert !Claims(d, i, topic);
      NoClaimInDevice(d, i + 1, topic, payload, behave);
      assert d.handlers[i := d.handlers[i]] == d.handlers;
    }
  }

  /** The only handler of the registry that claims the topic. */
  ghost predicate SoleClaimant(reg: Registry, key: string, c: nat, topic: string) {
    && key in reg && Claims(reg[key], c, topic)
    && forall k, i :: k in reg && Claims(reg[k], i, topic) ==> k == key && i == c
  }

  /** What the run of one handler makes of its device. */
  function Applied(d: Device, i: nat, topic: string, payload: string, behave: Behaviour): Device
    requires i < |d.handlers|
  {
    d.(handlers := d.handlers[i := d.handlers[i].(state := behave(d.handlers[i], topic, payload).0)])
  }

  lemma {:induction false} OneClaimInDevice(d: Device, i: nat, c: nat,
                                            topic: string, payload: string, behave: Behaviour)
    requires i <= c && Claims(d, c, topic)
    requires forall j :: i <= j < |d.handlers| && j != c ==> !Claims(d, j, topic)
    ensures var reply, outcome := DeviceCommand(d, i, topic, payload, behave), behave(d.handlers[c], topic, payload).1;
            && reply.device == Applied(d, c, topic, payload, behave) && reply.calls == 1
            && reply.outcome == (if Stops(outcome) then outcome else Ok(UNHANDLED))
    decreases |d.handlers| - i
  {
    if i == c {
      var d' := Applied(d, c, topic, payload, behave);
      assert forall j :: c < j < |d'.handlers| ==> d'.handlers[j] == d.handlers[j] && !Claims(d, j, topic);
      NoClaimInDevice(d', c + 1, topic, payload, behave);
    } else {
      assert !Claims(d, i, topic);
      OneClaimInDevice(d, i + 1, c, topic, payload, behave);
      assert d.handlers[i := d.handlers[i]] == d.handlers;
    }
  }

  /** A topic that nobody claims changes nothing, runs nothing and returns no updates. */
  lemma {:induction false} UnclaimedTopicChangesNothing(reg: Registry, order: seq<string>,
                                                        topic: string, payload: string, behave: Behaviour)
    requires forall k, i :: k in order && k in reg ==> !Claims(reg[k], i, topic)
    ensures Command(reg, order, topic, payload, behave) == Reply(reg, Ok(map[]), 0)
    decreases order
  {
    if order == [] {
    } else {
      var k := order[0];
      if k in reg {
        assert forall j :: 0 <= j < |reg[k].handlers| ==> !Claims(reg[k], j, topic);
        NoClaimInDevice(reg[k], 0, topic, payload, behave);
        assert reg[k := reg[k]] == reg;
      }
      assert forall k :: k in order[1..] ==> k in order;
      UnclaimedTopicChangesNothing(reg, order[1..], topic, payload, behave);
    }
  }

  /** A topic with one claimant runs that handler, once, and nothing else, whatever the order. */
  lemma {:induction false} SoleClaimantRuns(reg: Registry, order: seq<string>, key: string, c: nat,
                                            topic: string, payload: string, behave: Behaviour)
    requires key in reg && key in order && Claims(reg[key], c, topic)
    requires forall i, j :: 0 <= i < j < |order| ==> order[i] != order[j]
    requires forall k, i :: k in order && k in reg && Claims(reg[k], i, topic) ==> k == key && i == c
    ensures var outcome := behave(reg[key].handlers[c], topic, payload).1;
            Command(reg, order, topic, payload, behave) ==
            Reply(reg[key := Applied(reg[key], c, topic, payload, behave)], ToResult(outcome), 1)
    // in plain words: the answer is the claimant's own
    ensures var (state, outcome) := behave(reg[key].handlers[c], topic, payload);
            var reply := Command(reg, order, topic, payload, behave);
            && reply.registry[key].handlers[c].state == state
            && reply.result == match outcome
                               case Err(e) => Err(e)
                               case Ok(CommandResult(true, Some(updates))) => Ok(updates)
                               case Ok(_) => Ok(map[])
    decreases order
  {
    var k := order[0];
    assert k in order && forall l :: l in order[1..] ==> l in order;
    if k == key {
      assert forall j :: 0 <= j < |reg[k].handlers| && j != c ==> !Claims(reg[k], j, topic);
      OneClaimInDevice(reg[k], 0, c, topic, payload, behave);
      var reg' := reg[key := Applied(reg[key], c, topic, payload, behave)];
      assert key !in order[1..];
      assert forall l, i :: l in order[1..] && l in reg' ==> reg'[l] == reg[l] && !Claims(reg[l], i, topic);
      UnclaimedTopicChangesNothing(reg', order[1..], topic, payload, behave);
    } else {
      if k in reg {
        assert forall j :: 0 <= j < |reg[k].handlers| ==> !Claims(reg[k], j, topic);
        NoClaimInDevice(reg[k], 0, topic, payload, behave);
        assert reg[k := reg[k]] == reg;
      }
      SoleClaimantRuns(reg, order[1..], key, c, topic, payload, behave);
    }
  }

  /** With disjoint topics, every order of the devices leaves the same states and the same updates, and runs at most
      one handler. */
  lemma DispatchIsOrderIndependent(reg: Registry, a: seq<string>, b: seq<string>,
                                   topic: string, payload: string, behave: Behaviour)
    requires DisjointTopics(reg) && Lists(a, reg.Keys) && Lists(b, reg.Keys)
    ensures Command(reg, a, topic, payload, behave) == Command(reg, b, topic, payload, behave)
    ensures Command(reg, a, topic, payload, behave).calls <= 1
  {
    if k, i :| k in reg && Claims(reg[k], i, topic) {
      SoleClaimantRuns(reg, a, k, i, topic, payload, behave);
      SoleClaimantRuns(reg, b, k, i, topic, payload, behave);
    } else {
      UnclaimedTopicChangesNothing(reg, a, topic, payload, behave);
      UnclaimedTopicChangesNothing(reg, b, topic, payload, behave);
    }
  }

  // ----- When the order matters, exactly -----

  /** A device that answers, or fails, takes the command from all those after it, so between two devices that would
      both take it the one visited first does, and the other does not see it. */
  lemma SharedTopicGoesToTheFirst(reg: Registry, a: seq<string>, b: seq<string>, k: string, l: string,
                                  topic: string, payload: string, behave: Behaviour)
    requires k != l && k in reg && l in reg && a != [] && b != [] && a[0] == k && b[0] == l
    requires var reply := DeviceCommand(reg[k], 0, topic, payload, behave);
             Stops(reply.outcome) && reply.device != reg[k]
    requires Stops(DeviceCommand(reg[l], 0, topic, payload, behave).outcome)
    ensures Command(reg, a, topic, payload, behave).registry ==
            reg[k := DeviceCommand(reg[k], 0, topic, payload, behave).device]
    ensures Command(reg, b, topic, payload, behave).registry ==
            reg[l := DeviceCommand(reg[l], 0, topic, payload, behave).device]
    ensures Command(reg, a, topic, payload, behave).registry != Command(reg, b, topic, payload, behave).registry
  {
    var first := Command(reg, a, topic, payload, behave).registry;
    var second := Command(reg, b, topic, payload, behave).registry;
    assert first[k] != reg[k] && second[k] == reg[k];
  }

  /** Every order of visiting gives the same states, updates and runs, whatever the handlers do. */
  ghost predicate OrderIrrelevant(reg: Registry, topic: string) {
    forall payload, behave, a, b :: Lists(a, reg.Keys) && Lists(b, reg.Keys) ==>
      Command(reg, a, topic, payload, behave) == Command(reg, b, topic, payload, behave)
  }

  /** No two devices claim the topic; handlers of one device may share it. */
  ghost predicate OneDeviceClaims(reg: Registry, topic: string) {
    forall k, l, i, j :: k in reg && l in reg && Claims(reg[k], i, topic) && Claims(reg[l], j, topic) ==> k == l
  }

  /** A topic that only one device claims is that device's own affair, whatever the order. */
  lemma {:induction false} SoleDeviceDecides(reg: Registry, order: seq<string>, key: string,
                                             topic: string, payload: string, behave: Behaviour)
    requires key in reg && key in order
    requires forall i, j :: 0 <= i < j < |order| ==> order[i] != order[j]
    requires forall k, i :: k in order && k in reg && Claims(reg[k], i, topic) ==> k == key
    ensures var reply := DeviceCommand(reg[key], 0, topic, payload, behave);
            Command(reg, order, topic, payload, behave) ==
            Reply(reg[key := reply.device], ToResult(reply.outcome), reply.calls)
    decreases order
  {
    var k, rest := order[0], order[1..];
    assert k in order && forall l :: l in rest ==> l in order;
    if k == key {
      var reply := DeviceCommand(reg[key], 0, topic, payload, behave);
      var reg' := reg[key := reply.device];
      assert key !in rest;
      assert forall l, i :: l in rest && l in reg' ==> reg'[l] == reg[l] && !Claims(reg[l], i, topic);
      UnclaimedTopicChangesNothing(reg', rest, topic, payload, behave);
    } else {
      if k in reg {
        assert forall j :: 0 <= j < |reg[k].handlers| ==> !Claims(reg[k], j, topic);
        NoClaimInDevice(reg[k], 0, topic, payload, behave);
        assert reg[k := reg[k]] == reg;
      }
      SoleDeviceDecides(reg, rest, key, topic, payload, behave);
    }
  }

  /** Handlers that note every command and answer it. */
  function NotesAndAnswers(h: Handler, topic: string, payload: string): (string, Outcome) {
    (h.state + "!", Ok(CommandResult(true, None)))
  }

  lemma {:induction false} NotedByClaimant(d: Device, i: nat, c: nat, topic: string, payload: string)
    requires i <= c && Claims(d, c, topic)
    ensures var reply := DeviceCommand(d, i, topic, payload, NotesAndAnswers);
            Stops(reply.outcome) && reply.device != d
    decreases c - i
  {
    if topic in d.handlers[i].commandTopics {
      assert Applied(d, i, topic, payload, NotesAndAnswers).handlers[i].state != d.handlers[i].state;
    } else {
      NotedByClaimant(d, i + 1, c, topic, payload);
      assert d.handlers[i := d.handlers[i]] == d.handlers;
    }
  }

  /** The order in which the devices are visited makes no difference, to any handlers and any payload, if and only if no
      two devices claim the topic. */
  lemma OrderIrrelevantIff(reg: Registry, topic: string)
    ensures OrderIrrelevant(reg, topic) <==> OneDeviceClaims(reg, topic)
  {
    if OneDeviceClaims(reg, topic) {
      forall payload, behave, a, b | Lists(a, reg.Keys) && Lists(b, reg.Keys)
        ensures Command(reg, a, topic, payload, behave) == Command(reg, b, topic, payload, behave)
      {
        if k, i :| k in reg && Claims(reg[k], i, topic) {
          SoleDeviceDecides(reg, a, k, topic, payload, behave);
          SoleDeviceDecides(reg, b, k, topic, payload, behave);
        } else {
          UnclaimedTopicChangesNothing(reg, a, topic, payload, behave);
          UnclaimedTopicChangesNothing(reg, b, topic, payload, behave);
        }
      }
    }
    if k, l, i, j :| k in reg && l in reg && Claims(reg[k], i, topic) && Claims(reg[l], j, topic) && k != l {
      var a := OrderFrom(reg.Keys, k);
      var b := OrderFrom(reg.Keys, l);
      NotedByClaimant(reg[k], 0, i, topic, "");
      NotedByClaimant(reg[l], 0, j, topic, "");
      SharedTopicGoesToTheFirst(reg, a, b, k, l, topic, "", NotesAndAnswers);
    }
  }

  // ----- The loops -----

  method HandleDeviceCommand(device: Device, topic: string, payload: string, behave: Behaviour)
    returns (device': Device, outcome: Outcome)
    ensures var reply := DeviceCommand(device, 0, topic, payload, behave);
            device' == reply.device && outcome == reply.outcome
  {
    device' := device;
    var i := 0;
    while i < |device'.handlers|
      invariant i <= |device'.handlers| == |device.handlers|
      invariant var whole := DeviceCommand(device, 0, topic, payload, behave);
                var rest := DeviceCommand(device', i, topic, payload, behave);
                rest.device == whole.device && rest.outcome == whole.outcome
    {
      var (h, answer, _) := HandlerCommand(device'.handlers[i], topic, payload, behave);
      device' := device'.(handlers := device'.handlers[i := h]);
      if answer.Err? || answer.value.handled {
        return device', answer;
      }
      i := i + 1;
    }
    outcome := Ok(UNHANDLED);
  }
}
