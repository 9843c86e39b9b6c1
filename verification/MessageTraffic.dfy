/** The consumer of the channel (`maintain_message_traffic` in cmha/src/device_manager.rs): what one message makes of
    the manager and the devices, as objects, and what a command can do to the consumer. */
module MessageTraffic {
  import opened Wrappers
  import opened DeviceModel
  import opened Orders
  import opened Registries
  import opened Connection
  import opened Publishing
  import Bridge
  import Dispatch
  import MessageCache
  import Topics

  type Payloads = MessageCache.Payloads

  /** The topic on which Home Assistant tells that it comes or goes. */
  function StatusTopic(prefix: string): string {
    prefix + "/status"
  }

  /** What dealing with a command comes to, when the devices are visited in `order`. */
  function CommandReply(prefix: string, reg: Registry, order: seq<string>, topic: string, payload: string,
                        behave: Dispatch.Behaviour): Dispatch.Reply
  {
    if topic == StatusTopic(prefix) then Dispatch.Reply(reg, Ok(map[]), 0)
    else Dispatch.Command(reg, order, topic, payload, behave)
  }

  /** `deal_with_command`: the state updates that it publishes past the cache (a failure to publish them is logged), and
      whether it starts an initialisation. */
  method DealWithCommand(devices: Devices, prefix: string, topic: string, payload: string, behave: Dispatch.Behaviour)
    returns (r: Result<Payloads, DeviceError>, initializes: bool, ghost order: seq<string>)
    modifies devices`devices
    ensures Lists(order, old(devices.devices).Keys)
    ensures var reply := CommandReply(prefix, old(devices.devices), order, topic, payload, behave);
            devices.devices == reply.registry && r == reply.result
    ensures initializes <==> topic == StatusTopic(prefix) && payload == "online"
    ensures topic == StatusTopic(prefix) ==> devices.devices == old(devices.devices) && r == Ok(map[])
  {
    initializes := false;
    if topic == StatusTopic(prefix) {
      if payload == "online" {
        initializes := true;
      }
      order := KeysInSomeOrder(devices.devices.Keys);
      return Ok(map[]), initializes, order;
    }
    r, order := devices.HandleCommand(topic, payload, behave);
  }

  // ----- One message, against the machine -----

  datatype Turn = Continues | Stops | Fails

  /** The consumer's steps for one message, with nothing in between; `updates` are what a command publishes past the
      cache. */
  function Settled(st: Bridge.State, ok: bool, initialized: bool, updates: Payloads): Bridge.State {
    var received := Bridge.Apply(st, Bridge.Receive(ok));
    var settled := Bridge.Apply(Bridge.Apply(received, Bridge.DrainDone(ok)), Bridge.InitDone(initialized, map[]));
    Bridge.Apply(settled, Bridge.Bypass(updates))
  }

  /** A state of the machine with this session, this many tasks and this consumer. */
  predicate Stands(st: Bridge.State, connected: bool, current: Option<nat>, tasks: nat, consumer: Bridge.Consumer) {
    st.connected == connected && st.current == current && |st.tasks| == tasks && st.consumer == consumer
  }

  /** A drain, when there is one, ends the session. */
  lemma DrainedStands(st: Bridge.State, ok: bool)
    requires st.consumer.Draining? ==> st.current.Some? && st.current.value < |st.tasks|
    ensures var end := Bridge.Apply(st, Bridge.DrainDone(ok));
            && end.view == st.view
            && if st.consumer.Draining? then
                 Stands(end, false, None, |st.tasks|, if !st.consumer.stopping then Bridge.Waiting
                                                      else if ok then Bridge.Stopped else Bridge.Failed)
               else end == st
  {
  }

  lemma ReceivedStands(st: Bridge.State, ok: bool)
    requires Bridge.ManagerInv(st) && st.consumer.Waiting? && !st.link.seen
    ensures
      var received := Bridge.Apply(st, Bridge.Receive(ok));
      received.view == st.view &&
      match st.link.slot
      case Connected(up) =>
        if !ok || (up && st.connected) then
          Stands(received, st.connected, st.current, |st.tasks|, if ok then Bridge.Waiting else Bridge.Failed)
        else if st.connected then
          Stands(received, true, st.current, |st.tasks|, Bridge.Draining(false))
        else
          Stands(received, up, None, |st.tasks|, if up then Bridge.Initialising else Bridge.Waiting)
      case Command(_, _) =>
        Stands(received, st.connected, st.current, |st.tasks|, if ok then Bridge.Waiting else Bridge.Failed)
      case Stopping =>
        if st.connected then
          Stands(received, true, st.current, |st.tasks|, Bridge.Draining(true))
        else
          Stands(received, false, None, |st.tasks|, if ok then Bridge.Stopped else Bridge.Failed)
  {
  }

  /** The session and the state of the consumer in which one message leaves the machine. */
  lemma SettledIs(st: Bridge.State, ok: bool, initialized: bool, updates: Payloads)
    requires Bridge.ManagerInv(st) && st.consumer.Waiting? && !st.link.seen
    ensures
      var end := Settled(st, ok, initialized, updates);
      match st.link.slot
      case Connected(up) =>
        if !ok || (up && st.connected) then
          Stands(end, st.connected, st.current, |st.tasks|, if ok then Bridge.Waiting else Bridge.Failed)
        else if up && initialized then
          Stands(end, true, Some(|st.tasks|), |st.tasks| + 1, Bridge.Waiting)
        else
          Stands(end, up, None, |st.tasks|, if up then Bridge.Failed else Bridge.Waiting)
      case Command(_, _) =>
        && Stands(end, st.connected, st.current, |st.tasks|, if ok then Bridge.Waiting else Bridge.Failed)
        && end.view == st.view + updates
      case Stopping =>
        Stands(end, false, None, |st.tasks|, if ok then Bridge.Stopped else Bridge.Failed)
  {
    var received := Bridge.Apply(st, Bridge.Receive(ok));
    ReceivedStands(st, ok);
    DrainedStands(received, ok);
  }

  /** The manager is where the machine's state says. */
  ghost predicate Matches(manager: PublishManager, st: Bridge.State)
    reads manager
  {
    && st.connected == manager.connected
    && |st.tasks| == |manager.tasks|
    && (st.current.None? <==> manager.joinHandle == null)
    && (st.current.Some? ==>
          && manager.tasks != [] && st.current.value == |manager.tasks| - 1
          && manager.tasks[|manager.tasks| - 1] == manager.joinHandle)
  }

  /** The farewell: the session ends whatever follows, and the loop stops if the devices can be made unavailable and the
      client disconnected. */
  method HandleStop(manager: PublishManager, unavailable: bool, disconnected: bool) returns (turn: Turn)
    requires manager.Valid()
    modifies manager, manager.joinHandle, if manager.joinHandle == null then {} else {manager.joinHandle.token}
    modifies manager.cancellationTokenSource
    modifies if manager.cancellationTokenSource == null then {} else {manager.cancellationTokenSource.notify}
    modifies if manager.cancellationTokenSource == null then {} else manager.cancellationTokenSource.notify.waiters
    ensures manager.Valid() && !manager.connected && manager.joinHandle == null && manager.tasks == old(manager.tasks)
    ensures turn == if unavailable && disconnected then Stops else Fails
  {
    var _ := manager.DealWithConnectionStatusChange(false, false);
    if !unavailable {
      return Fails;
    }
    manager.Stop();
    turn := if disconnected then Stops else Fails;
  }

  /** One turn of the loop. `delivered`: the topics whose publish would succeed, after a command; what is published
      of its updates is `updates`. The manager takes the very steps of the machine: from a state that matches, whatever
      the health check, the initialisation, the devices and the farewell come to, it ends in the state that matches, and
      the loop goes on, stops or fails as the consumer there does. */
  method HandleMessage(channel: WatchChannel, manager: PublishManager, devices: Devices, prefix: string,
                       behave: Dispatch.Behaviour, healthy: bool, initialized: bool, unavailable: bool,
                       disconnected: bool, delivered: set<string>, ghost st: Bridge.State)
    returns (turn: Turn, updates: Payloads, initializes: bool, ghost ok: bool, ghost order: seq<string>)
    requires manager.Valid() && Matches(manager, st) && Bridge.ManagerInv(st)
    requires st.consumer.Waiting? && !st.link.seen && st.link.slot == channel.slot
    modifies channel`seen, devices`devices, manager
    modifies manager.joinHandle, if manager.joinHandle == null then {} else {manager.joinHandle.token}
    modifies manager.cancellationTokenSource
    modifies if manager.cancellationTokenSource == null then {} else {manager.cancellationTokenSource.notify}
    modifies if manager.cancellationTokenSource == null then {} else manager.cancellationTokenSource.notify.waiters
    ensures manager.Valid() && channel.seen
    ensures match channel.slot
            case Connected(_) =>
              ok == healthy && devices.devices == old(devices.devices) && updates == map[] && !initializes
            case Command(topic, payload) =>
              var reply := CommandReply(prefix, old(devices.devices), order, topic, payload, behave);
              && Lists(order, old(devices.devices).Keys)
              && ok == reply.result.Ok? && devices.devices == reply.registry
              && updates == (if ok then MessageCache.Restricted(reply.result.value, delivered) else map[])
              && (initializes <==> topic == StatusTopic(prefix) && payload == "online")
            case Stopping =>
              && ok == (unavailable && disconnected)
              && devices.devices == old(devices.devices) && updates == map[] && !initializes
    ensures var end := Settled(st, ok, initialized, updates);
            && Matches(manager, end)
            && (turn.Continues? <==> end.consumer.Waiting?)
            && (turn.Stops? <==> end.consumer.Stopped?)
            && (turn.Fails? <==> end.consumer.Failed?)
  {
    order, updates, initializes := [], map[], false;
    var message := channel.BorrowAndUpdate();
    match message {
      case Connected(up) =>
        ok := healthy;
        SettledIs(st, ok, initialized, updates);
        if !healthy {
          return Fails, updates, initializes, ok, order;
        }
        var r := manager.DealWithConnectionStatusChange(up, initialized);
        turn := if r.Ok? then Continues else Fails;
      case Command(topic, payload) =>
        var r;
        r, initializes, order := DealWithCommand(devices, prefix, topic, payload, behave);
        ok := r.Ok?;
        if r.Ok? {
          updates := MessageCache.Restricted(r.value, delivered);
        }
        SettledIs(st, ok, initialized, updates);
        turn := if r.Ok? then Continues else Fails;
      case Stopping =>
        ok := unavailable && disconnected;
        SettledIs(st, ok, initialized, updates);
        turn := HandleStop(manager, unavailable, disconnected);
    }
  }

  // ----- What a command can do to the consumer -----

  /** A command that the consumer receives ends it if and only if it is not about the status of Home Assistant and the
      dispatch to the devices fails; and exactly then the session there is, if any, can never be cancelled. */
  lemma CommandEndsConsumerIff(st: Bridge.State, prefix: string, reg: Registry, order: seq<string>, topic: string,
                               payload: string, behave: Dispatch.Behaviour)
    requires Bridge.Inv(st) && st.consumer.Waiting?
    ensures var ok := CommandReply(prefix, reg, order, topic, payload, behave).result.Ok?;
            var asked := Bridge.Apply(st, Bridge.Network(Publish(topic, payload)));
            var end := Bridge.Apply(asked, Bridge.Receive(ok));
            var reply := Dispatch.Command(reg, order, topic, payload, behave);
            var fails := topic != StatusTopic(prefix) && reply.result.Err?;
            && (end.consumer.Failed? <==> fails)
            && end.current == st.current
            && (st.current.Some? ==> (Bridge.CanBeCancelled(end, st.current.value) <==> !fails))
  {
    var ok := CommandReply(prefix, reg, order, topic, payload, behave).result.Ok?;
    Bridge.FailedCommandEndsConsumer(st, topic, payload, ok);
    if st.current.Some? {
      var asked := Bridge.Apply(st, Bridge.Network(Publish(topic, payload)));
      Bridge.CanBeCancelledIff(Bridge.Apply(asked, Bridge.Receive(ok)), st.current.value);
    }
  }

  /** With one handler that claims the topic, that is the handler's own error. */
  lemma ClaimantEndsConsumerIff(st: Bridge.State, prefix: string, reg: Registry, order: seq<string>,
                                key: string, c: nat, topic: string, payload: string, behave: Dispatch.Behaviour)
    requires Bridge.Inv(st) && st.consumer.Waiting?
    requires Lists(order, reg.Keys) && topic != StatusTopic(prefix)
    requires key in reg && Dispatch.Claims(reg[key], c, topic)
    requires forall k, i :: k in reg && Dispatch.Claims(reg[k], i, topic) ==> k == key && i == c
    ensures var ok := CommandReply(prefix, reg, order, topic, payload, behave).result.Ok?;
            var asked := Bridge.Apply(st, Bridge.Network(Publish(topic, payload)));
            Bridge.Apply(asked, Bridge.Receive(ok)).consumer.Failed? <==>
            behave(reg[key].handlers[c], topic, payload).1.Err?
  {
    CommandEndsConsumerIff(st, prefix, reg, order, topic, payload, behave);
    Dispatch.SoleClaimantRuns(reg, order, key, c, topic, payload, behave);
  }

  /** The status topic has two levels. */
  lemma StatusTopicIs(prefix: string)
    requires Topics.LevelName(prefix)
    ensures Topics.Levels(StatusTopic(prefix)) == [prefix, "status"]
  {
    Topics.LevelsOfJoin([prefix, "status"]);
    assert [prefix, "status"][1..] == ["status"];
    assert prefix + "/" + "status" == prefix + "/status";
  }
}
