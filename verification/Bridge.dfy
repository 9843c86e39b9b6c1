/** The whole bridge as one machine: event loop, channel, consumer, sessions with their caches, and what subscribers
    hold (cmha/src/device_manager.rs, cmha/src/update_engine.rs, cmha/src/cancellation_token.rs).
    Any step of any part can come at any time; a step that cannot happen leaves the state as it is. */
module Bridge {
  import opened Wrappers
  import opened MessageCache
  import opened Connection

  datatype Status = Running | Finished | Aborted

  /** A publishing task, with its two streams. `busy`: the entity stream read the flag unset and is waiting for a tick
      or running a pass; `looking`: the discovery stream likewise. `readings`: the last reading of each topic since the
      task started; `lateBatches` and `lateTicks`: batches published, and discovery ticks finished, once flagged. */
  datatype Task = Task(flagged: bool, status: Status, busy: bool, looking: bool, cache: Payloads, readings: Payloads,
                       lateBatches: nat, lateTicks: nat)

  /** Where `maintain_message_traffic` stands. `Draining`: it has cancelled the session and waits for its task. */
  datatype Consumer = Waiting | Draining(stopping: bool) | Initialising | Stopped | Failed

  /** `current`: the task of the manager's join handle, if any. `tainted`: the topics whose publishes were lost or
      overwritten by a publish that bypasses the cache, since the last session began.
      `clobbered`: an unread connection message was overwritten by another message, would have changed the manager's
      state, and no connection message was sent since. */
  datatype State = State(link: Link, consumer: Consumer, connected: bool, current: Option<nat>, tasks: seq<Task>,
                         view: Payloads, tainted: set<string>, clobbered: bool)

  /** What a publishing task does on its own. `lost`: the topics whose publish failed. */
  datatype Work =
    | Tick
    | PassDone(data: Payloads, early: set<string>, late: set<string>, lost: set<string>)
    | DiscoveryTick
    | Discovered(dropped: set<string>)
    | End

  datatype Step =
    | Network(event: Event)
    | RequestStop
    | ForceStop
    | Receive(ok: bool)
    | DrainDone(ok: bool)
    | InitDone(ok: bool, published: Payloads)
    | Bypass(updates: Payloads)
    | TaskStep(task: nat, work: Work)

  const INITIAL_STATE := State(INITIAL_LINK, Waiting, false, None, [], map[], {}, false)

  /** The slot holds a connection message that the consumer has not read. */
  predicate Pending(st: State) {
    !st.link.seen && st.link.slot.Connected?
  }

  /** What the manager's flag is, or will be once its session is drained. */
  predicate Target(st: State) {
    st.connected && !st.consumer.Draining?
  }

  function Overwrite(st: State): bool {
    if Pending(st) then st.link.slot.up != Target(st) else st.clobbered
  }

  function WithTask(st: State, i: nat, task: Task): State
    requires i < |st.tasks|
  {
    st.(tasks := st.tasks[i := task])
  }

  /** `maintain_message_traffic` returns: the receiver is dropped. */
  function Leave(st: State, consumer: Consumer): State {
    st.(consumer := consumer, link := st.link.(receiverAlive := false))
  }

  /** The manager with no session takes the new flag; after a disconnection the consumer goes on. */
  function TakeFlag(st: State, up: bool, stopping: bool, ok: bool): State {
    var st' := st.(connected := up);
    if up then st'.(consumer := Initialising)
    else if stopping then Leave(st', if ok then Stopped else Failed)
    else st'.(consumer := Waiting)
  }

  function ChangeStatus(st: State, up: bool, stopping: bool, ok: bool): State {
    match st.current
    case Some(i) =>
      if up == st.connected || i >= |st.tasks| then st
      else WithTask(st, i, st.tasks[i].(flagged := true)).(consumer := Draining(stopping))
    case None => TakeFlag(st, up, stopping, ok)
  }

  predicate CanRun(st: State, i: nat) {
    i < |st.tasks| && st.tasks[i].status.Running?
  }

  function OnNetwork(st: State, e: Event): State {
    var link := DealWithEvent(st.link, e).0;
    st.(link := link,
        clobbered := if link.sent != st.link.sent then false
                     else if e.Publish? && link.receiverAlive then Overwrite(st)
                     else st.clobbered)
  }

  function OnStopRequest(st: State): State {
    st.(link := Send(st.link.(shouldStop := true), Stopping).0,
        clobbered := if st.link.receiverAlive then Overwrite(st) else st.clobbered)
  }

  function OnReceive(st: State, ok: bool): State {
    if st.consumer.Waiting? && !st.link.seen then
      var st' := st.(link := st.link.(seen := true));
      match st.link.slot
      case Connected(up) => if ok then ChangeStatus(st', up, false, ok) else Leave(st', Failed)
      case Command(_, _) => if ok then st' else Leave(st', Failed)
      case Stopping => ChangeStatus(st', false, true, ok)
    else st
  }

  function OnDrained(st: State, ok: bool): State {
    if st.consumer.Draining? && st.current.Some? && st.current.value < |st.tasks| then
      var i := st.current.value;
      var task := st.tasks[i];
      var over := task.(status := if task.status.Running? then Aborted else task.status);
      TakeFlag(WithTask(st, i, over).(current := None), false, st.consumer.stopping, ok)
    else st
  }

  function OnInitialized(st: State, ok: bool, published: Payloads): State {
    if st.consumer.Initialising? then
      var st' := st.(view := st.view + published);
      if ok then
        st'.(consumer := Waiting, current := Some(|st.tasks|), tainted := {},
             tasks := st.tasks + [Task(false, Running, false, false, map[], map[], 0, 0)])
      else Leave(st', Failed)
    else st
  }

  function OnTask(st: State, i: nat, work: Work): State {
    if !CanRun(st, i) then st
    else
      var task := st.tasks[i];
      match work
      case Tick =>
        if task.flagged then st else WithTask(st, i, task.(busy := true))
      case PassDone(data, early, late, lost) =>
        if task.busy then
          WithTask(st, i, task.(busy := false, cache := (task.cache + data) - late, readings := task.readings + data,
                                lateBatches := task.lateBatches + if task.flagged then 1 else 0))
            .(view := st.view + (Fresh(task.cache - early, data) - lost), tainted := st.tainted + lost)
        else st
      case DiscoveryTick =>
        if task.flagged then st else WithTask(st, i, task.(looking := true))
      case Discovered(dropped) =>
        if task.looking then
          WithTask(st, i, task.(looking := false, cache := task.cache - dropped,
                                lateTicks := task.lateTicks + if task.flagged then 1 else 0))
        else st
      case End =>
        WithTask(st, i, task.(status := Finished))
  }

  function Apply(st: State, step: Step): State {
    match step
    case Network(e) => OnNetwork(st, e)
    case RequestStop => OnStopRequest(st)
    case ForceStop => if st.consumer.Waiting? then Leave(st, Failed) else st
    case Receive(ok) => OnReceive(st, ok)
    case DrainDone(ok) => OnDrained(st, ok)
    case InitDone(ok, published) => OnInitialized(st, ok, published)
    case Bypass(updates) => st.(view := st.view + updates, tainted := st.tainted + updates.Keys)
    case TaskStep(i, work) => OnTask(st, i, work)
  }

  function Run(st: State, steps: seq<Step>): State
    decreases steps
  {
    if steps == [] then st else Run(Apply(st, steps[0]), steps[1..])
  }

  // ----- Sessions -----

  predicate ManagerInv(st: State) {
    && (st.current.Some? ==> st.current.value == |st.tasks| - 1 && st.connected)
    && match st.consumer
       case Waiting => st.connected <==> st.current.Some?
       case Draining(_) => st.current.Some?
       case Initialising => st.connected && st.current.None?
       case Stopped => !st.connected && st.current.None?
       case Failed => true
  }

  /** A task that is not the current one is over and was flagged; the current one is flagged just while it drains. */
  predicate TaskInv(st: State, i: nat)
    requires i < |st.tasks|
  {
    var task := st.tasks[i];
    && (st.current != Some(i) ==> task.flagged && !task.status.Running?)
    && (st.current == Some(i) ==> (task.flagged <==> st.consumer.Draining?))
    && task.lateBatches <= (if task.flagged && !task.busy then 1 else 0)
    && task.lateTicks <= (if task.flagged && !task.looking then 1 else 0)
  }

  predicate SessionInv(st: State) {
    ManagerInv(st) && forall i :: 0 <= i < |st.tasks| ==> TaskInv(st, i)
  }

  // ----- What subscribers hold -----

  /** Off the tainted topics, subscribers hold what the current session's cache records and what it last read. */
  ghost predicate InStep(st: State, i: nat)
    requires i < |st.tasks|
  {
    forall t :: t !in st.tainted ==>
      (t in st.tasks[i].cache ==> t in st.view && st.view[t] == st.tasks[i].cache[t]) &&
      (t in st.tasks[i].readings ==> t in st.view && st.view[t] == st.tasks[i].readings[t])
  }

  ghost predicate ViewInv(st: State) {
    st.current.Some? && st.current.value < |st.tasks| ==> InStep(st, st.current.value)
  }

  // ----- Flag, channel and manager -----

  /** Nothing unread: the manager's state is the flag's unless its connection message was overwritten. */
  predicate ChannelInv(st: State) {
    && LinkInv(st.link)
    && (st.consumer.Stopped? || st.consumer.Failed? <==> !st.link.receiverAlive)
    && (st.link.receiverAlive && st.link.slot.Connected? ==> !st.clobbered)
    && (st.link.receiverAlive && st.consumer != Draining(true) ==>
          if Pending(st) then !st.clobbered
          else (Target(st) == LastUp(st.link.sent) <==> !st.clobbered))
  }

  ghost predicate Inv(st: State) {
    SessionInv(st) && ViewInv(st) && ChannelInv(st)
  }

  lemma NetworkKeeps(st: State, e: Event)
    requires Inv(st)
    ensures Inv(OnNetwork(st, e))
  {
    var st' := OnNetwork(st, e);
    EventKeepsLink(st.link, e);
    forall i | 0 <= i < |st'.tasks|
      ensures TaskInv(st', i)
    {
      assert TaskInv(st, i);
    }
  }

  lemma StopRequestKeeps(st: State)
    requires Inv(st)
    ensures Inv(OnStopRequest(st))
  {
    var st' := OnStopRequest(st);
    StopKeepsLink(st.link);
    forall i | 0 <= i < |st'.tasks|
      ensures TaskInv(st', i)
    {
      assert TaskInv(st, i);
    }
  }

  lemma ReceiveKeepsSessions(st: State, ok: bool)
    requires SessionInv(st)
    ensures SessionInv(OnReceive(st, ok))
  {
    var st' := OnReceive(st, ok);
    forall i | 0 <= i < |st'.tasks|
      ensures TaskInv(st', i)
    {
      assert TaskInv(st, i);
    }
  }

  /** A status change leaves the channel alone, and unless it ends a stop, aims at the state it is told. */
  lemma StatusChangeAims(st: State, up: bool, stopping: bool, ok: bool)
    requires ManagerInv(st) && st.consumer.Waiting? && (stopping ==> !up)
    ensures var st' := ChangeStatus(st, up, stopping, ok);
            && st'.link == st.link.(receiverAlive := st'.link.receiverAlive) && st'.clobbered == st.clobbered
            && (st'.link.receiverAlive ==> st.link.receiverAlive && !st'.consumer.Stopped? && !st'.consumer.Failed?)
            && (st'.link.receiverAlive ==> st'.consumer == Draining(true) || Target(st') == up)
  {
  }

  lemma ReceiveKeepsChannel(st: State, ok: bool)
    requires SessionInv(st) && ChannelInv(st)
    ensures ChannelInv(OnReceive(st, ok))
  {
    var read := st.(link := st.link.(seen := true));
    if st.consumer.Waiting? && !st.link.seen {
      match st.link.slot
      case Connected(up) => StatusChangeAims(read, up, false, ok);
      case Command(_, _) =>
      case Stopping => StatusChangeAims(read, false, true, ok);
    }
  }

  /** Receiving a message touches neither what subscribers hold nor any cache. */
  lemma ReceiveLeavesView(st: State, ok: bool)
    ensures var st' := OnReceive(st, ok);
            && st'.view == st.view && st'.tainted == st.tainted && st'.current == st.current
            && |st'.tasks| == |st.tasks|
            && forall i :: 0 <= i < |st.tasks| ==>
                 st'.tasks[i].cache == st.tasks[i].cache && st'.tasks[i].readings == st.tasks[i].readings
  {
  }

  lemma ReceiveKeepsView(st: State, ok: bool)
    requires ViewInv(st)
    ensures ViewInv(OnReceive(st, ok))
  {
    ReceiveLeavesView(st, ok);
    if st.current.Some? && st.current.value < |st.tasks| {
      assert InStep(st, st.current.value);
    }
  }

  lemma ReceiveKeeps(st: State, ok: bool)
    requires Inv(st)
    ensures Inv(OnReceive(st, ok))
  {
    ReceiveKeepsSessions(st, ok);
    ReceiveKeepsChannel(st, ok);
    ReceiveKeepsView(st, ok);
  }

  lemma DrainedKeeps(st: State, ok: bool)
    requires Inv(st)
    ensures Inv(OnDrained(st, ok))
  {
    var st' := OnDrained(st, ok);
    forall i | 0 <= i < |st'.tasks|
      ensures TaskInv(st', i)
    {
      assert TaskInv(st, i);
    }
  }

  lemma InitializedKeeps(st: State, ok: bool, published: Payloads)
    requires Inv(st)
    ensures Inv(OnInitialized(st, ok, published))
  {
    var st' := OnInitialized(st, ok, published);
    forall i | 0 <= i < |st'.tasks|
      ensures TaskInv(st', i)
    {
      assert i < |st.tasks| ==> TaskInv(st, i);
    }
  }

  lemma TaskKeeps(st: State, i: nat, work: Work)
    requires Inv(st)
    ensures Inv(OnTask(st, i, work))
  {
    if CanRun(st, i) {
      assert TaskInv(st, i);
      var st' := OnTask(st, i, work);
      forall j | 0 <= j < |st'.tasks|
        ensures TaskInv(st', j)
      {
        assert TaskInv(st, j);
      }
    }
  }

  lemma ApplyKeepsInv(st: State, step: Step)
    requires Inv(st)
    ensures Inv(Apply(st, step))
  {
    match step
    case Network(e) => NetworkKeeps(st, e);
    case RequestStop => StopRequestKeeps(st);
    case ForceStop =>
      forall i | 0 <= i < |st.tasks|
        ensures TaskInv(Apply(st, step), i)
      {
        assert TaskInv(st, i);
      }
    case Receive(ok) => ReceiveKeeps(st, ok);
    case DrainDone(ok) => DrainedKeeps(st, ok);
    case InitDone(ok, published) => InitializedKeeps(st, ok, published);
    case Bypass(updates) =>
      forall i | 0 <= i < |st.tasks|
        ensures TaskInv(Apply(st, step), i)
      {
        assert TaskInv(st, i);
      }
    case TaskStep(i, work) => TaskKeeps(st, i, work);
  }

  lemma {:induction false} RunKeepsInv(st: State, steps: seq<Step>)
    requires Inv(st)
    ensures Inv(Run(st, steps))
    decreases steps
  {
    if steps == [] {
    } else {
      ApplyKeepsInv(st, steps[0]);
      RunKeepsInv(Apply(st, steps[0]), steps[1..]);
    }
  }

  // ----- The main results, over every run -----

  /** At most one session is live, it is the newest, and every other was flagged and is over; whenever the consumer
      waits for a message the manager's flag tells whether it has a session. */
  lemma AtMostOneLiveSession(steps: seq<Step>)
    ensures var st := Run(INITIAL_STATE, steps);
            && (forall i :: 0 <= i < |st.tasks| && (st.tasks[i].status.Running? || !st.tasks[i].flagged) ==>
                  st.current == Some(i) && i == |st.tasks| - 1)
            && (st.consumer.Waiting? ==> (st.connected <==> st.current.Some?))
  {
    RunKeepsInv(INITIAL_STATE, steps);
    var st := Run(INITIAL_STATE, steps);
    forall i | 0 <= i < |st.tasks| && (st.tasks[i].status.Running? || !st.tasks[i].flagged)
      ensures st.current == Some(i)
    {
      assert TaskInv(st, i);
    }
  }

  /** A session publishes at most one batch, and finishes at most one discovery tick, after its cancellation: those it
      was working on. */
  lemma CancelledSessionPublishesAtMostOnce(steps: seq<Step>, i: nat)
    requires i < |Run(INITIAL_STATE, steps).tasks|
    ensures Run(INITIAL_STATE, steps).tasks[i].lateBatches <= 1
    ensures Run(INITIAL_STATE, steps).tasks[i].lateTicks <= 1
  {
    RunKeepsInv(INITIAL_STATE, steps);
    assert TaskInv(Run(INITIAL_STATE, steps), i);
  }

  lemma ReceiveLeavesReplaced(st: State, i: nat, ok: bool)
    requires i < |st.tasks| - 1 && (st.current.Some? ==> st.current.value == |st.tasks| - 1)
    ensures var st' := OnReceive(st, ok); |st'.tasks| == |st.tasks| && st'.tasks[i] == st.tasks[i]
  {
  }

  lemma StepLeavesReplaced(st: State, i: nat, step: Step)
    requires i < |st.tasks| - 1 && !st.tasks[i].status.Running?
    requires st.current.Some? ==> st.current.value == |st.tasks| - 1
    ensures i < |Apply(st, step).tasks| - 1 && Apply(st, step).tasks[i] == st.tasks[i]
  {
    match step
    case Receive(ok) => ReceiveLeavesReplaced(st, i, ok);
    case _ =>
  }

  /** Once its successor exists, a session's own state is final, and none of its steps does anything any more, to
      subscribers or to anything else. */
  lemma {:induction false} ReplacedSessionIsSilent(st: State, i: nat, steps: seq<Step>)
    requires Inv(st) && i < |st.tasks| - 1
    ensures var end := Run(st, steps);
            && i < |end.tasks| - 1 && end.tasks[i] == st.tasks[i]
            && forall work :: Apply(end, TaskStep(i, work)) == end
    decreases steps
  {
    assert TaskInv(st, i);
    if steps == [] {
    } else {
      StepLeavesReplaced(st, i, steps[0]);
      ApplyKeepsInv(st, steps[0]);
      ReplacedSessionIsSilent(Apply(st, steps[0]), i, steps[1..]);
    }
  }

  /** Through any disconnections, reconnections, purges, cancellations and interleavings, subscribers hold what the
      current session last read of every untainted topic; `BridgeRuns` has this in terms of the steps alone. */
  lemma ReadingsAreHeld(steps: seq<Step>, i: nat, t: string)
    requires Run(INITIAL_STATE, steps).current == Some(i) && i < |Run(INITIAL_STATE, steps).tasks|
    requires t in Run(INITIAL_STATE, steps).tasks[i].readings && t !in Run(INITIAL_STATE, steps).tainted
    ensures var st := Run(INITIAL_STATE, steps); t in st.view && st.view[t] == st.tasks[i].readings[t]
  {
    RunKeepsInv(INITIAL_STATE, steps);
  }

  /** While the consumer lives: the flag is 2 exactly when the last connection message sent was a connection, and no
      two disconnections are sent without a connection in between, nor one before the first connection. */
  lemma FlagTellsTheLastMessage(steps: seq<Step>)
    requires Run(INITIAL_STATE, steps).link.receiverAlive
    ensures var l := Run(INITIAL_STATE, steps).link;
            && (l.flag == 2 <==> l.sent != [] && l.sent[|l.sent| - 1])
            && (forall i :: 0 <= i < |l.sent| && !l.sent[i] ==> i > 0 && l.sent[i - 1])
  {
    RunKeepsInv(INITIAL_STATE, steps);
  }

  /** When the consumer waits and has read everything, the manager's flag matches the connection flag if and only if
      no connection message that mattered was overwritten unread; in particular when the slot still holds a connection
      message, which both then match. */
  lemma QuietBridgeAgreesIff(steps: seq<Step>)
    requires var st := Run(INITIAL_STATE, steps); st.consumer.Waiting? && st.link.seen
    ensures var st := Run(INITIAL_STATE, steps);
            && ((st.connected <==> st.link.flag == 2) <==> !st.clobbered)
            && (st.link.slot.Connected? ==> st.connected == st.link.slot.up == (st.link.flag == 2))
  {
    RunKeepsInv(INITIAL_STATE, steps);
  }

  /** The channel keeps only the last message. A command that arrives while a connection message is unread makes the
      bridge miss it: after the command is dealt with, manager and flag agree if and only if that message would have
      changed nothing. */
  lemma CommandHidesConnectionIff(st: State, topic: string, payload: string)
    requires Inv(st) && st.consumer.Waiting? && Pending(st)
    ensures var end := Apply(Apply(st, Network(Publish(topic, payload))), Receive(true));
            && end.consumer.Waiting? && end.link.seen && end.current == st.current
            && ((end.connected <==> end.link.flag == 2) <==> st.link.slot.up == st.connected)
  {
  }

  /** It does happen: the broker connects, a command comes before the consumer looks, and the bridge, with everything
      read, has no session on a connection that is up. */
  lemma ConnectionCanBeMissed(topic: string, payload: string) returns (steps: seq<Step>)
    ensures var st := Run(INITIAL_STATE, steps);
            st.consumer.Waiting? && st.link.seen && st.link.flag == 2 && !st.connected && st.current.None?
  {
    var asked := Apply(INITIAL_STATE, Network(ConnAck(false)));
    var hidden := Apply(asked, Network(Publish(topic, payload)));
    var end := Apply(hidden, Receive(true));
    steps := [Network(ConnAck(false)), Network(Publish(topic, payload)), Receive(true)];
    assert Run(hidden, [Receive(true)]) == Run(end, []);
    assert Run(asked, [Network(Publish(topic, payload)), Receive(true)]) == Run(hidden, [Receive(true)]);
    assert steps[1..] == [Network(Publish(topic, payload)), Receive(true)];
  }

  /** One step sends at most one connection message, and a missed one is made up for only by such a send. */
  lemma {:induction false} StepSends(st: State, step: Step)
    ensures |st.link.sent| <= |Apply(st, step).link.sent|
    ensures |st.link.sent| == |Apply(st, step).link.sent| && st.clobbered && !Pending(st) ==>
              Apply(st, step).clobbered && !Pending(Apply(st, step))
  {
    match step
    case Network(e) => EventSends(st.link, e);
    case _ =>
  }

  lemma EventSends(l: Link, e: Event)
    ensures var l' := DealWithEvent(l, e).0;
            && (l'.sent == l.sent || |l'.sent| == |l.sent| + 1)
            && (l'.sent == l.sent && (l.seen || !l.slot.Connected?) ==> l'.seen || !l'.slot.Connected?)
  {
  }

  lemma {:induction false} SentGrows(st: State, steps: seq<Step>)
    ensures |st.link.sent| <= |Run(st, steps).link.sent|
    decreases steps
  {
    if steps == [] {
    } else {
      StepSends(st, steps[0]);
      SentGrows(Apply(st, steps[0]), steps[1..]);
    }
  }

  /** And it stays missed, whatever else happens, until another connection message is sent. */
  lemma {:induction false} MissedConnectionStaysMissed(st: State, steps: seq<Step>)
    requires st.clobbered && !Pending(st)
    requires |Run(st, steps).link.sent| == |st.link.sent|
    ensures Run(st, steps).clobbered && !Pending(Run(st, steps))
    decreases steps
  {
    if steps == [] {
    } else {
      StepSends(st, steps[0]);
      SentGrows(Apply(st, steps[0]), steps[1..]);
      MissedConnectionStaysMissed(Apply(st, steps[0]), steps[1..]);
    }
  }

  // ----- Who can still cancel a session -----

  /** A consumer that has failed leaves its session running with nobody to cancel it: whatever happens next, its token
      is never flagged. */
  lemma {:induction false} FailedConsumerOrphansSession(st: State, i: nat, steps: seq<Step>)
    requires Inv(st) && st.consumer.Failed? && st.current == Some(i)
    ensures var end := Run(st, steps);
            && end.consumer.Failed? && end.current == Some(i) && i < |end.tasks| && !end.tasks[i].flagged
    decreases steps
  {
    assert TaskInv(st, i);
    if steps == [] {
    } else {
      ApplyKeepsInv(st, steps[0]);
      FailedConsumerOrphansSession(Apply(st, steps[0]), i, steps[1..]);
    }
  }

  /** Some continuation cancels the session. */
  ghost predicate CanBeCancelled(st: State, i: nat) {
    exists steps :: i < |Run(st, steps).tasks| && Run(st, steps).tasks[i].flagged
  }

  lemma CanBeCancelledIff(st: State, i: nat)
    requires Inv(st) && st.current == Some(i)
    ensures CanBeCancelled(st, i) <==> !st.consumer.Failed?
  {
    assert TaskInv(st, i);
    if st.consumer.Failed? {
      forall steps
        ensures !(i < |Run(st, steps).tasks| && Run(st, steps).tasks[i].flagged)
      {
        FailedConsumerOrphansSession(st, i, steps);
      }
    } else if st.consumer.Draining? {
      assert Run(st, []) == st;
    } else {
      var asked := Apply(st, RequestStop);
      var told := Apply(asked, Receive(true));
      assert told.tasks[i].flagged;
      assert Run(asked, [Receive(true)]) == Run(told, []);
      assert Run(st, [RequestStop, Receive(true)]) == told;
    }
  }

  /** In every run the current session can still be cancelled if and only if the consumer has not failed. */
  lemma SessionCanBeCancelledIff(before: seq<Step>, i: nat)
    requires Run(INITIAL_STATE, before).current == Some(i)
    ensures CanBeCancelled(Run(INITIAL_STATE, before), i) <==> !Run(INITIAL_STATE, before).consumer.Failed?
  {
    RunKeepsInv(INITIAL_STATE, before);
    CanBeCancelledIff(Run(INITIAL_STATE, before), i);
  }

  /** A command that is received ends the consumer if and only if dealing with it fails; the session stays. */
  lemma FailedCommandEndsConsumer(st: State, topic: string, payload: string, ok: bool)
    requires Inv(st) && st.consumer.Waiting?
    ensures var end := Apply(Apply(st, Network(Publish(topic, payload))), Receive(ok));
            && Inv(end) && end.current == st.current && end.tasks == st.tasks
            && (end.consumer.Failed? <==> !ok) && (end.consumer.Waiting? <==> ok)
  {
    var asked := Apply(st, Network(Publish(topic, payload)));
    ApplyKeepsInv(st, Network(Publish(topic, payload)));
    ApplyKeepsInv(asked, Receive(ok));
  }

  // ----- When a stop request is heard -----

  /** The step puts another message in the slot: a command, an acknowledged connection or a connection lost. */
  predicate Overwrites(st: State, step: Step) {
    step.Network? &&
    (step.event.Publish? || step.event.ConnAck? || (st.link.flag == 2 && Loses(st.link, step.event)))
  }

  predicate Overwritten(st: State, steps: seq<Step>)
    decreases steps
  {
    steps != [] && (Overwrites(st, steps[0]) || Overwritten(Apply(st, steps[0]), steps[1..]))
  }

  predicate StopWaits(st: State) {
    st.link.slot.Stopping? && !st.link.seen
  }

  /** Nothing is received and no other stop is asked for. */
  predicate Unheard(step: Step) {
    !step.Receive? && !step.RequestStop?
  }

  lemma StepAgainstStop(st: State, step: Step)
    requires Inv(st) && Unheard(step)
    ensures Apply(st, step).link.receiverAlive ==> st.link.receiverAlive
    ensures Apply(st, step).link.receiverAlive ==>
              (StopWaits(Apply(st, step)) <==> StopWaits(st) && !Overwrites(st, step))
  {
    if step.Network? && st.link.receiverAlive {
      EventAgainstStop(st.link, step.event);
    }
  }

  lemma EventAgainstStop(l: Link, e: Event)
    requires l.flag <= 2 && l.receiverAlive
    ensures var l' := DealWithEvent(l, e).0;
            if e.Publish? || e.ConnAck? || (l.flag == 2 && Loses(l, e)) then !l'.slot.Stopping?
            else l'.slot == l.slot && l'.seen == l.seen
  {
  }

  lemma {:induction false} RunAgainstStop(st: State, steps: seq<Step>)
    requires Inv(st) && forall step :: step in steps ==> Unheard(step)
    ensures var end := Run(st, steps);
            && (end.link.receiverAlive ==> st.link.receiverAlive)
            && (end.link.receiverAlive ==> (StopWaits(end) <==> StopWaits(st) && !Overwritten(st, steps)))
    decreases steps
  {
    if steps == [] {
    } else {
      assert steps[0] in steps && forall step :: step in steps[1..] ==> step in steps;
      StepAgainstStop(st, steps[0]);
      ApplyKeepsInv(st, steps[0]);
      RunAgainstStop(Apply(st, steps[0]), steps[1..]);
    }
  }

  /** A request to stop is heard by the consumer, when it next receives, if and only if no command, acknowledged
      connection or lost connection came in between: in every run, the consumer then stops, or drains its session in
      order to stop. */
  lemma StopIsHeardIff(before: seq<Step>, between: seq<Step>)
    requires forall step :: step in between ==> Unheard(step)
    requires Run(Apply(Run(INITIAL_STATE, before), RequestStop), between).consumer.Waiting?
    ensures var asked := Apply(Run(INITIAL_STATE, before), RequestStop);
            var end := Apply(Run(asked, between), Receive(true));
            (end.consumer.Stopped? || end.consumer == Draining(true)) <==> !Overwritten(asked, between)
  {
    var st := Run(INITIAL_STATE, before);
    RunKeepsInv(INITIAL_STATE, before);
    ApplyKeepsInv(st, RequestStop);
    var asked := Apply(st, RequestStop);
    RunKeepsInv(asked, between);
    RunAgainstStop(asked, between);
  }
}
