/** What the steps of the bridge do, and what follows over its runs, in terms of the steps alone. */
module BridgeRuns {
  import opened Wrappers
  import opened MessageCache
  import opened Connection
  import opened Bridge
  import CacheRuns

  // ----- What single steps do -----

  /** A session starts live, unflagged and idle, with an empty cache, and what its initialisation published is held. */
  lemma SessionStarts(st: State, published: Payloads)
    requires st.consumer.Initialising?
    ensures var i, started := |st.tasks|, Apply(st, InitDone(true, published));
            && started.current == Some(i) && |started.tasks| == i + 1 && started.consumer.Waiting?
            && CanRun(started, i) && !started.tasks[i].flagged && started.tasks[i].cache == map[]
            && started.view == st.view + published
  {
  }

  /** The task is in the midst of a pass, and can finish it. */
  predicate InPass(st: State, i: nat) {
    CanRun(st, i) && st.tasks[i].busy
  }

  predicate InTick(st: State, i: nat) {
    CanRun(st, i) && st.tasks[i].looking
  }

  /** A live task begins a pass, or a discovery tick, exactly when its flag is not set. */
  lemma TicksStartIff(st: State, i: nat)
    requires CanRun(st, i)
    ensures InPass(Apply(st, TaskStep(i, Tick)), i) <==> InPass(st, i) || !st.tasks[i].flagged
    ensures InTick(Apply(st, TaskStep(i, DiscoveryTick)), i) <==> InTick(st, i) || !st.tasks[i].flagged
    ensures Apply(st, TaskStep(i, Tick)).view == Apply(st, TaskStep(i, DiscoveryTick)).view == st.view
  {
  }

  /** A task in a pass filters what it read as a run of the filter does, and publishes all of that but what is lost; a
      task that is not does nothing. */
  lemma PassFilters(st: State, i: nat, data: Payloads, early: set<string>, late: set<string>, lost: set<string>)
    ensures var end := Apply(st, TaskStep(i, PassDone(data, early, late, lost)));
            var pass := CacheRuns.Pass(data, early, late);
            if InPass(st, i) then
              && !InPass(end, i) && CanRun(end, i)
              && end.tasks[i].cache == CacheRuns.CacheAfter(st.tasks[i].cache, pass)
              && end.view == st.view + (CacheRuns.Emitted(st.tasks[i].cache, pass) - lost)
            else end == st
  {
  }

  lemma DiscoveryDrops(st: State, i: nat, dropped: set<string>)
    ensures var end := Apply(st, TaskStep(i, Discovered(dropped)));
            if InTick(st, i) then
              && !InTick(end, i) && CanRun(end, i) && end.view == st.view
              && end.tasks[i].cache == CacheRuns.CacheAfter(st.tasks[i].cache, CacheRuns.Purge(dropped))
            else end == st
  {
  }

  lemma TaskEnds(st: State, i: nat)
    ensures !CanRun(Apply(st, TaskStep(i, End)), i) && Apply(st, TaskStep(i, End)).view == st.view
  {
  }

  /** A publish that bypasses the cache is held. A forced stop ends a consumer that waits, and no other. */
  lemma BypassIsHeld(st: State, updates: Payloads)
    ensures Apply(st, Bypass(updates)).view == st.view + updates
    ensures Apply(st, ForceStop).consumer == if st.consumer.Waiting? then Failed else st.consumer
  {
  }

  /** A stop that is asked for waits in the slot, if there is a receiver, and the event loop knows of it either way. */
  lemma StopIsAsked(st: State)
    ensures var asked := Apply(st, RequestStop);
            && asked.link.shouldStop && (st.link.receiverAlive ==> StopWaits(asked))
            && asked.link.flag == st.link.flag && asked.link.sent == st.link.sent && asked.tasks == st.tasks
  {
  }

  // ----- What subscribers hold -----

  /** The step loses a publish on the topic, or publishes on it past the cache. */
  predicate Spoils(step: Step, t: string) {
    || (step.TaskStep? && step.work.PassDone? && t in step.work.lost)
    || (step.Bypass? && t in step.updates)
  }

  predicate Spoiled(steps: seq<Step>, t: string) {
    exists step :: step in steps && Spoils(step, t)
  }

  /** Only such steps taint a topic. */
  lemma {:induction false} TaintedOnlyIf(st: State, steps: seq<Step>, t: string)
    requires t in Run(st, steps).tainted
    ensures t in st.tainted || Spoiled(steps, t)
    decreases steps
  {
    if steps == [] {
    } else {
      var next := Apply(st, steps[0]);
      TaintedOnlyIf(next, steps[1..], t);
      if t in next.tainted && t !in st.tainted {
        StepTaintsOnlyIf(st, steps[0], t);
        assert steps[0] in steps;
      }
    }
  }

  lemma StepTaintsOnlyIf(st: State, step: Step, t: string)
    requires t in Apply(st, step).tainted && t !in st.tainted
    ensures Spoils(step, t)
  {
    match step
    case Receive(ok) => ReceiveLeavesView(st, ok);
    case _ =>
  }

  /** The task finishes a pass that reads the topic. */
  predicate Reads(step: Step, i: nat, t: string) {
    step.TaskStep? && step.task == i && step.work.PassDone? && t in step.work.data
  }

  /** What happens to a task from outside: it can be flagged and stopped, and nothing else. */
  predicate Outlives(before: Task, after: Task) {
    && (before.flagged ==> after.flagged) && (after.status.Running? ==> before.status.Running?)
    && after.cache == before.cache && after.readings == before.readings
    && after.busy == before.busy && after.looking == before.looking
  }

  lemma StatusOutlived(st: State, up: bool, stopping: bool, ok: bool, i: nat)
    requires i < |st.tasks|
    ensures var end := ChangeStatus(st, up, stopping, ok);
            |end.tasks| == |st.tasks| && Outlives(st.tasks[i], end.tasks[i])
  {
  }

  lemma ReceiveOutlived(st: State, ok: bool, i: nat)
    requires i < |st.tasks|
    ensures i < |OnReceive(st, ok).tasks| && Outlives(st.tasks[i], OnReceive(st, ok).tasks[i])
  {
    if st.consumer.Waiting? && !st.link.seen {
      var read := st.(link := st.link.(seen := true));
      match st.link.slot
      case Connected(up) => StatusOutlived(read, up, false, ok, i);
      case Command(_, _) => assert OnReceive(st, ok).tasks == st.tasks;
      case Stopping => StatusOutlived(read, false, true, ok, i);
    }
  }

  lemma DrainedOutlived(st: State, ok: bool, i: nat)
    requires i < |st.tasks|
    ensures i < |OnDrained(st, ok).tasks| && Outlives(st.tasks[i], OnDrained(st, ok).tasks[i])
  {
  }

  lemma OthersOutlived(st: State, step: Step, i: nat)
    requires i < |st.tasks| && !(step.TaskStep? && step.task == i)
    ensures i < |Apply(st, step).tasks| && Outlives(st.tasks[i], Apply(st, step).tasks[i])
  {
    match step
    case Network(e) => assert OnNetwork(st, e).tasks == st.tasks;
    case Receive(ok) => ReceiveOutlived(st, ok, i);
    case DrainDone(ok) => DrainedOutlived(st, ok, i);
    case TaskStep(j, work) => assert OnTask(st, j, work).tasks[i] == st.tasks[i];
    case _ =>
  }

  lemma StepKeepsReading(st: State, step: Step, i: nat, t: string)
    requires i < |st.tasks| && !Reads(step, i, t)
    ensures var end := Apply(st, step);
            && i < |end.tasks|
            && (t in st.tasks[i].readings ==>
                  t in end.tasks[i].readings && end.tasks[i].readings[t] == st.tasks[i].readings[t])
  {
    if step.TaskStep? && step.task == i {
      OwnWorkKeepsReading(st, step.work, i, t);
    } else {
      OthersOutlived(st, step, i);
    }
  }

  lemma OwnWorkKeepsReading(st: State, work: Work, i: nat, t: string)
    requires i < |st.tasks| && (work.PassDone? ==> t !in work.data)
    ensures var end := OnTask(st, i, work);
            && i < |end.tasks|
            && (t in st.tasks[i].readings ==>
                  t in end.tasks[i].readings && end.tasks[i].readings[t] == st.tasks[i].readings[t])
  {
  }

  lemma {:induction false} ReadingStays(st: State, steps: seq<Step>, i: nat, t: string)
    requires i < |st.tasks| && t in st.tasks[i].readings && forall step :: step in steps ==> !Reads(step, i, t)
    ensures var end := Run(st, steps);
            && i < |end.tasks| && t in end.tasks[i].readings
            && end.tasks[i].readings[t] == st.tasks[i].readings[t]
    decreases steps
  {
    if steps == [] {
    } else {
      assert steps[0] in steps && forall step :: step in steps[1..] ==> step in steps;
      StepKeepsReading(st, steps[0], i, t);
      ReadingStays(Apply(st, steps[0]), steps[1..], i, t);
    }
  }

  lemma {:induction false} RunConcat(st: State, a: seq<Step>, b: seq<Step>)
    ensures Run(st, a + b) == Run(Run(st, a), b)
    decreases a
  {
    if a == [] {
      assert a + b == b;
    } else {
      var next := Apply(st, a[0]);
      RunConcat(next, a[1..], b);
      assert (a + b)[0] == a[0] && (a + b)[1..] == a[1..] + b;
      assert Run(st, a + b) == Run(next, a[1..] + b) && Run(st, a) == Run(next, a[1..]);
    }
  }

  lemma RunParts(st: State, steps: seq<Step>, k: nat)
    requires k < |steps|
    ensures Run(st, steps) == Run(Apply(Run(st, steps[..k]), steps[k]), steps[k + 1..])
  {
    assert steps == steps[..k] + steps[k..] && steps[k..][1..] == steps[k + 1..];
    RunConcat(st, steps[..k], steps[k..]);
  }

  lemma PassIsRead(st: State, steps: seq<Step>, k: nat, i: nat, t: string)
    requires k < |steps| && Reads(steps[k], i, t) && InPass(Run(st, steps[..k]), i)
    requires forall j :: k < j < |steps| ==> !Reads(steps[j], i, t)
    ensures var end := Run(st, steps);
            && i < |end.tasks| && t in end.tasks[i].readings
            && end.tasks[i].readings[t] == steps[k].work.data[t]
  {
    RunParts(st, steps, k);
    var read, rest := Apply(Run(st, steps[..k]), steps[k]), steps[k + 1..];
    forall step | step in rest
      ensures !Reads(step, i, t)
    {
      var j :| 0 <= j < |rest| && rest[j] == step;
      assert step == steps[k + 1 + j];
    }
    ReadingStays(read, rest, i, t);
  }

  /** Over every run: a session starts, finishes a pass that reads a topic, and is still the current one. If it has not
      finished another that reads the topic since, and no step since it started lost a publish on the topic or published
      on it past the cache, subscribers hold what that pass read; through any disconnections, purges, cancellations and
      interleavings. */
  lemma SubscribersInStep(before: seq<Step>, published: Payloads, since: seq<Step>, k: nat, t: string)
    requires var st := Run(INITIAL_STATE, before);
             var i, started := |st.tasks|, Apply(st, InitDone(true, published));
             && st.consumer.Initialising?
             && k < |since| && Reads(since[k], i, t) && InPass(Run(started, since[..k]), i)
             && (forall j :: k < j < |since| ==> !Reads(since[j], i, t))
             && !Spoiled(since, t)
             && Run(started, since).current == Some(i)
    ensures var end := Run(Apply(Run(INITIAL_STATE, before), InitDone(true, published)), since);
            t in end.view && end.view[t] == since[k].work.data[t]
  {
    var st := Run(INITIAL_STATE, before);
    var i, started := |st.tasks|, Apply(st, InitDone(true, published));
    RunKeepsInv(INITIAL_STATE, before);
    ApplyKeepsInv(st, InitDone(true, published));
    RunKeepsInv(started, since);
    var end := Run(started, since);
    if t in end.tainted {
      TaintedOnlyIf(started, since, t);
    }
    PassIsRead(started, since, k, i, t);
    assert InStep(end, i);
  }

  // ----- After a cancellation -----

  /** The task finishes a pass, or a discovery tick. */
  predicate Finishes(st: State, step: Step, i: nat) {
    step.TaskStep? && step.task == i &&
    ((step.work.PassDone? && InPass(st, i)) || (step.work.Discovered? && InTick(st, i)))
  }

  lemma StepKeepsFlagged(st: State, step: Step, i: nat)
    requires i < |st.tasks| && st.tasks[i].flagged
    ensures var end := Apply(st, step);
            && i < |end.tasks| && end.tasks[i].flagged
            && (InPass(end, i) ==> InPass(st, i)) && (InTick(end, i) ==> InTick(st, i))
  {
    if step.TaskStep? && step.task == i {
      OwnWorkKeepsFlagged(st, step.work, i);
    } else {
      OthersOutlived(st, step, i);
    }
  }

  lemma OwnWorkKeepsFlagged(st: State, work: Work, i: nat)
    requires i < |st.tasks| && st.tasks[i].flagged
    ensures var end := OnTask(st, i, work);
            && i < |end.tasks| && end.tasks[i].flagged
            && (InPass(end, i) ==> InPass(st, i)) && (InTick(end, i) ==> InTick(st, i))
  {
  }

  lemma {:induction false} FlaggedStaysOut(st: State, steps: seq<Step>, i: nat)
    requires i < |st.tasks| && st.tasks[i].flagged
    ensures var end := Run(st, steps);
            && i < |end.tasks| && end.tasks[i].flagged
            && (InPass(end, i) ==> InPass(st, i)) && (InTick(end, i) ==> InTick(st, i))
    decreases steps
  {
    if steps == [] {
    } else {
      StepKeepsFlagged(st, steps[0], i);
      FlaggedStaysOut(Apply(st, steps[0]), steps[1..], i);
    }
  }

  /** Once its token is flagged a session finishes, in any run, at most the pass and at most the discovery tick it is
      in: after one of a kind, no other step of that kind does anything. */
  lemma FlaggedSessionFinishesOnce(st: State, steps: seq<Step>, i: nat, j: nat, k: nat)
    requires i < |st.tasks| && st.tasks[i].flagged && j < k < |steps|
    requires Finishes(Run(st, steps[..j]), steps[j], i)
    requires steps[k].TaskStep? && steps[k].task == i
    requires steps[j].work.PassDone? == steps[k].work.PassDone?
    requires steps[j].work.Discovered? == steps[k].work.Discovered?
    ensures Apply(Run(st, steps[..k]), steps[k]) == Run(st, steps[..k])
  {
    var at := Run(st, steps[..j]);
    FlaggedStaysOut(st, steps[..j], i);
    FinishedIsOut(at, steps[j], i);
    StepKeepsFlagged(at, steps[j], i);
    assert steps[..k][..j] == steps[..j] && steps[..k][j] == steps[j];
    RunParts(st, steps[..k], j);
    FlaggedStaysOut(Apply(at, steps[j]), steps[..k][j + 1..], i);
    OutDoesNothing(Run(st, steps[..k]), steps[k], i);
  }

  lemma FinishedIsOut(st: State, step: Step, i: nat)
    requires Finishes(st, step, i)
    ensures step.work.PassDone? ==> !InPass(Apply(st, step), i)
    ensures step.work.Discovered? ==> !InTick(Apply(st, step), i)
  {
    match step.work
    case PassDone(data, early, late, lost) => PassFilters(st, i, data, early, late, lost);
    case Discovered(dropped) => DiscoveryDrops(st, i, dropped);
    case _ =>
  }

  lemma OutDoesNothing(st: State, step: Step, i: nat)
    requires step.TaskStep? && step.task == i
    requires (step.work.PassDone? && !InPass(st, i)) || (step.work.Discovered? && !InTick(st, i))
    ensures Apply(st, step) == st
  {
    match step.work
    case PassDone(data, early, late, lost) => PassFilters(st, i, data, early, late, lost);
    case Discovered(dropped) => DiscoveryDrops(st, i, dropped);
    case _ =>
  }

  // ----- Connection messages that are missed -----

  /** The step overwrites an unread connection message that would have changed the manager's state. */
  predicate Hides(st: State, step: Step) {
    && ((step.Network? && step.event.Publish?) || step.RequestStop?)
    && st.link.receiverAlive && Pending(st) && st.link.slot.up != Target(st)
  }

  lemma StepClobbersIff(st: State, step: Step)
    requires Inv(st)
    ensures var end := Apply(st, step);
            && |st.link.sent| <= |end.link.sent|
            && (end.clobbered <==> |end.link.sent| == |st.link.sent| && (st.clobbered || Hides(st, step)))
            && (Hides(st, step) ==> |end.link.sent| == |st.link.sent|)
  {
    match step
    case Network(e) => EventSendsIff(st.link, e);
    case Receive(ok) => ReceiveLeavesSent(st, ok);
    case _ =>
  }

  lemma ReceiveLeavesSent(st: State, ok: bool)
    ensures OnReceive(st, ok).link.sent == st.link.sent && OnReceive(st, ok).clobbered == st.clobbered
  {
  }

  lemma EventSendsIff(l: Link, e: Event)
    ensures var l' := DealWithEvent(l, e).0;
            && (l'.sent == l.sent || |l'.sent| == |l.sent| + 1)
            && (e.Publish? ==> l'.sent == l.sent)
  {
  }

  /** Step `k` hides a message, and no connection message is sent from there to the end. */
  predicate HiddenAt(st: State, steps: seq<Step>, k: nat)
    requires k < |steps|
  {
    var at := Run(st, steps[..k]);
    Hides(at, steps[k]) && |Run(st, steps).link.sent| == |at.link.sent|
  }

  ghost predicate Hidden(st: State, steps: seq<Step>) {
    exists k: nat :: k < |steps| && HiddenAt(st, steps, k)
  }

  lemma HiddenNowOrLater(st: State, steps: seq<Step>)
    requires steps != []
    ensures Hidden(st, steps) <==>
            (Hides(st, steps[0]) && |Run(st, steps).link.sent| == |st.link.sent|) ||
            Hidden(Apply(st, steps[0]), steps[1..])
  {
    var next, rest := Apply(st, steps[0]), steps[1..];
    assert Run(st, steps[..0]) == st;
    forall k: nat | 0 < k < |steps|
      ensures HiddenAt(st, steps, k) <==> HiddenAt(next, rest, k - 1)
    {
      assert steps[..k][1..] == rest[..k - 1] && steps[k] == rest[k - 1];
    }
    if k: nat :| k < |rest| && HiddenAt(next, rest, k) {
      assert HiddenAt(st, steps, k + 1);
    }
    assert HiddenAt(st, steps, 0) <==> Hides(st, steps[0]) && |Run(st, steps).link.sent| == |st.link.sent|;
  }

  lemma {:induction false} ClobberedIff(st: State, steps: seq<Step>)
    requires Inv(st)
    ensures Run(st, steps).clobbered <==>
            (st.clobbered && |Run(st, steps).link.sent| == |st.link.sent|) || Hidden(st, steps)
    decreases steps
  {
    if steps == [] {
    } else {
      var next := Apply(st, steps[0]);
      StepClobbersIff(st, steps[0]);
      ApplyKeepsInv(st, steps[0]);
      SentGrows(next, steps[1..]);
      ClobberedIff(next, steps[1..]);
      HiddenNowOrLater(st, steps);
    }
  }

  /** When the consumer waits and has read everything, manager and flag agree if and only if no step has overwritten an
      unread connection message that mattered without another being sent since. */
  lemma QuietBridgeAgreesUnlessHidden(steps: seq<Step>)
    requires var st := Run(INITIAL_STATE, steps); st.consumer.Waiting? && st.link.seen
    ensures var st := Run(INITIAL_STATE, steps);
            (st.connected <==> st.link.flag == 2) <==> !Hidden(INITIAL_STATE, steps)
  {
    QuietBridgeAgreesIff(steps);
    ClobberedIff(INITIAL_STATE, steps);
  }
}
