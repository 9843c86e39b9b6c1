/** The flags by which the two long-running tasks say that they have stopped, and the loop of `stop` that waits for
    one of them (cmha/src/device_manager.rs). Each task updates the shared word by a load and a store, not
    atomically. */
module StopFlags {
  import opened Wrappers

  datatype StoppedTasks = StoppedTasks(eventLoop: bool, messageTraffic: bool)

  datatype Task = EventLoop | MessageTraffic

  const NO_FLAGS := StoppedTasks(false, false)
  const BOTH_FLAGS := StoppedTasks(true, true)

  function With(flags: StoppedTasks, task: Task): StoppedTasks {
    match task
    case EventLoop => flags.(eventLoop := true)
    case MessageTraffic => flags.(messageTraffic := true)
  }

  predicate Has(flags: StoppedTasks, task: Task) {
    match task
    case EventLoop => flags.eventLoop
    case MessageTraffic => flags.messageTraffic
  }

  function Other(task: Task): Task {
    if task.EventLoop? then MessageTraffic else EventLoop
  }

  /** What a task has done of its update: what it loaded, and whether it has stored. */
  datatype Update = Update(loaded: Option<StoppedTasks>, stored: bool)

  /** `leftOn`: the word read by the poll on which `stop` left its loop. `cancels`: whether it then cancels the event
      loop, once it has decided. */
  datatype State = State(word: StoppedTasks, eventLoop: Update, messageTraffic: Update, leftOn: Option<StoppedTasks>,
                         cancels: Option<bool>)

  datatype Step = Load(task: Task) | Store(task: Task) | Poll | Decide

  const INITIAL_STATE := State(NO_FLAGS, Update(None, false), Update(None, false), None, None)

  function UpdateOf(st: State, task: Task): Update {
    if task.EventLoop? then st.eventLoop else st.messageTraffic
  }

  function SetUpdate(st: State, task: Task, u: Update): State {
    if task.EventLoop? then st.(eventLoop := u) else st.(messageTraffic := u)
  }

  function Apply(st: State, step: Step): State {
    match step
    case Load(task) =>
      if UpdateOf(st, task).loaded.None? then SetUpdate(st, task, Update(Some(st.word), false)) else st
    case Store(task) =>
      var u := UpdateOf(st, task);
      if u.loaded.Some? && !u.stored
      then SetUpdate(st, task, u.(stored := true)).(word := With(u.loaded.value, task))
      else st
    case Poll =>
      if st.leftOn.None? && (st.word == With(NO_FLAGS, MessageTraffic) || st.word == With(NO_FLAGS, EventLoop))
      then st.(leftOn := Some(st.word)) else st
    case Decide =>
      if st.leftOn.Some? && st.cancels.None? then st.(cancels := Some(st.word != With(NO_FLAGS, EventLoop))) else st
  }

  function Run(st: State, steps: seq<Step>): State
    decreases steps
  {
    if steps == [] then st else Run(Apply(st, steps[0]), steps[1..])
  }

  predicate TaskInv(st: State, task: Task) {
    var u := UpdateOf(st, task);
    && (u.stored ==> u.loaded.Some?)
    && (Has(st.word, task) ==> u.stored)
    && (u.loaded.Some? ==> !Has(u.loaded.value, task))
    && (u.loaded.Some? && Has(u.loaded.value, Other(task)) ==> UpdateOf(st, Other(task)).stored)
  }

  /** Once both have stored, the later store decides: the word has both flags exactly when that store was made by a
      task that had loaded the other's. */
  predicate Inv(st: State) {
    && TaskInv(st, EventLoop) && TaskInv(st, MessageTraffic)
    && (st.eventLoop.stored || st.messageTraffic.stored ==> st.word != NO_FLAGS)
    && (st.eventLoop.stored && st.messageTraffic.stored ==>
          (st.word == BOTH_FLAGS <==>
             Has(st.eventLoop.loaded.value, MessageTraffic) || Has(st.messageTraffic.loaded.value, EventLoop)))
    && (st.leftOn.Some? ==> st.leftOn.value != NO_FLAGS && st.leftOn.value != BOTH_FLAGS)
    && (st.leftOn.Some? ==> Has(st.leftOn.value, EventLoop) ==> st.eventLoop.stored)
    && (st.leftOn.Some? ==> Has(st.leftOn.value, MessageTraffic) ==> st.messageTraffic.stored)
    && (st.cancels.Some? ==> st.leftOn.Some?)
    && (st.cancels == Some(false) ==> st.eventLoop.stored)
  }

  lemma {:induction false} RunKeepsInv(st: State, steps: seq<Step>)
    requires Inv(st)
    ensures Inv(Run(st, steps))
    decreases steps
  {
    if steps == [] {
    } else {
      RunKeepsInv(Apply(st, steps[0]), steps[1..]);
    }
  }

  /** In every interleaving the word is set once either task has stored, a flag set belongs to a task that stopped,
      and `stop` leaves its loop only on a word with exactly one flag. */
  lemma FlagsTellStoppedTasks(steps: seq<Step>, task: Task)
    ensures var st := Run(INITIAL_STATE, steps);
            && (UpdateOf(st, task).stored ==> st.word != NO_FLAGS)
            && (Has(st.word, task) ==> UpdateOf(st, task).stored)
            && (st.leftOn.Some? ==>
                  st.leftOn.value == With(NO_FLAGS, task) || st.leftOn.value == With(NO_FLAGS, Other(task)))
  {
    RunKeepsInv(INITIAL_STATE, steps);
  }

  /** When both tasks have stored, one of the flags is lost if and only if neither task loaded after the other's
      store. */
  lemma FlagLostIff(steps: seq<Step>)
    requires Run(INITIAL_STATE, steps).eventLoop.stored && Run(INITIAL_STATE, steps).messageTraffic.stored
    ensures var st := Run(INITIAL_STATE, steps);
            && st.eventLoop.loaded.Some? && st.messageTraffic.loaded.Some?
            && (st.word != BOTH_FLAGS <==>
                  st.eventLoop.loaded.value == NO_FLAGS && st.messageTraffic.loaded.value == NO_FLAGS)
  {
    RunKeepsInv(INITIAL_STATE, steps);
  }

  lemma {:induction false} StuckOnBothFlags(st: State, steps: seq<Step>)
    requires Inv(st) && st.word == BOTH_FLAGS && st.leftOn.None?
    ensures Run(st, steps).leftOn.None? && Run(st, steps).word == BOTH_FLAGS
    decreases steps
  {
    if steps == [] {
    } else {
      RunKeepsInv(st, [steps[0]]);
      assert Run(st, [steps[0]]) == Run(Apply(st, steps[0]), []);
      StuckOnBothFlags(Apply(st, steps[0]), steps[1..]);
    }
  }

  /** Once some task has stored and `stop` still waits, the next poll lets it leave if and only if the word does not
      have both flags; if it has, `stop` never leaves. */
  lemma StopLeavesIff(before: seq<Step>, after: seq<Step>)
    requires var st := Run(INITIAL_STATE, before); (st.eventLoop.stored || st.messageTraffic.stored) && st.leftOn.None?
    ensures var st := Run(INITIAL_STATE, before);
            && (Apply(st, Poll).leftOn.Some? <==> st.word != BOTH_FLAGS)
            && (st.word == BOTH_FLAGS ==> Run(st, after).leftOn.None?)
  {
    RunKeepsInv(INITIAL_STATE, before);
    var st := Run(INITIAL_STATE, before);
    if st.word == BOTH_FLAGS {
      StuckOnBothFlags(st, after);
    }
  }

  // ----- The second load -----

  /** After its loop `stop` loads the word anew. In every interleaving it skips the cancellation only of an event loop
      that has stopped, so one that still runs when it decides is cancelled. */
  lemma RunningEventLoopIsCancelled(steps: seq<Step>)
    requires Run(INITIAL_STATE, steps).cancels.Some?
    ensures var st := Run(INITIAL_STATE, steps); st.cancels.value || st.eventLoop.stored
  {
    RunKeepsInv(INITIAL_STATE, steps);
  }

  /** The word stays at what `stop` left on until the other task stores, and is another from then on. */
  lemma {:induction false} WordChangesIff(st: State, task: Task, after: seq<Step>)
    requires Inv(st) && st.word == With(NO_FLAGS, task) && UpdateOf(st, task).stored
    ensures var end := Run(st, after);
            end.word != st.word <==> !UpdateOf(st, Other(task)).stored && UpdateOf(end, Other(task)).stored
    decreases after
  {
    if after == [] {
    } else {
      var next := Apply(st, after[0]);
      RunKeepsInv(st, [after[0]]);
      assert Run(st, [after[0]]) == Run(next, []);
      if next.word == st.word {
        WordChangesIff(next, task, after[1..]);
      } else {
        StoresEndChanges(next, after[1..]);
      }
    }
  }

  lemma {:induction false} StoresEndChanges(st: State, after: seq<Step>)
    requires Inv(st) && st.eventLoop.stored && st.messageTraffic.stored
    ensures var end := Run(st, after); end.word == st.word && end.eventLoop.stored && end.messageTraffic.stored
    decreases after
  {
    if after == [] {
    } else {
      RunKeepsInv(st, [after[0]]);
      assert Run(st, [after[0]]) == Run(Apply(st, after[0]), []);
      StoresEndChanges(Apply(st, after[0]), after[1..]);
    }
  }

  /** The second load differs from the one that `stop` left on if and only if the other task stores in between; and
      leaving on the event loop's flag, `stop` cancels an event loop that has stopped if and only if it does. */
  lemma SecondLoadDiffersIff(before: seq<Step>, between: seq<Step>, task: Task)
    requires Run(INITIAL_STATE, before).leftOn.None?
    requires Apply(Run(INITIAL_STATE, before), Poll).leftOn == Some(With(NO_FLAGS, task))
    requires forall step :: step in between ==> step != Decide
    ensures var left := Apply(Run(INITIAL_STATE, before), Poll);
            var end := Run(left, between);
            var stores := !UpdateOf(left, Other(task)).stored && UpdateOf(end, Other(task)).stored;
            && (end.word != With(NO_FLAGS, task) <==> stores)
            && (task.EventLoop? ==> Apply(end, Decide).cancels == Some(stores))
  {
    RunKeepsInv(INITIAL_STATE, before);
    var st := Run(INITIAL_STATE, before);
    var left := Apply(st, Poll);
    RunKeepsInv(st, [Poll]);
    assert Run(st, [Poll]) == Run(left, []);
    WordChangesIff(left, task, between);
    Undecided(left, between);
  }

  lemma {:induction false} Undecided(st: State, steps: seq<Step>)
    requires st.leftOn.Some? && st.cancels.None? && forall step :: step in steps ==> step != Decide
    ensures Run(st, steps).leftOn == st.leftOn && Run(st, steps).cancels.None?
    decreases steps
  {
    if steps == [] {
    } else {
      assert steps[0] in steps && forall step :: step in steps[1..] ==> step in steps;
      Undecided(Apply(st, steps[0]), steps[1..]);
    }
  }

  // ----- The word in terms of the steps alone -----

  /** The load that counts: the task's first. */
  predicate LoadsAt(steps: seq<Step>, i: nat, task: Task) {
    i < |steps| && steps[i] == Load(task) && Load(task) !in steps[..i]
  }

  /** The store that counts: the task's first after its load. */
  predicate StoresAt(steps: seq<Step>, i: nat, task: Task) {
    && i < |steps| && steps[i] == Store(task) && Load(task) in steps[..i]
    && forall j :: 0 <= j < i && steps[j] == Store(task) ==> Load(task) !in steps[..j]
  }

  ghost predicate HasStored(steps: seq<Step>, task: Task) {
    exists i: nat :: StoresAt(steps, i, task)
  }

  /** The task loads after the other one has stored. */
  ghost predicate LoadsAfterOther(steps: seq<Step>, task: Task) {
    exists i: nat, j: nat :: i < j && StoresAt(steps, i, Other(task)) && LoadsAt(steps, j, task)
  }

  lemma {:induction false} RunConcat(st: State, a: seq<Step>, b: seq<Step>)
    ensures Run(st, a + b) == Run(Run(st, a), b)
    decreases a
  {
    if a == [] {
      assert a + b == b;
    } else {
      RunConcat(Apply(st, a[0]), a[1..], b);
      assert (a + b)[1..] == a[1..] + b;
    }
  }

  lemma LoadsStay(steps: seq<Step>, step: Step, i: nat, task: Task)
    ensures i < |steps| ==> (LoadsAt(steps + [step], i, task) <==> LoadsAt(steps, i, task))
    ensures i < |steps| ==> (StoresAt(steps + [step], i, task) <==> StoresAt(steps, i, task))
    ensures LoadsAt(steps + [step], |steps|, task) <==> step == Load(task) && Load(task) !in steps
  {
    var more := steps + [step];
    assert more[..|steps|] == steps;
    assert forall j :: 0 <= j <= i && j <= |steps| ==> more[..j] == steps[..j];
  }

  lemma NextStore(steps: seq<Step>, step: Step, task: Task)
    ensures StoresAt(steps + [step], |steps|, task) <==>
            step == Store(task) && Load(task) in steps && !HasStored(steps, task)
  {
    var more, n := steps + [step], |steps|;
    assert more[..n] == steps;
    assert forall j :: 0 <= j < n ==> more[..j] == steps[..j] && more[j] == steps[j];
    if j: nat :| j < n && steps[j] == Store(task) && Load(task) in steps[..j] {
      FirstStore(steps, task, j);
    }
  }

  /** Where there is a store after the load there is a first one. */
  lemma {:induction false} FirstStore(steps: seq<Step>, task: Task, j: nat)
    requires j < |steps| && steps[j] == Store(task) && Load(task) in steps[..j]
    ensures HasStored(steps, task)
    decreases j
  {
    if k: nat :| k < j && steps[k] == Store(task) && Load(task) in steps[..k] {
      FirstStore(steps, task, k);
    } else {
      assert StoresAt(steps, j, task);
    }
  }

  /** What a state says of a task's update is what the steps did of it. */
  ghost predicate Tells(steps: seq<Step>, task: Task) {
    var u := UpdateOf(Run(INITIAL_STATE, steps), task);
    && (u.loaded.Some? <==> Load(task) in steps)
    && (u.stored <==> HasStored(steps, task))
    && (u.loaded.Some? ==> (Has(u.loaded.value, Other(task)) <==> LoadsAfterOther(steps, task)))
  }

  lemma StoredGrows(steps: seq<Step>, step: Step, task: Task)
    ensures HasStored(steps + [step], task) <==>
            HasStored(steps, task) || (step == Store(task) && Load(task) in steps)
  {
    NextStore(steps, step, task);
    if i: nat :| StoresAt(steps, i, task) {
      LoadsStay(steps, step, i, task);
      assert StoresAt(steps + [step], i, task);
    }
    if i: nat :| StoresAt(steps + [step], i, task) {
      LoadsStay(steps, step, i, task);
    }
  }

  lemma SeenGrows(steps: seq<Step>, step: Step, task: Task)
    ensures LoadsAfterOther(steps + [step], task) <==>
            LoadsAfterOther(steps, task) ||
            (step == Load(task) && Load(task) !in steps && HasStored(steps, Other(task)))
  {
    var more, n := steps + [step], |steps|;
    LoadsStay(steps, step, n, task);
    if i: nat, j: nat :| i < j && StoresAt(more, i, Other(task)) && LoadsAt(more, j, task) {
      LoadsStay(steps, step, i, Other(task));
      LoadsStay(steps, step, j, task);
    }
    if i: nat, j: nat :| i < j && StoresAt(steps, i, Other(task)) && LoadsAt(steps, j, task) {
      LoadsStay(steps, step, i, Other(task));
      LoadsStay(steps, step, j, task);
      assert StoresAt(more, i, Other(task)) && LoadsAt(more, j, task);
    }
    if i: nat :| step == Load(task) && Load(task) !in steps && StoresAt(steps, i, Other(task)) {
      LoadsStay(steps, step, i, Other(task));
      assert StoresAt(more, i, Other(task)) && LoadsAt(more, n, task);
    }
  }

  /** What one step makes of a task's update; a load sees the other's flag exactly when the other has stored. */
  lemma StepUpdates(st: State, step: Step, task: Task)
    requires Inv(st)
    ensures var u, u' := UpdateOf(st, task), UpdateOf(Apply(st, step), task);
            && (u'.loaded.Some? <==> u.loaded.Some? || step == Load(task))
            && (u'.stored <==> u.stored || (step == Store(task) && u.loaded.Some?))
            && (u.loaded.Some? ==> u'.loaded == u.loaded)
            && (u.loaded.None? && step == Load(task) ==>
                  (Has(u'.loaded.value, Other(task)) <==> UpdateOf(st, Other(task)).stored))
  {
  }

  lemma StepTells(steps: seq<Step>, step: Step, task: Task)
    requires Tells(steps, task) && Tells(steps, Other(task)) && Inv(Run(INITIAL_STATE, steps))
    ensures Tells(steps + [step], task)
  {
    var st := Run(INITIAL_STATE, steps);
    var u, u' := UpdateOf(st, task), UpdateOf(Apply(st, step), task);
    RunSnoc(steps, step);
    StoredGrows(steps, step, task);
    SeenGrows(steps, step, task);
    StepUpdates(st, step, task);
    SeenHasLoaded(steps, task);
    assert u'.stored <==> HasStored(steps + [step], task);
    if u.loaded.Some? {
      assert Has(u'.loaded.value, Other(task)) <==> LoadsAfterOther(steps + [step], task);
    } else if step == Load(task) {
      assert Has(u'.loaded.value, Other(task)) <==> HasStored(steps, Other(task));
    }
  }

  lemma RunSnoc(steps: seq<Step>, step: Step)
    ensures Run(INITIAL_STATE, steps + [step]) == Apply(Run(INITIAL_STATE, steps), step)
  {
    var st := Run(INITIAL_STATE, steps);
    RunConcat(INITIAL_STATE, steps, [step]);
    assert Run(st, [step]) == Run(Apply(st, step), []);
  }

  lemma SeenHasLoaded(steps: seq<Step>, task: Task)
    ensures LoadsAfterOther(steps, task) ==> Load(task) in steps
  {
  }

  lemma {:induction false} StateTells(steps: seq<Step>)
    ensures Tells(steps, EventLoop) && Tells(steps, MessageTraffic)
  {
    if steps == [] {
      assert !HasStored([], EventLoop) && !HasStored([], MessageTraffic);
    } else {
      var n := |steps| - 1;
      StateTells(steps[..n]);
      RunKeepsInv(INITIAL_STATE, steps[..n]);
      assert steps == steps[..n] + [steps[n]];
      StepTells(steps[..n], steps[n], EventLoop);
      StepTells(steps[..n], steps[n], MessageTraffic);
    }
  }

  /** Over every interleaving in which both tasks have stored: the word has both flags if and only if one of them loads
      after the other's store. Before, it has exactly the flags of the tasks that have stored. */
  lemma WordIsOfStepsIff(steps: seq<Step>)
    ensures var word := Run(INITIAL_STATE, steps).word;
            if HasStored(steps, EventLoop) && HasStored(steps, MessageTraffic) then
              && word != NO_FLAGS
              && (word == BOTH_FLAGS <==> LoadsAfterOther(steps, EventLoop) || LoadsAfterOther(steps, MessageTraffic))
            else word == StoppedTasks(HasStored(steps, EventLoop), HasStored(steps, MessageTraffic))
  {
    RunKeepsInv(INITIAL_STATE, steps);
    StateTells(steps);
  }

  /** It does happen that `stop` never leaves: one task stops after the other, before the first poll. */
  lemma StopCanBeStuck(after: seq<Step>)
    ensures var steps := [Load(EventLoop), Store(EventLoop), Load(MessageTraffic), Store(MessageTraffic)];
            Run(INITIAL_STATE, steps).word == BOTH_FLAGS && Run(INITIAL_STATE, steps + after).leftOn.None?
  {
    var a, b := [Load(EventLoop), Store(EventLoop)], [Load(MessageTraffic), Store(MessageTraffic)];
    var steps := a + b;
    assert steps == [Load(EventLoop), Store(EventLoop), Load(MessageTraffic), Store(MessageTraffic)];
    RunTwo(INITIAL_STATE, a[0], a[1]);
    RunTwo(Run(INITIAL_STATE, a), b[0], b[1]);
    RunConcat(INITIAL_STATE, a, b);
    RunConcat(INITIAL_STATE, steps, after);
    RunKeepsInv(INITIAL_STATE, steps);
    StuckOnBothFlags(Run(INITIAL_STATE, steps), after);
  }

  lemma RunTwo(st: State, first: Step, second: Step)
    ensures Run(st, [first, second]) == Apply(Apply(st, first), second)
  {
    var next := Apply(st, first);
    assert [first, second][1..] == [second];
    assert Run(next, [second]) == Run(Apply(next, second), []);
  }
}
