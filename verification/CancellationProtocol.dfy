/** Every interleaving of `create_token`, `cancel` and `wait_on` (cmha/src/cancellation_token.rs).
    Sources, tokens and calls of `wait_on` are named by their position in the state; a clone of a token or of a
    source has the same name. A step that cannot happen leaves the state as it is. */
module CancellationProtocol {
  import opened Wrappers

  /** A call of `cancel` that found the source uncancelled holds the lock on the list from its first flag to
      `notify_waiters`. */
  datatype Progress = Idle | Flagging(next: nat)

  /** `listed`: the length of the list of tokens. `cutoff`: that length when the first `cancel` took the lock.
      `notified`: whether `notify_waiters` has run. */
  datatype Source = Source(listed: nat, cutoff: Option<nat>, progress: Progress, notified: bool)

  /** `position`: the token's place in the list of its source, when it is there. */
  datatype Token = Token(source: nat, position: Option<nat>, flagged: bool)

  /** `Checked`: the flag was read unset and `notified()` is not yet made. `Registered(late)`: it is made, and `late`
      tells that `notify_waiters` had already run. */
  datatype Phase = Checked | Registered(late: bool) | Woken | Failed | Completed | Dropped

  datatype Waiter = Waiter(token: nat, phase: Phase)

  datatype State = State(sources: seq<Source>, tokens: seq<Token>, waiters: seq<Waiter>)

  datatype Step =
    | NewSource
    | NewSourceWithToken
    | CreateToken(source: nat)
    | BeginCancel(source: nat)
    | FlagNext(source: nat)
    | NotifyWaiters(source: nat)
    | BeginWait(token: nat)
    | Register(waiter: nat)
    | Complete(waiter: nat)
    | Fail(waiter: nat)
    | Drop(waiter: nat)

  const INITIAL_STATE := State([], [], [])

  function SourceOf(st: State, w: nat): nat
    requires w < |st.waiters| && st.waiters[w].token < |st.tokens|
  {
    st.tokens[st.waiters[w].token].source
  }

  function SetSource(st: State, s: nat, source: Source): State
    requires s < |st.sources|
  {
    st.(sources := st.sources[s := source])
  }

  function SetPhase(st: State, w: nat, phase: Phase): State
    requires w < |st.waiters|
  {
    st.(waiters := st.waiters[w := st.waiters[w].(phase := phase)])
  }

  /** `notify_waiters` reaches the waiters registered with the source's notifier at that moment. */
  function Wake(st: State, w: Waiter, s: nat): Waiter {
    if w.token < |st.tokens| && st.tokens[w.token].source == s && w.phase.Registered? then w.(phase := Woken) else w
  }

  /** `cancel` sets the flag of the token at place `n` of the list. */
  function Flag(t: Token, s: nat, n: nat): Token {
    if t.source == s && t.position == Some(n) then t.(flagged := true) else t
  }

  function Apply(st: State, step: Step): State {
    match step
    case NewSource => st.(sources := st.sources + [Source(0, None, Idle, false)])
    case NewSourceWithToken =>
      st.(sources := st.sources + [Source(0, None, Idle, false)],
          tokens := st.tokens + [Token(|st.sources|, None, false)])
    case CreateToken(s) =>
      if s < |st.sources| && st.sources[s].progress.Idle? then
        SetSource(st, s, st.sources[s].(listed := st.sources[s].listed + 1))
          .(tokens := st.tokens + [Token(s, Some(st.sources[s].listed), false)])
      else st
    case BeginCancel(s) =>
      if s < |st.sources| && st.sources[s].progress.Idle? && st.sources[s].cutoff.None? then
        SetSource(st, s, st.sources[s].(cutoff := Some(st.sources[s].listed), progress := Flagging(0)))
      else st
    case FlagNext(s) =>
      if s < |st.sources| && st.sources[s].progress.Flagging? && st.sources[s].progress.next < st.sources[s].listed then
        var n := st.sources[s].progress.next;
        SetSource(st, s, st.sources[s].(progress := Flagging(n + 1)))
          .(tokens := seq(|st.tokens|, i requires 0 <= i < |st.tokens| => Flag(st.tokens[i], s, n)))
      else st
    case NotifyWaiters(s) =>
      if s < |st.sources| && st.sources[s].progress == Flagging(st.sources[s].listed) then
        SetSource(st, s, st.sources[s].(progress := Idle, notified := true))
          .(waiters := seq(|st.waiters|, i requires 0 <= i < |st.waiters| => Wake(st, st.waiters[i], s)))
      else st
    case BeginWait(t) =>
      if t < |st.tokens| then
        st.(waiters := st.waiters + [Waiter(t, if st.tokens[t].flagged then Failed else Checked)])
      else st
    case Register(w) =>
      if
        && w < |st.waiters| && st.waiters[w].phase.Checked?
        && st.waiters[w].token < |st.tokens| && SourceOf(st, w) < |st.sources|
      then
        SetPhase(st, w, Registered(st.sources[SourceOf(st, w)].notified))
      else st
    case Complete(w) =>
      if w < |st.waiters| && (st.waiters[w].phase.Registered? || st.waiters[w].phase.Woken?)
      then SetPhase(st, w, Completed)
      else st
    case Fail(w) =>
      if w < |st.waiters| && st.waiters[w].phase.Woken? then SetPhase(st, w, Failed) else st
    case Drop(w) =>
      if w < |st.waiters| && !st.waiters[w].phase.Failed? && !st.waiters[w].phase.Completed?
      then SetPhase(st, w, Dropped)
      else st
  }

  function Run(st: State, steps: seq<Step>): State
    decreases steps
  {
    if steps == [] then st else Run(Apply(st, steps[0]), steps[1..])
  }

  // ----- The invariant -----

  predicate Names(st: State) {
    && (forall t :: 0 <= t < |st.tokens| ==> st.tokens[t].source < |st.sources|)
    && (forall w :: 0 <= w < |st.waiters| ==> st.waiters[w].token < |st.tokens|)
  }

  /** How many tokens of the list have been flagged. */
  function FlaggedCount(source: Source): nat {
    if source.cutoff.None? then 0
    else if source.progress.Flagging? then source.progress.next
    else source.cutoff.value
  }

  predicate SourceInv(source: Source) {
    && FlaggedCount(source) <= source.listed
    && (source.cutoff.None? ==> source.progress.Idle? && !source.notified)
    && (source.cutoff.Some? ==>
          && source.cutoff.value <= source.listed
          && (source.progress.Flagging? ==> source.cutoff.value == source.listed)
          && (source.notified <==> source.progress.Idle?))
  }

  /** A token is flagged exactly when it is among those of its source's list that have been flagged. */
  predicate TokenInv(st: State, t: nat)
    requires Names(st) && t < |st.tokens|
  {
    var token, source := st.tokens[t], st.sources[st.tokens[t].source];
    && (token.position.Some? ==> token.position.value < source.listed)
    && (token.flagged <==> token.position.Some? && token.position.value < FlaggedCount(source))
  }

  predicate WaiterInv(st: State, w: nat)
    requires Names(st) && w < |st.waiters|
  {
    var source := st.sources[SourceOf(st, w)];
    match st.waiters[w].phase
    case Registered(late) => late <==> source.notified
    case Woken => source.notified
    case Failed => source.cutoff.Some?
    case _ => true
  }

  predicate Inv(st: State) {
    && Names(st)
    && (forall s :: 0 <= s < |st.sources| ==> SourceInv(st.sources[s]))
    && (forall t :: 0 <= t < |st.tokens| ==> TokenInv(st, t))
    && (forall w :: 0 <= w < |st.waiters| ==> WaiterInv(st, w))
  }

  lemma ApplyKeepsNames(st: State, step: Step)
    requires Names(st) && forall s :: 0 <= s < |st.sources| ==> SourceInv(st.sources[s])
    ensures Names(Apply(st, step))
    ensures forall s :: 0 <= s < |Apply(st, step).sources| ==> SourceInv(Apply(st, step).sources[s])
  {
  }

  lemma ApplyKeepsToken(st: State, step: Step, t: nat)
    requires Inv(st) && Names(Apply(st, step)) && t < |Apply(st, step).tokens|
    ensures TokenInv(Apply(st, step), t)
  {
    assert t < |st.tokens| ==> TokenInv(st, t);
  }

  lemma ApplyKeepsWaiter(st: State, step: Step, w: nat)
    requires Inv(st) && Names(Apply(st, step)) && w < |Apply(st, step).waiters|
    ensures WaiterInv(Apply(st, step), w)
  {
    if w < |st.waiters| {
      assert WaiterInv(st, w);
    } else {
      assert TokenInv(st, step.token);
    }
  }

  lemma ApplyKeepsInv(st: State, step: Step)
    requires Inv(st)
    ensures Inv(Apply(st, step))
  {
    ApplyKeepsNames(st, step);
    forall t | 0 <= t < |Apply(st, step).tokens|
      ensures TokenInv(Apply(st, step), t)
    {
      ApplyKeepsToken(st, step, t);
    }
    forall w | 0 <= w < |Apply(st, step).waiters|
      ensures WaiterInv(Apply(st, step), w)
    {
      ApplyKeepsWaiter(st, step, w);
    }
  }

  lemma {:induction false} RunKeepsInv(st: State, steps: seq<Step>)
    requires Inv(st)
    ensures Inv(Run(st, steps))
    decreases steps
  {
    if steps == [] {
    } else {
      ApplyKeepsInv(st, steps[0]);
      RunKeepsInv(Apply(st, steps[0]), steps[1..]);
    }
  }

  lemma {:induction false} RunConcat(st: State, a: seq<Step>, b: seq<Step>)
    ensures Run(st, a + b) == Run(Run(st, a), b)
    decreases a
  {
    if a == [] {
      assert a + b == b;
    } else {
      var next := Apply(st, a[0]);
      RunConcat(next, a[1..], b);
      assert (a + b)[0] == a[0] && (a + b)[1..] == a[1..] + b;
      assert Run(st, a + b) == Run(next, a[1..] + b) && Run(st, a) == Run(next, a[1..]);
    }
  }

  // ----- The protocol, over every run -----

  /** `wait_on` fails only when the source of its own token was cancelled. */
  lemma FailsOnlyWhenCancelled(steps: seq<Step>, w: nat)
    requires w < |Run(INITIAL_STATE, steps).waiters| && Run(INITIAL_STATE, steps).waiters[w].phase.Failed?
    ensures var st := Run(INITIAL_STATE, steps);
            && st.waiters[w].token < |st.tokens| && SourceOf(st, w) < |st.sources|
            && st.sources[SourceOf(st, w)].cutoff.Some?
  {
    RunKeepsInv(INITIAL_STATE, steps);
    assert WaiterInv(Run(INITIAL_STATE, steps), w);
  }

  /** Once a cancelled source has notified, its flagged tokens are exactly those that were in its list when the
      first `cancel` took the lock; before that call no token of it is flagged. */
  lemma FlaggedExactlyTheListed(steps: seq<Step>, t: nat)
    requires t < |Run(INITIAL_STATE, steps).tokens|
    ensures var st := Run(INITIAL_STATE, steps);
            var token := st.tokens[t];
            && token.source < |st.sources|
            && (var source := st.sources[token.source];
                && (source.cutoff.None? ==> !token.flagged)
                && (token.flagged ==>
                      token.position.Some? && source.cutoff.Some? && token.position.value < source.cutoff.value)
                && (source.notified ==>
                      && source.cutoff.Some?
                      && (token.flagged <==> token.position.Some? && token.position.value < source.cutoff.value)))
  {
    RunKeepsInv(INITIAL_STATE, steps);
    assert TokenInv(Run(INITIAL_STATE, steps), t);
  }

  /** Every waiter whose `notified()` was made before `notify_waiters` has been woken: one that is still only
      registered made it afterwards. */
  lemma EarlyWaitersAreWoken(steps: seq<Step>, w: nat)
    requires w < |Run(INITIAL_STATE, steps).waiters| && Run(INITIAL_STATE, steps).waiters[w].phase == Registered(false)
    ensures var st := Run(INITIAL_STATE, steps);
            st.waiters[w].token < |st.tokens| && SourceOf(st, w) < |st.sources| && !st.sources[SourceOf(st, w)].notified
  {
    RunKeepsInv(INITIAL_STATE, steps);
    assert WaiterInv(Run(INITIAL_STATE, steps), w);
  }

  /** What no step takes back. */
  predicate Extends(st: State, st': State) {
    && |st.tokens| <= |st'.tokens| && |st.sources| <= |st'.sources| && |st.waiters| <= |st'.waiters|
    && (forall t :: 0 <= t < |st.tokens| ==>
          st'.tokens[t].source == st.tokens[t].source && st'.tokens[t].position == st.tokens[t].position &&
          (st.tokens[t].flagged ==> st'.tokens[t].flagged))
    && (forall s :: 0 <= s < |st.sources| ==>
          (st.sources[s].cutoff.Some? ==> st'.sources[s].cutoff == st.sources[s].cutoff) &&
          (st.sources[s].notified ==> st'.sources[s].notified))
    && (forall w :: 0 <= w < |st.waiters| ==>
          st'.waiters[w].token == st.waiters[w].token &&
          (st.waiters[w].phase.Failed? || st.waiters[w].phase.Completed? || st.waiters[w].phase.Dropped?
           ==> st'.waiters[w] == st.waiters[w]))
  }

  lemma ApplyExtends(st: State, step: Step)
    ensures Extends(st, Apply(st, step))
  {
  }

  /** Flags are never reset, the first cancellation is never redone, and outcomes stay. */
  lemma {:induction false} RunExtends(st: State, steps: seq<Step>)
    ensures Extends(st, Run(st, steps))
    decreases steps
  {
    if steps == [] {
    } else {
      ApplyExtends(st, steps[0]);
      RunExtends(Apply(st, steps[0]), steps[1..]);
    }
  }

  /** A cancellation that has notified is never redone: later calls of `cancel` change nothing at all. */
  lemma LaterCancelsChangeNothing(st: State, s: nat, step: Step)
    requires Inv(st) && s < |st.sources| && st.sources[s].notified
    requires step in {BeginCancel(s), FlagNext(s), NotifyWaiters(s)}
    ensures Apply(st, step) == st
  {
    assert SourceInv(st.sources[s]);
  }

  /** A call of `cancel` left to itself flags the whole list and notifies. */
  lemma {:induction false} CancelRunsToEnd(st: State, s: nat) returns (steps: seq<Step>)
    requires Inv(st) && s < |st.sources| && st.sources[s].progress.Flagging?
    ensures Run(st, steps).sources == st.sources[s := st.sources[s].(progress := Idle, notified := true)]
    ensures forall step :: step in steps ==> step == FlagNext(s) || step == NotifyWaiters(s)
    decreases st.sources[s].listed - st.sources[s].progress.next
  {
    assert SourceInv(st.sources[s]);
    if st.sources[s].progress.next == st.sources[s].listed {
      steps := [NotifyWaiters(s)];
      assert Run(st, steps) == Run(Apply(st, NotifyWaiters(s)), []);
    } else {
      var st' := Apply(st, FlagNext(s));
      ApplyKeepsInv(st, FlagNext(s));
      var rest := CancelRunsToEnd(st', s);
      steps := [FlagNext(s)] + rest;
      assert st'.sources[s := st'.sources[s].(progress := Idle, notified := true)] ==
             st.sources[s := st.sources[s].(progress := Idle, notified := true)];
    }
  }

  /** Cancelling other sources, in any interleaving, never flags a token of this one. */
  lemma {:induction false} UncancelledSourceNeverFlags(st: State, steps: seq<Step>, t: nat)
    requires Inv(st) && t < |st.tokens| && st.sources[st.tokens[t].source].cutoff.None?
    requires BeginCancel(st.tokens[t].source) !in steps
    ensures t < |Run(st, steps).tokens| && !Run(st, steps).tokens[t].flagged
    decreases steps
  {
    assert TokenInv(st, t);
    if steps == [] {
    } else {
      ApplyKeepsInv(st, steps[0]);
      ApplyExtends(st, steps[0]);
      assert steps[0] in steps;
      UncancelledSourceNeverFlags(Apply(st, steps[0]), steps[1..], t);
    }
  }

  // ----- Where cancellation is not heard, exactly -----

  /** A waiter past its source's notification that was not woken by it: it can only complete or be dropped. */
  predicate Deaf(st: State, w: nat) {
    && w < |st.waiters| && st.waiters[w].token < |st.tokens| && SourceOf(st, w) < |st.sources|
    && st.sources[SourceOf(st, w)].notified
    && !st.waiters[w].phase.Woken? && !st.waiters[w].phase.Failed?
  }

  lemma {:induction false} DeafStaysDeaf(st: State, steps: seq<Step>, w: nat)
    requires Inv(st) && Deaf(st, w)
    ensures Deaf(Run(st, steps), w)
    decreases steps
  {
    if steps == [] {
    } else {
      ApplyKeepsInv(st, steps[0]);
      assert SourceInv(st.sources[SourceOf(st, w)]);
      assert steps[0].NotifyWaiters? ==>
               Apply(st, steps[0]).sources == st.sources || steps[0].source != SourceOf(st, w);
      DeafStaysDeaf(Apply(st, steps[0]), steps[1..], w);
    }
  }

  /** After a source has notified, a new `wait_on` fails if and only if its token was in the list when the source
      was cancelled. A token made later, or by `new_with_a_token`, is never refused again, whatever follows. */
  lemma WaitAfterCancelFailsIff(st: State, t: nat, steps: seq<Step>)
    requires Inv(st) && t < |st.tokens| && st.sources[st.tokens[t].source].notified
    ensures var source, token, w := st.sources[st.tokens[t].source], st.tokens[t], |st.waiters|;
            var end := Run(Apply(st, BeginWait(t)), steps);
            && w < |end.waiters|
            && (end.waiters[w].phase.Failed? <==> token.position.Some? && token.position.value < source.cutoff.value)
  {
    assert TokenInv(st, t);
    assert SourceInv(st.sources[st.tokens[t].source]);
    var st' := Apply(st, BeginWait(t));
    ApplyKeepsInv(st, BeginWait(t));
    RunExtends(st', steps);
    if !st.tokens[t].flagged {
      assert Deaf(st', |st.waiters|);
      DeafStaysDeaf(st', steps, |st.waiters|);
    }
  }

  /** A `wait_on` that read its flag unset hears the cancellation if and only if it makes its `notified()` before
      `notify_waiters`: registered earlier, it is no longer waiting once the source has notified; registered later,
      it never fails, even though its token may by then be flagged. */
  lemma RegistrationDecides(st: State, w: nat, steps: seq<Step>)
    requires Inv(st) && w < |st.waiters| && st.waiters[w].phase.Checked?
    ensures var s, end := SourceOf(st, w), Run(Apply(st, Register(w)), steps);
            && w < |end.waiters| && s < |end.sources|
            && (st.sources[s].notified ==> !end.waiters[w].phase.Failed? && !end.waiters[w].phase.Woken?)
            && (!st.sources[s].notified && end.sources[s].notified ==> !end.waiters[w].phase.Registered?)
  {
    var st' := Apply(st, Register(w));
    ApplyKeepsInv(st, Register(w));
    RunExtends(st', steps);
    if st.sources[SourceOf(st, w)].notified {
      DeafStaysDeaf(st', steps, w);
    } else {
      RegisteredEarlyIsHeard(st', w, steps);
    }
  }

  lemma {:induction false} RegisteredEarlyIsHeard(st: State, w: nat, steps: seq<Step>)
    requires Inv(st) && w < |st.waiters| && !st.waiters[w].phase.Checked? && st.waiters[w].phase != Registered(true)
    ensures var end := Run(st, steps);
            && Inv(end) && w < |end.waiters| && SourceOf(st, w) < |end.sources|
            && (end.sources[SourceOf(st, w)].notified ==> !end.waiters[w].phase.Registered?)
    decreases steps
  {
    assert WaiterInv(st, w);
    if steps == [] {
    } else {
      ApplyKeepsInv(st, steps[0]);
      RegisteredEarlyIsHeard(Apply(st, steps[0]), w, steps[1..]);
    }
  }

  lemma {:induction false} CancellingSkipsUnregistered(st: State, s: nat, steps: seq<Step>, w: nat)
    requires w < |st.waiters| && st.waiters[w].phase.Checked?
    requires forall step :: step in steps ==> step == FlagNext(s) || step == NotifyWaiters(s)
    ensures w < |Run(st, steps).waiters| && Run(st, steps).waiters[w] == st.waiters[w]
    decreases steps
  {
    if steps == [] {
    } else {
      assert forall step :: step in steps[1..] ==> step in steps;
      assert steps[0] in steps;
      CancellingSkipsUnregistered(Apply(st, steps[0]), s, steps[1..], w);
    }
  }

  /** The wake-up can always be lost: from any state in which a `wait_on` has read its flag unset and not yet made
      its `notified()`, a whole `cancel` fits in between, and leaves it registered, never to be woken, with its
      token flagged if it is a listed one. */
  lemma WakeUpCanBeLost(st: State, w: nat) returns (steps: seq<Step>)
    requires Inv(st) && w < |st.waiters| && st.waiters[w].phase.Checked?
    requires st.sources[SourceOf(st, w)].cutoff.None?
    ensures var end := Run(st, steps);
            && Inv(end) && w < |end.waiters| && end.waiters[w] == Waiter(st.waiters[w].token, Registered(true))
            && Deaf(end, w)
            && (st.tokens[st.waiters[w].token].position.Some? ==> end.tokens[end.waiters[w].token].flagged)
  {
    var s, t := SourceOf(st, w), st.waiters[w].token;
    assert SourceInv(st.sources[s]);
    var begun := Apply(st, BeginCancel(s));
    ApplyKeepsInv(st, BeginCancel(s));
    var cancel := CancelRunsToEnd(begun, s);
    var done := Run(begun, cancel);
    RunKeepsInv(begun, cancel);
    RunExtends(begun, cancel);
    CancellingSkipsUnregistered(begun, s, cancel, w);
    assert TokenInv(done, t) && TokenInv(st, t);
    var end := Apply(done, Register(w));
    ApplyKeepsInv(done, Register(w));
    steps := [BeginCancel(s)] + (cancel + [Register(w)]);
    RunConcat(begun, cancel, [Register(w)]);
    assert Run(done, [Register(w)]) == Run(end, []);
  }

  // ----- What a token and a wait come to -----

  /** A token made by `create_token` is flagged, once its source has notified, if and only if it was made before the
      source was cancelled, whatever else happens. */
  lemma CreatedTokenIsFlaggedIff(st: State, s: nat, steps: seq<Step>)
    requires Inv(st) && s < |st.sources| && st.sources[s].progress.Idle?
    ensures var t, end := |st.tokens|, Run(Apply(st, CreateToken(s)), steps);
            && t < |end.tokens| && end.tokens[t].source == s && s < |end.sources|
            && (end.sources[s].notified ==> (end.tokens[t].flagged <==> st.sources[s].cutoff.None?))
  {
    var st' := Apply(st, CreateToken(s));
    ApplyKeepsInv(st, CreateToken(s));
    RunKeepsInv(st', steps);
    RunExtends(st', steps);
    var end := Run(st', steps);
    assert SourceInv(st.sources[s]) && TokenInv(end, |st.tokens|) && SourceInv(end.sources[s]);
    if st.sources[s].cutoff.None? {
      CutoffCountsListed(st', s, steps);
    }
  }

  /** A source that is not cancelled is cut off no earlier than at the tokens it has listed. */
  lemma {:induction false} CutoffCountsListed(st: State, s: nat, steps: seq<Step>)
    requires s < |st.sources| && st.sources[s].cutoff.None?
    ensures var end := Run(st, steps);
            && s < |end.sources| && st.sources[s].listed <= end.sources[s].listed
            && (end.sources[s].cutoff.Some? ==> st.sources[s].listed <= end.sources[s].cutoff.value)
    decreases steps
  {
    if steps == [] {
    } else {
      var next := Apply(st, steps[0]);
      if next.sources[s].cutoff.None? {
        CutoffCountsListed(next, s, steps[1..]);
      } else {
        RunExtends(next, steps[1..]);
        ListedGrows(next, s, steps[1..]);
      }
    }
  }

  lemma {:induction false} ListedGrows(st: State, s: nat, steps: seq<Step>)
    requires s < |st.sources|
    ensures s < |Run(st, steps).sources| && st.sources[s].listed <= Run(st, steps).sources[s].listed
    decreases steps
  {
    if steps == [] {
    } else {
      ListedGrows(Apply(st, steps[0]), s, steps[1..]);
    }
  }

  /** The token that comes with a source is never flagged, whatever is cancelled. */
  lemma TokenOfItsSourceIsNeverFlagged(st: State, steps: seq<Step>)
    requires Inv(st)
    ensures var t, end := |st.tokens|, Run(Apply(st, NewSourceWithToken), steps);
            && t < |end.tokens| && end.tokens[t].source == |st.sources| && !end.tokens[t].flagged
  {
    var st' := Apply(st, NewSourceWithToken);
    ApplyKeepsInv(st, NewSourceWithToken);
    RunKeepsInv(st', steps);
    RunExtends(st', steps);
    assert TokenInv(Run(st', steps), |st.tokens|);
  }

  /** Once its source has notified, a wait registered in time that has neither completed nor been dropped is woken or
      has failed already, and fails at the latest when it is next looked at; until then it stays registered. */
  lemma {:induction false} RegisteredWaitFails(st: State, w: nat, steps: seq<Step>)
    requires Inv(st) && w < |st.waiters| && st.waiters[w].phase in {Registered(false), Woken, Failed}
    ensures var s, end := SourceOf(st, w), Run(st, steps);
            && w < |end.waiters| && s < |end.sources|
            && (!end.waiters[w].phase.Completed? && !end.waiters[w].phase.Dropped? ==>
                  if end.sources[s].notified
                  then end.waiters[w].phase in {Woken, Failed} && Apply(end, Fail(w)).waiters[w].phase == Failed
                  else end.waiters[w].phase in {Registered(false), Failed})
    decreases steps
  {
    assert WaiterInv(st, w);
    if steps == [] {
    } else {
      var next := Apply(st, steps[0]);
      ApplyKeepsInv(st, steps[0]);
      ApplyExtends(st, steps[0]);
      if next.waiters[w].phase.Completed? || next.waiters[w].phase.Dropped? {
        RunExtends(next, steps[1..]);
      } else {
        RegisteredWaitFails(next, w, steps[1..]);
      }
    }
  }

  lemma {:induction false} CancellingEndsNoWait(st: State, s: nat, w: nat, steps: seq<Step>)
    requires w < |st.waiters| && !st.waiters[w].phase.Completed? && !st.waiters[w].phase.Dropped?
    requires forall step :: step in steps ==> step == FlagNext(s) || step == NotifyWaiters(s)
    ensures var end := Run(st, steps);
            w < |end.waiters| && !end.waiters[w].phase.Completed? && !end.waiters[w].phase.Dropped?
    decreases steps
  {
    if steps == [] {
    } else {
      assert steps[0] in steps && forall step :: step in steps[1..] ==> step in steps;
      CancellingEndsNoWait(Apply(st, steps[0]), s, w, steps[1..]);
    }
  }

  /** From any state, a whole `cancel` of its source, or the rest of one, makes a registered wait fail. */
  lemma CancelFailsRegisteredWait(st: State, w: nat) returns (steps: seq<Step>)
    requires Inv(st) && w < |st.waiters| && st.waiters[w].phase == Registered(false)
    ensures var s := SourceOf(st, w);
            forall step :: step in steps ==> step in {BeginCancel(s), FlagNext(s), NotifyWaiters(s), Fail(w)}
    ensures w < |Run(st, steps).waiters| && Run(st, steps).waiters[w].phase == Failed
  {
    var s := SourceOf(st, w);
    assert WaiterInv(st, w) && SourceInv(st.sources[s]);
    var begin := if st.sources[s].cutoff.None? then [BeginCancel(s)] else [];
    var begun := if st.sources[s].cutoff.None? then Apply(st, BeginCancel(s)) else st;
    ApplyKeepsInv(st, BeginCancel(s));
    assert Run(st, begin) == begun by {
      assert Run(begun, []) == begun;
    }
    var cancel := CancelRunsToEnd(begun, s);
    RegisteredWaitFails(begun, w, cancel);
    CancellingEndsNoWait(begun, s, w, cancel);
    var done := Run(begun, cancel);
    assert Run(done, [Fail(w)]) == Run(Apply(done, Fail(w)), []);
    RunConcat(begun, cancel, [Fail(w)]);
    RunConcat(st, begin, cancel + [Fail(w)]);
    steps := begin + (cancel + [Fail(w)]);
  }

  /** A wait on an unflagged token of a source that has not notified registers in time, so that it can be failed like
      that, and ends with its future if nothing cancels it first. */
  lemma WaitRegisters(st: State, t: nat)
    requires Inv(st) && t < |st.tokens| && !st.tokens[t].flagged && !st.sources[st.tokens[t].source].notified
    ensures var w, waiting := |st.waiters|, Apply(Apply(st, BeginWait(t)), Register(|st.waiters|));
            && Inv(waiting) && w < |waiting.waiters| && waiting.waiters[w] == Waiter(t, Registered(false))
            && Apply(waiting, Complete(w)).waiters[w].phase == Completed
            && Apply(waiting, Drop(w)).waiters[w].phase == Dropped
  {
    ApplyKeepsInv(st, BeginWait(t));
    ApplyKeepsInv(Apply(st, BeginWait(t)), Register(|st.waiters|));
  }
}
