/** `PublishManager` (cmha/src/device_manager.rs): one publishing task per session, started when the broker
    connects and cancelled when it disconnects. */
module Publishing {
  import opened Wrappers
  import opened Cancellation

  datatype Error = InitializationFailed

  /** A spawned publishing task, as its join handle sees it. */
  class PublishTask {
    const token: CancellationToken
    var finished: bool
    var aborted: bool

    constructor (token: CancellationToken)
      ensures this.token == token && !finished && !aborted
    {
      this.token := token;
      finished, aborted := false, false;
    }

    predicate Live()
      reads this
    {
      !finished && !aborted
    }

    /** The task runs on its own between two steps of the manager, and may come to its end. */
    method RunsOn()
      modifies this`finished
      ensures old(finished) ==> finished
    {
      var ends: bool := *;
      finished := finished || ends;
    }
  }

  class PublishManager {
    var connected: bool
    var joinHandle: PublishTask?
    var cancellationTokenSource: CancellationTokenSource?
    /** Every task ever spawned, oldest first. */
    ghost var tasks: seq<PublishTask>

    /** A task handed over for good: its token is flagged, and it has finished or was aborted. */
    ghost predicate Retired(t: PublishTask)
      reads t, t.token
    {
      t.token.isCancelled && !t.Live()
    }

    ghost predicate Valid()
      reads this, tasks, set t | t in tasks :: t.token, cancellationTokenSource
    {
      && (joinHandle == null <==> cancellationTokenSource == null)
      && (joinHandle != null ==>
            && connected
            && joinHandle in tasks
            && !joinHandle.token.isCancelled
            && joinHandle.token.notify == cancellationTokenSource.notify
            && cancellationTokenSource.tokens == [joinHandle.token]
            && !cancellationTokenSource.isCancelled)
      && (forall t :: t in tasks && t != joinHandle ==> Retired(t))
    }

    constructor ()
      ensures Valid() && !connected && joinHandle == null && tasks == []
    {
      connected := false;
      joinHandle := null;
      cancellationTokenSource := null;
      tasks := [];
    }

    /** Cancels the running session and waits for its task, aborting it when it does not end in time.
        The source's branches for a missing source or handle are those closed by `assert false`. */
    method EndSession()
      requires Valid() && joinHandle != null
      modifies this, joinHandle, joinHandle.token, cancellationTokenSource
      modifies cancellationTokenSource.notify, cancellationTokenSource.notify.waiters
      ensures Valid()
      ensures joinHandle == null && tasks == old(tasks) && connected == old(connected)
      ensures Retired(old(joinHandle))
      ensures old(cancellationTokenSource).isCancelled
    {
      var source := cancellationTokenSource;
      cancellationTokenSource := null;
      if source == null {
        assert false;
      } else {
        source.Cancel();
      }
      var handle: PublishTask? := joinHandle;
      joinHandle := null;
      if handle == null {
        assert false;
      } else {
        var patience: nat := *;
        while !handle.finished && patience > 0
          invariant handle.token.isCancelled && source.isCancelled
          modifies handle`finished
          decreases patience
        {
          handle.RunsOn();
          patience := patience - 1;
        }
        if !handle.finished {
          handle.aborted := true;
        }
      }
    }

    /** `deal_with_connection_status_change_and_manage_periodic_publishing`. After every successful call the flag, the
        handle and the source agree; only the newest task can be live, and every other one had its token flagged
        and was over before the newest was spawned. After a failed initialisation no task is live.
        `initialized` tells whether an initialisation, when there is one, succeeds. */
    method DealWithConnectionStatusChange(isConnectedMessage: bool, initialized: bool) returns (r: Result<(), Error>)
      requires Valid()
      modifies this, joinHandle, if joinHandle == null then {} else {joinHandle.token}
      modifies cancellationTokenSource, if cancellationTokenSource == null then {} else {cancellationTokenSource.notify}
      modifies if cancellationTokenSource == null then {} else cancellationTokenSource.notify.waiters
      ensures Valid()
      ensures r.Ok? ==> (connected <==> joinHandle != null) && (connected <==> cancellationTokenSource != null)
      ensures connected == isConnectedMessage
      ensures r.Err? <==> isConnectedMessage && old(joinHandle) == null && !initialized
      // a session that is already there is kept
      ensures old(joinHandle) != null && isConnectedMessage ==>
                r.Ok? && joinHandle == old(joinHandle) && tasks == old(tasks) &&
                cancellationTokenSource == old(cancellationTokenSource)
      // otherwise the last one is over, and there is a new one if and only if the call connected
      ensures old(joinHandle) != null && !isConnectedMessage ==> Retired(old(joinHandle))
      ensures !isConnectedMessage || r.Err? ==> joinHandle == null && tasks == old(tasks)
      ensures old(joinHandle) == null && isConnectedMessage && r.Ok? ==>
                && fresh(joinHandle) && fresh(joinHandle.token) && fresh(cancellationTokenSource)
                && tasks == old(tasks) + [joinHandle]
                && joinHandle.Live() && !joinHandle.token.isCancelled
      ensures forall t :: t in tasks && t != joinHandle ==> Retired(t)
    {
      if joinHandle != null {
        if connected && isConnectedMessage {
          return Ok(());
        } else if !connected && !isConnectedMessage {
          assert false;
        } else if connected {
        } else {
          assert false;
        }
        EndSession();
      }
      connected := isConnectedMessage;
      if isConnectedMessage {
        if !initialized {
          return Err(InitializationFailed);
        }
        var source := new CancellationTokenSource();
        var token := source.CreateToken();
        cancellationTokenSource := source;
        joinHandle := new PublishTask(token);
        tasks := tasks + [joinHandle];
      }
      return Ok(());
    }

    /** `stop`, which consumes the manager. */
    method Stop()
      requires Valid()
      modifies cancellationTokenSource, if joinHandle == null then {} else {joinHandle.token}
      modifies if cancellationTokenSource == null then {} else {cancellationTokenSource.notify}
      modifies if cancellationTokenSource == null then {} else cancellationTokenSource.notify.waiters
      ensures forall t :: t in tasks ==> t.token.isCancelled
    {
      if cancellationTokenSource != null {
        cancellationTokenSource.Cancel();
      }
    }
  }
}
