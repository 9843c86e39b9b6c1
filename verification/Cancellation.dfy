/** The objects of cmha/src/cancellation_token.rs. A clone of a token shares its flag, so a clone is
    another reference to the same object. */
module Cancellation {
  /** A future made by `Notify::notified()` that has not completed. */
  class Waiter {
    var woken: bool

    constructor ()
      ensures !woken
    {
      woken := false;
    }
  }

  class Notify {
    var waiters: set<Waiter>

    constructor ()
      ensures waiters == {}
    {
      waiters := {};
    }

    method Notified() returns (w: Waiter)
      modifies this
      ensures fresh(w) && !w.woken && waiters == old(waiters) + {w}
    {
      w := new Waiter();
      waiters := waiters + {w};
    }

    method NotifyWaiters()
      modifies this, waiters
      ensures waiters == {}
      ensures forall w :: w in old(waiters) ==> w.woken
    {
      var rest := waiters;
      while rest != {}
        invariant rest <= waiters == old(waiters)
        invariant forall w :: w in waiters - rest ==> w.woken
        modifies waiters
        decreases rest
      {
        var w :| w in rest;
        w.woken := true;
        rest := rest - {w};
      }
      waiters := {};
    }
  }

  class CancellationToken {
    var isCancelled: bool
    const notify: Notify

    constructor (notify: Notify)
      ensures !isCancelled && this.notify == notify
    {
      isCancelled := false;
      this.notify := notify;
    }

    method Cancel()
      modifies this
      ensures isCancelled
    {
      isCancelled := true;
    }

    /** The start of `wait_on` when nothing runs in between: refused at once when the flag is set,
        registered with the source's notifier otherwise. `CancellationProtocol` takes the two apart. */
    method BeginWait() returns (waiter: Waiter?)
      modifies notify
      ensures waiter == null <==> isCancelled
      ensures waiter == null ==> notify.waiters == old(notify.waiters)
      ensures waiter != null ==> fresh(waiter) && !waiter.woken && notify.waiters == old(notify.waiters) + {waiter}
    {
      if isCancelled {
        return null;
      }
      waiter := notify.Notified();
    }
  }

  class CancellationTokenSource {
    var tokens: seq<CancellationToken>
    var isCancelled: bool
    const notify: Notify

    constructor ()
      ensures tokens == [] && !isCancelled
      ensures fresh(notify) && notify.waiters == {}
    {
      tokens := [];
      isCancelled := false;
      notify := new Notify();
    }

    /** The token shares the notifier of the source but is not in its list. */
    static method NewWithAToken() returns (source: CancellationTokenSource, token: CancellationToken)
      ensures fresh(source) && fresh(source.notify) && fresh(token)
      ensures source.tokens == [] && !source.isCancelled
      ensures token.notify == source.notify && !token.isCancelled
    {
      source := new CancellationTokenSource();
      token := new CancellationToken(source.notify);
    }

    method CreateToken() returns (token: CancellationToken)
      modifies this`tokens
      ensures fresh(token) && !token.isCancelled && token.notify == notify
      ensures tokens == old(tokens) + [token]
    {
      token := new CancellationToken(notify);
      tokens := tokens + [token];
    }

    /** The first call sets every flag in the list and wakes every registered waiter; later calls change nothing. */
    method Cancel()
      modifies this`isCancelled, tokens, notify, notify.waiters
      ensures isCancelled
      ensures old(isCancelled) ==>
                && (forall t :: t in tokens ==> t.isCancelled == old(t.isCancelled))
                && notify.waiters == old(notify.waiters)
                && (forall w :: w in notify.waiters ==> w.woken == old(w.woken))
      ensures !old(isCancelled) ==>
                && (forall t :: t in tokens ==> t.isCancelled)
                && notify.waiters == {}
                && (forall w :: w in old(notify.waiters) ==> w.woken)
    {
      if isCancelled {
        return;
      }
      isCancelled := true;
      var i := 0;
      while i < |tokens|
        invariant 0 <= i <= |tokens|
        invariant forall k :: 0 <= k < i ==> tokens[k].isCancelled
        modifies tokens
      {
        tokens[i].Cancel();
        i := i + 1;
      }
      notify.NotifyWaiters();
    }
  }
}
