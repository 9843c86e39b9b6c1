/** The connection flag and the single-slot channel of `DeviceManager` (cmha/src/device_manager.rs). */
module Connection {
  import opened Wrappers

  datatype Message = Stopping | Connected(up: bool) | Command(topic: string, payload: string)

  /** What the MQTT client can hand to the event loop. */
  datatype Event =
    | Publish(topic: string, payload: string)
    | ConnAck(sessionPresent: bool)
    | DisconnectPacket
    | Outgoing
    | OtherIncoming
    | ConnectionRefused
    | IoError
    | TlsError
    | MqttStateError
    | OtherError

  datatype EventHandled = EventHandled(shouldEventLoopPoolingWait: bool, shouldStopEventLoop: bool)

  datatype EventHandlingError = ConnectionError | ChannelClosed

  /** The flag (0: never known, 1: disconnected, 2: connected) and the channel: the slot, whether the receiver has
      seen what is in it, and whether there still is a receiver. `sent` lists the connection messages put in the
      slot, in order. */
  datatype Link = Link(flag: nat, slot: Message, seen: bool, receiverAlive: bool, shouldStop: bool, sent: seq<bool>)

  const INITIAL_LINK := Link(0, Connected(false), true, true, false, [])

  function IsConnected(flag: nat): Option<bool> {
    match flag
    case 0 => None
    case 1 => Some(false)
    case _ => Some(true)
  }

  /** A send overwrites whatever the slot holds; without a receiver it fails and stores nothing. */
  function Send(l: Link, m: Message): (Link, bool) {
    if l.receiverAlive then
      (l.(slot := m, seen := false, sent := if m.Connected? then l.sent + [m.up] else l.sent), true)
    else (l, false)
  }

  function SetConnected(l: Link, up: bool): Link {
    l.(flag := if up then 2 else 1)
  }

  function GotDisconnected(l: Link): (Link, bool) {
    match IsConnected(l.flag)
    case Some(true) => Send(SetConnected(l, false), Connected(false))
    case Some(false) => (l, true)
    case None => (SetConnected(l, false), true)
  }

  function DealWithEvent(l: Link, e: Event): (Link, Result<EventHandled, EventHandlingError>) {
    match e
    case Publish(topic, payload) => Handled(Send(l, Command(topic, payload)), EventHandled(false, false))
    case ConnAck(_) => Handled(Send(SetConnected(l, true), Connected(true)), EventHandled(false, false))
    case DisconnectPacket => Handled(GotDisconnected(l), EventHandled(true, false))
    case Outgoing => (l, Ok(EventHandled(false, false)))
    case OtherIncoming => (l, Ok(EventHandled(false, false)))
    case ConnectionRefused => (l, Err(ConnectionError))
    case IoError => Handled(GotDisconnected(l), EventHandled(true, false))
    case TlsError => (l, Err(ConnectionError))
    case MqttStateError =>
      if l.shouldStop then (l, Ok(EventHandled(false, true)))
      else Handled(GotDisconnected(l), EventHandled(true, false))
    case OtherError => Handled(GotDisconnected(l), EventHandled(true, false))
  }

  function Handled(sent: (Link, bool), handled: EventHandled): (Link, Result<EventHandled, EventHandlingError>) {
    (sent.0, if sent.1 then Ok(handled) else Err(ChannelClosed))
  }

  // ----- The objects -----

  /** The watch channel; `borrow_and_update` reads the slot and marks it seen. */
  class WatchChannel {
    var slot: Message
    var seen: bool
    var receiverAlive: bool
    ghost var sent: seq<bool>

    constructor ()
      ensures slot == Connected(false) && seen && receiverAlive && sent == []
    {
      slot, seen, receiverAlive, sent := Connected(false), true, true, [];
    }

    method Send(m: Message) returns (ok: bool)
      modifies this
      ensures ok == old(receiverAlive) == receiverAlive
      ensures ok ==> slot == m && !seen && sent == if m.Connected? then old(sent) + [m.up] else old(sent)
      ensures !ok ==> slot == old(slot) && seen == old(seen) && sent == old(sent)
    {
      ok := receiverAlive;
      if ok {
        slot, seen := m, false;
        sent := if m.Connected? then sent + [m.up] else sent;
      }
    }

    method BorrowAndUpdate() returns (m: Message)
      modifies this`seen
      ensures m == slot && seen
    {
      seen := true;
      m := slot;
    }
  }

  class DeviceManager {
    var connected: nat
    var shouldStop: bool
    const tx: WatchChannel

    constructor ()
      ensures fresh(tx) && View() == INITIAL_LINK
    {
      connected := 0;
      shouldStop := false;
      tx := new WatchChannel();
    }

    ghost function View(): Link
      reads this, tx
    {
      Link(connected, tx.slot, tx.seen, tx.receiverAlive, shouldStop, tx.sent)
    }

    method SetConnectedFlag(isConnected: bool)
      modifies this`connected
      ensures connected == if isConnected then 2 else 1
    {
      connected := if isConnected then 2 else 1;
    }

    method ReportDisconnected() returns (ok: bool)
      modifies this`connected, tx
      ensures (View(), ok) == GotDisconnected(old(View()))
    {
      ok := true;
      match IsConnected(connected) {
        case Some(up) =>
          if up {
            SetConnectedFlag(false);
            ok := tx.Send(Connected(false));
          }
        case None =>
          SetConnectedFlag(false);
      }
    }

    method HandleEvent(event: Event) returns (r: Result<EventHandled, EventHandlingError>)
      modifies this`connected, tx
      ensures (View(), r) == DealWithEvent(old(View()), event)
    {
      var shouldEventLoopPoolingWait, shouldStopEventLoop, ok := false, false, true;
      match event {
        case Publish(topic, payload) =>
          ok := tx.Send(Command(topic, payload));
        case ConnAck(_) =>
          SetConnectedFlag(true);
          ok := tx.Send(Connected(true));
        case DisconnectPacket =>
          ok := ReportDisconnected();
          shouldEventLoopPoolingWait := true;
        case Outgoing =>
        case OtherIncoming =>
        case ConnectionRefused =>
          return Err(ConnectionError);
        case IoError =>
          ok := ReportDisconnected();
          shouldEventLoopPoolingWait := true;
        case TlsError =>
          return Err(ConnectionError);
        case MqttStateError =>
          if shouldStop {
            shouldStopEventLoop := true;
          } else {
            ok := ReportDisconnected();
            shouldEventLoopPoolingWait := true;
          }
        case OtherError =>
          ok := ReportDisconnected();
          shouldEventLoopPoolingWait := true;
      }
      if !ok {
        return Err(ChannelClosed);
      }
      return Ok(EventHandled(shouldEventLoopPoolingWait, shouldStopEventLoop));
    }

    /** The first lines of `stop`. */
    method RequestStop() returns (ok: bool)
      modifies this`shouldStop, tx
      ensures (View(), ok) == Send(old(View()).(shouldStop := true), Stopping)
    {
      shouldStop := true;
      ok := tx.Send(Stopping);
    }
  }

  // ----- What every event keeps -----

  /** The connection messages sent alternate, starting with a connection. */
  predicate Alternating(sent: seq<bool>) {
    forall i :: 0 <= i < |sent| && !sent[i] ==> i > 0 && sent[i - 1]
  }

  predicate LastUp(sent: seq<bool>) {
    sent != [] && sent[|sent| - 1]
  }

  /** The flag tells the last connection message sent, and an unread one in the slot is that message. */
  predicate LinkInv(l: Link) {
    && l.flag <= 2
    && (l.receiverAlive ==>
          && Alternating(l.sent)
          && (l.flag == 2 <==> LastUp(l.sent))
          && (l.slot.Connected? ==> l.slot.up == LastUp(l.sent)))
  }

  lemma EventKeepsLink(l: Link, e: Event)
    requires LinkInv(l)
    ensures LinkInv(DealWithEvent(l, e).0)
  {
  }

  lemma StopKeepsLink(l: Link)
    requires LinkInv(l)
    ensures LinkInv(Send(l.(shouldStop := true), Stopping).0)
  {
  }

  /** The events after which the connection is taken for lost. */
  predicate Loses(l: Link, e: Event) {
    e.DisconnectPacket? || e.IoError? || e.OtherError? || (e.MqttStateError? && !l.shouldStop)
  }

  /** The flag is 2 after an event exactly when the event acknowledges a connection, or it was 2 and the event does not
      lose it; a disconnection is sent exactly when a known connection is lost, a connection at every acknowledgement,
      and with no receiver nothing is. */
  lemma EventMovesFlag(l: Link, e: Event)
    requires l.flag <= 2
    ensures var l' := DealWithEvent(l, e).0;
            && (l'.flag == 2 <==> e.ConnAck? || (l.flag == 2 && !Loses(l, e)))
            && (l'.flag == 0 <==> l.flag == 0 && !e.ConnAck? && !Loses(l, e))
            && l'.sent == l.sent + (if !l.receiverAlive then [] else if e.ConnAck? then [true]
                                    else if l.flag == 2 && Loses(l, e) then [false] else [])
  {
    assert l.sent + [] == l.sent;
  }

  /** What the event loop is told: to stop exactly on a protocol error after a stop was asked for; to wait exactly when
      a connection is lost and the report, if one is due, goes through; an error of the connection exactly when it is
      refused or the encryption fails; and that the channel is closed exactly when there is a message to send and no
      receiver. */
  lemma EventAnswers(l: Link, e: Event)
    requires l.flag <= 2
    ensures var r := DealWithEvent(l, e).1;
            && (r.Ok? && r.value.shouldStopEventLoop <==> e.MqttStateError? && l.shouldStop)
            && (r.Ok? && r.value.shouldEventLoopPoolingWait <==> Loses(l, e) && (l.flag == 2 ==> l.receiverAlive))
            && (r == Err(ConnectionError) <==> e.ConnectionRefused? || e.TlsError?)
            && (r == Err(ChannelClosed) <==>
                  !l.receiverAlive && (e.Publish? || e.ConnAck? || (l.flag == 2 && Loses(l, e))))
  {
  }

  /** What the slot holds: a command with its topic and payload, a connection, or a disconnection that ends a known
      connection, not yet seen; otherwise, or with no receiver, what it held. */
  lemma EventFillsSlot(l: Link, e: Event)
    requires l.flag <= 2
    ensures var l' := DealWithEvent(l, e).0;
            && l'.receiverAlive == l.receiverAlive && l'.shouldStop == l.shouldStop
            && (l.receiverAlive && e.Publish? ==> l'.slot == Command(e.topic, e.payload) && !l'.seen)
            && (l.receiverAlive && e.ConnAck? ==> l'.slot == Connected(true) && !l'.seen)
            && (l.receiverAlive && l.flag == 2 && Loses(l, e) ==> l'.slot == Connected(false) && !l'.seen)
            && (!l.receiverAlive || !(e.Publish? || e.ConnAck? || (l.flag == 2 && Loses(l, e))) ==>
                  l'.slot == l.slot && l'.seen == l.seen)
  {
  }
}
