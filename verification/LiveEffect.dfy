/** The effect as it runs: one object whose handlers assign its variables in turn.
    Each handler is proved to take the step module Live gives it. */
module LiveEffect {
  import opened Live
  import opened LiveSafety
  import opened Options

  class Effect {
    const events: bool
    var disposed: bool
    var ended: bool
    var denied: bool
    var connecting: bool
    var paused: bool
    var connected: bool
    var canRetry: bool
    var socket: Option<nat>
    var channel: Option<nat>
    var timer: Option<nat>
    var attempts: nat
    var sequence: int
    var instanceId: Option<string>
    var lastFrame: int
    var browser: Browser
    var delivered: seq<Frame>

    ghost function State(): World
      reads this
    {
      World(Client(events, disposed, denied, connecting, paused, connected, canRetry, socket, channel, timer,
                   attempts, lastFrame, Cursor(sequence, instanceId, ended)), browser, delivered)
    }

    constructor (events: bool, onLine: bool, now: int)
      ensures State() == Start(events, onLine, now) && Inv(State())
    {
      this.events := events;
      disposed, ended, denied, connecting, paused, connected, canRetry := false, false, false, false, false, false, false;
      socket, channel, timer, attempts, sequence, instanceId, lastFrame := None, None, None, 0, 0, None, now;
      browser, delivered := Browser(onLine, [], 0, map[], 0, []), [];
      new;
      ConnectNow();
      StartInv(events, onLine, now);
    }

    /** `connect`, up to its wait for a ticket. */
    method ConnectNow()
      modifies this
      ensures State() == Connect(old(State()))
    {
      hide CloseSocket, IsOpen;
      if disposed || ended || denied || connecting || IsOpen(browser, channel) { return; }
      if !browser.onLine { return; }
      var previous := socket;
      socket := None;
      if channel == previous { channel := None; }
      browser := CloseSocket(browser, previous);
      connecting := true;
      canRetry := false;
      browser := browser.(tickets := browser.tickets + 1);
    }

    method RetryLater()
      modifies this
      ensures State() == Retry(old(State()))
    {
      if disposed || ended || denied { return; }
      browser := ClearTimer(browser, timer);
      if !browser.onLine { return; }
      if attempts >= |RETRY_DELAYS| {
        paused := true;
        canRetry := true;
        return;
      }
      timer := Some(browser.nextTimer);
      browser := browser.(timers := browser.timers[browser.nextTimer := RETRY_DELAYS[attempts]],
                          nextTimer := browser.nextTimer + 1);
      attempts := attempts + 1;
    }

    /** `connect`, once its ticket has arrived. */
    method Granted(now: int)
      requires browser.tickets > 0
      modifies this
      ensures State() == TicketGranted(old(State()), now)
    {
      browser := browser.(tickets := browser.tickets - 1);
      if disposed || ended || denied { return; }
      var current := |browser.sockets|;
      browser := browser.(sockets := browser.sockets +
                            [Socket(Connecting, false, connected, if connected then Some(sequence) else None)]);
      lastFrame := now;
      socket := Some(current);
      channel := Some(current);
    }

    /** The `catch` of `connect`. */
    method Failed(why: Failure)
      requires browser.tickets > 0
      modifies this
      ensures State() == TicketFailed(old(State()), why)
    {
      hide Retry;
      browser := browser.(tickets := browser.tickets - 1);
      connecting := false;
      if disposed { return; }
      if why == Denied {
        denied := true;
      } else if why == Gateway {
        paused := true;
        canRetry := true;
      } else {
        RetryLater();
      }
    }

    method Opened(s: nat, now: int)
      requires s < |browser.sockets| && browser.sockets[s].ready == Connecting
      modifies this
      ensures State() == OnOpen(old(State()), s, now)
    {
      browser := browser.(sockets := browser.sockets[s := browser.sockets[s].(ready := Open, wasOpen := true)]);
      if disposed || socket != Some(s) { return; }
      connecting := false;
      lastFrame := now;
      connected := true;
    }

    ghost function Stream(): Cursor
      reads this
    {
      Cursor(sequence, instanceId, ended)
    }

    /** The part of `onmessage` that follows a successful parse. */
    method Dispatch(frame: Frame, resuming: bool)
      requires frame != Malformed
      modifies this`sequence, this`instanceId, this`ended, this`delivered
      ensures var r := Absorb(old(Stream()), events, resuming, frame);
              Stream() == r.cursor && delivered == if r.delivered then old(delivered) + [frame] else old(delivered)
    {
      match frame
      case Null =>
      case Heartbeat =>
      case Hello(id, eventSeq) =>
        var changed := instanceId.Some? && id != instanceId;
        instanceId := id;
        if changed { sequence := 0; }
        if events && (!resuming || changed) && eventSeq.Some? { sequence := eventSeq.value; }
        delivered := delivered + [frame];
      case Resync(last) =>
        if last.Some? { sequence := last.value; }
        delivered := delivered + [frame];
      case Data(ends, seqNo, lastSeq, _) =>
        if ends { ended := true; }
        if seqNo.Some? {
          if seqNo.value <= sequence { return; }
          sequence := seqNo.value;
        }
        if lastSeq.Some? { sequence := lastSeq.value; }
        delivered := delivered + [frame];
    }

    method Received(s: nat, frame: Frame, now: int)
      requires Enabled(State(), Receives(s, frame))
      modifies this
      ensures State() == OnMessage(old(State()), s, frame, now)
    {
      hide Absorb, CloseSocket;
      if disposed || socket != Some(s) { return; }
      lastFrame := now;
      if frame == Malformed {
        browser := CloseSocket(browser, Some(s));
        return;
      }
      attempts := 0;
      Dispatch(frame, browser.sockets[s].resuming);
    }

    method StopOrRetry(code: int)
      modifies this
      ensures State() == EndOrRetry(old(State()), code)
    {
      if ended || code == 4004 {
        ended := true;
      } else if code == 4001 {
        denied := true;
      } else {
        RetryLater();
      }
    }

    method Closed(s: nat, code: int)
      requires Enabled(State(), Closes(s, code))
      modifies this
      ensures State() == OnClose(old(State()), s, code)
    {
      hide EndOrRetry;
      browser := browser.(sockets := browser.sockets[s := browser.sockets[s].(ready := Ready.Closed)]);
      if channel == Some(s) { channel := None; }
      if disposed || socket != Some(s) { return; }
      socket := None;
      connecting := false;
      StopOrRetry(code);
    }

    method WentOnline()
      modifies this
      ensures State() == Online(old(State()))
    {
      if !paused {
        browser := ClearTimer(browser, timer);
        ConnectNow();
      }
    }

    method WentOffline()
      modifies this
      ensures State() == Offline(old(State()))
    {
      if disposed || ended || denied || paused { return; }
      browser := ClearTimer(browser, timer);
      browser := CloseSocket(browser, socket);
    }

    method CheckSilence(now: int)
      modifies this
      ensures State() == Watchdog(old(State()), now)
    {
      if socket.Some? && socket.value < |browser.sockets| {
        var ready := browser.sockets[socket.value].ready;
        if now - lastFrame > (if ready == Connecting then OPENING_LIMIT else SILENCE_LIMIT)
          && (ready == Connecting || ready == Open) {
          browser := CloseSocket(browser, socket);
        }
      }
    }

    method RetryNow()
      requires !disposed
      modifies this
      ensures State() == Restart(old(State()))
    {
      if disposed || ended || denied || IsOpen(browser, channel) { return; }
      browser := ClearTimer(browser, timer);
      attempts := 0;
      paused := false;
      ConnectNow();
    }

    method Unmount()
      requires !disposed
      modifies this
      ensures State() == Dispose(old(State()))
    {
      disposed := true;
      browser := ClearTimer(browser, timer);
      browser := CloseSocket(browser, socket);
      channel := None;
    }
  }
}
