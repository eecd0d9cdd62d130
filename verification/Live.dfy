/** The reconnecting event-stream client: the handlers of one `useLive` effect as
    functions on its closure variables and the browser objects they touch. */
module Live {
  import opened Options

  datatype Ready = Connecting | Open | Closing | Closed

  /** A WebSocket the client has made; `resuming` and `after` are what its URL asked for. */
  datatype Socket = Socket(ready: Ready, wasOpen: bool, resuming: bool, after: Option<int>)

  datatype Frame =
    | Malformed                                                  // not JSON
    | Null                                                       // JSON null: reading its type throws
    | Heartbeat
    | Hello(instance: Option<string>, eventSeq: Option<int>)
    | Resync(resyncSeq: Option<int>)
    | Data(ends: bool, seqNo: Option<int>, lastSeq: Option<int>, body: nat)

  datatype Failure = Denied | Gateway | Other

  /** The closure variables a frame can move: where the stream stands. */
  datatype Cursor = Cursor(sequence: int, instance: Option<string>, ended: bool)

  /** The other variables of the effect's closure, with the shared `channel` ref. */
  datatype Client = Client(
    events: bool, disposed: bool, denied: bool, connecting: bool, paused: bool,
    connected: bool, canRetry: bool, socket: Option<nat>, channel: Option<nat>, timer: Option<nat>,
    attempts: nat, lastFrame: int, cursor: Cursor)

  /** What the browser holds for it: timers by handle with their delay, requests for
      a ticket, sockets by creation order, and connectivity events not yet delivered. */
  datatype Browser = Browser(
    onLine: bool, signals: seq<bool>, tickets: nat, timers: map<nat, nat>, nextTimer: nat, sockets: seq<Socket>)

  /** `log` lists the frames handed to the callback. */
  datatype World = World(c: Client, b: Browser, log: seq<Frame>)

  const RETRY_DELAYS: seq<nat> := [1000, 2000, 5000, 10000, 30000]
  const OPENING_LIMIT := 15000
  const SILENCE_LIMIT := 90000

  predicate Terminal(c: Client) {
    c.disposed || c.cursor.ended || c.denied
  }

  predicate IsOpen(b: Browser, s: Option<nat>) {
    s.Some? && s.value < |b.sockets| && b.sockets[s.value].ready == Open
  }

  // ----- Browser effects -----

  function CloseSocket(b: Browser, s: Option<nat>): Browser {
    if s.Some? && s.value < |b.sockets| && (b.sockets[s.value].ready == Connecting || b.sockets[s.value].ready == Open)
    then b.(sockets := b.sockets[s.value := b.sockets[s.value].(ready := Closing)])
    else b
  }

  function ClearTimer(b: Browser, t: Option<nat>): Browser {
    if t.Some? then b.(timers := b.timers - {t.value}) else b
  }

  // ----- Handlers -----

  function Connect(w: World): World {
    if Terminal(w.c) || w.c.connecting || IsOpen(w.b, w.c.channel) then w
    else if !w.b.onLine then w
    else
      var c := w.c.(socket := None, channel := if w.c.channel == w.c.socket then None else w.c.channel,
                    connecting := true, canRetry := false);
      var b := CloseSocket(w.b, w.c.socket);
      w.(c := c, b := b.(tickets := b.tickets + 1))
  }

  function Retry(w: World): World {
    if Terminal(w.c) then w
    else
      var b := ClearTimer(w.b, w.c.timer);
      if !b.onLine then w.(b := b)
      else if w.c.attempts >= |RETRY_DELAYS| then w.(b := b, c := w.c.(paused := true, canRetry := true))
      else w.(c := w.c.(timer := Some(b.nextTimer), attempts := w.c.attempts + 1),
              b := b.(timers := b.timers[b.nextTimer := RETRY_DELAYS[w.c.attempts]], nextTimer := b.nextTimer + 1))
  }

  function TicketGranted(w: World, now: int): World
    requires w.b.tickets > 0
  {
    var b := w.b.(tickets := w.b.tickets - 1);
    if Terminal(w.c) then w.(b := b)
    else
      var made := Socket(Connecting, false, w.c.connected, if w.c.connected then Some(w.c.cursor.sequence) else None);
      w.(c := w.c.(lastFrame := now, socket := Some(|b.sockets|), channel := Some(|b.sockets|)),
         b := b.(sockets := b.sockets + [made]))
  }

  function TicketFailed(w: World, why: Failure): World
    requires w.b.tickets > 0
  {
    var v := w.(c := w.c.(connecting := false), b := w.b.(tickets := w.b.tickets - 1));
    if w.c.disposed then v
    else if why == Denied then v.(c := v.c.(denied := true))
    else if why == Gateway then v.(c := v.c.(paused := true, canRetry := true))
    else Retry(v)
  }

  function OnOpen(w: World, s: nat, now: int): World
    requires s < |w.b.sockets|
  {
    var v := w.(b := w.b.(sockets := w.b.sockets[s := w.b.sockets[s].(ready := Open, wasOpen := true)]));
    if w.c.disposed || w.c.socket != Some(s) then v
    else v.(c := v.c.(connecting := false, lastFrame := now, connected := true))
  }

  /** Where a well-formed frame leaves the stream, and whether it reaches the callback. */
  datatype Reaction = Reaction(cursor: Cursor, delivered: bool)

  function Absorb(c: Cursor, events: bool, resuming: bool, frame: Frame): Reaction
    requires frame != Malformed
  {
    match frame
    case Null | Heartbeat => Reaction(c, false)
    case Hello(id, eventSeq) =>
      var changed := c.instance.Some? && id != c.instance;
      var restarted := if changed then 0 else c.sequence;
      var sequence := if events && (!resuming || changed) && eventSeq.Some? then eventSeq.value else restarted;
      Reaction(Cursor(sequence, id, c.ended), true)
    case Resync(last) =>
      Reaction(if last.Some? then c.(sequence := last.value) else c, true)
    case Data(ends, seqNo, lastSeq, _) =>
      var c := if ends then c.(ended := true) else c;
      if seqNo.Some? && seqNo.value <= c.sequence then Reaction(c, false)
      else
        var c := if seqNo.Some? then c.(sequence := seqNo.value) else c;
        Reaction(if lastSeq.Some? then c.(sequence := lastSeq.value) else c, true)
  }

  function OnMessage(w: World, s: nat, frame: Frame, now: int): World
    requires s < |w.b.sockets|
  {
    if w.c.disposed || w.c.socket != Some(s) then w
    else if frame == Malformed then w.(c := w.c.(lastFrame := now), b := CloseSocket(w.b, Some(s)))
    else
      var r := Absorb(w.c.cursor, w.c.events, w.b.sockets[s].resuming, frame);
      World(w.c.(lastFrame := now, attempts := 0, cursor := r.cursor), w.b,
            if r.delivered then w.log + [frame] else w.log)
  }

  /** The socket is closed and no longer the shared channel. */
  function Detach(w: World, s: nat): World
    requires s < |w.b.sockets|
  {
    w.(c := w.c.(channel := if w.c.channel == Some(s) then None else w.c.channel),
       b := w.b.(sockets := w.b.sockets[s := w.b.sockets[s].(ready := Closed)]))
  }

  function Release(w: World): World {
    w.(c := w.c.(socket := None, connecting := false))
  }

  /** 4004 says the terminal is gone, 4001 that this device was revoked. */
  function EndOrRetry(w: World, code: int): World {
    if w.c.cursor.ended || code == 4004 then w.(c := w.c.(cursor := w.c.cursor.(ended := true)))
    else if code == 4001 then w.(c := w.c.(denied := true))
    else Retry(w)
  }

  function OnClose(w: World, s: nat, code: int): World
    requires s < |w.b.sockets|
  {
    var v := Detach(w, s);
    if v.c.disposed || v.c.socket != Some(s) then v
    else
      EndOrRetry(Release(v), code)
  }

  function Online(w: World): World {
    if w.c.paused then w else Connect(w.(b := ClearTimer(w.b, w.c.timer)))
  }

  function Offline(w: World): World {
    if Terminal(w.c) || w.c.paused then w
    else w.(b := CloseSocket(ClearTimer(w.b, w.c.timer), w.c.socket))
  }

  function Watchdog(w: World, now: int): World {
    if && w.c.socket.Some? && w.c.socket.value < |w.b.sockets|
       && var ready := w.b.sockets[w.c.socket.value].ready;
          && now - w.c.lastFrame > (if ready == Connecting then OPENING_LIMIT else SILENCE_LIMIT)
          && (ready == Connecting || ready == Open)
    then w.(b := CloseSocket(w.b, w.c.socket))
    else w
  }

  function Restart(w: World): World {
    if Terminal(w.c) || IsOpen(w.b, w.c.channel) then w
    else Connect(w.(b := ClearTimer(w.b, w.c.timer), c := w.c.(attempts := 0, paused := false)))
  }

  function Dispose(w: World): World {
    w.(c := w.c.(disposed := true, channel := None),
       b := CloseSocket(ClearTimer(w.b, w.c.timer), w.c.socket))
  }

  /** The effect's first lines, up to and including its own call of `connect`. */
  function Start(events: bool, onLine: bool, now: int): World {
    Connect(World(
      Client(events, false, false, false, false, false, false, None, None, None, 0, now, Cursor(0, None, false)),
      Browser(onLine, [], 0, map[], 0, []), []))
  }

  // ----- Everything that can happen next -----

  datatype Event =
    | Granted                           // a ticket arrives and the socket is made
    | Failed(why: Failure)              // the request, the URL or the socket constructor throws
    | Fires(t: nat)
    | Opens(s: nat)
    | Receives(s: nat, frame: Frame)
    | Fails(s: nat)                     // the socket's error event
    | Hangs(s: nat)                     // the peer starts the closing handshake
    | Closes(s: nat, code: int)
    | Network                           // `navigator.onLine` flips and an event is queued
    | Signal                            // the oldest queued connectivity event is delivered
    | Tick | Retries | Unmounts

  predicate Enabled(w: World, e: Event) {
    match e
    case Granted | Failed(_) => w.b.tickets > 0
    case Fires(t) => t in w.b.timers
    case Opens(s) => s < |w.b.sockets| && w.b.sockets[s].ready == Connecting
    case Receives(s, _) =>
      s < |w.b.sockets| && w.b.sockets[s].wasOpen && w.b.sockets[s].ready != Closed
    case Fails(s) => s < |w.b.sockets| && w.b.sockets[s].ready != Closed
    case Hangs(s) => s < |w.b.sockets| && w.b.sockets[s].ready == Open
    case Closes(s, _) => s < |w.b.sockets| && w.b.sockets[s].ready != Closed
    case Network => true
    case Signal => w.b.signals != []
    case Tick | Retries | Unmounts => !w.c.disposed
  }

  function Step(w: World, e: Event, now: int): World
    requires Enabled(w, e)
  {
    match e
    case Granted => TicketGranted(w, now)
    case Failed(why) => TicketFailed(w, why)
    case Fires(t) => Connect(w.(b := w.b.(timers := w.b.timers - {t})))
    case Opens(s) => OnOpen(w, s, now)
    case Receives(s, frame) => OnMessage(w, s, frame, now)
    case Fails(s) => w.(b := CloseSocket(w.b, Some(s)))
    case Hangs(s) => w.(b := CloseSocket(w.b, Some(s)))
    case Closes(s, code) => OnClose(w, s, code)
    case Network => w.(b := w.b.(onLine := !w.b.onLine, signals := w.b.signals + [!w.b.onLine]))
    case Signal =>
      var v := w.(b := w.b.(signals := w.b.signals[1..]));
      if w.c.disposed then v else if w.b.signals[0] then Online(v) else Offline(v)
    case Tick => Watchdog(w, now)
    case Retries => Restart(w)
    case Unmounts => Dispose(w)
  }
}
