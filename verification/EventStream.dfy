/** The client against the instance's event server: which numbered events reach
    the callback over any run of publications, drops, reconnects and restarts. */
module EventStream {
  import opened Live
  import opened Options

  // ----- The server -----

  const BUFFER := 200

  /** The oldest event number the server still holds after `n` publications. */
  function Front(n: nat): nat {
    if n > BUFFER then n - BUFFER + 1 else 1
  }

  function EventFrame(log: seq<nat>, k: nat): Frame
    requires 1 <= k <= |log|
  {
    Data(false, Some(k), None, log[k - 1])
  }

  predicate TooOld(n: nat, after: nat) {
    after > n || (n > 0 && after + 1 < Front(n))
  }

  /** `resume`: the events past `after`, or a resync when the buffer cannot supply them. */
  function Resume(log: seq<nat>, after: nat): seq<Frame> {
    if TooOld(|log|, after) then [Resync(Some(|log|))]
    else seq(|log| - after, i requires 0 <= i < |log| - after => EventFrame(log, after + i + 1))
  }

  /** One accepted connection. `cursor` is the event count when it subscribed, `resumed`
      the count when its backlog was read, `sent` the frames delivered so far. */
  datatype Conn = Conn(epoch: nat, cursor: nat, after: Option<int>, resumed: Option<nat>, sent: nat)

  ghost predicate Accepted(c: Conn, log: seq<nat>) {
    && c.resumed.Some? && c.cursor <= c.resumed.value <= |log|
    && (c.after.Some? ==> c.after.value >= 0)
  }

  ghost function Backlog(c: Conn, log: seq<nat>): seq<Frame>
    requires Accepted(c, log)
  {
    if c.after.None? then [] else Resume(log[..c.resumed.value], c.after.value)
  }

  /** How many frames the connection has to offer so far. */
  ghost function Available(c: Conn, log: seq<nat>): nat
    requires Accepted(c, log)
  {
    1 + |Backlog(c, log)| + (|log| - c.cursor)
  }

  /** Frame `i` of the connection: the greeting, the backlog, then every event since it subscribed. */
  ghost function FrameAt(c: Conn, log: seq<nat>, instance: string, i: nat): Frame
    requires Accepted(c, log) && i < Available(c, log)
  {
    var k := |Backlog(c, log)|;
    if i == 0 then Hello(Some(instance), Some(c.cursor))
    else if i <= k then Backlog(c, log)[i - 1]
    else EventFrame(log, c.cursor + (i - k))
  }

  /** The backlog starts past the greeting's cursor: the events between are in neither. */
  ghost predicate Torn(c: Conn) {
    c.after.Some? && c.resumed.Some? && c.cursor < c.after.value < c.resumed.value
    && !TooOld(c.resumed.value, c.after.value)
  }

  // ----- The closed system -----

  /** `logs` and `instances` have one entry for each life of the server. `view`, `base` and
      `seen` record what the callback has got since its last reset: the life it follows, the
      number it restarted from, and the events since. `start` is the client's number right
      after the current connection's greeting. */
  datatype System = System(
    w: World, logs: seq<seq<nat>>, instances: seq<string>, conns: map<nat, Conn>,
    view: Option<nat>, base: int, start: int, seen: seq<nat>)

  datatype Act =
    | ClientSide(e: Event)
    | Noise(s: nat, frame: Frame)
    | Publish(body: nat)
    | Reboot(instance: string)
    | Subscribe(s: nat)
    | ReadBacklog(s: nat)
    | Deliver(s: nat)

  ghost function LogOf(y: System, c: Conn): seq<nat>
    requires c.epoch < |y.logs|
  {
    y.logs[c.epoch]
  }

  ghost predicate Ready(y: System, s: nat) {
    s in y.conns && y.conns[s].epoch < |y.logs| && Accepted(y.conns[s], LogOf(y, y.conns[s]))
  }

  ghost predicate Can(y: System, a: Act) {
    match a
    case ClientSide(e) => !e.Receives? && Enabled(y.w, e) && (e.Opens? ==> Ready(y, e.s))
    case Noise(s, f) => Enabled(y.w, Receives(s, f)) && (f.Malformed? || f.Null? || f.Heartbeat?)
    case Publish(_) => y.logs != []
    case Reboot(id) => id !in y.instances
    case Subscribe(s) =>
      s < |y.w.b.sockets| && s !in y.conns && !y.w.b.sockets[s].wasOpen && y.logs != []
    case ReadBacklog(s) =>
      && s in y.conns && y.conns[s].resumed == None && y.logs != []
      && y.conns[s].epoch == |y.logs| - 1 && y.conns[s].cursor <= |y.logs[|y.logs| - 1]|
    case Deliver(s) =>
      && Ready(y, s) && y.conns[s].sent < Available(y.conns[s], LogOf(y, y.conns[s]))
      && |y.instances| == |y.logs|
      && Enabled(y.w, Receives(s, Heartbeat))
  }

  /** The bookkeeping of a frame on the current socket. */
  ghost function Track(y: System, w: World, epoch: nat, frame: Frame, delivered: bool): System {
    var sequence := w.c.cursor.sequence;
    match frame
    case Hello(_, _) =>
      if y.view == Some(epoch) then y.(w := w, start := sequence)
      else y.(w := w, view := Some(epoch), base := sequence, start := sequence, seen := [])
    case Resync(_) => y.(w := w, base := sequence, seen := [])
    case Data(_, _, _, body) => y.(w := w, seen := if delivered then y.seen + [body] else y.seen)
    case _ => y.(w := w)
  }

  ghost function Next(y: System, a: Act, now: int): System
    requires Can(y, a)
  {
    match a
    case ClientSide(e) => y.(w := Step(y.w, e, now))
    case Noise(s, f) => y.(w := OnMessage(y.w, s, f, now))
    case Publish(body) => y.(logs := y.logs[|y.logs| - 1 := y.logs[|y.logs| - 1] + [body]])
    case Reboot(id) => y.(logs := y.logs + [[]], instances := y.instances + [id])
    case Subscribe(s) =>
      var e := |y.logs| - 1;
      y.(conns := y.conns[s := Conn(e, |y.logs[e]|, y.w.b.sockets[s].after, None, 0)])
    case ReadBacklog(s) =>
      y.(conns := y.conns[s := y.conns[s].(resumed := Some(|y.logs[|y.logs| - 1]|))])
    case Deliver(s) =>
      var c := y.conns[s];
      var frame := FrameAt(c, LogOf(y, c), y.instances[c.epoch], c.sent);
      var w := OnMessage(y.w, s, frame, now);
      var z := y.(conns := y.conns[s := c.(sent := c.sent + 1)]);
      if y.w.c.disposed || y.w.c.socket != Some(s) then z.(w := w)
      else Track(z, w, c.epoch, frame, |w.log| > |y.w.log|)
  }

  ghost function Boot(instance: string, onLine: bool, now: int): System {
    System(Start(true, onLine, now), [[]], [instance], map[], None, 0, 0, [])
  }

  // ----- Where the client's number stands on a connection -----

  /** After the greeting: at its cursor if that was a reset, else where the client had been. */
  ghost predicate Started(c: Conn, start: int) {
    start == c.cursor || (c.after.Some? && start == c.after.value <= c.cursor)
  }

  function Max(a: int, b: int): int {
    if a >= b then a else b
  }

  ghost function AfterBacklog(c: Conn, log: seq<nat>, start: int, m: nat): int
    requires Accepted(c, log) && m <= |Backlog(c, log)|
  {
    if m == 0 then start
    else if TooOld(c.resumed.value, c.after.value) then c.resumed.value
    else Max(start, c.after.value + m)
  }

  ghost function SequenceAfter(c: Conn, log: seq<nat>, start: int, i: nat): int
    requires Accepted(c, log) && i >= 1
  {
    var k := |Backlog(c, log)|;
    if i - 1 <= k then AfterBacklog(c, log, start, i - 1)
    else Max(AfterBacklog(c, log, start, k), c.cursor + (i - 1 - k))
  }

  // ----- Invariant -----

  ghost predicate ServerSane(y: System) {
    && |y.logs| == |y.instances| >= 1
    && (forall i, j :: 0 <= i < j < |y.instances| ==> y.instances[i] != y.instances[j])
  }

  ghost predicate ConnSane(y: System, s: nat)
    requires s in y.conns
  {
    var c := y.conns[s];
    && s < |y.w.b.sockets|
    && c.epoch < |y.logs| && c.cursor <= |y.logs[c.epoch]|
    && c.after == y.w.b.sockets[s].after
    && (c.after.Some? ==> c.after.value >= 0)
    && (c.resumed.Some? ==> Accepted(c, y.logs[c.epoch]))
    && (c.resumed.None? ==> c.sent == 0)
  }

  ghost predicate ConnsSane(y: System) {
    forall s :: s in y.conns ==> ConnSane(y, s)
  }

  ghost predicate SocketsAsk(w: World) {
    forall s :: 0 <= s < |w.b.sockets| ==>
      (w.b.sockets[s].resuming <==> w.b.sockets[s].after.Some?)
      && (w.b.sockets[s].after.Some? ==> w.b.sockets[s].after.value >= 0)
  }

  /** Everything since the last reset, once each and in order. */
  ghost predicate ExactlyOnce(y: System) {
    match y.view
    case None => y.seen == []
    case Some(v) =>
      && v < |y.logs| && 0 <= y.base <= y.w.c.cursor.sequence <= |y.logs[v]|
      && y.seen == y.logs[v][y.base..y.w.c.cursor.sequence]
  }

  ghost predicate ViewMatches(y: System) {
    && y.w.c.events
    && (y.view.None? ==> y.w.c.cursor.sequence == 0 && y.w.c.cursor.instance == None)
    && (y.view.Some? ==> y.w.c.connected && y.view.value < |y.instances|
                         && y.w.c.cursor.instance == Some(y.instances[y.view.value]))
  }

  /** The current socket before its greeting: it asked for exactly what the client has. */
  ghost predicate Ungreeted(y: System, s: nat)
    requires s < |y.w.b.sockets|
  {
    && (y.w.b.sockets[s].resuming ==> y.w.b.sockets[s].after == Some(y.w.c.cursor.sequence))
    && (!y.w.b.sockets[s].resuming ==> y.view == None)
    && (s in y.conns && y.view == Some(y.conns[s].epoch) ==> y.w.c.cursor.sequence <= y.conns[s].cursor)
  }

  /** The current socket after its greeting. */
  ghost predicate Greeted(y: System, s: nat)
    requires s in y.conns && ConnSane(y, s) && y.conns[s].sent >= 1
  {
    var c := y.conns[s];
    && y.view == Some(c.epoch)
    && y.w.c.cursor.sequence == SequenceAfter(c, y.logs[c.epoch], y.start, c.sent)
    && Started(c, y.start) && (Torn(c) ==> c.sent == 1)
  }

  ghost predicate CurrentMatches(y: System) {
    !y.w.c.disposed && y.w.c.socket.Some? ==>
      var s := y.w.c.socket.value;
      && s < |y.w.b.sockets|
      && (y.w.b.sockets[s].wasOpen ==> y.w.c.connected)
      && (s in y.conns && y.conns[s].sent >= 1 ==> ConnSane(y, s) && Greeted(y, s))
      && (!(s in y.conns && y.conns[s].sent >= 1) ==> Ungreeted(y, s))
  }

  ghost predicate Good(y: System) {
    && ServerSane(y) && ConnsSane(y) && SocketsAsk(y.w) && ExactlyOnce(y) && ViewMatches(y) && CurrentMatches(y)
  }

  // ----- Steps of the server -----

  lemma BootGood(instance: string, onLine: bool, now: int)
    ensures Good(Boot(instance, onLine, now))
  {
  }

  lemma LogGrows(c: Conn, log: seq<nat>, body: nat)
    requires Accepted(c, log)
    ensures Accepted(c, log + [body]) && Backlog(c, log + [body]) == Backlog(c, log)
  {
    assert (log + [body])[..c.resumed.value] == log[..c.resumed.value];
  }

  lemma SequenceKept(c: Conn, log: seq<nat>, body: nat, start: int)
    requires Accepted(c, log) && c.sent >= 1
    ensures Accepted(c, log + [body])
    ensures SequenceAfter(c, log + [body], start, c.sent) == SequenceAfter(c, log, start, c.sent)
  {
    LogGrows(c, log, body);
  }

  lemma PublishKeepsConns(y: System, body: nat)
    requires Good(y)
    ensures ConnsSane(Next(y, Publish(body), 0)) && ServerSane(Next(y, Publish(body), 0))
  {
    var z := Next(y, Publish(body), 0);
    forall s | s in z.conns ensures ConnSane(z, s) {
      assert ConnSane(y, s);
    }
  }

  lemma PublishGood(y: System, body: nat)
    requires Good(y)
    ensures Good(Next(y, Publish(body), 0))
  {
    hide SequenceAfter, Torn;
    var z := Next(y, Publish(body), 0);
    PublishKeepsConns(y, body);
    if y.view.Some? {
      assert z.logs[y.view.value][y.base..y.w.c.cursor.sequence] == y.logs[y.view.value][y.base..y.w.c.cursor.sequence];
    }
    if !y.w.c.disposed && y.w.c.socket.Some? {
      var s := y.w.c.socket.value;
      if s in y.conns && y.conns[s].sent >= 1 {
        assert ConnSane(y, s) && Greeted(y, s);
        SequenceKept(y.conns[s], y.logs[y.conns[s].epoch], body, y.start);
      }
    }
  }

  lemma RebootGood(y: System, id: string)
    requires Good(y) && id !in y.instances
    ensures Good(Next(y, Reboot(id), 0))
  {
    var z := Next(y, Reboot(id), 0);
    forall s | s in z.conns ensures ConnSane(z, s) {
      assert ConnSane(y, s);
    }
  }

  lemma SubscribeGood(y: System, s: nat)
    requires Good(y) && Can(y, Subscribe(s))
    ensures Good(Next(y, Subscribe(s), 0))
  {
    var z := Next(y, Subscribe(s), 0);
    forall t | t in z.conns ensures ConnSane(z, t) {
      if t != s { assert ConnSane(y, t); }
    }
  }

  lemma ReadBacklogGood(y: System, s: nat)
    requires Good(y) && Can(y, ReadBacklog(s))
    ensures Good(Next(y, ReadBacklog(s), 0))
  {
    var z := Next(y, ReadBacklog(s), 0);
    forall t | t in z.conns ensures ConnSane(z, t) {
      assert ConnSane(y, t);
    }
  }

  // ----- Steps of the client other than a frame -----

  /** Nothing the stream depends on moved, except perhaps the choice of current socket. */
  ghost predicate SameStream(w: World, v: World) {
    && v.c.events == w.c.events
    && v.c.cursor.sequence == w.c.cursor.sequence && v.c.cursor.instance == w.c.cursor.instance
    && (w.c.connected ==> v.c.connected) && (w.c.disposed ==> v.c.disposed)
    && |w.b.sockets| <= |v.b.sockets|
    && forall s :: 0 <= s < |w.b.sockets| ==>
         v.b.sockets[s].resuming == w.b.sockets[s].resuming && v.b.sockets[s].after == w.b.sockets[s].after
  }

  /** The current socket is the one before, gone, or one just made from where the client stands. */
  ghost predicate SameOrFresh(w: World, v: World) {
    && |w.b.sockets| <= |v.b.sockets|
    && (forall s :: 0 <= s < |w.b.sockets| && !v.c.disposed && v.c.socket == Some(s) && v.b.sockets[s].wasOpen ==>
          w.b.sockets[s].wasOpen || v.c.connected)
    && (|| (v.c.socket == w.c.socket && |v.b.sockets| == |w.b.sockets|)
        || (v.c.socket == None && |v.b.sockets| == |w.b.sockets|)
        || (&& |v.b.sockets| == |w.b.sockets| + 1 && v.c.socket == Some(|w.b.sockets|)
            && v.b.sockets[|w.b.sockets|]
               == Socket(Connecting, false, w.c.connected, if w.c.connected then Some(w.c.cursor.sequence) else None)))
  }

  lemma ConnectKeepsStream(w: World)
    ensures SameStream(w, Connect(w)) && SameOrFresh(w, Connect(w))
  {
  }

  /** A retry moves only timers, attempts and the pause. */
  lemma RetryIsLocal(w: World)
    ensures var v := Retry(w);
            && v.b.sockets == w.b.sockets && v.c.socket == w.c.socket && v.c.cursor == w.c.cursor
            && v.c.events == w.c.events && v.c.connected == w.c.connected && v.c.disposed == w.c.disposed
  {
  }

  /** What the closing of a socket leaves alone. */
  lemma CloseIsLocal(w: World, s: nat, code: int)
    requires s < |w.b.sockets|
    ensures var v := OnClose(w, s, code);
            && v.b.sockets == w.b.sockets[s := w.b.sockets[s].(ready := Closed)]
            && (v.c.socket == w.c.socket || v.c.socket == None)
            && v.c.cursor.sequence == w.c.cursor.sequence && v.c.cursor.instance == w.c.cursor.instance
            && v.c.events == w.c.events && v.c.connected == w.c.connected && v.c.disposed == w.c.disposed
  {
    hide Retry;
    var d := Detach(w, s);
    if d.c.disposed || d.c.socket != Some(s) {
      assert OnClose(w, s, code) == d;
    } else {
      RetryIsLocal(Release(d));
    }
  }

  lemma CloseKeepsStream(w: World, s: nat, code: int)
    requires s < |w.b.sockets|
    ensures SameStream(w, OnClose(w, s, code)) && SameOrFresh(w, OnClose(w, s, code))
  {
    CloseIsLocal(w, s, code);
    ClosedKeepsStream(w, s, OnClose(w, s, code));
  }

  lemma ClosedKeepsStream(w: World, s: nat, v: World)
    requires s < |w.b.sockets|
    requires v.b.sockets == w.b.sockets[s := w.b.sockets[s].(ready := Closed)]
    requires v.c.socket == w.c.socket || v.c.socket == None
    requires v.c.cursor.sequence == w.c.cursor.sequence && v.c.cursor.instance == w.c.cursor.instance
    requires v.c.events == w.c.events && v.c.connected == w.c.connected && v.c.disposed == w.c.disposed
    ensures SameStream(w, v) && SameOrFresh(w, v)
  {
  }

  lemma FailureKeepsStream(w: World, why: Failure)
    requires w.b.tickets > 0
    ensures SameStream(w, TicketFailed(w, why)) && SameOrFresh(w, TicketFailed(w, why))
  {
    RetryIsLocal(w.(c := w.c.(connecting := false), b := w.b.(tickets := w.b.tickets - 1)));
  }

  lemma OnlineKeepsStream(w: World)
    ensures SameStream(w, Online(w)) && SameOrFresh(w, Online(w))
  {
    if !w.c.paused { ConnectKeepsStream(w.(b := ClearTimer(w.b, w.c.timer))); }
  }

  lemma OfflineKeepsStream(w: World)
    ensures SameStream(w, Offline(w)) && SameOrFresh(w, Offline(w))
  {
  }

  lemma SignalKeepsStream(w: World)
    requires w.b.signals != []
    ensures SameStream(w, Step(w, Signal, 0)) && SameOrFresh(w, Step(w, Signal, 0))
  {
    var v := w.(b := w.b.(signals := w.b.signals[1..]));
    if w.b.signals[0] { OnlineKeepsStream(v); } else { OfflineKeepsStream(v); }
  }

  lemma RestartKeepsStream(w: World)
    ensures SameStream(w, Restart(w)) && SameOrFresh(w, Restart(w))
  {
    ConnectKeepsStream(w.(b := ClearTimer(w.b, w.c.timer), c := w.c.(attempts := 0, paused := false)));
  }

  lemma FiresKeepsStream(w: World, t: nat)
    ensures var v := Connect(w.(b := w.b.(timers := w.b.timers - {t}))); SameStream(w, v) && SameOrFresh(w, v)
  {
    ConnectKeepsStream(w.(b := w.b.(timers := w.b.timers - {t})));
  }

  lemma ClientStepKeepsStream(w: World, e: Event, now: int)
    requires Enabled(w, e) && !e.Receives?
    ensures SameStream(w, Step(w, e, now)) && SameOrFresh(w, Step(w, e, now))
  {
    match e
    case Granted => GrantKeepsStream(w, now);
    case Opens(s) => OpenKeepsStream(w, s, now);
    case Failed(why) => FailureKeepsStream(w, why);
    case Fires(t) => FiresKeepsStream(w, t);
    case Closes(s, code) => CloseKeepsStream(w, s, code);
    case Signal => SignalKeepsStream(w);
    case Retries => RestartKeepsStream(w);
    case _ =>
  }

  lemma GrantKeepsStream(w: World, now: int)
    requires w.b.tickets > 0
    ensures SameStream(w, TicketGranted(w, now)) && SameOrFresh(w, TicketGranted(w, now))
  {
  }

  lemma OpenKeepsStream(w: World, s: nat, now: int)
    requires s < |w.b.sockets|
    ensures SameStream(w, OnOpen(w, s, now)) && SameOrFresh(w, OnOpen(w, s, now))
  {
  }

  lemma SameStreamGood(y: System, v: World)
    requires Good(y) && SameStream(y.w, v) && SameOrFresh(y.w, v)
    ensures Good(y.(w := v))
  {
    var z := y.(w := v);
    forall s | s in z.conns ensures ConnSane(z, s) {
      assert ConnSane(y, s);
    }
    assert SocketsAsk(v);
    assert ExactlyOnce(z) && ViewMatches(z);
    if !v.c.disposed && v.c.socket.Some? {
      var s := v.c.socket.value;
      if s == |y.w.b.sockets| {
        assert s !in y.conns;
      } else {
        assert y.w.c.socket == Some(s);
      }
    }
  }

  lemma ClientSideGood(y: System, e: Event, now: int)
    requires Good(y) && Can(y, ClientSide(e))
    ensures Good(Next(y, ClientSide(e), now))
  {
    ClientStepKeepsStream(y.w, e, now);
    SameStreamGood(y, Step(y.w, e, now));
  }

  lemma NoiseGood(y: System, s: nat, f: Frame, now: int)
    requires Good(y) && Can(y, Noise(s, f))
    ensures Good(Next(y, Noise(s, f), now))
  {
    SameStreamGood(y, OnMessage(y.w, s, f, now));
  }

  // ----- A frame of the connection arrives -----

  lemma AfterBacklogReachesCursor(c: Conn, log: seq<nat>, start: int)
    requires Accepted(c, log) && !Torn(c)
    requires Started(c, start)
    ensures AfterBacklog(c, log, start, |Backlog(c, log)|) >= c.cursor
  {
  }

  lemma ResumeAt(log: seq<nat>, after: nat, m: nat)
    requires m < |Resume(log, after)|
    ensures TooOld(|log|, after) ==> m == 0 && Resume(log, after) == [Resync(Some(|log|))]
    ensures !TooOld(|log|, after) ==>
              |Resume(log, after)| == |log| - after && Resume(log, after)[m] == EventFrame(log, after + m + 1)
  {
  }

  lemma BacklogAt(c: Conn, log: seq<nat>, m: nat)
    requires Accepted(c, log) && m < |Backlog(c, log)|
    ensures c.after.Some?
    ensures TooOld(c.resumed.value, c.after.value) ==> m == 0 && Backlog(c, log) == [Resync(Some(c.resumed.value))]
    ensures !TooOld(c.resumed.value, c.after.value) ==>
              |Backlog(c, log)| == c.resumed.value - c.after.value
              && Backlog(c, log)[m] == EventFrame(log, c.after.value + m + 1)
  {
    ResumeAt(log[..c.resumed.value], c.after.value, m);
  }

  /** `frame`, read at number `before`, is a resync to `next`, an old event, or the very next one. */
  ghost predicate Continues(log: seq<nat>, frame: Frame, before: int, next: int) {
    match frame
    case Resync(last) => last == Some(next) && 0 <= next <= |log|
    case Data(ends, seqNo, lastSeq, body) =>
      && !ends && lastSeq == None && seqNo.Some? && 1 <= seqNo.value <= |log| && body == log[seqNo.value - 1]
      && (if seqNo.value <= before then next == before else seqNo.value == before + 1 == next)
    case _ => false
  }

  lemma BacklogContinues(c: Conn, log: seq<nat>, start: int, m: nat)
    requires Accepted(c, log) && !Torn(c) && m < |Backlog(c, log)| && Started(c, start)
    ensures Continues(log, Backlog(c, log)[m], AfterBacklog(c, log, start, m), AfterBacklog(c, log, start, m + 1))
  {
    BacklogAt(c, log, m);
  }

  /** Whatever is delivered past the greeting continues the client's number. */
  lemma FrameContinues(c: Conn, log: seq<nat>, instance: string, start: int, i: nat)
    requires Accepted(c, log) && !Torn(c) && 1 <= i < Available(c, log) && Started(c, start)
    ensures Continues(log, FrameAt(c, log, instance, i), SequenceAfter(c, log, start, i), SequenceAfter(c, log, start, i + 1))
  {
    var k := |Backlog(c, log)|;
    if i <= k {
      BacklogContinues(c, log, start, i - 1);
    } else {
      AfterBacklogReachesCursor(c, log, start);
    }
  }

  /** Absorbing it moves the client to that number, and delivers exactly the new events. */
  lemma AbsorbContinues(cu: Cursor, resuming: bool, log: seq<nat>, frame: Frame, next: int)
    requires Continues(log, frame, cu.sequence, next)
    ensures Absorb(cu, true, resuming, frame).cursor == cu.(sequence := next)
    ensures Absorb(cu, true, resuming, frame).delivered <==> frame.Resync? || next == cu.sequence + 1
  {
  }

  lemma FrameIsWellFormed(c: Conn, log: seq<nat>, instance: string, i: nat)
    requires Accepted(c, log) && i < Available(c, log)
    ensures var f := FrameAt(c, log, instance, i);
            (i == 0 <==> f.Hello?) && (i >= 1 ==> f.Resync? || f.Data?)
  {
    if 1 <= i <= |Backlog(c, log)| { BacklogAt(c, log, i - 1); }
  }

  ghost function FrameDue(y: System, s: nat): Frame
    requires Can(y, Deliver(s))
  {
    FrameAt(y.conns[s], LogOf(y, y.conns[s]), y.instances[y.conns[s].epoch], y.conns[s].sent)
  }

  /** A delivery moves neither the server nor the browser. */
  ghost predicate OnlyDelivered(y: System, s: nat, z: System)
    requires s in y.conns
  {
    && z.logs == y.logs && z.instances == y.instances && z.w.b == y.w.b
    && z.conns == y.conns[s := y.conns[s].(sent := y.conns[s].sent + 1)]
  }

  lemma DeliverShape(y: System, s: nat, now: int)
    requires Can(y, Deliver(s))
    ensures OnlyDelivered(y, s, Next(y, Deliver(s), now))
  {
    FrameIsWellFormed(y.conns[s], LogOf(y, y.conns[s]), y.instances[y.conns[s].epoch], y.conns[s].sent);
    MessageKeepsBrowser(y.w, s, FrameDue(y, s), now);
  }

  lemma DeliveredConnsSane(y: System, s: nat, z: System)
    requires Good(y) && s in y.conns && y.conns[s].resumed.Some? && OnlyDelivered(y, s, z)
    ensures ServerSane(z) && ConnsSane(z) && SocketsAsk(z.w)
  {
    forall t | t in z.conns ensures ConnSane(z, t) {
      assert ConnSane(y, t);
    }
  }

  lemma DeliverFrameRule(y: System, s: nat, now: int)
    requires Good(y) && Can(y, Deliver(s))
    ensures var z := Next(y, Deliver(s), now);
            OnlyDelivered(y, s, z) && ServerSane(z) && ConnsSane(z) && SocketsAsk(z.w)
  {
    DeliverShape(y, s, now);
    DeliveredConnsSane(y, s, Next(y, Deliver(s), now));
  }

  lemma MessageKeepsBrowser(w: World, s: nat, frame: Frame, now: int)
    requires s < |w.b.sockets| && frame != Malformed
    ensures OnMessage(w, s, frame, now).b == w.b
  {
  }

  lemma CurrentDelivery(y: System, s: nat, now: int)
    requires Good(y) && Can(y, Deliver(s)) && !y.w.c.disposed && y.w.c.socket == Some(s)
    ensures FrameDue(y, s) != Malformed
    ensures var z, r := Next(y, Deliver(s), now), Absorb(y.w.c.cursor, true, y.w.b.sockets[s].resuming, FrameDue(y, s));
            && z.w.c == y.w.c.(lastFrame := now, attempts := 0, cursor := r.cursor)
            && z == Track(y.(conns := z.conns), z.w, y.conns[s].epoch, FrameDue(y, s), r.delivered)
  {
    FrameIsWellFormed(y.conns[s], LogOf(y, y.conns[s]), y.instances[y.conns[s].epoch], y.conns[s].sent);
  }

  /** The greeting of the life the client already follows changes nothing; any other resets. */
  lemma GreetingAbsorbed(y: System, s: nat)
    requires Good(y) && Can(y, Deliver(s)) && y.conns[s].sent == 0
    requires !y.w.c.disposed && y.w.c.socket == Some(s)
    ensures var c, cu := y.conns[s], y.w.c.cursor;
            var r := Absorb(cu, true, y.w.b.sockets[s].resuming, FrameDue(y, s)).cursor;
            && r.instance == Some(y.instances[c.epoch]) && Started(c, r.sequence) && 0 <= r.sequence <= c.cursor
            && (y.view == Some(c.epoch) ==> r.sequence == cu.sequence)
  {
    assert ConnSane(y, s) && Ungreeted(y, s);
  }

  lemma GreetingGood(y: System, s: nat, now: int)
    requires Good(y) && Can(y, Deliver(s)) && y.conns[s].sent == 0
    requires !y.w.c.disposed && y.w.c.socket == Some(s)
    ensures Good(Next(y, Deliver(s), now))
  {
    hide Absorb, Torn;
    var z := Next(y, Deliver(s), now);
    assert ConnSane(y, s);
    FrameIsWellFormed(y.conns[s], LogOf(y, y.conns[s]), y.instances[y.conns[s].epoch], y.conns[s].sent);
    DeliverFrameRule(y, s, now);
    CurrentDelivery(y, s, now);
    GreetingAbsorbed(y, s);
  }

  /** The record keeps being the log's slice when a frame continues it. */
  lemma TrackContinues(y: System, w: World, epoch: nat, log: seq<nat>, frame: Frame, before: int)
    requires Continues(log, frame, before, w.c.cursor.sequence)
    requires 0 <= y.base <= before <= |log| && y.seen == log[y.base..before]
    ensures var next := w.c.cursor.sequence;
            var t := Track(y, w, epoch, frame, frame.Resync? || next == before + 1);
            && t.view == y.view && t.start == y.start
            && 0 <= t.base <= next <= |log| && t.seen == log[t.base..next]
  {
    var next := w.c.cursor.sequence;
    if frame.Data? && next == before + 1 {
      assert log[y.base..next] == log[y.base..before] + [log[before]];
    }
  }

  /** The frame due continues the client's number, and absorbing it moves the client there. */
  lemma DueFrameContinues(y: System, s: nat)
    requires Good(y) && Can(y, Deliver(s)) && y.conns[s].sent >= 1 && !Torn(y.conns[s])
    requires !y.w.c.disposed && y.w.c.socket == Some(s)
    ensures ConnSane(y, s) && Greeted(y, s)
    ensures var log := y.logs[y.conns[s].epoch];
            var next := SequenceAfter(y.conns[s], log, y.start, y.conns[s].sent + 1);
            && Continues(log, FrameDue(y, s), y.w.c.cursor.sequence, next)
            && Absorb(y.w.c.cursor, true, y.w.b.sockets[s].resuming, FrameDue(y, s))
               == Reaction(y.w.c.cursor.(sequence := next), FrameDue(y, s).Resync? || next == y.w.c.cursor.sequence + 1)
  {
    var c := y.conns[s];
    var log := y.logs[c.epoch];
    assert ConnSane(y, s) && Greeted(y, s);
    FrameContinues(c, log, y.instances[c.epoch], y.start, c.sent);
    AbsorbContinues(y.w.c.cursor, y.w.b.sockets[s].resuming, log, FrameDue(y, s),
                    SequenceAfter(c, log, y.start, c.sent + 1));
  }

  lemma FrameGood(y: System, s: nat, now: int)
    requires Good(y) && Can(y, Deliver(s)) && y.conns[s].sent >= 1 && !Torn(y.conns[s])
    requires !y.w.c.disposed && y.w.c.socket == Some(s)
    ensures Good(Next(y, Deliver(s), now))
  {
    DueFrameContinues(y, s);
    DeliverFrameRule(y, s, now);
    CurrentDelivery(y, s, now);
    FrameRecorded(y, s, Next(y, Deliver(s), now), now, FrameDue(y, s));
  }

  lemma FrameRecorded(y: System, s: nat, z: System, now: int, frame: Frame)
    requires Good(y) && s in y.conns && ConnSane(y, s) && y.conns[s].sent >= 1 && !Torn(y.conns[s]) && Greeted(y, s)
    requires y.conns[s].resumed.Some? && !y.w.c.disposed && y.w.c.socket == Some(s)
    requires OnlyDelivered(y, s, z) && ServerSane(z) && ConnsSane(z) && SocketsAsk(z.w)
    requires var log, before := y.logs[y.conns[s].epoch], y.w.c.cursor.sequence;
             var next := SequenceAfter(y.conns[s], log, y.start, y.conns[s].sent + 1);
             && Continues(log, frame, before, next)
             && z.w.c == y.w.c.(lastFrame := now, attempts := 0, cursor := y.w.c.cursor.(sequence := next))
             && z == Track(y.(conns := z.conns), z.w, y.conns[s].epoch, frame, frame.Resync? || next == before + 1)
    ensures Good(z)
  {
    var log := y.logs[y.conns[s].epoch];
    TrackContinues(y.(conns := z.conns), z.w, y.conns[s].epoch, log, frame, y.w.c.cursor.sequence);
    FrameTracked(y, s, z, z.w.c.cursor.sequence);
  }

  lemma FrameTracked(y: System, s: nat, z: System, next: int)
    requires Good(y) && s in y.conns && ConnSane(y, s) && y.conns[s].sent >= 1 && !Torn(y.conns[s]) && Greeted(y, s)
    requires !y.w.c.disposed && y.w.c.socket == Some(s)
    requires OnlyDelivered(y, s, z) && ServerSane(z) && ConnsSane(z) && SocketsAsk(z.w)
    requires z.view == y.view && z.start == y.start
    requires z.w.c == y.w.c.(lastFrame := z.w.c.lastFrame, attempts := 0, cursor := y.w.c.cursor.(sequence := next))
    requires y.conns[s].epoch < |y.logs| && y.conns[s].resumed.Some?
    requires next == SequenceAfter(y.conns[s], y.logs[y.conns[s].epoch], y.start, y.conns[s].sent + 1)
    requires 0 <= z.base <= next <= |y.logs[y.conns[s].epoch]|
    requires z.seen == y.logs[y.conns[s].epoch][z.base..next]
    ensures Good(z)
  {
  }

  lemma RetiredFrameGood(y: System, s: nat, now: int)
    requires Good(y) && Can(y, Deliver(s)) && (y.w.c.disposed || y.w.c.socket != Some(s))
    ensures Good(Next(y, Deliver(s), now))
  {
    DeliverFrameRule(y, s, now);
  }

  // ----- Whole runs -----

  datatype Turn = Turn(a: Act, now: int)

  ghost predicate Possible(y: System, run: seq<Turn>)
    decreases |run|
  {
    run == [] || (Can(y, run[0].a) && Possible(Next(y, run[0].a, run[0].now), run[1..]))
  }

  ghost function Ran(y: System, run: seq<Turn>): System
    requires Possible(y, run)
    decreases |run|
  {
    if run == [] then y else Ran(Next(y, run[0].a, run[0].now), run[1..])
  }

  /** The current socket is handed the frame after the greeting of a torn connection. */
  ghost predicate Skips(y: System, a: Act)
    requires Can(y, a)
  {
    a.Deliver? && !y.w.c.disposed && y.w.c.socket == Some(a.s) && y.conns[a.s].sent == 1 && Torn(y.conns[a.s])
  }

  ghost predicate NeverSkips(y: System, run: seq<Turn>)
    requires Possible(y, run)
    decreases |run|
  {
    run == [] || (!Skips(y, run[0].a) && NeverSkips(Next(y, run[0].a, run[0].now), run[1..]))
  }

  lemma NextGood(y: System, a: Act, now: int)
    requires Good(y) && Can(y, a) && !Skips(y, a)
    ensures Good(Next(y, a, now))
  {
    match a
    case ClientSide(e) => ClientSideGood(y, e, now);
    case Noise(s, f) => NoiseGood(y, s, f, now);
    case Publish(body) => PublishGood(y, body);
    case Reboot(id) => RebootGood(y, id);
    case Subscribe(s) => SubscribeGood(y, s);
    case ReadBacklog(s) => ReadBacklogGood(y, s);
    case Deliver(s) =>
      if y.w.c.disposed || y.w.c.socket != Some(s) { RetiredFrameGood(y, s, now); }
      else if y.conns[s].sent == 0 { GreetingGood(y, s, now); }
      else {
        assert ConnSane(y, s) && Greeted(y, s);
        FrameGood(y, s, now);
      }
  }

  lemma {:induction false} RunGood(y: System, run: seq<Turn>)
    requires Good(y) && Possible(y, run) && NeverSkips(y, run)
    ensures Good(Ran(y, run))
    decreases |run|
  {
    if run != [] {
      NextGood(y, run[0].a, run[0].now);
      RunGood(Next(y, run[0].a, run[0].now), run[1..]);
    }
  }

  /** Over any run that never skips, the events the callback has had since its last reset are the server's
      events from there on, in order, none repeated and none skipped. */
  lemma ExactlyOnceAlways(instance: string, onLine: bool, now: int, run: seq<Turn>)
    requires Possible(Boot(instance, onLine, now), run) && NeverSkips(Boot(instance, onLine, now), run)
    ensures var y := Ran(Boot(instance, onLine, now), run);
            y.view.Some? ==>
              && y.view.value < |y.logs| && 0 <= y.base <= y.base + |y.seen| <= |y.logs[y.view.value]|
              && y.seen == y.logs[y.view.value][y.base..y.base + |y.seen|]
              && y.w.c.cursor.sequence == y.base + |y.seen|
  {
    BootGood(instance, onLine, now);
    RunGood(Boot(instance, onLine, now), run);
  }

  /** The record holds at every point of the run. */
  ghost predicate ExactlyOnceThroughout(y: System, run: seq<Turn>)
    requires Possible(y, run)
    decreases |run|
  {
    ExactlyOnce(y) && (run == [] || ExactlyOnceThroughout(Next(y, run[0].a, run[0].now), run[1..]))
  }

  /** That frame's number is past the next one, and the client takes it all the same. */
  lemma SkipBreaks(y: System, s: nat, now: int)
    requires Good(y) && Can(y, Deliver(s)) && Skips(y, Deliver(s))
    ensures !ExactlyOnce(Next(y, Deliver(s), now))
  {
    var c := y.conns[s];
    var log := y.logs[c.epoch];
    assert ConnSane(y, s) && Greeted(y, s);
    BacklogAt(c, log, 0);
    assert FrameDue(y, s) == EventFrame(log, c.after.value + 1);
    CurrentDelivery(y, s, now);
  }

  lemma {:induction false} ThroughoutIffNeverSkips(y: System, run: seq<Turn>)
    requires Good(y) && Possible(y, run)
    ensures ExactlyOnceThroughout(y, run) <==> NeverSkips(y, run)
    decreases |run|
  {
    if run != [] {
      var z := Next(y, run[0].a, run[0].now);
      if Skips(y, run[0].a) {
        SkipBreaks(y, run[0].a.s, run[0].now);
      } else {
        NextGood(y, run[0].a, run[0].now);
        ThroughoutIffNeverSkips(z, run[1..]);
      }
    }
  }

  /** Over every run, whatever is dropped, retired, restarted or torn: the callback has at every
      point had the events since its last reset exactly if its current socket was never handed the
      frame after the greeting of a torn connection. */
  lemma ExactlyOnceIffNeverSkips(instance: string, onLine: bool, now: int, run: seq<Turn>)
    requires Possible(Boot(instance, onLine, now), run)
    ensures var y := Boot(instance, onLine, now); ExactlyOnceThroughout(y, run) <==> NeverSkips(y, run)
  {
    BootGood(instance, onLine, now);
    ThroughoutIffNeverSkips(Boot(instance, onLine, now), run);
  }

  /** A reset: a resync, or the greeting of a life the client was not following. */
  ghost predicate Resets(y: System, a: Act)
    requires Can(y, a)
  {
    && a.Deliver? && !y.w.c.disposed && y.w.c.socket == Some(a.s)
    && (FrameDue(y, a.s).Resync? || (FrameDue(y, a.s).Hello? && y.view != Some(y.conns[a.s].epoch)))
  }

  /** Nothing but a reset makes the record start over: reconnects only add to it. */
  lemma OnlyResetsForget(y: System, a: Act, now: int)
    requires Can(y, a) && !Resets(y, a)
    ensures var z := Next(y, a, now); z.view == y.view && z.base == y.base && y.seen <= z.seen
  {
    if a.Deliver? {
      FrameIsWellFormed(y.conns[a.s], LogOf(y, y.conns[a.s]), y.instances[y.conns[a.s].epoch], y.conns[a.s].sent);
    }
  }

  /** Nothing is lost: once the connection has delivered all it has, the callback has every
      event of the server's life since the last reset. */
  lemma CaughtUp(y: System, s: nat)
    requires Good(y) && !y.w.c.disposed && y.w.c.socket == Some(s) && Ready(y, s)
    requires y.conns[s].sent == Available(y.conns[s], LogOf(y, y.conns[s]))
    ensures y.view == Some(y.conns[s].epoch) && y.seen == LogOf(y, y.conns[s])[y.base..]
  {
    var c := y.conns[s];
    assert ConnSane(y, s) && Greeted(y, s);
    AfterBacklogReachesCursor(c, LogOf(y, c), y.start);
  }

  // ----- What a reconnect brings -----

  /** The server answers a number with every event past it, in order, when no more than the last 200
      are asked for, and otherwise with a resync at the newest. */
  lemma ResumeSuppliesLast200(log: seq<nat>, after: nat)
    ensures if after <= |log| <= after + 200
            then |Resume(log, after)| == |log| - after
                 && forall i :: 0 <= i < |log| - after ==>
                      Resume(log, after)[i] == Data(false, Some(after + 1 + i), None, log[after + i])
            else Resume(log, after) == [Resync(Some(|log|))]
  {
    forall i | 0 <= i < |Resume(log, after)| && !TooOld(|log|, after)
      ensures Resume(log, after)[i] == EventFrame(log, after + i + 1)
    {
      ResumeAt(log, after, i);
    }
  }

  /** So a client that is at most 200 events behind the life it follows is not reset by reconnecting:
      none of its backlog is a resync. */
  lemma ShortAbsenceKeepsRecord(c: Conn, log: seq<nat>, i: nat)
    requires Accepted(c, log) && c.after.Some? && c.after.value <= c.resumed.value <= c.after.value + 200
    requires i < |Backlog(c, log)|
    ensures Backlog(c, log)[i] == EventFrame(log, c.after.value + 1 + i)
  {
    ResumeSuppliesLast200(log[..c.resumed.value], c.after.value);
  }

  // ----- The torn backlog -----

  /** While the client still follows the life it connects to, no backlog can be torn. */
  lemma TornOnlyAfterReboot(y: System, s: nat)
    requires Good(y) && Can(y, ReadBacklog(s)) && !y.w.c.disposed && y.w.c.socket == Some(s)
    requires y.view == Some(y.conns[s].epoch)
    ensures !Torn(Next(y, ReadBacklog(s), 0).conns[s])
  {
    assert ConnSane(y, s) && Ungreeted(y, s);
  }

  /** The event numbers delivered while frames are absorbed in order. */
  ghost function Numbers(cu: Cursor, frames: seq<Frame>): seq<int>
    decreases |frames|
  {
    if frames == [] || !frames[0].Data? || frames[0].seqNo.None? then []
    else
      var r := Absorb(cu, true, true, frames[0]);
      (if r.delivered then [frames[0].seqNo.value] else []) + Numbers(r.cursor, frames[1..])
  }

  function Consecutive(first: int, last: int): seq<int>
    decreases last - first
  {
    if last < first then [] else [first] + Consecutive(first + 1, last)
  }

  ghost predicate EventsFrom(frames: seq<Frame>, log: seq<nat>, from: nat) {
    from + |frames| <= |log|
    && forall i :: 0 <= i < |frames| ==> frames[i] == EventFrame(log, from + i + 1)
  }

  lemma BacklogIsEvents(c: Conn, log: seq<nat>)
    requires Accepted(c, log) && c.after.Some? && !TooOld(c.resumed.value, c.after.value)
    ensures |Backlog(c, log)| == c.resumed.value - c.after.value
    ensures EventsFrom(Backlog(c, log), log, c.after.value)
  {
    forall i | 0 <= i < |Backlog(c, log)| ensures Backlog(c, log)[i] == EventFrame(log, c.after.value + i + 1) {
      BacklogAt(c, log, i);
    }
  }

  lemma EventsTail(frames: seq<Frame>, log: seq<nat>, from: nat)
    requires EventsFrom(frames, log, from) && frames != []
    ensures frames[0] == EventFrame(log, from + 1) && EventsFrom(frames[1..], log, from + 1)
  {
    forall i | 0 <= i < |frames| - 1 ensures frames[1..][i] == EventFrame(log, from + 1 + i + 1) {
      assert frames[1..][i] == frames[i + 1];
    }
  }

  lemma {:induction false} NumbersOfEvents(cu: Cursor, log: seq<nat>, frames: seq<Frame>, from: nat)
    requires EventsFrom(frames, log, from) && from <= cu.sequence
    ensures Numbers(cu, frames) == Consecutive(cu.sequence + 1, from + |frames|)
    decreases |frames|
  {
    if frames != [] {
      EventsTail(frames, log, from);
      NumbersOfEvents(Absorb(cu, true, true, frames[0]).cursor, log, frames[1..], from + 1);
    }
  }

  lemma {:induction false} NumbersAtMost(cu: Cursor, frames: seq<Frame>)
    ensures |Numbers(cu, frames)| <= |frames|
    decreases |frames|
  {
    if frames != [] && frames[0].Data? && frames[0].seqNo.Some? {
      NumbersAtMost(Absorb(cu, true, true, frames[0]).cursor, frames[1..]);
    }
  }

  lemma {:induction false} ConsecutiveLength(first: int, last: int)
    requires first <= last + 1
    ensures |Consecutive(first, last)| == last - first + 1
    decreases last - first
  {
    if first <= last { ConsecutiveLength(first + 1, last); }
  }

  /** After a server restart, the greeting and a backlog of events together give every event
      past the greeting's cursor exactly when the backlog is not torn: an event published
      between `subscribe` and `resume` can otherwise be skipped for good. */
  lemma RestartIsGapFreeIffNotTorn(c: Conn, log: seq<nat>, cu: Cursor, instance: string)
    requires Accepted(c, log) && c.after.Some? && Backlog(c, log) != [] && !TooOld(c.resumed.value, c.after.value)
    requires cu.instance.Some? && cu.instance != Some(instance)
    ensures var greeted := Absorb(cu, true, true, FrameAt(c, log, instance, 0)).cursor;
            Numbers(greeted, Backlog(c, log)) == Consecutive(c.cursor + 1, c.resumed.value) <==> !Torn(c)
  {
    BacklogIsEvents(c, log);
    var greeted := Absorb(cu, true, true, FrameAt(c, log, instance, 0)).cursor;
    if Torn(c) {
      NumbersAtMost(greeted, Backlog(c, log));
      ConsecutiveLength(c.cursor + 1, c.resumed.value);
    } else {
      NumbersOfEvents(greeted, log, Backlog(c, log), c.after.value);
    }
  }
}
