/** What each event brings about in a client that some run has reached: silence is noticed, every
    ending leads to a retry, a pause or a stop, and a retry leads to a new connection. */
module LiveProgress {
  import opened Live
  import opened LiveSafety
  import opened Options

  /** Some run of the effect leads here. */
  ghost predicate Reachable(w: World) {
    exists events, onLine, now, run :: Reaches(events, onLine, now, run, w)
  }

  ghost predicate Reaches(events: bool, onLine: bool, now: int, run: seq<Moment>, w: World) {
    Allowed(Start(events, onLine, now), run) && w == Run(Start(events, onLine, now), run)
  }

  lemma ReachableInv(w: World)
    requires Reachable(w)
    ensures Inv(w)
  {
    var events, onLine, now, run :| Reaches(events, onLine, now, run, w);
    StartInv(events, onLine, now);
    RunInv(Start(events, onLine, now), run);
  }

  // ----- The watchdog -----

  /** Nothing heard for so many milliseconds: too long to open, or too long since the last frame. */
  predicate Silent(k: Socket, ms: int) {
    (k.ready == Connecting && ms > 15000) || (k.ready == Open && ms > 90000)
  }

  /** A tick closes the current socket when it has been silent too long and changes nothing else;
      afterwards no current socket is silent. */
  lemma TickEndsSilence(w: World, now: int)
    requires Reachable(w) && !w.c.disposed
    ensures var v := Step(w, Tick, now);
            && v.c == w.c && v.log == w.log && v.b == w.b.(sockets := v.b.sockets)
            && |v.b.sockets| == |w.b.sockets|
            && (forall s :: 0 <= s < |w.b.sockets| ==>
                  v.b.sockets[s] == if w.c.socket == Some(s) && Silent(w.b.sockets[s], now - w.c.lastFrame)
                                    then w.b.sockets[s].(ready := Closing) else w.b.sockets[s])
            && (v.c.socket.Some? ==>
                  (v.c.socket.value < |v.b.sockets| && !Silent(v.b.sockets[v.c.socket.value], now - v.c.lastFrame)))
  {
    ReachableInv(w);
  }

  /** The event is a sign of life: a socket was made, or the current one opened or spoke. */
  ghost predicate Sign(w: World, e: Event, now: int)
    requires Enabled(w, e)
  {
    || |Step(w, e, now).b.sockets| > |w.b.sockets|
    || (!w.c.disposed && w.c.socket.Some? && (e == Opens(w.c.socket.value) || (e.Receives? && e.s == w.c.socket.value)))
  }

  lemma RetryKeepsClock(w: World)
    ensures Retry(w).c.lastFrame == w.c.lastFrame && Retry(w).b.sockets == w.b.sockets
  {
  }

  lemma ConnectKeepsClock(w: World)
    ensures Connect(w).c.lastFrame == w.c.lastFrame && |Connect(w).b.sockets| == |w.b.sockets|
  {
  }

  /** The silence is counted from the last sign of life. */
  lemma ClockTellsLastSign(w: World, e: Event, now: int)
    requires Enabled(w, e)
    ensures Step(w, e, now).c.lastFrame == if Sign(w, e, now) then now else w.c.lastFrame
  {
    match e
    case Failed(why) => RetryKeepsClock(w.(c := w.c.(connecting := false), b := w.b.(tickets := w.b.tickets - 1)));
    case Fires(t) => ConnectKeepsClock(w.(b := w.b.(timers := w.b.timers - {t})));
    case Closes(s, code) => CloseKeepsClock(w, s, code);
    case Signal => SignalKeepsClock(w);
    case Retries =>
      ConnectKeepsClock(w.(b := ClearTimer(w.b, w.c.timer), c := w.c.(attempts := 0, paused := false)));
    case _ =>
  }

  lemma CloseKeepsClock(w: World, s: nat, code: int)
    requires s < |w.b.sockets|
    ensures OnClose(w, s, code).c.lastFrame == w.c.lastFrame && |OnClose(w, s, code).b.sockets| == |w.b.sockets|
  {
    RetryKeepsClock(Release(Detach(w, s)));
  }

  lemma SignalKeepsClock(w: World)
    requires w.b.signals != []
    ensures Step(w, Signal, 0).c.lastFrame == w.c.lastFrame && |Step(w, Signal, 0).b.sockets| == |w.b.sockets|
  {
    var v := w.(b := w.b.(signals := w.b.signals[1..]));
    ConnectKeepsClock(v.(b := ClearTimer(v.b, v.c.timer)));
  }

  // ----- Endings -----

  /** Milliseconds to wait after so many attempts. */
  function Delay(attempts: nat): nat {
    match attempts
    case 0 => 1000
    case 1 => 2000
    case 2 => 5000
    case 3 => 10000
    case _ => 30000
  }

  /** A timer is set for the next delay while there is one; after the fifth attempt the client
      pauses and offers the user to retry; offline it does neither. */
  ghost predicate Backoff(w: World, v: World) {
    if !w.b.onLine then Quiet(v) && v.c.attempts == w.c.attempts && !v.c.paused
    else if w.c.attempts < 5 then
      && v.b.timers == map[w.b.nextTimer := Delay(w.c.attempts)] && v.c.timer == Some(w.b.nextTimer)
      && v.c.attempts == w.c.attempts + 1 && !v.c.paused && v.b.tickets == 0 && v.c.socket == None
    else Quiet(v) && v.c.paused && v.c.canRetry
  }

  lemma RetryBacksOff(w: World)
    requires Core(w) && Quiet(w) && !Terminal(w.c) && !w.c.paused
    ensures Backoff(w, Retry(w)) && !Terminal(Retry(w).c)
  {
    assert w.b.timers == map[];
  }

  /** When the current socket closes: 4004 or an ended stream ends the client, 4001 denies it, and
      anything else makes it back off. */
  lemma CloseOutcome(w: World, s: nat, code: int, now: int)
    requires Reachable(w) && !w.c.disposed && w.c.socket == Some(s) && Enabled(w, Closes(s, code))
    ensures var v := Step(w, Closes(s, code), now);
            && v.b.sockets == w.b.sockets[s := w.b.sockets[s].(ready := Closed)]
            && v.c.socket == None && v.c.channel == None && !v.c.connecting && v.log == w.log
            && v.c.cursor == w.c.cursor.(ended := w.c.cursor.ended || code == 4004)
            && (v.c.denied <==> !v.c.cursor.ended && code == 4001)
            && (if v.c.cursor.ended || v.c.denied then Quiet(v) else Backoff(w, v))
  {
    hide Retry;
    ReachableInv(w);
    CurrentCloseQuiet(w, s);
    var u := Release(Detach(w, s));
    if !w.c.cursor.ended && code != 4004 && code != 4001 {
      RetryBacksOff(u);
      RetryIsLocal(u);
    }
  }

  lemma RetryIsLocal(w: World)
    ensures var v := Retry(w);
            && v.b.sockets == w.b.sockets && v.c.socket == w.c.socket && v.c.channel == w.c.channel && v.log == w.log
            && v.c.cursor == w.c.cursor && v.c.denied == w.c.denied && v.c.connecting == w.c.connecting
            && v.c.connected == w.c.connected && v.c.disposed == w.c.disposed && v.b.onLine == w.b.onLine
  {
  }

  /** When a ticket is refused: a device that is not authorised is denied for good, a gateway in
      the way pauses the client, and anything else makes it back off. */
  lemma FailureOutcome(w: World, why: Failure, now: int)
    requires Reachable(w) && !Terminal(w.c) && Enabled(w, Failed(why))
    ensures var v := Step(w, Failed(why), now);
            && v.b.sockets == w.b.sockets && v.c.socket == None && !v.c.connecting && v.log == w.log
            && (v.c.denied <==> why == Denied)
            && match why
               case Denied => Quiet(v)
               case Gateway => Quiet(v) && v.c.paused && v.c.canRetry
               case Other => Backoff(w, v)
  {
    hide Retry;
    ReachableInv(w);
    var u := w.(c := w.c.(connecting := false), b := w.b.(tickets := w.b.tickets - 1));
    if why == Other {
      RetryBacksOff(u);
      RetryIsLocal(u);
    }
  }

  // ----- Connecting -----

  /** A ticket has been asked for, and nothing else is pending. */
  ghost predicate Asking(v: World) {
    v.b.tickets == 1 && v.b.timers.Keys == {} && v.c.socket == None && v.c.connecting && !v.c.canRetry
  }

  /** A retry timer that fires online asks for a ticket. */
  lemma TimerAsks(w: World, t: nat, now: int)
    requires Reachable(w) && t in w.b.timers && w.b.onLine
    ensures Asking(Step(w, Fires(t), now)) && Step(w, Fires(t), now).c.attempts == w.c.attempts
  {
    ReachableInv(w);
    assert (w.b.timers - {t}).Keys == {};
  }

  /** The user's retry restores the budget, lifts a pause and, online, asks for a ticket. */
  lemma RetryNowAsks(w: World, now: int)
    requires Reachable(w) && !Terminal(w.c) && !w.c.connecting && !IsOpen(w.b, w.c.channel)
    ensures var v := Step(w, Retries, now);
            && v.c.attempts == 0 && !v.c.paused && v.b.timers.Keys == {}
            && (w.b.onLine ==> Asking(v))
  {
    ReachableInv(w);
    ClearTimerCore(w);
  }

  /** Coming online asks at once, instead of waiting for the timer. */
  lemma OnlineAsks(w: World, now: int)
    requires Reachable(w) && !Terminal(w.c) && !w.c.paused && !w.c.connecting && !IsOpen(w.b, w.c.channel)
    requires w.b.onLine && w.b.signals != [] && w.b.signals[0]
    ensures Asking(Step(w, Signal, now))
  {
    ReachableInv(w);
    ClearTimerCore(w);
  }

  /** Going offline stops the timer and closes the current socket. */
  lemma OfflineCloses(w: World, now: int)
    requires Reachable(w) && !Terminal(w.c) && !w.c.paused && w.b.signals != [] && !w.b.signals[0]
    ensures var v := Step(w, Signal, now);
            && v.c == w.c && v.b.timers.Keys == {} && |v.b.sockets| == |w.b.sockets|
            && forall s :: 0 <= s < |v.b.sockets| ==> v.b.sockets[s].ready == Closing || v.b.sockets[s].ready == Closed
  {
    ReachableInv(w);
    ClearTimerCore(w);
  }

  /** The ticket makes the next socket, which asks for what comes after the client's number if the
      client has ever been connected. */
  lemma GrantMakesSocket(w: World, now: int)
    requires Reachable(w) && !Terminal(w.c) && Enabled(w, Granted)
    ensures var v, s := Step(w, Granted, now), |w.b.sockets|;
            && |v.b.sockets| == s + 1 && v.c.socket == v.c.channel == Some(s) && v.b.tickets == 0
            && v.b.sockets[s] == Socket(Connecting, false, w.c.connected, if w.c.connected then Some(w.c.cursor.sequence) else None)
            && v.c.lastFrame == now && v.c.cursor == w.c.cursor
  {
    ReachableInv(w);
  }

  lemma OpenConnects(w: World, s: nat, now: int)
    requires Reachable(w) && !w.c.disposed && w.c.socket == Some(s) && Enabled(w, Opens(s))
    ensures var v := Step(w, Opens(s), now);
            IsOpen(v.b, v.c.channel) && v.c.socket == Some(s) && v.c.connected && !v.c.connecting && v.c.cursor == w.c.cursor
  {
    ReachableInv(w);
  }

  // ----- Frames -----

  /** The frame reaches the callback: all but heartbeats, what is not a frame, and old numbers. */
  predicate Delivered(sequence: int, f: Frame) {
    f.Hello? || f.Resync? || (f.Data? && (f.seqNo.None? || f.seqNo.value > sequence))
  }

  /** A frame on the current socket renews the budget and is handed on; one that does not parse
      closes the socket and is not. */
  lemma FrameOutcome(w: World, s: nat, f: Frame, now: int)
    requires Reachable(w) && !w.c.disposed && w.c.socket == Some(s) && Enabled(w, Receives(s, f))
    ensures var v := Step(w, Receives(s, f), now);
            && v.log == (if Delivered(w.c.cursor.sequence, f) then w.log + [f] else w.log)
            && v.c.attempts == (if f.Malformed? then w.c.attempts else 0)
            && (v.c.cursor.ended <==> w.c.cursor.ended || (f.Data? && f.ends))
            && |v.b.sockets| == |w.b.sockets|
            && (f.Malformed? ==> v.b.sockets[s].ready == Closing || v.b.sockets[s].ready == Closed)
            && (!f.Malformed? ==> v.b == w.b)
  {
    ReachableInv(w);
  }

  /** Unmounting closes every socket and stops the timer. */
  lemma UnmountCloses(w: World, now: int)
    requires Reachable(w) && !w.c.disposed
    ensures var v := Step(w, Unmounts, now);
            && v.c.disposed && v.c.channel == None && v.b.timers.Keys == {} && |v.b.sockets| == |w.b.sockets|
            && forall s :: 0 <= s < |v.b.sockets| ==> v.b.sockets[s].ready == Closing || v.b.sockets[s].ready == Closed
  {
    ReachableInv(w);
    StepInv(w, Unmounts, now);
  }

  // ----- From silence to a new connection -----

  lemma {:induction false} RunSnoc(w: World, run: seq<Moment>, m: Moment)
    requires Allowed(w, run) && Enabled(Run(w, run), m.e)
    ensures Allowed(w, run + [m]) && Run(w, run + [m]) == Step(Run(w, run), m.e, m.now)
    decreases |run|
  {
    var all := run + [m];
    if run == [] {
      assert all[1..] == [];
    } else {
      assert all[0] == run[0] && all[1..] == run[1..] + [m];
      RunSnoc(Step(w, run[0].e, run[0].now), run[1..], m);
    }
  }

  lemma ReachableStep(w: World, e: Event, now: int)
    requires Reachable(w) && Enabled(w, e)
    ensures Reachable(Step(w, e, now))
  {
    var events, onLine, start, run :| Reaches(events, onLine, start, run, w);
    RunSnoc(Start(events, onLine, start), run, Moment(e, now));
    assert Reaches(events, onLine, start, run + [Moment(e, now)], Step(w, e, now));
  }

  /** The silent socket is closed and its end makes the client wait. */
  lemma SilentSocketIsDropped(w: World, s: nat, now: int) returns (v: World)
    requires Reachable(w) && !Terminal(w.c) && w.b.onLine && w.c.attempts < 5
    requires w.c.socket == Some(s) && s < |w.b.sockets| && Silent(w.b.sockets[s], now - w.c.lastFrame)
    ensures Enabled(Step(w, Tick, now), Closes(s, 1006)) && v == Step(Step(w, Tick, now), Closes(s, 1006), now)
    ensures Reachable(v) && !Terminal(v.c) && Backoff(w, v) && v.b.onLine && |v.b.sockets| == |w.b.sockets|
    ensures v.c.cursor == w.c.cursor && v.c.connected == w.c.connected
  {
    TickEndsSilence(w, now);
    ReachableStep(w, Tick, now);
    var u := Step(w, Tick, now);
    CloseOutcome(u, s, 1006, now);
    ReachableStep(u, Closes(s, 1006), now);
    v := Step(u, Closes(s, 1006), now);
    KeepsConnected(u, s);
  }

  lemma KeepsConnected(w: World, s: nat)
    requires s < |w.b.sockets|
    ensures var v := OnClose(w, s, 1006);
            v.c.connected == w.c.connected && v.c.disposed == w.c.disposed && v.b.onLine == w.b.onLine
  {
    hide Retry;
    RetryIsLocal(Release(Detach(w, s)));
  }

  /** And the timer that then runs out leads to a new socket, resuming where the client was. */
  lemma TimerReconnects(w: World, t: nat, later: int) returns (v: World)
    requires Reachable(w) && !Terminal(w.c) && w.b.onLine && t in w.b.timers
    ensures Enabled(w, Fires(t)) && Enabled(Step(w, Fires(t), later), Granted)
    ensures var u := Step(Step(w, Fires(t), later), Granted, later);
            Enabled(u, Opens(|w.b.sockets|)) && v == Step(u, Opens(|w.b.sockets|), later)
    ensures IsOpen(v.b, v.c.channel) && v.c.socket == Some(|w.b.sockets|)
    ensures v.b.sockets[|w.b.sockets|].after == if w.c.connected then Some(w.c.cursor.sequence) else None
  {
    var a := Step(w, Fires(t), later);
    TimerAsks(w, t, later);
    ReachableStep(w, Fires(t), later);
    GrantMakesSocket(a, later);
    ReachableStep(a, Granted, later);
    var b := Step(a, Granted, later);
    OpenConnects(b, |w.b.sockets|, later);
    v := Step(b, Opens(|w.b.sockets|), later);
  }

  // ----- The offer to retry -----

  ghost predicate OfferStands(w: World) {
    !w.c.disposed && w.c.canRetry ==> Quiet(w)
  }

  lemma OfferStep(w: World, e: Event, now: int)
    requires Inv(w) && OfferStands(w) && Enabled(w, e)
    ensures OfferStands(Step(w, e, now))
  {
    StepInv(w, e, now);
  }

  lemma {:induction false} OfferRun(w: World, run: seq<Moment>)
    requires Inv(w) && OfferStands(w) && Allowed(w, run)
    ensures OfferStands(Run(w, run))
    decreases |run|
  {
    if run != [] {
      OfferStep(w, run[0].e, run[0].now);
      StepInv(w, run[0].e, run[0].now);
      OfferRun(Step(w, run[0].e, run[0].now), run[1..]);
    }
  }

  /** The user is offered to retry only while nothing is pending. */
  lemma OfferOnlyWhenQuiet(w: World)
    requires Reachable(w) && !w.c.disposed && w.c.canRetry
    ensures w.b.timers.Keys == {} && w.b.tickets == 0 && w.c.socket == None
  {
    var events, onLine, start, run :| Reaches(events, onLine, start, run, w);
    StartInv(events, onLine, start);
    OfferRun(Start(events, onLine, start), run);
  }
}
