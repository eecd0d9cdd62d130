/** Safety over every run of the client, whatever the order of its callbacks. */
module LiveSafety {
  import opened Live
  import opened Options

  // ----- Invariant -----

  ghost predicate Current(w: World, s: nat) {
    w.c.socket == Some(s) && s < |w.b.sockets| && w.b.sockets[s].ready != Closed
  }

  ghost predicate CurrentSocketIsReal(w: World) {
    !w.c.disposed && w.c.socket.Some? ==> Current(w, w.c.socket.value)
  }

  /** Only the current socket of a mounted effect can be connecting or open. */
  ghost predicate OthersRetired(w: World) {
    forall s :: 0 <= s < |w.b.sockets| && (w.c.disposed || w.c.socket != Some(s)) ==>
      w.b.sockets[s].ready == Closing || w.b.sockets[s].ready == Closed
  }

  ghost predicate ChannelFollows(w: World) {
    w.c.channel == if w.c.disposed then None else w.c.socket
  }

  ghost predicate SocketsSane(w: World) {
    forall s :: 0 <= s < |w.b.sockets| ==>
      && (w.b.sockets[s].ready == Open ==> w.b.sockets[s].wasOpen)
      && (w.b.sockets[s].ready == Connecting ==> !w.b.sockets[s].wasOpen)
  }

  /** At most one of a retry timer, a ticket request and a current socket. */
  ghost predicate OneActivity(w: World) {
    && w.b.tickets <= 1
    && (forall t :: t in w.b.timers ==> w.c.timer == Some(t))
    && (w.b.timers.Keys != {} ==> w.b.tickets == 0 && w.c.socket == None)
    && (w.b.tickets == 1 ==> w.c.socket == None)
  }

  /** The gate is shut exactly while a ticket is awaited or the current socket has yet to open. */
  ghost predicate GateMatches(w: World) {
    w.c.disposed ||
    (w.c.connecting <==>
       (w.b.tickets == 1 || (w.c.socket.Some? && Current(w, w.c.socket.value) && !w.b.sockets[w.c.socket.value].wasOpen)))
  }

  ghost predicate TimersFresh(w: World) {
    forall t :: t in w.b.timers ==> t < w.b.nextTimer
  }

  ghost predicate Quiet(w: World) {
    w.b.timers.Keys == {} && w.b.tickets == 0 && w.c.socket == None
  }

  ghost predicate StoppedIsQuiet(w: World) {
    && (w.c.disposed ==> w.b.timers.Keys == {})
    && (!w.c.disposed && w.c.denied ==> Quiet(w))
    && (!w.c.disposed && w.c.cursor.ended ==> w.b.timers.Keys == {} && w.b.tickets == 0)
    && (!w.c.disposed && w.c.paused ==> Quiet(w) && w.c.canRetry)
  }

  /** Queued connectivity events alternate, and the last one tells the present state. */
  ghost predicate SignalsTell(w: World) {
    && (w.b.signals != [] ==> w.b.signals[|w.b.signals| - 1] == w.b.onLine)
    && (forall i :: 0 < i < |w.b.signals| ==> w.b.signals[i] != w.b.signals[i - 1])
  }

  /** Something is pending, or an online event still queued, whenever the client is meant to be connected. */
  ghost predicate WillReconnect(w: World) {
    !Terminal(w.c) && !w.c.paused && w.b.onLine && Quiet(w) ==> w.b.signals != []
  }

  ghost predicate Core(w: World) {
    && CurrentSocketIsReal(w) && OthersRetired(w) && ChannelFollows(w) && SocketsSane(w)
    && OneActivity(w) && GateMatches(w) && TimersFresh(w) && StoppedIsQuiet(w)
    && SignalsTell(w)
    && w.c.attempts <= |RETRY_DELAYS|
  }

  ghost predicate Inv(w: World) {
    Core(w) && WillReconnect(w)
  }

  lemma StartInv(events: bool, onLine: bool, now: int)
    ensures Inv(Start(events, onLine, now))
  {
  }

  // ----- Each handler keeps it -----

  lemma ClearTimerCore(w: World)
    requires Core(w)
    ensures Core(w.(b := ClearTimer(w.b, w.c.timer))) && ClearTimer(w.b, w.c.timer).timers.Keys == {}
  {
    var v := w.(b := ClearTimer(w.b, w.c.timer));
    assert v.b.timers.Keys <= w.b.timers.Keys;
  }

  lemma ConnectInv(w: World)
    requires Core(w) && !w.c.paused && w.b.timers.Keys == {}
    ensures Inv(Connect(w))
  {
  }

  lemma RetryInv(w: World)
    requires Core(w) && Quiet(w) && !w.c.paused
    ensures Inv(Retry(w))
  {
  }

  lemma CloseSocketInv(w: World, s: nat)
    requires Inv(w)
    ensures Inv(w.(b := CloseSocket(w.b, Some(s))))
  {
  }

  lemma TicketGrantedInv(w: World, now: int)
    requires Inv(w) && w.b.tickets > 0
    ensures Inv(TicketGranted(w, now))
  {
  }

  lemma TicketFailedInv(w: World, why: Failure)
    requires Inv(w) && w.b.tickets > 0
    ensures Inv(TicketFailed(w, why))
  {
    var v := w.(c := w.c.(connecting := false), b := w.b.(tickets := w.b.tickets - 1));
    if !w.c.disposed && why == Other {
      RetryInv(v);
    }
  }

  lemma OnOpenInv(w: World, s: nat, now: int)
    requires Inv(w) && s < |w.b.sockets| && w.b.sockets[s].ready == Connecting
    ensures Inv(OnOpen(w, s, now))
  {
  }

  lemma FrameUpdateInv(w: World, attempts: nat, now: int, cursor: Cursor, log: seq<Frame>)
    requires Inv(w) && !w.c.disposed && w.c.socket.Some? && attempts <= w.c.attempts
    requires w.c.cursor.ended ==> cursor.ended
    ensures Inv(World(w.c.(lastFrame := now, attempts := attempts, cursor := cursor), w.b, log))
  {
  }

  lemma AbsorbKeepsEnd(c: Cursor, events: bool, resuming: bool, frame: Frame)
    requires frame != Malformed && c.ended
    ensures Absorb(c, events, resuming, frame).cursor.ended
  {
  }

  lemma OnMessageInv(w: World, s: nat, frame: Frame, now: int)
    requires Inv(w) && Enabled(w, Receives(s, frame))
    ensures Inv(OnMessage(w, s, frame, now))
  {
    if w.c.disposed || w.c.socket != Some(s) {
    } else if frame == Malformed {
      FrameUpdateInv(w, w.c.attempts, now, w.c.cursor, w.log);
      CloseSocketInv(w.(c := w.c.(lastFrame := now)), s);
    } else {
      var r := Absorb(w.c.cursor, w.c.events, w.b.sockets[s].resuming, frame);
      if w.c.cursor.ended { AbsorbKeepsEnd(w.c.cursor, w.c.events, w.b.sockets[s].resuming, frame); }
      FrameUpdateInv(w, 0, now, r.cursor, if r.delivered then w.log + [frame] else w.log);
    }
  }

  lemma RetiredCloseInv(w: World, s: nat)
    requires Inv(w) && s < |w.b.sockets| && (w.c.disposed || w.c.socket != Some(s))
    ensures Inv(Detach(w, s)) && Detach(w, s).c == w.c
  {
  }

  lemma CurrentCloseQuiet(w: World, s: nat)
    requires Inv(w) && !w.c.disposed && w.c.socket == Some(s)
    ensures s < |w.b.sockets| && !w.c.paused && !w.c.denied
    ensures Core(Release(Detach(w, s))) && Quiet(Release(Detach(w, s)))
  {
  }

  lemma OnCloseInv(w: World, s: nat, code: int)
    requires Inv(w) && Enabled(w, Closes(s, code))
    ensures Inv(OnClose(w, s, code))
  {
    if w.c.disposed || w.c.socket != Some(s) {
      RetiredCloseInv(w, s);
    } else {
      CurrentCloseQuiet(w, s);
      var u := Release(Detach(w, s));
      if !u.c.cursor.ended && code != 4004 && code != 4001 { RetryInv(u); }
    }
  }

  lemma OnlineInv(w: World)
    requires Core(w) && !w.c.disposed
    ensures Inv(Online(w))
  {
    if !w.c.paused {
      ClearTimerCore(w);
      ConnectInv(w.(b := ClearTimer(w.b, w.c.timer)));
    }
  }

  lemma OfflineInv(w: World)
    requires Core(w) && !w.c.disposed && (w.b.onLine ==> w.b.signals != [])
    ensures Inv(Offline(w))
  {
    if !(Terminal(w.c) || w.c.paused) {
      ClearTimerCore(w);
      var v := w.(b := ClearTimer(w.b, w.c.timer));
      if w.c.socket.Some? { CloseSocketInv(v, w.c.socket.value); }
    }
  }

  lemma SignalInv(w: World)
    requires Inv(w) && w.b.signals != []
    ensures Inv(Step(w, Signal, 0))
  {
    var v := w.(b := w.b.(signals := w.b.signals[1..]));
    assert v.b.signals != [] ==> v.b.signals[|v.b.signals| - 1] == w.b.signals[|w.b.signals| - 1];
    assert Core(v);
    if !w.c.disposed {
      if w.b.signals[0] { OnlineInv(v); } else { OfflineInv(v); }
    }
  }

  lemma RestartInv(w: World)
    requires Inv(w) && !w.c.disposed
    ensures Inv(Restart(w))
  {
    if !(Terminal(w.c) || IsOpen(w.b, w.c.channel)) {
      ClearTimerCore(w);
      ConnectInv(w.(b := ClearTimer(w.b, w.c.timer), c := w.c.(attempts := 0, paused := false)));
    }
  }

  lemma DisposeInv(w: World)
    requires Inv(w) && !w.c.disposed
    ensures Inv(Dispose(w))
  {
    ClearTimerCore(w);
    var v := w.(b := ClearTimer(w.b, w.c.timer));
    assert OthersRetired(v);
  }

  lemma FiresInv(w: World, t: nat)
    requires Inv(w) && t in w.b.timers
    ensures Inv(Step(w, Fires(t), 0))
  {
    var v := w.(b := w.b.(timers := w.b.timers - {t}));
    assert v.b.timers.Keys == {};
    ConnectInv(v);
  }

  lemma StepInv(w: World, e: Event, now: int)
    requires Inv(w) && Enabled(w, e)
    ensures Inv(Step(w, e, now))
  {
    match e
    case Granted => TicketGrantedInv(w, now);
    case Failed(why) => TicketFailedInv(w, why);
    case Fires(t) => FiresInv(w, t);
    case Opens(s) => OnOpenInv(w, s, now);
    case Receives(s, frame) => OnMessageInv(w, s, frame, now);
    case Fails(s) => CloseSocketInv(w, s);
    case Hangs(s) => CloseSocketInv(w, s);
    case Closes(s, code) => OnCloseInv(w, s, code);
    case Network =>
    case Signal => SignalInv(w);
    case Tick => if w.c.socket.Some? { CloseSocketInv(w, w.c.socket.value); }
    case Retries => RestartInv(w);
    case Unmounts => DisposeInv(w);
  }

  // ----- Whole runs -----

  datatype Moment = Moment(e: Event, now: int)

  ghost predicate Allowed(w: World, run: seq<Moment>)
    decreases |run|
  {
    run == [] || (Enabled(w, run[0].e) && Allowed(Step(w, run[0].e, run[0].now), run[1..]))
  }

  ghost function Run(w: World, run: seq<Moment>): World
    requires Allowed(w, run)
    decreases |run|
  {
    if run == [] then w else Run(Step(w, run[0].e, run[0].now), run[1..])
  }

  lemma {:induction false} RunInv(w: World, run: seq<Moment>)
    requires Inv(w) && Allowed(w, run)
    ensures Inv(Run(w, run))
    decreases |run|
  {
    if run != [] {
      StepInv(w, run[0].e, run[0].now);
      RunInv(Step(w, run[0].e, run[0].now), run[1..]);
    }
  }

  function Activities(w: World): nat {
    |w.b.timers| + w.b.tickets + if w.c.socket.Some? then 1 else 0
  }

  /** In every run at most one of {retry timer, ticket request, current socket} exists,
      and while the effect is meant to be connected exactly one does. */
  lemma OneActivityAlways(events: bool, onLine: bool, now: int, run: seq<Moment>)
    requires Allowed(Start(events, onLine, now), run)
    ensures var w := Run(Start(events, onLine, now), run);
            && (!w.c.disposed ==> Activities(w) <= 1)
            && (!Terminal(w.c) && !w.c.paused && w.b.onLine && w.b.signals == [] ==> Activities(w) == 1)
            && (w.c.paused && !w.c.disposed ==> Activities(w) == 0 && w.c.canRetry)
  {
    StartInv(events, onLine, now);
    RunInv(Start(events, onLine, now), run);
    TimersAtMostOne(Run(Start(events, onLine, now), run));
  }

  lemma TimersAtMostOne(w: World)
    requires OneActivity(w)
    ensures |w.b.timers| <= 1 && (|w.b.timers| == 0 <==> w.b.timers.Keys == {})
  {
    if w.b.timers.Keys != {} {
      var t :| t in w.b.timers;
      assert w.b.timers.Keys == {t};
    }
    assert |w.b.timers| == |w.b.timers.Keys|;
  }

  /** In every run at most one socket is connecting or open, and none once unmounted. */
  lemma OneLiveSocket(events: bool, onLine: bool, now: int, run: seq<Moment>, s: nat, t: nat)
    requires Allowed(Start(events, onLine, now), run)
    requires var w := Run(Start(events, onLine, now), run);
             && s < |w.b.sockets| && (w.b.sockets[s].ready == Connecting || w.b.sockets[s].ready == Open)
             && t < |w.b.sockets| && (w.b.sockets[t].ready == Connecting || w.b.sockets[t].ready == Open)
    ensures s == t && !Run(Start(events, onLine, now), run).c.disposed
  {
    StartInv(events, onLine, now);
    RunInv(Start(events, onLine, now), run);
  }

  /** Once ended, denied or unmounted, the client never makes another socket. */
  lemma {:induction false} StoppedMakesNoSocket(w: World, run: seq<Moment>)
    requires Terminal(w.c) && Allowed(w, run)
    ensures Terminal(Run(w, run).c) && |Run(w, run).b.sockets| == |w.b.sockets|
    decreases |run|
  {
    if run != [] {
      StoppedStep(w, run[0].e, run[0].now);
      StoppedMakesNoSocket(Step(w, run[0].e, run[0].now), run[1..]);
    }
  }

  lemma StoppedStep(w: World, e: Event, now: int)
    requires Terminal(w.c) && Enabled(w, e)
    ensures Terminal(Step(w, e, now).c) && |Step(w, e, now).b.sockets| == |w.b.sockets|
  {
    match e
    case Fires(t) => assert Step(w, e, now).c == w.c;
    case Receives(s, frame) => StoppedReceive(w, s, frame, now);
    case Closes(s, code) => StoppedClose(w, s, code);
    case Retries => assert Step(w, e, now) == w;
    case Signal => assert Step(w, e, now).c == w.c;
    case _ =>
  }

  lemma StoppedReceive(w: World, s: nat, frame: Frame, now: int)
    requires Terminal(w.c) && s < |w.b.sockets|
    ensures Terminal(OnMessage(w, s, frame, now).c) && |OnMessage(w, s, frame, now).b.sockets| == |w.b.sockets|
  {
    if frame != Malformed && w.c.cursor.ended {
      AbsorbKeepsEnd(w.c.cursor, w.c.events, w.b.sockets[s].resuming, frame);
    }
  }

  lemma StoppedClose(w: World, s: nat, code: int)
    requires Terminal(w.c) && s < |w.b.sockets|
    ensures Terminal(OnClose(w, s, code).c) && |OnClose(w, s, code).b.sockets| == |w.b.sockets|
  {
  }

  /** The socket an event is about, if any. */
  function About(e: Event): Option<nat> {
    match e
    case Opens(s) => Some(s)
    case Receives(s, _) => Some(s)
    case Fails(s) => Some(s)
    case Hangs(s) => Some(s)
    case Closes(s, _) => Some(s)
    case _ => None
  }

  /** Late callbacks of a retired socket change nothing but that socket. */
  lemma RetiredSocketInert(w: World, e: Event, now: int)
    requires Inv(w) && Enabled(w, e) && About(e).Some? && (w.c.disposed || w.c.socket != About(e))
    ensures var v := Step(w, e, now);
            && v.c == w.c && v.log == w.log
            && v.b == w.b.(sockets := v.b.sockets)
            && |v.b.sockets| == |w.b.sockets|
            && forall s :: 0 <= s < |w.b.sockets| && About(e) != Some(s) ==> v.b.sockets[s] == w.b.sockets[s]
  {
  }

  // ----- The retry budget -----

  /** A valid frame on the current socket, or the user asking. */
  predicate RenewsBudget(w: World, e: Event) {
    e.Retries? || (e.Receives? && !w.c.disposed && w.c.socket == Some(e.s) && e.frame != Malformed)
  }

  ghost predicate NoRenewal(w: World, run: seq<Moment>)
    requires Allowed(w, run)
    decreases |run|
  {
    run != [] ==> !RenewsBudget(w, run[0].e) && NoRenewal(Step(w, run[0].e, run[0].now), run[1..])
  }

  /** `v` has set as many timers since `w` as it has used attempts. */
  ghost predicate Spent(w: World, v: World) {
    v.b.nextTimer - w.b.nextTimer == v.c.attempts - w.c.attempts
  }

  lemma ConnectSpends(w: World)
    ensures Spent(w, Connect(w))
  {
  }

  lemma RetrySpends(w: World)
    ensures Spent(w, Retry(w))
  {
  }

  lemma CloseSpends(w: World, s: nat, code: int)
    requires s < |w.b.sockets|
    ensures Spent(w, OnClose(w, s, code))
  {
    var u := Release(Detach(w, s));
    assert u.b.nextTimer == w.b.nextTimer && u.c.attempts == w.c.attempts;
    RetrySpends(u);
  }

  lemma FailureSpends(w: World, why: Failure)
    requires w.b.tickets > 0
    ensures Spent(w, TicketFailed(w, why))
  {
    RetrySpends(w.(c := w.c.(connecting := false), b := w.b.(tickets := w.b.tickets - 1)));
  }

  lemma ReceiveSpends(w: World, s: nat, frame: Frame, now: int)
    requires s < |w.b.sockets| && !RenewsBudget(w, Receives(s, frame))
    ensures Spent(w, OnMessage(w, s, frame, now))
  {
  }

  lemma SignalSpends(w: World)
    requires w.b.signals != []
    ensures Spent(w, Step(w, Signal, 0))
  {
    var v := w.(b := w.b.(signals := w.b.signals[1..]));
    ConnectSpends(v.(b := ClearTimer(v.b, v.c.timer)));
  }

  lemma BudgetStep(w: World, e: Event, now: int)
    requires Enabled(w, e) && !RenewsBudget(w, e)
    ensures Spent(w, Step(w, e, now))
  {
    match e
    case Failed(why) => FailureSpends(w, why);
    case Fires(t) => ConnectSpends(w.(b := w.b.(timers := w.b.timers - {t})));
    case Receives(s, frame) => ReceiveSpends(w, s, frame, now);
    case Closes(s, code) => CloseSpends(w, s, code);
    case Signal => SignalSpends(w);
    case _ =>
  }

  /** Between renewals, however sockets open and drop, at most five timers are set in all. */
  lemma {:induction false} RetryBudget(w: World, run: seq<Moment>)
    requires Inv(w) && Allowed(w, run) && NoRenewal(w, run)
    ensures Run(w, run).b.nextTimer - w.b.nextTimer == Run(w, run).c.attempts - w.c.attempts
    ensures Run(w, run).b.nextTimer - w.b.nextTimer <= 5 - w.c.attempts
    decreases |run|
  {
    if run != [] {
      var v := Step(w, run[0].e, run[0].now);
      BudgetStep(w, run[0].e, run[0].now);
      StepInv(w, run[0].e, run[0].now);
      RetryBudget(v, run[1..]);
    }
    RunInv(w, run);
  }

  // ----- What the no-wedge property rests on -----

  /** An offline event that no queued signal explains strands the client exactly when
      it was waiting on a retry timer: nothing else would bring it back. */
  lemma StrayOfflineStrands(w: World)
    requires Inv(w) && !Terminal(w.c) && !w.c.paused && w.b.onLine && w.b.signals == []
    ensures Quiet(Offline(w)) <==> w.b.timers.Keys != {}
  {
    ClearTimerCore(w);
  }

  /** Such a client is met: online from the start, its first ticket refused, it waits on a timer;
      an offline event out of turn then leaves it online with nothing to wait for. */
  lemma StrayOfflineStrandsARun(events: bool, now: int)
    ensures exists run ::
              Allowed(Start(events, true, now), run)
              && var w := Run(Start(events, true, now), run);
                 && !Terminal(w.c) && !w.c.paused && w.b.onLine && w.b.signals == [] && w.b.timers.Keys != {}
                 && Quiet(Offline(w)) && !WillReconnect(Offline(w))
  {
    var start, refused := Start(events, true, now), Moment(Failed(Other), now);
    var w := Step(start, Failed(Other), now);
    StartInv(events, true, now);
    StepInv(start, Failed(Other), now);
    assert w.b.timers == map[0 := 1000];
    assert 0 in w.b.timers.Keys;
    assert [refused][1..] == [];
    assert Allowed(w, []) && Allowed(start, [refused]);
    assert Run(start, [refused]) == Run(w, []) == w;
    StrayOfflineStrands(w);
  }
}
