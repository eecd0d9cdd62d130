/** Within one life of the server no backlog can be torn, so delivery is exactly once whatever
    the sockets do; across a restart a torn backlog does skip events. */
module EventStreamLife {
  import opened EventStream
  import opened Live
  import opened Options

  /** No socket asked for events past those its connection subscribed after. */
  ghost predicate Behind(y: System) {
    && |y.logs| == 1
    && forall s :: 0 <= s < |y.w.b.sockets| && y.w.b.sockets[s].after.Some? ==>
         y.w.b.sockets[s].after.value <= if s in y.conns then y.conns[s].cursor else |y.logs[0]|
  }

  lemma SequenceWithinLog(y: System)
    requires Good(y) && Behind(y)
    ensures y.w.c.cursor.sequence <= |y.logs[0]|
  {
  }

  lemma ClientBehind(y: System, v: World)
    requires Good(y) && Behind(y) && SameStream(y.w, v) && SameOrFresh(y.w, v)
    ensures Behind(y.(w := v))
  {
    SequenceWithinLog(y);
    forall s | s in y.conns ensures s < |y.w.b.sockets| { assert ConnSane(y, s); }
    forall s | 0 <= s < |v.b.sockets| && v.b.sockets[s].after.Some?
      ensures v.b.sockets[s].after.value <= if s in y.conns then y.conns[s].cursor else |y.logs[0]|
    {
    }
  }

  lemma DeliverBehind(y: System, s: nat, now: int)
    requires Good(y) && Behind(y) && Can(y, Deliver(s))
    ensures Behind(Next(y, Deliver(s), now))
  {
    DeliverShape(y, s, now);
  }

  lemma NextBehind(y: System, a: Act, now: int)
    requires Good(y) && Behind(y) && Can(y, a) && !a.Reboot?
    ensures Behind(Next(y, a, now))
  {
    match a
    case ClientSide(e) =>
      ClientStepKeepsStream(y.w, e, now);
      ClientBehind(y, Step(y.w, e, now));
    case Noise(s, f) => ClientBehind(y, OnMessage(y.w, s, f, now));
    case Publish(_) =>
    case Subscribe(s) =>
      if s < |y.w.b.sockets| && y.w.b.sockets[s].after.Some? {
        assert y.w.b.sockets[s].after.value <= |y.logs[0]|;
      }
    case ReadBacklog(s) =>
    case Deliver(s) => DeliverBehind(y, s, now);
  }

  lemma BehindIsWhole(y: System, a: Act)
    requires Good(y) && Behind(y) && Can(y, a)
    ensures !Skips(y, a)
  {
    if a.Deliver? { assert ConnSane(y, a.s); }
  }

  /** Any run of the system without a restart of the server. */
  ghost predicate OneLife(y: System, run: seq<Turn>)
    decreases |run|
  {
    run == [] || (Can(y, run[0].a) && !run[0].a.Reboot? && OneLife(Next(y, run[0].a, run[0].now), run[1..]))
  }

  lemma {:induction false} OneLifeRuns(y: System, run: seq<Turn>)
    requires Good(y) && Behind(y) && OneLife(y, run)
    ensures Possible(y, run) && NeverSkips(y, run)
    decreases |run|
  {
    if run != [] {
      var a, now := run[0].a, run[0].now;
      BehindIsWhole(y, a);
      NextGood(y, a, now);
      NextBehind(y, a, now);
      OneLifeRuns(Next(y, a, now), run[1..]);
    }
  }

  /** While one server lives, over every run of publications, drops, retirements and
      reconnects, the callback has had the server's events since its last reset, in order, none
      repeated and none skipped. */
  lemma ExactlyOnceInOneLife(instance: string, onLine: bool, now: int, run: seq<Turn>)
    requires OneLife(Boot(instance, onLine, now), run)
    ensures Possible(Boot(instance, onLine, now), run)
    ensures var y := Ran(Boot(instance, onLine, now), run);
            y.view.Some? ==>
              && y.view.value < |y.logs| && 0 <= y.base <= y.base + |y.seen| <= |y.logs[y.view.value]|
              && y.seen == y.logs[y.view.value][y.base..y.base + |y.seen|]
              && y.w.c.cursor.sequence == y.base + |y.seen|
  {
    BootGood(instance, onLine, now);
    OneLifeRuns(Boot(instance, onLine, now), run);
    ExactlyOnceAlways(instance, onLine, now, run);
  }

  // ----- And across a restart -----

  lemma TornBacklogHead(c: Conn, log: seq<nat>, instance: string)
    requires Accepted(c, log) && Torn(c)
    ensures |Backlog(c, log)| == c.resumed.value - c.after.value && 2 <= Available(c, log)
    ensures FrameAt(c, log, instance, 0) == Hello(Some(instance), Some(c.cursor))
    ensures FrameAt(c, log, instance, 1) == EventFrame(log, c.after.value + 1)
  {
    BacklogAt(c, log, 0);
  }

  lemma TornGreeting(y: System, s: nat, now: int)
    requires Can(y, Deliver(s)) && y.conns[s].sent == 0 && Torn(y.conns[s])
    requires !y.w.c.disposed && y.w.c.socket == Some(s) && y.w.c.events && y.w.b.sockets[s].resuming
    requires y.view != Some(y.conns[s].epoch)
    requires y.w.c.cursor.instance.Some? && y.w.c.cursor.instance != Some(y.instances[y.conns[s].epoch])
    ensures var c, z := y.conns[s], Next(y, Deliver(s), now);
            && OnlyDelivered(y, s, z) && z.view == Some(c.epoch) && z.base == c.cursor && z.seen == []
            && z.w.c == y.w.c.(lastFrame := now, attempts := 0,
                               cursor := y.w.c.cursor.(sequence := c.cursor, instance := Some(y.instances[c.epoch])))
  {
    TornBacklogHead(y.conns[s], LogOf(y, y.conns[s]), y.instances[y.conns[s].epoch]);
    DeliverShape(y, s, now);
  }

  /** A torn connection to a new life of the server does skip: its greeting and the first frame
      of its backlog leave the callback with one event where the client counts several. */
  lemma TornDeliverySkips(y: System, s: nat, now: int)
    requires Can(y, Deliver(s)) && y.conns[s].sent == 0 && Torn(y.conns[s])
    requires !y.w.c.disposed && y.w.c.socket == Some(s) && y.w.c.events && y.w.b.sockets[s].resuming
    requires y.view != Some(y.conns[s].epoch)
    requires y.w.c.cursor.instance.Some? && y.w.c.cursor.instance != Some(y.instances[y.conns[s].epoch])
    ensures var c, first := y.conns[s], Next(y, Deliver(s), now);
            && Can(first, Deliver(s))
            && var z := Next(first, Deliver(s), now);
               z.base == c.cursor && |z.seen| == 1 && z.w.c.cursor.sequence == c.after.value + 1 && !ExactlyOnce(z)
  {
    var c, z := y.conns[s], Next(y, Deliver(s), now);
    TornBacklogHead(c, LogOf(y, c), y.instances[c.epoch]);
    TornGreeting(y, s, now);
    assert z.w.b == y.w.b && Can(z, Deliver(s));
    TornBacklogHead(z.conns[s], LogOf(z, c), z.instances[c.epoch]);
    assert FrameDue(z, s) == EventFrame(LogOf(y, c), c.after.value + 1);
  }
}
