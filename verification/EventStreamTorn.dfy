/** A run that tears a backlog, from the first connection to the skipped event. */
module EventStreamTorn {
  import opened EventStream
  import opened EventStreamLife
  import opened Live
  import opened Options

  /** Some run from here skips: its end has a record that is not the server's events since the reset. */
  ghost predicate CanSkip(y: System) {
    exists run :: Possible(y, run) && !ExactlyOnce(Ran(y, run))
  }

  lemma SkipsNow(y: System)
    requires !ExactlyOnce(y)
    ensures CanSkip(y)
  {
    assert Possible(y, []) && Ran(y, []) == y;
  }

  lemma SkipsAfter(y: System, a: Act, now: int)
    requires Can(y, a) && CanSkip(Next(y, a, now))
    ensures CanSkip(y)
  {
    var z := Next(y, a, now);
    var rest :| Possible(z, rest) && !ExactlyOnce(Ran(z, rest));
    var run := [Turn(a, now)] + rest;
    assert run[0] == Turn(a, now) && run[1..] == rest;
    assert Possible(y, run) && Ran(y, run) == Ran(z, rest);
  }

  // ----- The states of one run -----

  function At(connecting: bool, connected: bool, socket: Option<nat>, timer: Option<nat>, attempts: nat,
              cursor: Cursor, b: Browser, log: seq<Frame>): World {
    World(Client(true, false, false, connecting, false, connected, false, socket, socket, timer, attempts, 0, cursor), b, log)
  }

  function Holding(tickets: nat, timers: map<nat, nat>, nextTimer: nat, sockets: seq<Socket>): Browser {
    Browser(true, [], tickets, timers, nextTimer, sockets)
  }

  const UP := Socket(Open, true, false, None)
  const DOWN := Socket(Closed, true, false, None)
  const ASKING := Socket(Connecting, false, true, Some(1))
  const RESUMED := Socket(Open, true, true, Some(1))

  function Greeted(a: string): seq<Frame> {
    [Hello(Some(a), Some(0)), Data(false, Some(1), None, 7)]
  }

  /** The first connection is open, and its backlog, which it did not ask for, has been read. */
  function FirstUp(a: string): System {
    System(At(false, true, Some(0), None, 0, Cursor(0, None, false), Holding(0, map[], 0, [UP]), []),
           [[]], [a], map[0 := Conn(0, 0, None, Some(0), 0)], None, 0, 0, [])
  }

  /** One event has been delivered, and the server has restarted. */
  function Restarted(a: string, b: string): System {
    System(At(false, true, Some(0), None, 0, Cursor(1, Some(a), false), Holding(0, map[], 0, [UP]), Greeted(a)),
           [[7], []], [a, b], map[0 := Conn(0, 0, None, Some(0), 2)], Some(0), 0, 0, [7])
  }

  /** The client asks to resume after its one event. */
  function Asking(a: string, b: string): System {
    Restarted(a, b).(w := At(true, true, Some(1), Some(0), 1, Cursor(1, Some(a), false),
                             Holding(0, map[], 1, [DOWN, ASKING]), Greeted(a)))
  }

  /** The new life took the connection before its first event and read the backlog after its second. */
  function TornUp(a: string, b: string): System {
    System(At(false, true, Some(1), Some(0), 1, Cursor(1, Some(a), false),
              Holding(0, map[], 1, [DOWN, RESUMED]), Greeted(a)),
           [[7], [8, 9]], [a, b], map[0 := Conn(0, 0, None, Some(0), 2), 1 := Conn(1, 0, Some(1), Some(2), 0)],
           Some(0), 0, 0, [7])
  }

  lemma TornUpSkips(a: string, b: string)
    requires a != b
    ensures Torn(TornUp(a, b).conns[1]) && CanSkip(TornUp(a, b))
  {
    var y := TornUp(a, b);
    TornDeliverySkips(y, 1, 0);
    var first := Next(y, Deliver(1), 0);
    SkipsNow(Next(first, Deliver(1), 0));
    SkipsAfter(first, Deliver(1), 0);
    SkipsAfter(y, Deliver(1), 0);
  }

  lemma TornSkips(a: string, b: string)
    requires a != b
    ensures CanSkip(TornUp(a, b).(w := Asking(a, b).w))
  {
    var y := TornUp(a, b).(w := Asking(a, b).w);
    assert Next(y, ClientSide(Opens(1)), 0).w == TornUp(a, b).w;
    TornUpSkips(a, b);
    SkipsAfter(y, ClientSide(Opens(1)), 0);
  }

  lemma AskingSkips(a: string, b: string)
    requires a != b
    ensures CanSkip(Asking(a, b))
  {
    var y := Asking(a, b);
    var subscribed := Next(y, Subscribe(1), 0);
    var one := Next(subscribed, Publish(8), 0);
    var two := Next(one, Publish(9), 0);
    assert [] + [8] == [8] && [8] + [9] == [8, 9];
    assert one.logs == [[7], [8]] && two.logs == [[7], [8, 9]];
    assert Next(two, ReadBacklog(1), 0).conns == TornUp(a, b).conns;
    TornSkips(a, b);
    SkipsAfter(two, ReadBacklog(1), 0);
    SkipsAfter(one, Publish(9), 0);
    SkipsAfter(subscribed, Publish(8), 0);
    SkipsAfter(y, Subscribe(1), 0);
  }

  lemma RestartedSkips(a: string, b: string)
    requires a != b
    ensures CanSkip(Restarted(a, b))
  {
    var y := Restarted(a, b);
    var closed := Next(y, ClientSide(Closes(0, 1006)), 0);
    assert closed.w == At(false, true, None, Some(0), 1, Cursor(1, Some(a), false),
                          Holding(0, map[0 := 1000], 1, [DOWN]), Greeted(a));
    var fired := Next(closed, ClientSide(Fires(0)), 0);
    assert fired.w == At(true, true, None, Some(0), 1, Cursor(1, Some(a), false),
                         Holding(1, map[], 1, [DOWN]), Greeted(a));
    assert Next(fired, ClientSide(Granted), 0).w == Asking(a, b).w;
    AskingSkips(a, b);
    SkipsAfter(fired, ClientSide(Granted), 0);
    SkipsAfter(closed, ClientSide(Fires(0)), 0);
    SkipsAfter(y, ClientSide(Closes(0, 1006)), 0);
  }

  /** The greeting has been delivered and one event published. */
  function Published(a: string): System {
    System(At(false, true, Some(0), None, 0, Cursor(0, Some(a), false), Holding(0, map[], 0, [UP]),
              [Hello(Some(a), Some(0))]),
           [[7]], [a], map[0 := Conn(0, 0, None, Some(0), 1)], Some(0), 0, 0, [])
  }

  lemma PublishedSkips(a: string, b: string)
    requires a != b
    ensures CanSkip(Published(a))
  {
    var y := Published(a);
    assert FrameAt(y.conns[0], [7], a, 1) == Data(false, Some(1), None, 7);
    var delivered := Next(y, Deliver(0), 0);
    assert delivered.w == Restarted(a, b).w;
    assert delivered.conns == Restarted(a, b).conns;
    assert Next(delivered, Reboot(b), 0) == Restarted(a, b);
    RestartedSkips(a, b);
    SkipsAfter(delivered, Reboot(b), 0);
    SkipsAfter(y, Deliver(0), 0);
  }

  lemma FirstUpSkips(a: string, b: string)
    requires a != b
    ensures CanSkip(FirstUp(a))
  {
    var y := FirstUp(a);
    assert FrameAt(y.conns[0], [], a, 0) == Hello(Some(a), Some(0));
    var greeted := Next(y, Deliver(0), 0);
    assert greeted == Published(a).(logs := [[]]);
    assert [] + [7] == [7];
    assert Next(greeted, Publish(7), 0) == Published(a);
    PublishedSkips(a, b);
    SkipsAfter(greeted, Publish(7), 0);
    SkipsAfter(y, Deliver(0), 0);
  }

  /** From the very first connection there is a run that skips: one event is delivered, the
      server restarts, the client resumes, and two events are published while the new life
      takes the connection, the first of which the client never gets. */
  lemma SomeRunSkips(a: string, b: string)
    requires a != b
    ensures CanSkip(Boot(a, true, 0))
  {
    var y := Boot(a, true, 0);
    assert y.w == At(true, false, None, None, 0, Cursor(0, None, false), Holding(1, map[], 0, []), []);
    var asked := Next(y, ClientSide(Granted), 0);
    var subscribed := Next(asked, Subscribe(0), 0);
    var read := Next(subscribed, ReadBacklog(0), 0);
    assert read.conns == map[0 := Conn(0, 0, None, Some(0), 0)];
    assert Next(read, ClientSide(Opens(0)), 0).w == FirstUp(a).w;
    FirstUpSkips(a, b);
    SkipsAfter(read, ClientSide(Opens(0)), 0);
    SkipsAfter(subscribed, ReadBacklog(0), 0);
    SkipsAfter(asked, Subscribe(0), 0);
    SkipsAfter(y, ClientSide(Granted), 0);
  }
}
