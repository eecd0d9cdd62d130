/** The terminal route and the event route as servers that stream in order. */
module TerminalStream {
  import E = EventStream
  import opened AnyStream
  import opened Live
  import opened LiveSafety
  import opened Options

  // ----- The broker of one terminal -----

  /** Output number `k` of a terminal. */
  function Output(log: seq<nat>, k: nat): Frame
    requires 1 <= k <= |log|
  {
    Data(false, Some(k), None, log[k - 1])
  }

  /** The retained screen, carrying the number of the last output in it. */
  function Replay(n: nat): Frame {
    Data(false, None, Some(n), 0)
  }

  /** `resume` when the chunks hold the outputs past `floor`. */
  function Resume(log: seq<nat>, floor: nat, after: nat): seq<Frame>
    requires floor <= |log|
  {
    if (floor == |log| && after < |log|) || after > |log| || (floor < |log| && after + 1 < floor + 1)
    then [Replay(|log|)]
    else seq(|log| - after, i requires 0 <= i < |log| - after => Output(log, after + i + 1))
  }

  /** Whether the broker answers a number with a replay. */
  predicate Replays(log: seq<nat>, floor: nat, after: nat) {
    after > |log| || after < floor
  }

  lemma ReplaysIff(log: seq<nat>, floor: nat, after: nat)
    requires floor <= |log|
    ensures Replays(log, floor, after) <==> Resume(log, floor, after) == [Replay(|log|)]
  {
    if !Replays(log, floor, after) && after < |log| {
      assert Resume(log, floor, after)[0] == Output(log, after + 1);
    }
  }

  /** What the subscription passes on: every output past `n` in order, among frames with no number. */
  predicate Relayed(log: seq<nat>, n: nat, frames: seq<Frame>)
    decreases |frames|
  {
    frames == []
    || (Numberless(frames[0]) && Relayed(log, n, frames[1..]))
    || (n < |log| && frames[0] == Output(log, n + 1) && Relayed(log, n + 1, frames[1..]))
  }

  predicate AllNumberless(frames: seq<Frame>) {
    forall i :: 0 <= i < |frames| ==> Numberless(frames[i])
  }

  /** A terminal connection: it subscribed when `subscribed` outputs were there; asked to resume,
      it read the broker again when there were `resumed`, with the chunks past `floor`. `log` is
      every output the terminal will ever have. */
  datatype Conn = Conn(subscribed: nat, resumed: nat, floor: nat, state: seq<Frame>, live: seq<Frame>)

  predicate Accepted(log: seq<nat>, c: Conn) {
    && c.subscribed <= c.resumed <= |log| && c.floor <= c.resumed
    && AllNumberless(c.state) && Relayed(log, c.subscribed, c.live)
  }

  /** All the connection sends past its greeting. */
  function Frames(log: seq<nat>, c: Conn, after: Option<int>): seq<Frame>
    requires Accepted(log, c) && (after.Some? ==> after.value >= 0)
  {
    (if after.None? then [Replay(c.subscribed)] else Resume(log[..c.resumed], c.floor, after.value))
    + c.state + c.live
  }

  /** `text` gives the terminal's outputs in the life of `instance`. */
  ghost predicate Tells(text: Text, instance: string, log: seq<nat>) {
    forall k :: 1 <= k <= |log| ==> text(instance, k) == log[k - 1]
  }

  // ----- It streams in order -----

  lemma {:induction false} PlainInOrder(text: Text, instance: string, at: int, frames: seq<Frame>)
    requires AllNumberless(frames)
    ensures InOrder(text, instance, at, frames) && Reached(at, frames) == at
    decreases |frames|
  {
    if frames != [] {
      assert Numberless(frames[0]);
      PlainInOrder(text, instance, at, frames[1..]);
    }
  }

  /** The subscription's outputs are in order from any number not before its own. */
  lemma {:induction false} LiveInOrder(text: Text, instance: string, log: seq<nat>, at: int, n: nat, frames: seq<Frame>)
    requires Tells(text, instance, log) && Relayed(log, n, frames) && n <= at
    ensures InOrder(text, instance, at, frames)
    decreases |frames|
  {
    if frames == [] {
    } else if Numberless(frames[0]) && Relayed(log, n, frames[1..]) {
      LiveInOrder(text, instance, log, at, n, frames[1..]);
    } else {
      assert text(instance, n + 1) == log[n];
      LiveInOrder(text, instance, log, if n < at then at else n + 1, n + 1, frames[1..]);
    }
  }

  lemma {:induction false} OutputsInOrder(text: Text, instance: string, log: seq<nat>, at: nat, frames: seq<Frame>)
    requires Tells(text, instance, log) && at + |frames| <= |log|
    requires forall i :: 0 <= i < |frames| ==> frames[i] == Output(log, at + i + 1)
    ensures InOrder(text, instance, at, frames) && Reached(at, frames) == at + |frames|
    decreases |frames|
  {
    if frames != [] {
      assert frames[0] == Output(log, at + 1) && text(instance, at + 1) == log[at];
      forall i | 0 <= i < |frames| - 1 ensures frames[1..][i] == Output(log, at + 1 + i + 1) {
        assert frames[1..][i] == frames[i + 1];
      }
      OutputsInOrder(text, instance, log, at + 1, frames[1..]);
    }
  }

  lemma TellsPrefix(text: Text, instance: string, log: seq<nat>, n: nat)
    requires Tells(text, instance, log) && n <= |log|
    ensures Tells(text, instance, log[..n])
  {
  }

  lemma ReplayInOrder(text: Text, instance: string, at: int, n: nat)
    ensures InOrder(text, instance, at, [Replay(n)]) && Reached(at, [Replay(n)]) == n
  {
    assert [Replay(n)][1..] == [];
  }

  lemma ResumeInOrder(text: Text, instance: string, log: seq<nat>, floor: nat, after: nat)
    requires Tells(text, instance, log) && floor <= |log|
    ensures InOrder(text, instance, after, Resume(log, floor, after))
    ensures Reached(after, Resume(log, floor, after)) == |log|
  {
    ReplaysIff(log, floor, after);
    if Replays(log, floor, after) {
      ReplayInOrder(text, instance, after, |log|);
    } else {
      OutputsInOrder(text, instance, log, after, Resume(log, floor, after));
    }
  }

  /** A terminal connection streams in order after the number the client sent, or from its first
      replay: the outputs that fall between its two looks at the broker come twice, and the
      second copies are old. */
  lemma TerminalInOrder(text: Text, instance: string, log: seq<nat>, c: Conn, after: Option<int>)
    requires Tells(text, instance, log) && Accepted(log, c) && (after.Some? ==> after.value >= 0)
    ensures InOrder(text, instance, if after.Some? then after.value else 0, Frames(log, c, after))
  {
    var begun := if after.Some? then after.value else 0;
    var first := if after.None? then [Replay(c.subscribed)] else Resume(log[..c.resumed], c.floor, after.value);
    var at := if after.None? then c.subscribed else c.resumed;
    if after.None? {
      ReplayInOrder(text, instance, 0, c.subscribed);
    } else {
      TellsPrefix(text, instance, log, c.resumed);
      ResumeInOrder(text, instance, log[..c.resumed], c.floor, after.value);
    }
    PlainInOrder(text, instance, at, c.state);
    LiveInOrder(text, instance, log, at, c.subscribed, c.live);
    InOrderBoth(text, instance, begun, first, c.state);
    ReachedBoth(begun, first, c.state);
    InOrderBoth(text, instance, begun, first + c.state, c.live);
  }

  lemma {:induction false} ReachedBoth(at: int, a: seq<Frame>, b: seq<Frame>)
    ensures Reached(at, a + b) == Reached(Reached(at, a), b)
    decreases |a|
  {
    if a == [] {
      assert a + b == b;
    } else {
      assert (a + b)[0] == a[0] && (a + b)[1..] == a[1..] + b;
      ReachedBoth(Advance(at, a[0]), a[1..], b);
    }
  }

  /** The numbers a frame carries are the terminal's. */
  predicate Within(n: nat, f: Frame) {
    f.Data? && (f.seqNo.Some? ==> 1 <= f.seqNo.value <= n) && (f.lastSeq.Some? ==> 0 <= f.lastSeq.value <= n)
  }

  predicate AllWithin(n: nat, frames: seq<Frame>) {
    forall i :: 0 <= i < |frames| ==> Within(n, frames[i])
  }

  lemma {:induction false} RelayedWithin(log: seq<nat>, n: nat, frames: seq<Frame>)
    requires Relayed(log, n, frames)
    ensures AllWithin(|log|, frames)
    decreases |frames|
  {
    if frames == [] {
    } else if Numberless(frames[0]) && Relayed(log, n, frames[1..]) {
      RelayedWithin(log, n, frames[1..]);
      assert frames == [frames[0]] + frames[1..];
    } else {
      RelayedWithin(log, n + 1, frames[1..]);
      assert frames == [frames[0]] + frames[1..];
    }
  }

  lemma ResumeWithin(log: seq<nat>, floor: nat, after: nat, n: nat)
    requires floor <= |log| <= n
    ensures AllWithin(n, Resume(log, floor, after))
  {
    ReplaysIff(log, floor, after);
    var frames := Resume(log, floor, after);
    if !Replays(log, floor, after) {
      forall i | 0 <= i < |frames| ensures Within(n, frames[i]) {
        assert frames[i] == Output(log, after + i + 1);
      }
    }
  }

  lemma FramesWithin(log: seq<nat>, c: Conn, after: Option<int>)
    requires Accepted(log, c) && (after.Some? ==> after.value >= 0)
    ensures AllWithin(|log|, Frames(log, c, after))
  {
    RelayedWithin(log, c.subscribed, c.live);
    if after.Some? { ResumeWithin(log[..c.resumed], c.floor, after.value, |log|); }
    assert forall i :: 0 <= i < |c.state| ==> Numberless(c.state[i]) && Within(|log|, c.state[i]);
  }

  // ----- The client on the terminal route -----

  /** Any run on the terminal route: every greeting is of the life of the server the terminal is
      in, and what follows is a terminal connection's. A later life answers with no greeting. */
  ghost predicate TerminalRuns(instance: string, log: seq<nat>, y: Play, run: seq<Turn>)
    decreases |run|
  {
    run == [] ||
    (&& Can(y, run[0].a)
     && (run[0].a.Greet? ==> FromBroker(instance, log, y.w.b.sockets[run[0].a.s], run[0].a))
     && TerminalRuns(instance, log, Next(y, run[0].a, run[0].now), run[1..]))
  }

  ghost predicate FromBroker(instance: string, log: seq<nat>, socket: Socket, a: Act)
    requires a.Greet?
  {
    && a.instance == instance
    && (socket.after.Some? ==> socket.after.value >= 0)
    && exists c :: Accepted(log, c) && a.due == Frames(log, c, socket.after)
  }

  /** The client follows the one instance, and all numbers about are the terminal's. */
  ghost predicate Follows(instance: string, n: nat, y: Play) {
    && !y.w.c.events && (y.w.c.cursor.instance.None? || y.w.c.cursor.instance == Some(instance))
    && 0 <= y.base && 0 <= y.w.c.cursor.sequence <= n
    && forall s :: s in y.links ==> y.links[s].instance == instance && AllWithin(n, y.links[s].due)
  }

  lemma FollowsNext(text: Text, instance: string, n: nat, y: Play, a: Act, now: int)
    requires Good(text, y) && Follows(instance, n, y) && Can(y, a) && Obeys(text, y, a)
    requires a.Greet? ==> a.instance == instance && AllWithin(n, a.due)
    ensures Follows(instance, n, Next(y, a, now))
  {
    match a
    case ClientSide(e) => E.ClientStepKeepsStream(y.w, e, now);
    case Noise(s, f) =>
    case Greet(s, id, eventSeq, due) =>
      if Heard(y.w, s) { HeardFrame(y.w, s, Hello(Some(id), eventSeq), now); }
    case Deliver(s) => FollowsDeliver(text, instance, n, y, s, now);
  }

  lemma FollowsDeliver(text: Text, instance: string, n: nat, y: Play, s: nat, now: int)
    requires Good(text, y) && Follows(instance, n, y) && Can(y, Deliver(s))
    ensures Follows(instance, n, Next(y, Deliver(s), now))
  {
    var f := y.links[s].due[0];
    assert Within(n, f);
    if Heard(y.w, s) {
      HeardFrame(y.w, s, f, now);
      AbsorbInStep(text, y.w.c.cursor, y.w.c.events, y.w.b.sockets[s].resuming, y.links[s].instance, f);
    }
  }

  lemma {:induction false} TerminalRunsObey(text: Text, instance: string, log: seq<nat>, y: Play, run: seq<Turn>)
    requires Good(text, y) && Follows(instance, |log|, y) && Tells(text, instance, log) && TerminalRuns(instance, log, y, run)
    ensures Runs(text, y, run) && Follows(instance, |log|, After(text, y, run))
    decreases |run|
  {
    if run != [] {
      var a, now := run[0].a, run[0].now;
      if a.Greet? { GreetingObeys(text, instance, log, y, a); }
      NextGood(text, y, a, now);
      FollowsNext(text, instance, |log|, y, a, now);
      TerminalRunsObey(text, instance, log, Next(y, a, now), run[1..]);
    }
  }

  lemma GreetingObeys(text: Text, instance: string, log: seq<nat>, y: Play, a: Act)
    requires Good(text, y) && Follows(instance, |log|, y) && Tells(text, instance, log) && Can(y, a) && a.Greet?
    requires FromBroker(instance, log, y.w.b.sockets[a.s], a)
    ensures Obeys(text, y, a) && AllWithin(|log|, a.due)
  {
    hide InOrder, Frames, AllWithin;
    var socket := y.w.b.sockets[a.s];
    var c :| Accepted(log, c) && a.due == Frames(log, c, socket.after);
    TerminalInOrder(text, instance, log, c, socket.after);
    FramesWithin(log, c, socket.after);
    assert Beginning(y.w.c, socket, instance, a.eventSeq) == if socket.after.Some? then socket.after.value else 0;
  }

  /** Over every run on the terminal route, the callback has had the terminal's outputs since its
      last reset, a replay or the first greeting, in order, none repeated and none skipped. */
  lemma TerminalExactlyOnce(instance: string, log: seq<nat>, onLine: bool, now: int, run: seq<Turn>, text: Text)
    requires Tells(text, instance, log) && TerminalRuns(instance, log, Boot(false, onLine, now), run)
    ensures Runs(text, Boot(false, onLine, now), run)
    ensures var y := After(text, Boot(false, onLine, now), run);
            && y.w.c.cursor.sequence == y.base + |y.seen|
            && 0 <= y.base <= y.w.c.cursor.sequence <= |log|
            && y.seen == log[y.base..y.w.c.cursor.sequence]
  {
    BootGood(text, false, onLine, now);
    TerminalRunsObey(text, instance, log, Boot(false, onLine, now), run);
    ExactlyOnceOnAnyRoute(text, false, onLine, now, run);
    var y := After(text, Boot(false, onLine, now), run);
    forall i | 0 <= i < |y.seen| ensures y.seen[i] == log[y.base + i] {
      assert y.seen[i] == text(instance, y.base + 1 + i);
    }
  }

  // ----- The event route -----

  /** A connection of the event route that is not torn streams in order as well, from the number
      its greeting leaves the client at: each frame is in step with those before it. */
  lemma EventsInStep(text: Text, instance: string, log: seq<nat>, c: E.Conn, start: int, i: nat)
    requires Tells(text, instance, log)
    requires E.Accepted(c, log) && E.Started(c, start) && !E.Torn(c) && 1 <= i < E.Available(c, log)
    ensures var at, f := E.SequenceAfter(c, log, start, i), E.FrameAt(c, log, instance, i);
            InStep(text, instance, at, f) && Advance(at, f) == E.SequenceAfter(c, log, start, i + 1)
  {
    E.FrameContinues(c, log, instance, start, i);
    E.FrameIsWellFormed(c, log, instance, i);
    var at := E.SequenceAfter(c, log, start, i);
    if 0 <= at < |log| { assert text(instance, at + 1) == log[at]; }
  }

  /** The frames of such a connection from number `i` on. */
  ghost function FramesFrom(log: seq<nat>, c: E.Conn, instance: string, i: nat): seq<Frame>
    requires E.Accepted(c, log) && i <= E.Available(c, log)
    decreases E.Available(c, log) - i
  {
    if i == E.Available(c, log) then [] else [E.FrameAt(c, log, instance, i)] + FramesFrom(log, c, instance, i + 1)
  }

  lemma {:induction false} FramesInOrder(text: Text, instance: string, log: seq<nat>, c: E.Conn, start: int, i: nat)
    requires Tells(text, instance, log)
    requires E.Accepted(c, log) && E.Started(c, start) && !E.Torn(c) && 1 <= i <= E.Available(c, log)
    ensures InOrder(text, instance, E.SequenceAfter(c, log, start, i), FramesFrom(log, c, instance, i))
    decreases E.Available(c, log) - i
  {
    hide E.SequenceAfter, E.FrameAt, E.Torn, E.Started, InStep, Advance;
    if i < E.Available(c, log) {
      EventsInStep(text, instance, log, c, start, i);
      FramesInOrder(text, instance, log, c, start, i + 1);
      var all := FramesFrom(log, c, instance, i);
      assert all[0] == E.FrameAt(c, log, instance, i) && all[1..] == FramesFrom(log, c, instance, i + 1);
    }
  }

  /** So an event connection is one more server the client can have: past its greeting it streams
      in order from where the client takes it to begin. */
  lemma EventsInOrder(text: Text, log: seq<nat>, c: E.Conn, client: Client, socket: Socket, instance: string)
    requires Tells(text, instance, log) && E.Accepted(c, log) && !E.Torn(c)
    requires client.events && socket.after == c.after && (socket.resuming <==> socket.after.Some?)
    requires c.after.Some? && (client.cursor.instance.None? || client.cursor.instance == Some(instance)) ==>
               c.after.value <= c.cursor
    ensures InOrder(text, instance, Beginning(client, socket, instance, Some(c.cursor)), FramesFrom(log, c, instance, 1))
  {
    FramesInOrder(text, instance, log, c, Beginning(client, socket, instance, Some(c.cursor)), 1);
  }

  // ----- A new life of the server -----

  /** What a life of the server that has no such terminal answers in place of a greeting. */
  const NOT_FOUND := Data(true, None, None, 0)

  /** Handed that answer, or its closing code 4004, on its current socket, the client has stopped
      for good: it never makes another socket. */
  lemma GoneTerminalEnds(w: World, s: nat, e: Event, now: int, run: seq<Moment>)
    requires Heard(w, s) && Enabled(w, e) && (e == Receives(s, NOT_FOUND) || e == Closes(s, 4004))
    requires Allowed(Step(w, e, now), run)
    ensures Terminal(Run(Step(w, e, now), run).c)
    ensures |Run(Step(w, e, now), run).b.sockets| == |w.b.sockets|
  {
    StoppedMakesNoSocket(Step(w, e, now), run);
  }

  lemma {:induction false} LiveFromZero(text: Text, instance: string, log: seq<nat>, n: nat, frames: seq<Frame>)
    requires Tells(text, instance, log) && Relayed(log, n, frames) && n > 0
    ensures InOrder(text, instance, 0, frames) <==> AllNumberless(frames)
    decreases |frames|
  {
    if frames != [] {
      assert frames == [frames[0]] + frames[1..];
      if Numberless(frames[0]) {
        LiveFromZero(text, instance, log, n, frames[1..]);
      }
    }
  }

  lemma ConnFromZero(text: Text, instance: string, log: seq<nat>, c: Conn, after: nat)
    requires Tells(text, instance, log) && Accepted(log, c)
    ensures var first := Resume(log[..c.resumed], c.floor, after);
            InOrder(text, instance, 0, Frames(log, c, Some(after))) <==>
              InOrder(text, instance, 0, first) && InOrder(text, instance, Reached(0, first), c.live)
  {
    var first := Resume(log[..c.resumed], c.floor, after);
    InOrderBoth(text, instance, 0, first + c.state, c.live);
    InOrderBoth(text, instance, 0, first, c.state);
    PlainInOrder(text, instance, Reached(0, first), c.state);
    ReachedBoth(0, first, c.state);
  }

  /** Were a terminal's id there again in a new life of the server, a client that follows the old
      life would start again at zero while its number is answered all the same. The connection
      is then in order from zero exactly when the answer is a replay, or the number was zero, or
      nothing is due and what follows starts at one or has no numbers. */
  lemma ReusedIdInOrderIff(text: Text, instance: string, log: seq<nat>, c: Conn, after: nat)
    requires Tells(text, instance, log) && Accepted(log, c)
    ensures InOrder(text, instance, 0, Frames(log, c, Some(after))) <==>
              || Replays(log[..c.resumed], c.floor, after) || after == 0
              || (after == c.resumed && (c.subscribed == 0 || AllNumberless(c.live)))
  {
    var held := log[..c.resumed];
    var first := Resume(held, c.floor, after);
    TellsPrefix(text, instance, log, c.resumed);
    ConnFromZero(text, instance, log, c, after);
    ReplaysIff(held, c.floor, after);
    if Replays(held, c.floor, after) {
      ReplayInOrder(text, instance, 0, c.resumed);
      LiveInOrder(text, instance, log, c.resumed, c.subscribed, c.live);
    } else if after == 0 {
      ResumeInOrder(text, instance, held, c.floor, 0);
      LiveInOrder(text, instance, log, c.resumed, c.subscribed, c.live);
    } else if after < c.resumed {
      assert first[0] == Output(held, after + 1);
    } else if c.subscribed == 0 {
      LiveInOrder(text, instance, log, 0, 0, c.live);
    } else {
      LiveFromZero(text, instance, log, c.subscribed, c.live);
    }
  }
}
