/** The client on either route against any server that streams in order: what the callback has
    had since its last reset, over every run. */
module AnyStream {
  import E = EventStream
  import opened Live
  import opened Options

  // ----- What a server sends -----

  /** Where a connection's stream stands after a frame; a frame with `last_seq` moves it there. */
  function Advance(at: int, f: Frame): int {
    match f
    case Resync(last) => if last.Some? then last.value else at
    case Data(_, seqNo, lastSeq, _) =>
      if seqNo.Some? && seqNo.value <= at then at
      else if lastSeq.Some? then lastSeq.value
      else if seqNo.Some? then seqNo.value else at
    case _ => at
  }

  /** The text of a numbered frame in the life of an instance. */
  type Text = (string, int) -> nat

  /** A numbered frame is an old one or the very next; any other frame may come at any time. */
  predicate InStep(text: Text, instance: string, at: int, f: Frame) {
    && !f.Hello? && !f.Malformed?
    && (f.Data? && f.seqNo.Some? && f.lastSeq.None? ==>
          f.seqNo.value <= at || (f.seqNo.value == at + 1 && f.body == text(instance, at + 1)))
  }

  predicate InOrder(text: Text, instance: string, at: int, frames: seq<Frame>)
    decreases |frames|
  {
    frames == [] || (InStep(text, instance, at, frames[0]) && InOrder(text, instance, Advance(at, frames[0]), frames[1..]))
  }

  /** Where the client takes a connection to begin: at the number it sent, unless the greeting is
      of a life it was not following. */
  function Beginning(c: Client, socket: Socket, instance: string, eventSeq: Option<int>): int {
    if socket.resuming && socket.after.Some? && (c.cursor.instance.None? || c.cursor.instance == Some(instance))
    then socket.after.value
    else if c.events && eventSeq.Some? then eventSeq.value
    else 0
  }

  /** Where a stream that begins at a number stands after these frames. */
  function Reached(at: int, frames: seq<Frame>): int
    decreases |frames|
  {
    if frames == [] then at else Reached(Advance(at, frames[0]), frames[1..])
  }

  lemma {:induction false} ReachedSnoc(at: int, frames: seq<Frame>, f: Frame)
    ensures Reached(at, frames + [f]) == Advance(Reached(at, frames), f)
    decreases |frames|
  {
    if frames == [] {
      assert frames + [f] == [f] && [f][1..] == [];
    } else {
      assert (frames + [f])[0] == frames[0] && (frames + [f])[1..] == frames[1..] + [f];
      ReachedSnoc(Advance(at, frames[0]), frames[1..], f);
    }
  }

  lemma {:induction false} InOrderBoth(text: Text, instance: string, at: int, a: seq<Frame>, b: seq<Frame>)
    ensures InOrder(text, instance, at, a + b) <==>
              InOrder(text, instance, at, a) && InOrder(text, instance, Reached(at, a), b)
    decreases |a|
  {
    if a == [] {
      assert a + b == b;
    } else {
      assert (a + b)[0] == a[0] && (a + b)[1..] == a[1..] + b;
      InOrderBoth(text, instance, Advance(at, a[0]), a[1..], b);
    }
  }

  // ----- The closed system -----

  /** A greeted connection: the life it belongs to, the number the client takes it to begin at,
      and the frames it has delivered and has yet to deliver. */
  datatype Link = Link(instance: string, begun: int, had: seq<Frame>, due: seq<Frame>)

  /** `seen` are the texts of the numbered frames the callback has had since its last reset, which
      left the client at `base`. */
  datatype Play = Play(w: World, links: map<nat, Link>, base: int, seen: seq<nat>)

  datatype Act =
    | ClientSide(e: Event)
    | Noise(s: nat, frame: Frame)
    | Greet(s: nat, instance: string, eventSeq: Option<int>, due: seq<Frame>)
    | Deliver(s: nat)

  /** A frame with no number at all, such as the error that stands in for a greeting. */
  predicate Numberless(f: Frame) {
    f.Data? && f.seqNo.None? && f.lastSeq.None?
  }

  ghost predicate Can(y: Play, a: Act) {
    match a
    case ClientSide(e) => !e.Receives? && Enabled(y.w, e)
    case Noise(s, f) =>
      Enabled(y.w, Receives(s, f)) && (f.Malformed? || f.Null? || f.Heartbeat? || Numberless(f))
    case Greet(s, instance, eventSeq, _) => s !in y.links && Enabled(y.w, Receives(s, Hello(Some(instance), eventSeq)))
    case Deliver(s) =>
      s in y.links && y.links[s].due != [] && !y.links[s].due[0].Malformed? && Enabled(y.w, Receives(s, y.links[s].due[0]))
  }

  predicate Heard(w: World, s: nat) {
    !w.c.disposed && w.c.socket == Some(s)
  }

  /** A reset: a frame of the current socket that sets the client's number outright. */
  predicate Sets(f: Frame) {
    (f.Resync? && f.resyncSeq.Some?) || (f.Data? && f.lastSeq.Some?)
  }

  /** The record after a frame that reached the callback. */
  function Recorded(y: Play, w: World, f: Frame): Play {
    if Sets(f) then y.(w := w, base := w.c.cursor.sequence, seen := [])
    else if f.Data? && f.seqNo.Some? then y.(w := w, seen := y.seen + [f.body])
    else y.(w := w)
  }

  ghost function Next(y: Play, a: Act, now: int): Play
    requires Can(y, a)
  {
    match a
    case ClientSide(e) => y.(w := Step(y.w, e, now))
    case Noise(s, f) => y.(w := OnMessage(y.w, s, f, now))
    case Greet(s, instance, eventSeq, due) =>
      var w := OnMessage(y.w, s, Hello(Some(instance), eventSeq), now);
      var begun := Beginning(y.w.c, y.w.b.sockets[s], instance, eventSeq);
      var z := y.(w := w, links := y.links[s := Link(instance, begun, [], due)]);
      if Heard(y.w, s) && y.w.c.cursor.instance != Some(instance)
      then z.(base := w.c.cursor.sequence, seen := []) else z
    case Deliver(s) =>
      var f := y.links[s].due[0];
      var w := OnMessage(y.w, s, f, now);
      var z := y.(links := y.links[s := y.links[s].(had := y.links[s].had + [f], due := y.links[s].due[1..])]);
      if Heard(y.w, s) && |w.log| > |y.w.log| then Recorded(z, w, f) else z.(w := w)
  }

  /** The server streams in order from where the client takes the connection to begin. */
  ghost predicate Obeys(text: Text, y: Play, a: Act)
    requires Can(y, a)
  {
    a.Greet? ==>
      InOrder(text, a.instance, Beginning(y.w.c, y.w.b.sockets[a.s], a.instance, a.eventSeq), a.due)
  }

  // ----- The invariant -----

  /** The record is the stream from the last reset on, once each and in order. */
  ghost predicate Faithful(text: Text, y: Play) {
    && y.w.c.cursor.sequence == y.base + |y.seen|
    && (y.w.c.cursor.instance.None? ==> y.seen == [] && y.base == 0)
    && (y.w.c.cursor.instance.Some? ==>
          forall i :: 0 <= i < |y.seen| ==> y.seen[i] == text(y.w.c.cursor.instance.value, y.base + 1 + i))
  }

  ghost predicate LinksReal(y: Play) {
    forall s :: s in y.links ==> s < |y.w.b.sockets|
  }

  ghost predicate SocketsAsk(w: World) {
    forall s :: 0 <= s < |w.b.sockets| ==> (w.b.sockets[s].resuming <==> w.b.sockets[s].after.Some?)
  }

  /** The current socket asked for what the client has, or delivers from there in order. */
  ghost predicate CurrentReady(text: Text, y: Play) {
    !y.w.c.disposed && y.w.c.socket.Some? ==>
      var s := y.w.c.socket.value;
      && s < |y.w.b.sockets| && (y.w.b.sockets[s].wasOpen ==> y.w.c.connected)
      && (s in y.links ==>
            y.w.c.cursor.instance == Some(y.links[s].instance)
            && y.w.c.cursor.sequence == Reached(y.links[s].begun, y.links[s].had)
            && InOrder(text, y.links[s].instance, y.w.c.cursor.sequence, y.links[s].due))
      && (s !in y.links ==>
            (y.w.b.sockets[s].resuming ==> y.w.b.sockets[s].after == Some(y.w.c.cursor.sequence))
            && (!y.w.b.sockets[s].resuming ==> y.w.c.cursor.instance.None?))
  }

  ghost predicate Good(text: Text, y: Play) {
    && Faithful(text, y) && LinksReal(y) && SocketsAsk(y.w) && CurrentReady(text, y)
    && (y.w.c.cursor.instance.Some? ==> y.w.c.connected)
  }

  ghost function Boot(events: bool, onLine: bool, now: int): Play {
    Play(Start(events, onLine, now), map[], 0, [])
  }

  lemma BootGood(text: Text, events: bool, onLine: bool, now: int)
    ensures Good(text, Boot(events, onLine, now))
  {
  }

  lemma SameStreamGood(text: Text, y: Play, v: World)
    requires Good(text, y) && E.SameStream(y.w, v) && E.SameOrFresh(y.w, v)
    ensures Good(text, y.(w := v))
  {
    if !v.c.disposed && v.c.socket.Some? {
      if v.c.socket.value == |y.w.b.sockets| {
        assert v.c.socket.value !in y.links;
      } else {
        assert y.w.c.socket == v.c.socket;
      }
    }
  }

  /** What a heard frame does to the client. */
  lemma HeardFrame(w: World, s: nat, f: Frame, now: int)
    requires s < |w.b.sockets| && f != Malformed && Heard(w, s)
    ensures var r := Absorb(w.c.cursor, w.c.events, w.b.sockets[s].resuming, f);
            var v := OnMessage(w, s, f, now);
            && v.b == w.b && v.c == w.c.(lastFrame := now, attempts := 0, cursor := r.cursor)
            && (r.delivered <==> |v.log| > |w.log|)
  {
  }

  lemma GreetGood(text: Text, y: Play, s: nat, instance: string, eventSeq: Option<int>, due: seq<Frame>, now: int)
    requires Good(text, y) && Can(y, Greet(s, instance, eventSeq, due)) && Obeys(text, y, Greet(s, instance, eventSeq, due))
    ensures Good(text, Next(y, Greet(s, instance, eventSeq, due), now))
  {
    hide InOrder;
    if Heard(y.w, s) { HeardFrame(y.w, s, Hello(Some(instance), eventSeq), now); }
  }

  /** A frame in step moves the client exactly where it moves the stream, and reaches the
      callback unless it is an old one or a heartbeat. */
  lemma AbsorbInStep(text: Text, c: Cursor, events: bool, resuming: bool, instance: string, f: Frame)
    requires InStep(text, instance, c.sequence, f)
    ensures var r := Absorb(c, events, resuming, f);
            && r.cursor.sequence == Advance(c.sequence, f) && r.cursor.instance == c.instance
            && (f.Data? && f.seqNo.Some? && f.lastSeq.None? ==>
                  if f.seqNo.value <= c.sequence then !r.delivered
                  else r.delivered && r.cursor.sequence == c.sequence + 1 && f.body == text(instance, c.sequence + 1))
            && (f.Data? && f.seqNo.None? && f.lastSeq.None? ==> r.cursor.sequence == c.sequence)
            && (f.Resync? && f.resyncSeq.None? ==> r.cursor.sequence == c.sequence)
            && (!r.delivered ==> r.cursor.sequence == c.sequence)
  {
  }

  lemma RecordedFaithful(text: Text, y: Play, w: World, f: Frame, instance: string)
    requires Faithful(text, y) && y.w.c.cursor.instance == Some(instance) && w.c.cursor.instance == Some(instance)
    requires Sets(f) || w.c.cursor.sequence == y.base + |y.seen| + (if f.Data? && f.seqNo.Some? then 1 else 0)
    requires !Sets(f) && f.Data? && f.seqNo.Some? ==> f.body == text(instance, y.base + |y.seen| + 1)
    ensures Faithful(text, Recorded(y, w, f))
  {
  }

  lemma DeliverGood(text: Text, y: Play, s: nat, now: int)
    requires Good(text, y) && Can(y, Deliver(s))
    ensures Good(text, Next(y, Deliver(s), now))
  {
    if Heard(y.w, s) { HeardGood(text, y, s, now); }
  }

  lemma HeardGood(text: Text, y: Play, s: nat, now: int)
    requires Good(text, y) && Can(y, Deliver(s)) && Heard(y.w, s)
    ensures Good(text, Next(y, Deliver(s), now))
  {
    var link := y.links[s];
    var f := link.due[0];
    var z := y.(links := y.links[s := link.(had := link.had + [f], due := link.due[1..])]);
    var w := OnMessage(y.w, s, f, now);
    assert InStep(text, link.instance, y.w.c.cursor.sequence, f);
    ReachedSnoc(link.begun, link.had, f);
    HeardFrame(y.w, s, f, now);
    AbsorbInStep(text, y.w.c.cursor, y.w.c.events, y.w.b.sockets[s].resuming, link.instance, f);
    if |w.log| > |y.w.log| { RecordedFaithful(text, z, w, f, link.instance); }
  }

  lemma NextGood(text: Text, y: Play, a: Act, now: int)
    requires Good(text, y) && Can(y, a) && Obeys(text, y, a)
    ensures Good(text, Next(y, a, now))
  {
    match a
    case ClientSide(e) =>
      E.ClientStepKeepsStream(y.w, e, now);
      SameStreamGood(text, y, Step(y.w, e, now));
    case Noise(s, f) => SameStreamGood(text, y, OnMessage(y.w, s, f, now));
    case Greet(s, instance, eventSeq, due) => GreetGood(text, y, s, instance, eventSeq, due, now);
    case Deliver(s) => DeliverGood(text, y, s, now);
  }

  // ----- Whole runs -----

  datatype Turn = Turn(a: Act, now: int)

  ghost predicate Runs(text: Text, y: Play, run: seq<Turn>)
    decreases |run|
  {
    run == [] ||
    (Can(y, run[0].a) && Obeys(text, y, run[0].a) && Runs(text, Next(y, run[0].a, run[0].now), run[1..]))
  }

  ghost function After(text: Text, y: Play, run: seq<Turn>): Play
    requires Runs(text, y, run)
    decreases |run|
  {
    if run == [] then y else After(text, Next(y, run[0].a, run[0].now), run[1..])
  }

  lemma {:induction false} RunGood(text: Text, y: Play, run: seq<Turn>)
    requires Good(text, y) && Runs(text, y, run)
    ensures Good(text, After(text, y, run))
    decreases |run|
  {
    if run != [] {
      NextGood(text, y, run[0].a, run[0].now);
      RunGood(text, Next(y, run[0].a, run[0].now), run[1..]);
    }
  }

  /** On either route, whatever the sockets do, the callback has had everything numbered after its
      last reset, in order and once each, up to the number the client holds. */
  lemma ExactlyOnceOnAnyRoute(text: Text, events: bool, onLine: bool, now: int, run: seq<Turn>)
    requires Runs(text, Boot(events, onLine, now), run)
    ensures var y := After(text, Boot(events, onLine, now), run);
            && y.w.c.cursor.sequence == y.base + |y.seen|
            && (y.w.c.cursor.instance.None? ==> y.seen == [])
            && (y.w.c.cursor.instance.Some? ==>
                  forall i :: 0 <= i < |y.seen| ==> y.seen[i] == text(y.w.c.cursor.instance.value, y.base + 1 + i))
  {
    BootGood(text, events, onLine, now);
    RunGood(text, Boot(events, onLine, now), run);
  }

  /** A reset is the greeting of a life the client was not following, or a frame that sets the
      number outright and reaches the callback; nothing else makes the record start over. */
  ghost predicate Resets(y: Play, a: Act, now: int)
    requires Can(y, a)
  {
    match a
    case Greet(s, instance, _, _) => Heard(y.w, s) && y.w.c.cursor.instance != Some(instance)
    case Deliver(s) =>
      Heard(y.w, s) && Sets(y.links[s].due[0]) && |OnMessage(y.w, s, y.links[s].due[0], now).log| > |y.w.log|
    case _ => false
  }

  lemma OnlyResetsForget(text: Text, y: Play, a: Act, now: int)
    requires Good(text, y) && Can(y, a) && !Resets(y, a, now)
    ensures var z := Next(y, a, now); z.base == y.base && y.seen <= z.seen
  {
  }

  /** Nothing is lost: the client stands where the current connection's frames so far put the
      stream, so with none still due it has everything the server has sent. */
  lemma StandsWithTheStream(text: Text, events: bool, onLine: bool, now: int, run: seq<Turn>, s: nat)
    requires Runs(text, Boot(events, onLine, now), run)
    requires var y := After(text, Boot(events, onLine, now), run); Heard(y.w, s) && s in y.links
    ensures var y := After(text, Boot(events, onLine, now), run);
            && y.w.c.cursor.instance == Some(y.links[s].instance)
            && y.w.c.cursor.sequence == Reached(y.links[s].begun, y.links[s].had)
  {
    BootGood(text, events, onLine, now);
    RunGood(text, Boot(events, onLine, now), run);
  }
}
