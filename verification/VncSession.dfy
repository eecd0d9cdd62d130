/** The relay session as it runs: one object whose handlers assign its fields in turn.
    Each handler is proved to take the step module VncPacing gives it. */
module VncSession {
  import opened VncPacing
  import opened Options

  class VncBridgeSession {
    var closed: bool
    var width: nat
    var height: nat
    var generation: nat
    var awaitingAck: bool
    var requestOutstanding: bool
    var refreshWanted: bool
    var reading: Option<nat>
    var log: seq<Entry>

    ghost function State(): Session
      reads this
    {
      Session(closed, width, height, generation, awaitingAck, requestOutstanding, refreshWanted, reading, log)
    }

    constructor (width: nat, height: nat)
      ensures State() == Session(false, width, height, 0, false, false, false, None, [])
    {
      closed, this.width, this.height, generation := false, width, height, 0;
      awaitingAck, requestOutstanding, refreshWanted, reading, log := false, false, false, None, [];
    }

    /** The end of `attach`: a first request, for everything. */
    method Attach()
      requires State() == Session(false, width, height, 0, false, false, false, None, [])
      modifies this
      ensures State() == Attached(old(width), old(height)) && Inv(State(), old(width), old(height))
    {
      AttachedInv(width, height);
      AskForUpdate(false);
    }

    method AskForUpdate(incremental: bool)
      modifies this
      ensures State() == RequestUpdate(old(State()), incremental)
    {
      if closed { return; }
      if requestOutstanding {
        if !incremental { refreshWanted := true; }
        return;
      }
      if !incremental { refreshWanted := false; }
      requestOutstanding := true;
      log := log + [Sent(incremental, width, height)];
    }

    method Shut()
      modifies this
      ensures State() == Step(old(State()), Event.Close)
    {
      if closed { return; }
      closed := true;
    }

    method UpdateBegins(count: nat)
      requires !closed && reading.None?
      modifies this
      ensures State() == Step(old(State()), Begin(count))
    {
      log := log + [Began];
      reading := Some(count);
    }

    /** One rectangle of the update; a bad one ends the read loop and the session. */
    method RectangleArrives(rect: Rect)
      requires reading.Some? && reading.value > 0
      modifies this
      ensures State() == Step(old(State()), Rectangle(rect))
    {
      if rect.encoding == ENC_RAW {
        var size := rect.w * rect.h * 4;
        if rect.x + rect.w > width || rect.y + rect.h > height {
          closed, reading := true, None;
          return;
        }
        reading := Some(reading.value - 1);
        if size == 0 { return; }
        log := log + [Drawn(rect)];
      } else if rect.encoding == ENC_DESKTOP_SIZE {
        if rect.w == 0 || rect.h == 0 || rect.w > MAX_DIMENSION || rect.h > MAX_DIMENSION
           || rect.w * rect.h * 4 > MAX_FRAMEBUFFER_BYTES {
          closed, reading := true, None;
          return;
        }
        reading := Some(reading.value - 1);
        width, height := rect.w, rect.h;
        generation := generation + 1;
        log := log + [Sized(rect.w, rect.h)];
        refreshWanted := true;
      } else {
        closed, reading := true, None;
      }
    }

    method UpdateEnds()
      requires reading == Some(0)
      modifies this
      ensures State() == Step(old(State()), Finish)
    {
      requestOutstanding := false;
      log := log + [Framed];
      awaitingAck := true;
      reading := None;
    }

    /** A binary message from the panel, by its first byte. */
    method OnClientMessage(kind: int)
      modifies this
      ensures State() == Step(old(State()), Client(kind))
    {
      if closed { return; }
      if kind == 0 {
        if awaitingAck {
          awaitingAck := false;
          log := log + [Acked];
          AskForUpdate(!refreshWanted);
        }
      } else if kind == 4 {
        awaitingAck := false;
        log := log + [Refused];
        AskForUpdate(false);
      }
    }

    /** `readUpdate` when nothing comes between its rectangles. */
    method ReadUpdate(rects: seq<Rect>)
      requires !closed && reading.None?
      modifies this
      ensures State() == Uninterrupted(old(State()), rects)
    {
      UpdateBegins(|rects|);
      for i := 0 to |rects|
        invariant State() == Prefixed(old(State()), rects, i)
        invariant closed ==> i > 0
      {
        if reading.Some? { RectangleArrives(rects[i]); }
      }
      if reading.Some? { UpdateEnds(); }
    }
  }

  /** The session after the first `i` rectangles of an update. */
  function Prefixed(s: Session, rects: seq<Rect>, i: nat): (t: Session)
    requires i <= |rects| && !s.closed && s.reading.None?
    ensures t.reading.Some? ==> t.reading.value == |rects| - i
  {
    if i == 0 then Step(s, Begin(|rects|))
    else
      var before := Prefixed(s, rects, i - 1);
      if before.reading.Some? then Step(before, Rectangle(rects[i - 1])) else before
  }

  function Uninterrupted(s: Session, rects: seq<Rect>): Session
    requires !s.closed && s.reading.None?
  {
    var t := Prefixed(s, rects, |rects|);
    if t.reading.Some? then Step(t, Finish) else t
  }
}
