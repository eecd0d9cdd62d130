/** What the panel of a VNC session is shown, as a function of what the server sends. */
module VncDrawing {
  import opened VncPacing
  import opened Options

  /** A rectangle of raw pixels inside a framebuffer of this size. */
  predicate Inside(r: Rect, width: nat, height: nat) {
    r.encoding == 0 && r.x + r.w <= width && r.y + r.h <= height
  }

  /** A change to a size within the limits: 16384 each way and 256 MiB of pixels. */
  predicate Resizes(r: Rect) {
    r.encoding == -223 && 0 < r.w <= 16384 && 0 < r.h <= 16384 && r.w * r.h * 4 <= 268435456
  }

  /** What one rectangle shows. */
  function Picture(r: Rect, width: nat, height: nat): seq<Entry> {
    if Inside(r, width, height) && r.w > 0 && r.h > 0 then [Drawn(r)]
    else if Resizes(r) then [Sized(r.w, r.h)]
    else []
  }

  /** The framebuffer's size after these events. */
  function SizeAfter(width: nat, height: nat, events: seq<Event>): (nat, nat)
    decreases |events|
  {
    if events == [] then (width, height)
    else
      var last := events[|events| - 1];
      if last.Rectangle? && Resizes(last.rect) then (last.rect.w, last.rect.h)
      else SizeAfter(width, height, events[..|events| - 1])
  }

  function ShowsOf(e: Event, width: nat, height: nat): seq<Entry> {
    match e
    case Rectangle(r) => Picture(r, width, height)
    case Finish => [Framed]
    case _ => []
  }

  /** What the panel is to be shown: the pixels of each rectangle inside the framebuffer that has
      any, each good change of size, and the end of each update. */
  function Shown(width: nat, height: nat, events: seq<Event>): seq<Entry>
    decreases |events|
  {
    if events == [] then []
    else
      var init, last := events[..|events| - 1], events[|events| - 1];
      var (w, h) := SizeAfter(width, height, init);
      Shown(width, height, init) + ShowsOf(last, w, h)
  }

  predicate ForPanel(e: Entry) {
    e.Drawn? || e.Sized? || e.Framed?
  }

  /** What the panel was sent, in order. */
  function Pictures(log: seq<Entry>): seq<Entry>
    decreases |log|
  {
    if log == [] then []
    else
      var last := log[|log| - 1];
      Pictures(log[..|log| - 1]) + if ForPanel(last) then [last] else []
  }

  lemma PicturesSnoc(log: seq<Entry>, e: Entry)
    ensures Pictures(log + [e]) == Pictures(log) + if ForPanel(e) then [e] else []
  {
    assert (log + [e])[..|log|] == log;
  }

  lemma PicturesOther(log: seq<Entry>, e: Entry, f: Entry)
    requires !ForPanel(e) && !ForPanel(f)
    ensures Pictures(log + [e]) == Pictures(log) && Pictures(log + [e] + [f]) == Pictures(log)
  {
    PicturesSnoc(log, e);
    PicturesSnoc(log + [e], f);
  }

  ghost predicate Shows(width: nat, height: nat, events: seq<Event>, s: Session) {
    Pictures(s.log) == Shown(width, height, events) && (s.width, s.height) == SizeAfter(width, height, events)
  }

  lemma Area(w: nat, h: nat)
    ensures w * h == 0 <==> w == 0 || h == 0
  {
  }

  lemma RectLogs(s: Session, r: Rect)
    requires s.reading.Some? && s.reading.value > 0
    ensures var t := ReadRect(s, r);
            && t.log == s.log + Picture(r, s.width, s.height)
            && (t.width, t.height) == (if Resizes(r) then (r.w, r.h) else (s.width, s.height))
            && (if Inside(r, s.width, s.height) || Resizes(r)
                then t.closed == s.closed && t.reading == Some(s.reading.value - 1)
                else t.closed && t.reading == None)
  {
    Area(r.w, r.h);
  }

  lemma ShownNext(width: nat, height: nat, events: seq<Event>, e: Event)
    ensures var all := events + [e];
            var (w, h) := SizeAfter(width, height, events);
            && SizeAfter(width, height, all) == (if e.Rectangle? && Resizes(e.rect) then (e.rect.w, e.rect.h) else (w, h))
            && Shown(width, height, all) == Shown(width, height, events) + ShowsOf(e, w, h)
  {
    assert (events + [e])[..|events|] == events;
  }

  lemma PicturesMore(log: seq<Entry>, r: Rect, width: nat, height: nat)
    ensures Pictures(log + Picture(r, width, height)) == Pictures(log) + Picture(r, width, height)
  {
    PicturesSnoc(log, Drawn(r));
    PicturesSnoc(log, Sized(r.w, r.h));
    assert log + [] == log;
  }

  lemma RectShows(width: nat, height: nat, events: seq<Event>, s: Session, r: Rect)
    requires Shows(width, height, events, s) && s.reading.Some? && s.reading.value > 0
    ensures Shows(width, height, events + [Rectangle(r)], ReadRect(s, r))
  {
    hide Resizes, Picture, ReadRect, Shown, SizeAfter, Pictures, Inside;
    RectLogs(s, r);
    ShownNext(width, height, events, Rectangle(r));
    PicturesMore(s.log, r, s.width, s.height);
  }

  lemma ClientLogs(s: Session, kind: int)
    ensures var t := OnClient(s, kind);
            (t.width, t.height) == (s.width, s.height) && Pictures(t.log) == Pictures(s.log)
  {
    hide Pictures;
    if !s.closed && kind == 0 && s.awaitingAck {
      PicturesOther(s.log, Acked, Sent(!s.refreshWanted, s.width, s.height));
    } else if !s.closed && kind == 4 {
      PicturesOther(s.log, Refused, Sent(false, s.width, s.height));
    }
  }

  lemma ClientShows(width: nat, height: nat, events: seq<Event>, s: Session, kind: int)
    requires Shows(width, height, events, s)
    ensures Shows(width, height, events + [Client(kind)], OnClient(s, kind))
  {
    hide Shown, SizeAfter, Pictures, OnClient;
    ClientLogs(s, kind);
    ShownNext(width, height, events, Client(kind));
  }

  lemma StepShows(width: nat, height: nat, events: seq<Event>, s: Session, e: Event)
    requires Shows(width, height, events, s) && Enabled(s, e)
    ensures Shows(width, height, events + [e], Step(s, e))
  {
    hide Shown, SizeAfter, Pictures, OnClient, ReadRect;
    ShownNext(width, height, events, e);
    match e
    case Rectangle(r) => RectShows(width, height, events, s, r);
    case Client(kind) => ClientShows(width, height, events, s, kind);
    case Begin(_) => PicturesSnoc(s.log, Began);
    case Finish => PicturesSnoc(s.log, Framed);
    case Close =>
  }

  /** Over every run the panel is sent exactly what it is to be shown, in order: no pixels that fit
      are lost, and none are sent that do not. */
  lemma {:induction false} PanelSeesEverything(width: nat, height: nat, events: seq<Event>, s: Session)
    requires Reaches(width, height, events, s)
    ensures Pictures(s.log) == Shown(width, height, events) && (s.width, s.height) == SizeAfter(width, height, events)
    decreases |events|
  {
    if events == [] {
      PicturesSnoc([], Sent(false, width, height));
      assert [] + [Sent(false, width, height)] == Attached(width, height).log;
    } else {
      var init, last := events[..|events| - 1], events[|events| - 1];
      var before :| Reaches(width, height, init, before) && Enabled(before, last) && s == Step(before, last);
      PanelSeesEverything(width, height, init, before);
      StepShows(width, height, init, before, last);
      assert init + [last] == events;
    }
  }

  /** A rectangle of either good kind leaves the session as open as it was and is counted off; any
      other closes it and ends the reading. */
  lemma RectangleOutcome(width: nat, height: nat, events: seq<Event>, s: Session, r: Rect)
    requires Reaches(width, height, events, s) && Enabled(s, Rectangle(r))
    ensures var t, (w, h) := Step(s, Rectangle(r)), SizeAfter(width, height, events);
            if Inside(r, w, h) || Resizes(r)
            then t.closed == s.closed && t.reading == Some(s.reading.value - 1)
            else t.closed && t.reading == None
  {
    hide Inside, Resizes, ReadRect;
    PanelSeesEverything(width, height, events, s);
    RectLogs(s, r);
  }
}
