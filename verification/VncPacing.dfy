/** Update pacing of the VNC relay (RFC 6143, sections 7.5.3, 7.6.1 and 7.8.2): when the
    session asks the server for an update, and what the panel is told meanwhile. */
module VncPacing {
  import opened Options

  const MAX_DIMENSION := 16_384
  const MAX_FRAMEBUFFER_BYTES := 256 * 1024 * 1024

  const ENC_RAW := 0
  const ENC_DESKTOP_SIZE := -223

  type Short = n: nat | n < 0x1_0000
  datatype Rect = Rect(x: Short, y: Short, w: Short, h: Short, encoding: int)

  /** What passes between the session and its two peers, in order. */
  datatype Entry =
    | Sent(incremental: bool, width: nat, height: nat)  // FramebufferUpdateRequest
    | Began                                             // a FramebufferUpdate header arrived
    | Drawn(rect: Rect)                                 // pixels passed on to the panel
    | Sized(width: nat, height: nat)                    // DesktopSize, passed on to the panel
    | Framed                                            // the empty message that ends a frame
    | Acked                                             // the panel painted the frame
    | Refused                                           // the panel dropped it and wants all of it

  /** `reading` counts the rectangles still to come of the update being read. */
  datatype Session = Session(
    closed: bool, width: nat, height: nat, generation: nat,
    awaitingAck: bool, requestOutstanding: bool, refreshWanted: bool,
    reading: Option<nat>, log: seq<Entry>)

  predicate GoodSize(w: nat, h: nat) {
    0 < w <= MAX_DIMENSION && 0 < h <= MAX_DIMENSION && w * h * 4 <= MAX_FRAMEBUFFER_BYTES
  }

  function Note(s: Session, e: Entry): Session {
    s.(log := s.log + [e])
  }

  function RequestUpdate(s: Session, incremental: bool): Session {
    if s.closed then s
    else if s.requestOutstanding then
      if incremental then s else s.(refreshWanted := true)
    else
      Note(s.(refreshWanted := incremental && s.refreshWanted, requestOutstanding := true),
           Sent(incremental, s.width, s.height))
  }

  /** The session as `attach` leaves it. */
  function Attached(width: nat, height: nat): Session {
    RequestUpdate(Session(false, width, height, 0, false, false, false, None, []), false)
  }

  datatype Event = Begin(count: nat) | Rectangle(rect: Rect) | Finish | Client(kind: int) | Close

  predicate Enabled(s: Session, e: Event) {
    match e
    case Begin(_) => !s.closed && s.reading.None?
    case Rectangle(_) => s.reading.Some? && s.reading.value > 0
    case Finish => s.reading == Some(0)
    case Client(_) => true
    case Close => true
  }

  function Fail(s: Session): Session {
    s.(closed := true, reading := None)
  }

  function ReadRaw(s: Session, next: Session, r: Rect): Session {
    if r.x + r.w > s.width || r.y + r.h > s.height then Fail(s)
    else if r.w * r.h == 0 then next
    else Note(next, Drawn(r))
  }

  function ReadDesktopSize(s: Session, next: Session, r: Rect): Session {
    if !GoodSize(r.w, r.h) then Fail(s)
    else Note(next.(width := r.w, height := r.h, generation := s.generation + 1, refreshWanted := true),
              Sized(r.w, r.h))
  }

  function ReadRect(s: Session, r: Rect): Session
    requires s.reading.Some? && s.reading.value > 0
  {
    var next := s.(reading := Some(s.reading.value - 1));
    if r.encoding == ENC_RAW then ReadRaw(s, next, r)
    else if r.encoding == ENC_DESKTOP_SIZE then ReadDesktopSize(s, next, r)
    else Fail(s)
  }

  function ReadFinish(s: Session): Session {
    Note(s.(requestOutstanding := false, awaitingAck := true, reading := None), Framed)
  }

  function OnClient(s: Session, kind: int): Session {
    if s.closed then s
    else if kind == 0 && s.awaitingAck then
      RequestUpdate(Note(s.(awaitingAck := false), Acked), !s.refreshWanted)
    else if kind == 4 then RequestUpdate(Note(s.(awaitingAck := false), Refused), false)
    else s
  }

  function Step(s: Session, e: Event): Session
    requires Enabled(s, e)
  {
    match e
    case Begin(count) => Note(s.(reading := Some(count)), Began)
    case Rectangle(r) => ReadRect(s, r)
    case Finish => ReadFinish(s)
    case Client(kind) => OnClient(s, kind)
    case Close => s.(closed := true)
  }

  /** `s` is reached from a fresh session of this size by these events. */
  ghost predicate Reaches(width: nat, height: nat, events: seq<Event>, s: Session)
    decreases |events|
  {
    if events == [] then s == Attached(width, height)
    else
      var init, last := events[..|events| - 1], events[|events| - 1];
      exists before :: Reaches(width, height, init, before) && Enabled(before, last) && s == Step(before, last)
  }

  // ----- Reading the log -----

  /** This entry makes a full refresh wanted. */
  predicate Wants(e: Entry) {
    e.Sized? || e.Refused?
  }

  /** A full refresh is wanted, and no request has been sent since. */
  predicate Unmet(log: seq<Entry>)
    decreases |log|
  {
    log != [] &&
    var last := log[|log| - 1];
    !last.Sent? && (Wants(last) || Unmet(log[..|log| - 1]))
  }

  /** The framebuffer size the panel has been told, having started at the given one. */
  function Told(width: nat, height: nat, log: seq<Entry>): (nat, nat)
    decreases |log|
  {
    if log == [] then (width, height)
    else
      var last := log[|log| - 1];
      if last.Sized? then (last.width, last.height) else Told(width, height, log[..|log| - 1])
  }

  function Resizes(log: seq<Entry>): nat {
    if log == [] then 0
    else Resizes(log[..|log| - 1]) + if log[|log| - 1].Sized? then 1 else 0
  }

  /** Requests the server has not begun to answer. */
  function Owed(log: seq<Entry>): nat
    decreases |log|
  {
    if log == [] then 0
    else
      var before, last := Owed(log[..|log| - 1]), log[|log| - 1];
      if last.Sent? then before + 1 else if last.Began? && before > 0 then before - 1 else before
  }

  /** Each entry is right for what came before it. */
  predicate Proper(width: nat, height: nat, before: seq<Entry>, e: Entry) {
    var (w, h) := Told(width, height, before);
    match e
    case Sent(incremental, sw, sh) => (sw, sh) == (w, h) && (incremental <==> before != [] && !Unmet(before))
    case Drawn(r) => r.x + r.w <= w && r.y + r.h <= h
    case Sized(sw, sh) => GoodSize(sw, sh)
    case _ => true
  }

  ghost predicate ProperLog(width: nat, height: nat, log: seq<Entry>) {
    forall k :: 0 <= k < |log| ==> Proper(width, height, log[..k], log[k])
  }

  lemma ProperSnoc(width: nat, height: nat, log: seq<Entry>, e: Entry)
    requires ProperLog(width, height, log) && Proper(width, height, log, e)
    ensures ProperLog(width, height, log + [e])
  {
    var all := log + [e];
    assert all[..|log|] == log;
    forall k | 0 <= k < |all| ensures Proper(width, height, all[..k], all[k]) {
      if k < |log| { assert all[..k] == log[..k]; }
    }
  }

  lemma ReadingSnoc(width: nat, height: nat, log: seq<Entry>, e: Entry)
    ensures Unmet(log + [e]) <==> !e.Sent? && (Wants(e) || Unmet(log))
    ensures Told(width, height, log + [e]) == if e.Sized? then (e.width, e.height) else Told(width, height, log)
    ensures Resizes(log + [e]) == Resizes(log) + if e.Sized? then 1 else 0
    ensures Owed(log + [e])
         == if e.Sent? then Owed(log) + 1 else if e.Began? && Owed(log) > 0 then Owed(log) - 1 else Owed(log)
  {
    assert (log + [e])[..|log|] == log;
  }

  // ----- The invariant -----

  /** What the fields say about the log. */
  ghost predicate Tracks(s: Session, width: nat, height: nat) {
    && s.log != []
    && Told(width, height, s.log) == (s.width, s.height)
    && s.generation == Resizes(s.log)
    && (s.refreshWanted <==> Unmet(s.log))
    && ProperLog(width, height, s.log)
  }

  ghost predicate Inv(s: Session, width: nat, height: nat) {
    Tracks(s, width, height) && (!s.closed ==> s.requestOutstanding != s.awaitingAck)
  }

  lemma NoteTracks(s: Session, t: Session, e: Entry, width: nat, height: nat)
    requires Tracks(s, width, height) && Proper(width, height, s.log, e) && t.log == s.log + [e]
    requires (t.width, t.height) == if e.Sized? then (e.width, e.height) else (s.width, s.height)
    requires t.generation == s.generation + if e.Sized? then 1 else 0
    requires t.refreshWanted <==> !e.Sent? && (Wants(e) || s.refreshWanted)
    ensures Tracks(t, width, height)
  {
    ReadingSnoc(width, height, s.log, e);
    ProperSnoc(width, height, s.log, e);
  }

  lemma AttachedInv(width: nat, height: nat)
    ensures Inv(Attached(width, height), width, height)
  {
    var s := Attached(width, height);
    assert s.log == [] + [Sent(false, width, height)];
    assert ProperLog(width, height, []);
    ProperSnoc(width, height, [], Sent(false, width, height));
    ReadingSnoc(width, height, [], Sent(false, width, height));
  }

  lemma AckStep(s: Session, width: nat, height: nat)
    requires Inv(s, width, height) && !s.closed && s.awaitingAck
    ensures Inv(OnClient(s, 0), width, height)
  {
    var m := Note(s.(awaitingAck := false), Acked);
    NoteTracks(s, m, Acked, width, height);
    NoteTracks(m, OnClient(s, 0), Sent(!s.refreshWanted, s.width, s.height), width, height);
  }

  lemma RefuseStep(s: Session, width: nat, height: nat)
    requires Inv(s, width, height) && !s.closed
    ensures Inv(OnClient(s, 4), width, height)
  {
    var m := Note(s.(awaitingAck := false, refreshWanted := true), Refused);
    NoteTracks(s, m, Refused, width, height);
    if !s.requestOutstanding {
      NoteTracks(m, OnClient(s, 4), Sent(false, s.width, s.height), width, height);
    }
  }

  lemma RawStep(s: Session, next: Session, r: Rect, width: nat, height: nat)
    requires Inv(s, width, height) && s.reading.Some? && s.reading.value > 0
    requires next == s.(reading := Some(s.reading.value - 1))
    ensures Inv(ReadRaw(s, next, r), width, height)
  {
    if r.x + r.w <= s.width && r.y + r.h <= s.height {
      NoteTracks(s, Note(next, Drawn(r)), Drawn(r), width, height);
    }
  }

  lemma DesktopSizeStep(s: Session, next: Session, r: Rect, width: nat, height: nat)
    requires Inv(s, width, height) && s.reading.Some? && s.reading.value > 0
    requires next == s.(reading := Some(s.reading.value - 1))
    ensures Inv(ReadDesktopSize(s, next, r), width, height)
  {
    if GoodSize(r.w, r.h) { NoteTracks(s, ReadDesktopSize(s, next, r), Sized(r.w, r.h), width, height); }
  }

  lemma RectStep(s: Session, r: Rect, width: nat, height: nat)
    requires Inv(s, width, height) && s.reading.Some? && s.reading.value > 0
    ensures Inv(ReadRect(s, r), width, height)
  {
    var next := s.(reading := Some(s.reading.value - 1));
    RawStep(s, next, r, width, height);
    DesktopSizeStep(s, next, r, width, height);
  }

  lemma StepInv(s: Session, e: Event, width: nat, height: nat)
    requires Inv(s, width, height) && Enabled(s, e)
    ensures Inv(Step(s, e), width, height)
  {
    match e
    case Begin(_) => NoteTracks(s, Step(s, e), Began, width, height);
    case Rectangle(r) => RectStep(s, r, width, height);
    case Finish => NoteTracks(s, Step(s, e), Framed, width, height);
    case Client(kind) =>
      if !s.closed && kind == 0 && s.awaitingAck { AckStep(s, width, height); }
      if !s.closed && kind == 4 { RefuseStep(s, width, height); }
    case Close =>
  }

  lemma {:induction false} RunInv(width: nat, height: nat, events: seq<Event>, s: Session)
    requires Reaches(width, height, events, s)
    ensures Inv(s, width, height)
    decreases |events|
  {
    if events == [] {
      AttachedInv(width, height);
    } else {
      var init, last := events[..|events| - 1], events[|events| - 1];
      var before :| Reaches(width, height, init, before) && Enabled(before, last) && s == Step(before, last);
      RunInv(width, height, init, before);
      StepInv(before, last, width, height);
    }
  }

  // ----- What it gives -----

  /** Whatever the server and the panel do, an open session waits for exactly one of them. */
  lemma ExactlyOneWait(width: nat, height: nat, events: seq<Event>, s: Session)
    requires Reaches(width, height, events, s) && !s.closed
    ensures s.requestOutstanding != s.awaitingAck
  {
    RunInv(width, height, events, s);
  }

  lemma {:induction false} WantStands(log: seq<Entry>, i: nat)
    requires i < |log| && Wants(log[i]) && forall j :: i < j < |log| ==> !log[j].Sent?
    ensures Unmet(log)
    decreases |log|
  {
    if i < |log| - 1 { WantStands(log[..|log| - 1], i); }
  }

  /** A refresh is never lost: after the panel refuses a frame or the desktop changes size,
      the next request the server gets is for everything, at the size the panel was last told. */
  lemma RefreshNeverLost(width: nat, height: nat, events: seq<Event>, s: Session, i: nat, k: nat)
    requires Reaches(width, height, events, s) && i < k < |s.log|
    requires Wants(s.log[i]) && s.log[k].Sent? && forall j :: i < j < k ==> !s.log[j].Sent?
    ensures !s.log[k].incremental
    ensures (s.log[k].width, s.log[k].height) == Told(width, height, s.log[..k])
  {
    RunInv(width, height, events, s);
    assert Proper(width, height, s.log[..k], s.log[k]);
    WantStands(s.log[..k], i);
  }

  lemma {:induction false} NoWantMet(log: seq<Entry>)
    requires Unmet(log)
    ensures exists i :: 0 <= i < |log| && Wants(log[i]) && forall j :: i < j < |log| ==> !log[j].Sent?
    decreases |log|
  {
    var n := |log| - 1;
    if Wants(log[n]) {
    } else {
      NoWantMet(log[..n]);
      var i :| 0 <= i < n && Wants(log[..n][i]) && forall j :: i < j < n ==> !log[..n][j].Sent?;
      assert log[i] == log[..n][i];
      assert forall j :: i < j < n ==> log[j] == log[..n][j];
    }
  }

  /** And nothing else is: a request after the first is for everything only because a refresh
      has been wanted since the request before it. */
  lemma FullOnlyWhenWanted(width: nat, height: nat, events: seq<Event>, s: Session, k: nat)
    requires Reaches(width, height, events, s) && 0 < k < |s.log| && s.log[k].Sent? && !s.log[k].incremental
    ensures exists i :: 0 <= i < k && Wants(s.log[i]) && forall j :: i < j < k ==> !s.log[j].Sent?
  {
    RunInv(width, height, events, s);
    assert Proper(width, height, s.log[..k], s.log[k]);
    NoWantMet(s.log[..k]);
    var i :| 0 <= i < k && Wants(s.log[..k][i]) && forall j :: i < j < k ==> !s.log[..k][j].Sent?;
    assert forall j :: 0 <= j < k ==> s.log[..k][j] == s.log[j];
  }

  /** Pixels passed on always fit the framebuffer the panel knows. */
  lemma DrawnFits(width: nat, height: nat, events: seq<Event>, s: Session, k: nat)
    requires Reaches(width, height, events, s) && k < |s.log| && s.log[k].Drawn?
    ensures s.log[k].rect.x + s.log[k].rect.w <= Told(width, height, s.log[..k]).0
    ensures s.log[k].rect.y + s.log[k].rect.h <= Told(width, height, s.log[..k]).1
  {
    RunInv(width, height, events, s);
    assert Proper(width, height, s.log[..k], s.log[k]);
  }

  lemma ToldGood(width: nat, height: nat, log: seq<Entry>)
    requires GoodSize(width, height) && ProperLog(width, height, log)
    ensures GoodSize(Told(width, height, log).0, Told(width, height, log).1)
    decreases |log|
  {
    if log != [] {
      var n := |log| - 1;
      assert Proper(width, height, log[..n], log[n]);
      forall k | 0 <= k < n ensures Proper(width, height, log[..n][..k], log[..n][k]) {
        assert log[..n][..k] == log[..k];
        assert Proper(width, height, log[..k], log[k]);
      }
      ToldGood(width, height, log[..n]);
    }
  }

  /** The framebuffer keeps within the limits it was admitted with. */
  lemma SizeStaysGood(width: nat, height: nat, events: seq<Event>, s: Session)
    requires Reaches(width, height, events, s) && GoodSize(width, height)
    ensures GoodSize(s.width, s.height)
  {
    RunInv(width, height, events, s);
    ToldGood(width, height, s.log);
  }

  // ----- Servers that answer and servers that do not -----

  /** The server begins an update only when it owes one. */
  ghost predicate Honest(log: seq<Entry>) {
    forall k :: 0 <= k < |log| && log[k].Began? ==> Owed(log[..k]) > 0
  }

  lemma HonestSnoc(log: seq<Entry>, e: Entry)
    ensures Honest(log + [e]) <==> Honest(log) && (e.Began? ==> Owed(log) > 0)
  {
    var all := log + [e];
    assert all[..|log|] == log && all[|log|] == e;
    assert forall k :: 0 <= k < |log| ==> all[k] == log[k] && all[..k] == log[..k];
  }

  lemma RunSnoc(width: nat, height: nat, events: seq<Event>, e: Event, s: Session)
    requires Reaches(width, height, events, s) && Enabled(s, e)
    ensures Reaches(width, height, events + [e], Step(s, e))
  {
    assert (events + [e])[..|events|] == events;
  }

  lemma OwedAfter(log: seq<Entry>, e: Entry, n: nat)
    requires Owed(log) == n
    ensures Owed(log + [e]) == if e.Sent? then n + 1 else if e.Began? && n > 0 then n - 1 else n
  {
    ReadingSnoc(0, 0, log, e);
  }

  lemma UnaskedOwed(log: seq<Entry>, ask: Entry)
    requires Owed(log) == 1 && ask.Sent?
    ensures Owed(log + [Began] + [Framed] + [Began] + [Acked] + [ask] + [Framed] + [Acked] + [ask]) == 2
  {
    var log3 := log + [Began] + [Framed] + [Began];
    OwedAfter(log, Began, 1);
    OwedAfter(log + [Began], Framed, 0);
    OwedAfter(log + [Began] + [Framed], Began, 0);
    OwedAfter(log3, Acked, 0);
    OwedAfter(log3 + [Acked], ask, 0);
    OwedAfter(log3 + [Acked] + [ask], Framed, 1);
    OwedAfter(log3 + [Acked] + [ask] + [Framed], Acked, 1);
    OwedAfter(log3 + [Acked] + [ask] + [Framed] + [Acked], ask, 1);
  }

  lemma UnaskedBegins(width: nat, height: nat, s0: Session, s3: Session)
    requires Reaches(width, height, [], s0)
    requires s0 == Session(false, width, height, 0, false, true, false, None, s0.log)
    requires s3 == Session(false, width, height, 0, true, false, false, Some(0), s0.log + [Began] + [Framed] + [Began])
    ensures Reaches(width, height, [] + [Begin(0)] + [Finish] + [Begin(0)], s3)
  {
    var s1 := Step(s0, Begin(0));
    var s2 := Step(s1, Finish);
    RunSnoc(width, height, [], Begin(0), s0);
    RunSnoc(width, height, [] + [Begin(0)], Finish, s1);
    RunSnoc(width, height, [] + [Begin(0)] + [Finish], Begin(0), s2);
  }

  lemma UnaskedRun(width: nat, height: nat, three: seq<Event>, s3: Session, s6: Session)
    requires Reaches(width, height, three, s3)
    requires s3 == Session(false, width, height, 0, true, false, false, Some(0), s3.log)
    requires s6 == Session(false, width, height, 0, false, true, false, None,
                           s3.log + [Acked] + [Sent(true, width, height)] + [Framed] + [Acked] + [Sent(true, width, height)])
    ensures Reaches(width, height, three + [Client(0)] + [Finish] + [Client(0)], s6)
  {
    var s4 := Step(s3, Client(0));
    var s5 := Step(s4, Finish);
    RunSnoc(width, height, three, Client(0), s3);
    RunSnoc(width, height, three + [Client(0)], Finish, s4);
    RunSnoc(width, height, three + [Client(0)] + [Finish], Client(0), s5);
    assert Step(s5, Client(0)) == s6;
  }

  /** The honesty is needed: an update nobody asked for, acknowledged halfway through,
      leaves two requests with the server. */
  lemma UnaskedUpdateDoublesRequests(width: nat, height: nat)
    ensures exists events, s :: Reaches(width, height, events, s) && Owed(s.log) == 2
  {
    var ask, s0 := Sent(true, width, height), Attached(width, height);
    var log3 := s0.log + [Began] + [Framed] + [Began];
    var s3 := Session(false, width, height, 0, true, false, false, Some(0), log3);
    var s6 := Session(false, width, height, 0, false, true, false, None, log3 + [Acked] + [ask] + [Framed] + [Acked] + [ask]);
    UnaskedBegins(width, height, s0, s3);
    UnaskedRun(width, height, [] + [Begin(0)] + [Finish] + [Begin(0)], s3, s6);
    OwedAfter([], Sent(false, width, height), 0);
    UnaskedOwed(s0.log, ask);
  }
}
