/** Exactly when the VNC session has two requests with the server at once. */
module VncOverrun {
  import opened Options
  import opened VncPacing

  // ----- The pattern, in what the two peers send -----

  predicate Answers(e: Entry) {
    e.Acked? || e.Refused?
  }

  /** The panel has not answered the frame before. */
  predicate Unanswered(log: seq<Entry>)
    decreases |log|
  {
    log != [] &&
    var last := log[|log| - 1];
    !Answers(last) && (last.Framed? || Unanswered(log[..|log| - 1]))
  }

  /** Update `b` begins while the panel still owes an answer to the frame before; the panel
      answers at `i`, while the update is read, and again at `k`, after its frame at `f` and
      before the server begins another. */
  ghost predicate OverrunBy(log: seq<Entry>, b: nat, i: nat, f: nat, k: nat) {
    && b < i < f < k < |log|
    && log[b].Began? && Unanswered(log[..b]) && Answers(log[i]) && log[f].Framed? && Answers(log[k])
    && (forall j :: b < j < k ==> !log[j].Began?) && (forall j :: b < j < f ==> !log[j].Framed?)
  }

  ghost predicate Overrun(log: seq<Entry>) {
    exists b: nat, i: nat, f: nat, k: nat :: OverrunBy(log, b, i, f, k)
  }

  /** At some point the server had two requests it had not begun to answer. */
  ghost predicate Doubled(log: seq<Entry>) {
    exists n :: 0 <= n <= |log| && Owed(log[..n]) >= 2
  }

  // ----- How far the pattern has got -----

  datatype Stage = Calm | Early | Answered | Loose

  /** Early: an update begun too early is being read. Answered: the panel has answered during
      it. Loose: its frame is out, and the next answer makes a second request. */
  function StageOf(log: seq<Entry>): Stage
    decreases |log|
  {
    if log == [] then Calm
    else
      var before, last := log[..|log| - 1], log[|log| - 1];
      var stage := StageOf(before);
      if last.Began? then if Unanswered(before) then Early else Calm
      else if Answers(last) then
        match stage
        case Early => Answered
        case Loose => Calm
        case _ => stage
      else if last.Framed? then
        match stage
        case Early => Calm
        case Answered => Loose
        case _ => stage
      else stage
  }

  predicate Overran(log: seq<Entry>)
    decreases |log|
  {
    log != [] &&
    (Overran(log[..|log| - 1]) || (Answers(log[|log| - 1]) && StageOf(log[..|log| - 1]) == Loose))
  }

  lemma StageSnoc(log: seq<Entry>, e: Entry)
    ensures Unanswered(log + [e]) <==> !Answers(e) && (e.Framed? || Unanswered(log))
    ensures StageOf(log + [e])
         == if e.Began? then (if Unanswered(log) then Early else Calm)
            else if Answers(e) then
              (if StageOf(log) == Early then Answered else if StageOf(log) == Loose then Calm else StageOf(log))
            else if e.Framed? then
              (if StageOf(log) == Early then Calm else if StageOf(log) == Answered then Loose else StageOf(log))
            else StageOf(log)
    ensures Overran(log + [e]) <==> Overran(log) || (Answers(e) && StageOf(log) == Loose)
  {
    assert (log + [e])[..|log|] == log;
  }

  // ----- The stages are the parts of the pattern -----

  /** None of the marked kinds of entry since `from`. */
  ghost predicate NoneSince(log: seq<Entry>, from: nat, began: bool, framed: bool, answered: bool) {
    forall j :: from < j < |log| ==>
      (began ==> !log[j].Began?) && (framed ==> !log[j].Framed?) && (answered ==> !Answers(log[j]))
  }

  ghost predicate EarlyAt(log: seq<Entry>, b: nat) {
    b < |log| && log[b].Began? && Unanswered(log[..b]) && NoneSince(log, b, true, true, true)
  }

  ghost predicate AnsweredAt(log: seq<Entry>, b: nat, i: nat) {
    b < i < |log| && log[b].Began? && Unanswered(log[..b]) && Answers(log[i]) && NoneSince(log, b, true, true, false)
  }

  ghost predicate LooseAt(log: seq<Entry>, b: nat, i: nat, f: nat) {
    && b < i < f < |log| && log[b].Began? && Unanswered(log[..b]) && Answers(log[i]) && log[f].Framed?
    && NoneSince(log, b, true, false, false) && NoneSince(log, f, false, false, true)
    && forall j :: b < j < f ==> !log[j].Framed?
  }

  ghost predicate StageMeans(log: seq<Entry>) {
    && (StageOf(log) == Early ==> exists b: nat :: EarlyAt(log, b))
    && (StageOf(log) == Answered ==> exists b: nat, i: nat :: AnsweredAt(log, b, i))
    && (StageOf(log) == Loose ==> exists b: nat, i: nat, f: nat :: LooseAt(log, b, i, f))
  }

  lemma StageMeansSnoc(log: seq<Entry>, e: Entry)
    requires StageMeans(log)
    ensures StageMeans(log + [e])
  {
    var all := log + [e];
    StageSnoc(log, e);
    assert forall j :: 0 <= j <= |log| ==> all[..j] == log[..j];
    if e.Began? && Unanswered(log) { assert all[..|log|] == log; assert EarlyAt(all, |log|); }
    if !e.Began? && StageOf(log) == Early {
      var b: nat :| EarlyAt(log, b);
      if Answers(e) { assert AnsweredAt(all, b, |log|); } else if !e.Framed? { assert EarlyAt(all, b); }
    }
    if !e.Began? && StageOf(log) == Answered {
      var b: nat, i: nat :| AnsweredAt(log, b, i);
      if e.Framed? { assert LooseAt(all, b, i, |log|); } else { assert AnsweredAt(all, b, i); }
    }
    if !e.Began? && StageOf(log) == Loose && !Answers(e) {
      var b: nat, i: nat, f: nat :| LooseAt(log, b, i, f);
      assert LooseAt(all, b, i, f);
    }
  }

  lemma {:induction false} StageMeansAlways(log: seq<Entry>)
    ensures StageMeans(log)
    decreases |log|
  {
    if log != [] {
      var init, last := log[..|log| - 1], log[|log| - 1];
      StageMeansAlways(init);
      StageMeansSnoc(init, last);
      assert log == init + [last];
    }
  }

  lemma OverrunGrows(log: seq<Entry>, e: Entry)
    requires Overrun(log)
    ensures Overrun(log + [e])
  {
    var b: nat, i: nat, f: nat, k: nat :| OverrunBy(log, b, i, f, k);
    assert (log + [e])[..b] == log[..b];
    assert OverrunBy(log + [e], b, i, f, k);
  }

  lemma {:induction false} OverranIsOverrun(log: seq<Entry>)
    requires Overran(log)
    ensures Overrun(log)
    decreases |log|
  {
    var init, last := log[..|log| - 1], log[|log| - 1];
    assert log == init + [last];
    if Overran(init) {
      OverranIsOverrun(init);
      OverrunGrows(init, last);
    } else {
      StageMeansAlways(init);
      var b: nat, i: nat, f: nat :| LooseAt(init, b, i, f);
      assert log[..b] == init[..b];
      assert OverrunBy(log, b, i, f, |init|);
    }
  }

  /** From the pattern's beginning on, the stage is where the pattern has got. */
  lemma {:induction false} PatternStage(log: seq<Entry>, b: nat, i: nat, f: nat, n: nat)
    requires b < i < f < |log| && b < n <= |log|
    requires log[b].Began? && Unanswered(log[..b]) && Answers(log[i]) && log[f].Framed?
    requires (forall j :: b < j < n ==> !log[j].Began?) && (forall j :: b < j < f ==> !log[j].Framed?)
    requires forall j :: f < j < n ==> !Answers(log[j])
    ensures n <= i ==> StageOf(log[..n]) == Early || StageOf(log[..n]) == Answered
    ensures i < n <= f ==> StageOf(log[..n]) == Answered
    ensures f < n ==> StageOf(log[..n]) == Loose
    decreases n
  {
    assert log[..n] == log[..n - 1] + [log[n - 1]];
    StageSnoc(log[..n - 1], log[n - 1]);
    if n > b + 1 { PatternStage(log, b, i, f, n - 1); }
  }

  lemma {:induction false} OverranGrows(log: seq<Entry>, n: nat)
    requires n <= |log| && Overran(log[..n])
    ensures Overran(log)
    decreases |log|
  {
    if n < |log| {
      var init := log[..|log| - 1];
      assert init[..n] == log[..n];
      OverranGrows(init, n);
      assert log == init + [log[|log| - 1]];
      StageSnoc(init, log[|log| - 1]);
    } else {
      assert log[..n] == log;
    }
  }

  lemma OverrunIsOverran(log: seq<Entry>, b: nat, i: nat, f: nat, k: nat)
    requires OverrunBy(log, b, i, f, k)
    ensures Overran(log)
  {
    var first := FirstAnswer(log, f, k);
    PatternStage(log, b, i, f, first);
    assert log[..first + 1] == log[..first] + [log[first]];
    StageSnoc(log[..first], log[first]);
    OverranGrows(log, first + 1);
  }

  lemma {:induction false} FirstAnswer(log: seq<Entry>, f: nat, k: nat) returns (first: nat)
    requires f < k < |log| && Answers(log[k])
    ensures f < first <= k && Answers(log[first]) && forall j :: f < j < first ==> !Answers(log[j])
    decreases k
  {
    if j :| f < j < k && Answers(log[j]) {
      first := FirstAnswer(log, f, j);
    } else {
      first := k;
    }
  }

  lemma OverrunIff(log: seq<Entry>)
    ensures Overrun(log) <==> Overran(log)
  {
    if Overran(log) { OverranIsOverrun(log); }
    if b: nat, i: nat, f: nat, k: nat :| OverrunBy(log, b, i, f, k) { OverrunIsOverran(log, b, i, f, k); }
  }

  // ----- What the session owes at each stage -----

  lemma DoubledSnoc(log: seq<Entry>, e: Entry)
    ensures Doubled(log + [e]) <==> Doubled(log) || Owed(log + [e]) >= 2
  {
    var all := log + [e];
    assert forall n :: 0 <= n <= |log| ==> all[..n] == log[..n];
    assert all[..|all|] == all;
    if n :| 0 <= n <= |all| && Owed(all[..n]) >= 2 {
      assert n <= |log| ==> Owed(log[..n]) >= 2;
    }
    if n :| 0 <= n <= |log| && Owed(log[..n]) >= 2 { assert Owed(all[..n]) >= 2; }
  }

  /** Before any overrun, the stage tells the fields and what the server owes. */
  ghost predicate Staged(s: Session) {
    !s.closed ==>
      && (s.awaitingAck <==> Unanswered(s.log))
      && match StageOf(s.log)
         case Calm => Owed(s.log) + (if s.reading.Some? then 1 else 0) == if s.requestOutstanding then 1 else 0
         case Early => s.reading.Some? && !s.requestOutstanding && Owed(s.log) == 0
         case Answered => s.reading.Some? && s.requestOutstanding && Owed(s.log) == 1
         case Loose => s.reading.None? && !s.requestOutstanding && Owed(s.log) == 1
  }

  ghost predicate Tallied(s: Session) {
    && (Overran(s.log) <==> Doubled(s.log))
    && (!Overran(s.log) ==> Owed(s.log) <= 1 && Staged(s))
  }

  lemma EntrySnoc(log: seq<Entry>, e: Entry)
    ensures Owed(log + [e])
         == if e.Sent? then Owed(log) + 1 else if e.Began? && Owed(log) > 0 then Owed(log) - 1 else Owed(log)
    ensures StageOf(log + [e])
         == if e.Began? then (if Unanswered(log) then Early else Calm)
            else if Answers(e) then
              (if StageOf(log) == Early then Answered else if StageOf(log) == Loose then Calm else StageOf(log))
            else if e.Framed? then
              (if StageOf(log) == Early then Calm else if StageOf(log) == Answered then Loose else StageOf(log))
            else StageOf(log)
    ensures Unanswered(log + [e]) <==> !Answers(e) && (e.Framed? || Unanswered(log))
    ensures Overran(log + [e]) <==> Overran(log) || (Answers(e) && StageOf(log) == Loose)
    ensures Doubled(log + [e]) <==> Doubled(log) || Owed(log + [e]) >= 2
  {
    StageSnoc(log, e);
    DoubledSnoc(log, e);
    ReadingSnoc(0, 0, log, e);
  }

  lemma AttachedTallied(width: nat, height: nat)
    ensures Tallied(Attached(width, height))
  {
    var ask := Sent(false, width, height);
    assert Attached(width, height).log == [] + [ask];
    EntrySnoc([], ask);
    assert !Doubled([]);
  }

  lemma BeganTallied(s: Session, count: nat)
    requires Tallied(s) && Enabled(s, Begin(count)) && s.requestOutstanding != s.awaitingAck
    ensures Tallied(Step(s, Begin(count)))
  {
    hide Owed, StageOf, Unanswered, Overran, Doubled;
    EntrySnoc(s.log, Began);
  }

  lemma FinishTallied(s: Session)
    requires Tallied(s) && s.reading == Some(0) && (!s.closed ==> s.requestOutstanding != s.awaitingAck)
    ensures Tallied(ReadFinish(s))
  {
    hide Owed, StageOf, Unanswered, Overran, Doubled;
    EntrySnoc(s.log, Framed);
  }

  lemma QuietTallied(s: Session, t: Session, e: Entry)
    requires Tallied(s) && s.reading.Some? && t.reading.Some? && t.closed == s.closed
    requires t.requestOutstanding == s.requestOutstanding && t.awaitingAck == s.awaitingAck
    requires (e.Drawn? || e.Sized?) && t.log == s.log + [e]
    ensures Tallied(t)
  {
    hide Owed, StageOf, Unanswered, Overran, Doubled;
    EntrySnoc(s.log, e);
  }

  lemma ClosedTallied(s: Session, t: Session)
    requires Tallied(s) && t.closed && t.log == s.log
    ensures Tallied(t)
  {
    hide Owed, StageOf, Unanswered, Overran, Doubled;
  }

  lemma RectTallied(s: Session, r: Rect)
    requires Tallied(s) && s.reading.Some? && s.reading.value > 0
    ensures Tallied(ReadRect(s, r))
  {
    hide Tallied, GoodSize;
    var next := s.(reading := Some(s.reading.value - 1));
    SameTallied(s, next);
    ClosedTallied(s, Fail(s));
    QuietTallied(s, Note(next, Drawn(r)), Drawn(r));
    var sized := Note(next.(width := r.w, height := r.h, generation := s.generation + 1, refreshWanted := true), Sized(r.w, r.h));
    QuietTallied(s, sized, Sized(r.w, r.h));
  }

  lemma SameTallied(s: Session, t: Session)
    requires Tallied(s) && t == s.(reading := t.reading) && s.reading.Some? && t.reading.Some?
    ensures Tallied(t)
  {
    hide Owed, StageOf, Unanswered, Overran, Doubled;
  }

  /** An answer that makes the session ask: the two entries it logs, one after the other. */
  lemma AskTallied(s: Session, t: Session, answer: Entry, ask: Entry)
    requires Tallied(s) && !s.closed && s.awaitingAck && !s.requestOutstanding && Answers(answer) && ask.Sent?
    requires t == s.(awaitingAck := false, requestOutstanding := true, refreshWanted := t.refreshWanted,
                     log := s.log + [answer] + [ask])
    ensures Tallied(t)
  {
    hide Owed, StageOf, Unanswered, Overran, Doubled;
    EntrySnoc(s.log, answer);
    EntrySnoc(s.log + [answer], ask);
  }

  lemma NoAskTallied(s: Session, t: Session)
    requires Tallied(s) && !s.closed && !s.awaitingAck && s.requestOutstanding
    requires t == s.(refreshWanted := t.refreshWanted, log := s.log + [Refused])
    ensures Tallied(t)
  {
    hide Owed, StageOf, Unanswered, Overran, Doubled;
    EntrySnoc(s.log, Refused);
  }

  lemma ClientTallied(s: Session, kind: int)
    requires Tallied(s) && (!s.closed ==> s.requestOutstanding != s.awaitingAck)
    ensures Tallied(OnClient(s, kind))
  {
    hide Tallied;
    if !s.closed && ((kind == 0 && s.awaitingAck) || kind == 4) {
      if s.requestOutstanding {
        NoAskTallied(s, OnClient(s, kind));
      } else {
        var answer := if kind == 0 then Acked else Refused;
        AskTallied(s, OnClient(s, kind), answer, Sent(kind == 0 && !s.refreshWanted, s.width, s.height));
      }
    }
  }

  lemma StepTallied(s: Session, e: Event, width: nat, height: nat)
    requires Inv(s, width, height) && Tallied(s) && Enabled(s, e)
    ensures Tallied(Step(s, e))
  {
    hide Tallied, Tracks;
    match e
    case Begin(count) => BeganTallied(s, count);
    case Rectangle(r) => RectTallied(s, r);
    case Finish => FinishTallied(s);
    case Client(kind) => ClientTallied(s, kind);
    case Close => ClosedTallied(s, Step(s, e));
  }

  lemma {:induction false} RunTallied(width: nat, height: nat, events: seq<Event>, s: Session)
    requires Reaches(width, height, events, s)
    ensures Tallied(s)
    decreases |events|
  {
    hide Tallied;
    if events == [] {
      AttachedTallied(width, height);
    } else {
      var init, last := events[..|events| - 1], events[|events| - 1];
      var before :| Reaches(width, height, init, before) && Enabled(before, last) && s == Step(before, last);
      RunTallied(width, height, init, before);
      RunInv(width, height, init, before);
      StepTallied(before, last, width, height);
    }
  }

  /** Whatever the server and the panel do, the session has at some point two requests with the
      server exactly when some update begins before the panel has answered the frame before, the
      panel answers while it is read, and answers its frame before the server begins another. */
  lemma TwoRequestsIffOverrun(width: nat, height: nat, events: seq<Event>, s: Session)
    requires Reaches(width, height, events, s)
    ensures Doubled(s.log) <==> Overrun(s.log)
  {
    RunTallied(width, height, events, s);
    OverrunIff(s.log);
  }

  /** A server that begins an update only when it owes one never makes that happen: a session
      that owes it an answer has asked for nothing. */
  lemma HonestNeverOverruns(width: nat, height: nat, events: seq<Event>, s: Session)
    requires Reaches(width, height, events, s) && Honest(s.log)
    ensures !Overrun(s.log) && !Doubled(s.log)
  {
    HonestNeverEarly(width, height, events, s);
    CalmOwesNothing(s.log);
    OverrunIff(s.log);
    TwoRequestsIffOverrun(width, height, events, s);
  }

  /** No update begins before the frame before it is answered. */
  ghost predicate NeverEarly(log: seq<Entry>) {
    forall b :: 0 <= b < |log| && log[b].Began? ==> !Unanswered(log[..b])
  }

  lemma NothingEarly()
    ensures NeverEarly([])
  {
  }

  lemma NeverEarlySnoc(log: seq<Entry>, e: Entry)
    requires NeverEarly(log) && (e.Began? ==> !Unanswered(log))
    ensures NeverEarly(log + [e])
  {
    assert forall b :: 0 <= b <= |log| ==> (log + [e])[..b] == log[..b];
    assert log[..|log|] == log;
  }

  lemma NeverEarlyTwo(log: seq<Entry>, e: Entry, f: Entry)
    requires NeverEarly(log) && !e.Began? && !f.Began?
    ensures NeverEarly(log + [e] + [f]) && NeverEarly(log + [e])
  {
    NeverEarlySnoc(log, e);
    NeverEarlySnoc(log + [e], f);
  }

  lemma {:induction false} CalmOwesNothing(log: seq<Entry>)
    requires NeverEarly(log)
    ensures StageOf(log) == Calm && !Overran(log)
    decreases |log|
  {
    if log != [] {
      var init, last := log[..|log| - 1], log[|log| - 1];
      assert log == init + [last] && init == log[..|init|];
      assert forall b :: 0 <= b < |init| ==> init[..b] == log[..b];
      CalmOwesNothing(init);
      StageSnoc(init, last);
    }
  }

  /** Open or closed, what one step logs. */
  ghost predicate LogsQuietly(s: Session, t: Session) {
    t.log == s.log
    || (exists e :: t.log == s.log + [e] && !e.Began?)
    || (exists e, f :: t.log == s.log + [e] + [f] && !e.Began? && !f.Began?)
  }

  lemma StepLogs(s: Session, e: Event)
    requires Enabled(s, e) && !e.Begin?
    ensures LogsQuietly(s, Step(s, e))
  {
    var t := Step(s, e);
    match e
    case Rectangle(r) =>
      if t.log != s.log {
        var n := if r.encoding == ENC_RAW then Drawn(r) else Sized(r.w, r.h);
        assert t.log == s.log + [n];
      }
    case Finish => assert t.log == s.log + [Framed];
    case Client(kind) =>
      if t.log != s.log {
        var answer, ask := if kind == 0 then Acked else Refused, Sent(kind == 0 && !s.refreshWanted, s.width, s.height);
        assert t.log == s.log + [answer] || t.log == s.log + [answer] + [ask];
      }
    case Close =>
  }

  lemma OwedIsAnswered(s: Session, width: nat, height: nat)
    requires Tallied(s) && Inv(s, width, height) && NeverEarly(s.log) && !s.closed && s.reading.None? && Owed(s.log) > 0
    ensures !Unanswered(s.log)
  {
    hide Tracks;
    CalmOwesNothing(s.log);
  }

  lemma {:induction false} HonestNeverEarly(width: nat, height: nat, events: seq<Event>, s: Session)
    requires Reaches(width, height, events, s) && Honest(s.log)
    ensures NeverEarly(s.log)
    decreases |events|
  {
    hide Tallied, Inv, Owed, NeverEarly, LogsQuietly;
    if events == [] {
      assert s.log == [] + [Sent(false, width, height)];
      NothingEarly();
      NeverEarlySnoc([], Sent(false, width, height));
    } else {
      var init, last := events[..|events| - 1], events[|events| - 1];
      var before :| Reaches(width, height, init, before) && Enabled(before, last) && s == Step(before, last);
      HonestBefore(before, s, last);
      HonestNeverEarly(width, height, init, before);
      if last.Begin? {
        HonestSnoc(before.log, Began);
        RunTallied(width, height, init, before);
        RunInv(width, height, init, before);
        OwedIsAnswered(before, width, height);
        NeverEarlySnoc(before.log, Began);
      } else {
        StepLogs(before, last);
        QuietNeverEarly(before, s);
      }
    }
  }

  lemma QuietNeverEarly(s: Session, t: Session)
    requires NeverEarly(s.log) && LogsQuietly(s, t)
    ensures NeverEarly(t.log)
  {
    if e :| t.log == s.log + [e] && !e.Began? { NeverEarlySnoc(s.log, e); }
    if e, f :| t.log == s.log + [e] + [f] && !e.Began? && !f.Began? { NeverEarlyTwo(s.log, e, f); }
  }

  lemma HonestBefore(s: Session, t: Session, e: Event)
    requires Enabled(s, e) && t == Step(s, e) && Honest(t.log)
    ensures Honest(s.log)
  {
    if e.Begin? {
      HonestSnoc(s.log, Began);
    } else {
      StepLogs(s, e);
      if f :| t.log == s.log + [f] && !f.Began? { HonestSnoc(s.log, f); }
      if f, g :| t.log == s.log + [f] + [g] && !f.Began? && !g.Began? {
        HonestSnoc(s.log, f);
        HonestSnoc(s.log + [f], g);
      }
    }
  }

  // ----- What pacing gives short of an overrun -----

  /** Short of an overrun the server never has two requests at once, and nothing stalls: an open
      session either has a request out, with the server or being answered, or awaits the panel,
      whose next answer sends one. */
  lemma OneRequestShortOfOverrun(width: nat, height: nat, events: seq<Event>, s: Session)
    requires Reaches(width, height, events, s) && !Overrun(s.log)
    ensures forall n :: 0 <= n <= |s.log| ==> Owed(s.log[..n]) <= 1
    ensures !s.closed && s.requestOutstanding ==> Owed(s.log) == 1 || s.reading.Some?
    ensures !s.closed && !s.requestOutstanding ==>
              forall kind :: kind == 0 || kind == 4 ==>
                OnClient(s, kind).requestOutstanding && Owed(OnClient(s, kind).log) == Owed(s.log) + 1
  {
    TwoRequestsIffOverrun(width, height, events, s);
    RunTallied(width, height, events, s);
    RunInv(width, height, events, s);
    OverrunIff(s.log);
    if !s.closed && !s.requestOutstanding {
      forall kind | kind == 0 || kind == 4
        ensures OnClient(s, kind).requestOutstanding && Owed(OnClient(s, kind).log) == Owed(s.log) + 1
      {
        AnswerAsks(s, kind);
      }
    }
  }

  lemma AnswerAsks(s: Session, kind: int)
    requires !s.closed && s.awaitingAck && !s.requestOutstanding && (kind == 0 || kind == 4)
    ensures OnClient(s, kind).requestOutstanding && Owed(OnClient(s, kind).log) == Owed(s.log) + 1
  {
    var answer, ask := if kind == 0 then Acked else Refused, Sent(kind == 0 && !s.refreshWanted, s.width, s.height);
    assert OnClient(s, kind).log == s.log + [answer] + [ask];
    ReadingSnoc(0, 0, s.log, answer);
    ReadingSnoc(0, 0, s.log + [answer], ask);
  }

  /** And with a server that only answers: while the session is open, either the server still
      owes the rest of one update, or the panel owes an answer to a frame. */
  lemma OneRequestAtATime(width: nat, height: nat, events: seq<Event>, s: Session)
    requires Reaches(width, height, events, s) && Honest(s.log) && !s.closed
    ensures Owed(s.log) + (if s.reading.Some? then 1 else 0) == if s.awaitingAck then 0 else 1
  {
    HonestNeverEarly(width, height, events, s);
    CalmOwesNothing(s.log);
    RunTallied(width, height, events, s);
    RunInv(width, height, events, s);
  }
}
