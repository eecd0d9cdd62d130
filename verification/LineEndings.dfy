/** Line endings: telling them apart, stripping and rewriting them. */
module LineEndings {
  import opened Options

  datatype Style = LF | CRLF | CR | Mixed | NoEnding

  function CrlfToLf(t: string): string {
    if t == [] then []
    else if |t| >= 2 && t[0] == '\r' && t[1] == '\n' then "\n" + CrlfToLf(t[2..])
    else [t[0]] + CrlfToLf(t[1..])
  }

  function Replaced(t: string, c: char, put: string): string {
    if t == [] then [] else (if t[0] == c then put else [t[0]]) + Replaced(t[1..], c, put)
  }

  function StripLineEndings(t: string): string {
    Replaced(CrlfToLf(t), '\r', "\n")
  }

  datatype Counts = Counts(crlf: nat, lf: nat, cr: nat)

  /** The endings from `i` on. */
  function CountFrom(t: string, i: nat): Counts
    decreases |t| - i
  {
    if i >= |t| then Counts(0, 0, 0)
    else if t[i] == '\r' then
      if i + 1 < |t| && t[i + 1] == '\n' then var c := CountFrom(t, i + 2); c.(crlf := c.crlf + 1)
      else var c := CountFrom(t, i + 1); c.(cr := c.cr + 1)
    else if t[i] == '\n' then var c := CountFrom(t, i + 1); c.(lf := c.lf + 1)
    else CountFrom(t, i + 1)
  }

  function Count(t: string): Counts {
    CountFrom(t, 0)
  }

  function StyleOf(c: Counts): Style {
    var kinds := (if c.crlf > 0 then 1 else 0) + (if c.lf > 0 then 1 else 0) + (if c.cr > 0 then 1 else 0);
    if kinds == 0 then NoEnding else if kinds > 1 then Mixed
    else if c.crlf > 0 then CRLF else if c.cr > 0 then CR else LF
  }

  function Add(c: Counts, d: Counts): Counts {
    Counts(c.crlf + d.crlf, c.lf + d.lf, c.cr + d.cr)
  }

  method DetectLineEndingStyle(text: string) returns (style: Style)
    ensures style == StyleOf(Count(text))
  {
    var crlf, lf, cr: nat := 0, 0, 0;
    var i := 0;
    while i < |text|
      invariant 0 <= i <= |text|
      invariant Add(Counts(crlf, lf, cr), CountFrom(text, i)) == Count(text)
    {
      var ch := text[i];
      if ch == '\r' {
        if i + 1 < |text| && text[i + 1] == '\n' {
          crlf := crlf + 1;
          i := i + 1;
        } else {
          cr := cr + 1;
        }
      } else if ch == '\n' {
        lf := lf + 1;
      }
      i := i + 1;
    }
    style := StyleOf(Counts(crlf, lf, cr));
  }

  // ----- What the counts mean -----

  predicate PairAt(t: string, i: nat) {
    i + 1 < |t| && t[i] == '\r' && t[i + 1] == '\n'
  }

  predicate LoneLfAt(t: string, i: nat) {
    i < |t| && t[i] == '\n' && (i == 0 || t[i - 1] != '\r')
  }

  predicate LoneCrAt(t: string, i: nat) {
    i < |t| && t[i] == '\r' && (i == |t| - 1 || t[i + 1] != '\n')
  }

  /** From a position that does not split a pair, a style is counted exactly when the text has
      an ending of that style. */
  lemma {:induction false} CountsMean(t: string, i: nat)
    requires i <= |t| && (0 < i ==> !PairAt(t, i - 1))
    ensures CountFrom(t, i).crlf > 0 <==> exists k :: k >= i && PairAt(t, k)
    ensures CountFrom(t, i).lf > 0 <==> exists k :: k >= i && LoneLfAt(t, k)
    ensures CountFrom(t, i).cr > 0 <==> exists k :: k >= i && LoneCrAt(t, k)
    decreases |t| - i
  {
    if i < |t| {
      var next := if PairAt(t, i) then i + 2 else i + 1;
      CountsMean(t, next);
      assert forall k :: i <= k < next && PairAt(t, k) ==> k == i;
      assert forall k :: i <= k < next && LoneLfAt(t, k) ==> k == i;
      assert forall k :: i <= k < next && LoneCrAt(t, k) ==> k == i;
      assert PairAt(t, i) || LoneLfAt(t, i) || LoneCrAt(t, i) <==> t[i] == '\r' || t[i] == '\n';
    }
  }

  // ----- Rewriting -----

  function ApplyLineEndingStyle(text: string, target: Style): string {
    var lf := StripLineEndings(text);
    match target
    case CRLF => Replaced(lf, '\n', "\r\n")
    case CR => Replaced(lf, '\n', "\r")
    case _ => lf
  }

  lemma {:induction false} NoneLeft(t: string, c: char, put: string)
    requires c !in put
    ensures c !in Replaced(t, c, put)
    decreases |t|
  {
    if t != [] { NoneLeft(t[1..], c, put); }
  }

  lemma StripHasNoCr(t: string)
    ensures '\r' !in StripLineEndings(t)
  {
    NoneLeft(CrlfToLf(t), '\r', "\n");
  }

  lemma {:induction false} NoPairNoChange(t: string)
    requires '\n' !in t || '\r' !in t
    ensures CrlfToLf(t) == t
    decreases |t|
  {
    if t != [] {
      assert forall c :: c in t[1..] ==> c in t;
      NoPairNoChange(t[1..]);
    }
  }

  lemma {:induction false} ReplaceNothing(t: string, c: char, put: string)
    requires c !in t
    ensures Replaced(t, c, put) == t
    decreases |t|
  {
    if t != [] {
      assert forall d :: d in t[1..] ==> d in t;
      ReplaceNothing(t[1..], c, put);
    }
  }

  lemma {:induction false} PairsUndone(t: string)
    requires '\r' !in t
    ensures CrlfToLf(Replaced(t, '\n', "\r\n")) == t
    decreases |t|
  {
    if t != [] {
      assert forall d :: d in t[1..] ==> d in t;
      PairsUndone(t[1..]);
      var rest := Replaced(t[1..], '\n', "\r\n");
      assert t[0] == '\n' ==> ("\r\n" + rest)[2..] == rest;
      assert t[0] != '\n' ==> ([t[0]] + rest)[1..] == rest;
    }
  }

  lemma {:induction false} ReturnsUndone(t: string)
    requires '\r' !in t
    ensures Replaced(Replaced(t, '\n', "\r"), '\r', "\n") == t
    decreases |t|
  {
    if t != [] {
      assert forall d :: d in t[1..] ==> d in t;
      ReturnsUndone(t[1..]);
      var rest := Replaced(t[1..], '\n', "\r");
      assert t[0] == '\n' ==> ("\r" + rest)[1..] == rest;
      assert t[0] != '\n' ==> ([t[0]] + rest)[1..] == rest;
    }
  }

  /** Rewriting line endings changes nothing else: the stripped text stays the same. */
  lemma ApplyKeepsContent(text: string, target: Style)
    ensures StripLineEndings(ApplyLineEndingStyle(text, target)) == StripLineEndings(text)
  {
    var lf := StripLineEndings(text);
    StripHasNoCr(text);
    if target == CRLF {
      PairsUndone(lf);
      ReplaceNothing(lf, '\r', "\n");
    } else if target == CR {
      NoneLeft(lf, '\n', "\r");
      NoPairNoChange(Replaced(lf, '\n', "\r"));
      ReturnsUndone(lf);
    } else {
      NoPairNoChange(lf);
      ReplaceNothing(lf, '\r', "\n");
    }
  }

  function Lines(t: string): nat {
    if t == [] then 0 else Lines(t[1..]) + if t[0] == '\n' then 1 else 0
  }

  lemma {:induction false} CountBehind(a: string, b: string, j: nat)
    ensures CountFrom(a + b, |a| + j) == CountFrom(b, j)
    decreases |b| - j
  {
    if j < |b| {
      CountBehind(a, b, j + 1);
      CountBehind(a, b, j + 2);
    }
  }

  /** The three ways of writing a stripped text, and what is counted in each. */
  ghost predicate CountsApplied(lf: string) {
    && CountFrom(lf, 0) == Counts(0, Lines(lf), 0)
    && CountFrom(Replaced(lf, '\n', "\r\n"), 0) == Counts(Lines(lf), 0, 0)
    && CountFrom(Replaced(lf, '\n', "\r"), 0) == Counts(0, 0, Lines(lf))
  }

  lemma PairAdded(t: string, rest: string, n: nat)
    requires |t| == |rest| + 2 && t[0] == '\r' && t[1] == '\n' && t[2..] == rest
    requires CountFrom(rest, 0) == Counts(n, 0, 0)
    ensures CountFrom(t, 0) == Counts(n + 1, 0, 0)
  {
    assert t == "\r\n" + rest;
    CountBehind("\r\n", rest, 0);
    assert CountFrom(t, 2) == Counts(n, 0, 0);
  }

  lemma ReturnAdded(t: string, rest: string, n: nat)
    requires |t| == |rest| + 1 && t[0] == '\r' && t[1..] == rest && '\n' !in rest
    requires CountFrom(rest, 0) == Counts(0, 0, n)
    ensures CountFrom(t, 0) == Counts(0, 0, n + 1)
  {
    assert t == "\r" + rest;
    CountBehind("\r", rest, 0);
    assert CountFrom(t, 1) == Counts(0, 0, n);
    assert rest != [] ==> t[1] == rest[0] && rest[0] in rest;
  }

  lemma FeedAdded(t: string, rest: string, n: nat)
    requires |t| == |rest| + 1 && t[0] == '\n' && t[1..] == rest
    requires CountFrom(rest, 0) == Counts(0, n, 0)
    ensures CountFrom(t, 0) == Counts(0, n + 1, 0)
  {
    assert t == "\n" + rest;
    CountBehind("\n", rest, 0);
    assert CountFrom(t, 1) == Counts(0, n, 0);
  }

  lemma PlainAdded(t: string, rest: string)
    requires |t| == |rest| + 1 && t[0] != '\r' && t[0] != '\n' && t[1..] == rest
    ensures CountFrom(t, 0) == CountFrom(rest, 0)
  {
    assert t == [t[0]] + rest;
    CountBehind([t[0]], rest, 0);
  }

  lemma FeedApplied(lf: string, rest: string)
    requires lf != [] && lf[0] == '\n' && lf[1..] == rest && CountsApplied(rest)
    ensures CountsApplied(lf)
  {
    FeedAdded(lf, rest, Lines(rest));
    var pairs := Replaced(rest, '\n', "\r\n");
    assert ("\r\n" + pairs)[2..] == pairs;
    PairAdded("\r\n" + pairs, pairs, Lines(rest));
    var bare := Replaced(rest, '\n', "\r");
    NoneLeft(rest, '\n', "\r");
    assert ("\r" + bare)[1..] == bare;
    ReturnAdded("\r" + bare, bare, Lines(rest));
  }

  lemma PlainApplied(c: char, lf: string, rest: string)
    requires lf != [] && lf[0] == c && lf[1..] == rest && c != '\r' && c != '\n' && CountsApplied(rest)
    ensures CountsApplied(lf)
  {
    PlainAdded(lf, rest);
    var pairs, bare := Replaced(rest, '\n', "\r\n"), Replaced(rest, '\n', "\r");
    assert ([c] + pairs)[1..] == pairs && ([c] + bare)[1..] == bare;
    PlainAdded([c] + pairs, pairs);
    PlainAdded([c] + bare, bare);
  }

  lemma {:induction false} CountApplied(lf: string)
    requires '\r' !in lf
    ensures CountsApplied(lf)
    decreases |lf|
  {
    if lf != [] {
      var c, rest := lf[0], lf[1..];
      assert forall d :: d in rest ==> d in lf;
      CountApplied(rest);
      if c == '\n' { FeedApplied(lf, rest); } else { PlainApplied(c, lf, rest); }
    }
  }

  lemma {:induction false} AnyLine(t: string)
    ensures Lines(t) > 0 <==> '\n' in t
    decreases |t|
  {
    if t != [] {
      AnyLine(t[1..]);
      assert t == [t[0]] + t[1..];
    }
  }

  /** The style asked for is the style found, whenever the text has a line ending at all. */
  lemma AppliedStyleIsFound(text: string, target: Style)
    ensures StyleOf(Count(ApplyLineEndingStyle(text, target)))
         == if '\n' !in StripLineEndings(text) then NoEnding
            else if target == CRLF || target == CR then target else LF
  {
    StripHasNoCr(text);
    CountApplied(StripLineEndings(text));
    AnyLine(StripLineEndings(text));
  }

  predicate IsEolOnlyDiff(oldText: Option<string>, newText: Option<string>) {
    oldText.Some? && newText.Some? && oldText != newText
    && StripLineEndings(oldText.value) == StripLineEndings(newText.value)
  }

  function NormalizeWorktreeToMatchHead(oldText: Option<string>, newText: Option<string>): Option<string> {
    if !IsEolOnlyDiff(oldText, newText) then None
    else
      var style := StyleOf(Count(oldText.value));
      var normalized := ApplyLineEndingStyle(newText.value, if style == Mixed || style == NoEnding then LF else style);
      if StripLineEndings(normalized) == StripLineEndings(oldText.value)
         && StripLineEndings(oldText.value) == StripLineEndings(newText.value)
      then oldText
      else Some(normalized)
  }

  /** Whatever the two styles, the worktree text is replaced by the old text byte for byte:
      the rewritten text computed on the way is never the one returned. */
  lemma WorktreeBecomesHead(oldText: Option<string>, newText: Option<string>)
    ensures NormalizeWorktreeToMatchHead(oldText, newText)
         == if IsEolOnlyDiff(oldText, newText) then oldText else None
  {
    if IsEolOnlyDiff(oldText, newText) {
      var style := StyleOf(Count(oldText.value));
      ApplyKeepsContent(newText.value, if style == Mixed || style == NoEnding then LF else style);
    }
  }
}
