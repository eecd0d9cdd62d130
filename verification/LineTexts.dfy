/** Line endings on texts taken apart: the lines, and how each but the last ends. */
module LineTexts {
  import opened LineEndings
  import opened Options

  datatype Ending = Feed | Pair | Return

  function Spelled(e: Ending): string {
    match e
    case Feed => "\n"
    case Pair => "\r\n"
    case Return => "\r"
  }

  function Joined(lines: seq<string>, ends: seq<Ending>): string
    requires |lines| == |ends| + 1
  {
    lines[0] + if ends == [] then "" else Spelled(ends[0]) + Joined(lines[1..], ends[1..])
  }

  ghost predicate OneLine(s: string) {
    forall i :: 0 <= i < |s| ==> s[i] != '\r' && s[i] != '\n'
  }

  /** The lines hold no line end, and no carriage return meets the line feed of an ending after it. */
  ghost predicate Apart(lines: seq<string>, ends: seq<Ending>) {
    && |lines| == |ends| + 1
    && (forall i :: 0 <= i < |lines| ==> OneLine(lines[i]))
    && (forall i :: 0 <= i < |ends| - 1 ==> !(ends[i] == Return && lines[i + 1] == "" && ends[i + 1] == Feed))
  }

  function All(e: Ending, n: nat): seq<Ending> {
    seq(n, _ => e)
  }

  lemma ApartTail(lines: seq<string>, ends: seq<Ending>)
    requires Apart(lines, ends) && ends != []
    ensures Apart(lines[1..], ends[1..]) && OneLine(lines[0])
    ensures ends[0] == Return ==> Joined(lines[1..], ends[1..]) == "" || Joined(lines[1..], ends[1..])[0] != '\n'
  {
    forall i | 0 <= i < |ends| ensures OneLine(lines[1..][i]) { assert OneLine(lines[i + 1]); }
    forall i | 0 <= i < |ends| - 2 ensures !(ends[1..][i] == Return && lines[1..][i + 1] == "" && ends[1..][i + 1] == Feed) {
      assert !(ends[i + 1] == Return && lines[i + 2] == "" && ends[i + 2] == Feed);
    }
    if ends[0] == Return && |ends| > 1 { assert !(ends[0] == Return && lines[0 + 1] == "" && ends[0 + 1] == Feed); }
  }

  // ----- Stripping -----

  lemma {:induction false} PairsAfterLine(s: string, rest: string)
    requires OneLine(s)
    ensures CrlfToLf(s + rest) == s + CrlfToLf(rest)
  {
    if s == "" {
      assert s + rest == rest;
    } else {
      assert (s + rest)[1..] == s[1..] + rest;
      PairsAfterLine(s[1..], rest);
    }
  }

  lemma PairsAfterEnding(e: Ending, rest: string)
    requires e == Return ==> rest == "" || rest[0] != '\n'
    ensures CrlfToLf(Spelled(e) + rest) == (if e == Return then "\r" else "\n") + CrlfToLf(rest)
  {
    var t := Spelled(e) + rest;
    assert t[|Spelled(e)|..] == rest;
  }

  lemma {:induction false} ReplacedBoth(a: string, b: string, c: char, put: string)
    ensures Replaced(a + b, c, put) == Replaced(a, c, put) + Replaced(b, c, put)
  {
    if a == "" {
      assert a + b == b;
    } else {
      assert (a + b)[1..] == a[1..] + b;
      ReplacedBoth(a[1..], b, c, put);
    }
  }

  lemma ReplacedLine(s: string, c: char, put: string)
    requires OneLine(s) && (c == '\r' || c == '\n')
    ensures Replaced(s, c, put) == s
  {
    ReplaceNothing(s, c, put);
  }

  lemma ReplacedOne(e: char, c: char, put: string)
    ensures Replaced([e], c, put) == if e == c then put else [e]
  {
    assert [e][1..] == "";
  }

  /** Stripping turns every ending into a line feed and changes nothing else. */
  lemma {:induction false} StripReads(lines: seq<string>, ends: seq<Ending>)
    requires Apart(lines, ends)
    ensures StripLineEndings(Joined(lines, ends)) == Joined(lines, All(Feed, |ends|))
    decreases |ends|
  {
    assert OneLine(lines[0]);
    if ends == [] {
      PairsAfterLine(lines[0], "");
      assert lines[0] + "" == lines[0];
      ReplacedLine(lines[0], '\r', "\n");
    } else {
      var e, rest := ends[0], Joined(lines[1..], ends[1..]);
      ApartTail(lines, ends);
      StripReads(lines[1..], ends[1..]);
      PairsAfterLine(lines[0], Spelled(e) + rest);
      PairsAfterEnding(e, rest);
      var mark := if e == Return then '\r' else '\n';
      ReplacedBoth(lines[0], [mark] + CrlfToLf(rest), '\r', "\n");
      ReplacedBoth([mark], CrlfToLf(rest), '\r', "\n");
      ReplacedLine(lines[0], '\r', "\n");
      ReplacedOne(mark, '\r', "\n");
      assert All(Feed, |ends|)[1..] == All(Feed, |ends| - 1);
    }
  }

  // ----- Rewriting -----

  lemma {:induction false} FeedsReplaced(lines: seq<string>, n: nat, e: Ending)
    requires |lines| == n + 1 && forall i :: 0 <= i < |lines| ==> OneLine(lines[i])
    ensures Replaced(Joined(lines, All(Feed, n)), '\n', Spelled(e)) == Joined(lines, All(e, n))
    decreases n
  {
    assert OneLine(lines[0]);
    ReplacedLine(lines[0], '\n', Spelled(e));
    if n == 0 {
      assert lines[0] + "" == lines[0];
    } else {
      var rest := Joined(lines[1..], All(Feed, n - 1));
      assert All(Feed, n)[1..] == All(Feed, n - 1) && All(e, n)[1..] == All(e, n - 1);
      forall i | 0 <= i < n ensures OneLine(lines[1..][i]) { assert OneLine(lines[i + 1]); }
      FeedsReplaced(lines[1..], n - 1, e);
      ReplacedBoth(lines[0], "\n" + rest, '\n', Spelled(e));
      ReplacedBoth("\n", rest, '\n', Spelled(e));
      ReplacedOne('\n', '\n', Spelled(e));
    }
  }

  function Wanted(target: Style): Ending {
    match target
    case CRLF => Pair
    case CR => Return
    case _ => Feed
  }

  /** Rewriting gives every line the ending asked for, a line feed when none or a mixture is. */
  lemma ApplyWrites(lines: seq<string>, ends: seq<Ending>, target: Style)
    requires Apart(lines, ends)
    ensures ApplyLineEndingStyle(Joined(lines, ends), target) == Joined(lines, All(Wanted(target), |ends|))
  {
    StripReads(lines, ends);
    FeedsReplaced(lines, |ends|, Wanted(target));
  }

  // ----- Telling the style -----

  function HowMany(ends: seq<Ending>, e: Ending): nat {
    if ends == [] then 0 else HowMany(ends[1..], e) + if ends[0] == e then 1 else 0
  }

  lemma {:induction false} CountAfterLine(s: string, rest: string)
    requires OneLine(s)
    ensures CountFrom(s + rest, 0) == CountFrom(rest, 0)
  {
    if s == "" {
      assert s + rest == rest;
    } else {
      CountAfterLine(s[1..], rest);
      assert s + rest == [s[0]] + (s[1..] + rest);
      CountBehind([s[0]], s[1..] + rest, 0);
    }
  }

  lemma CountAfterEnding(e: Ending, rest: string)
    requires e == Return ==> rest == "" || rest[0] != '\n'
    ensures CountFrom(Spelled(e) + rest, 0)
         == Add(CountFrom(rest, 0), Counts(if e == Pair then 1 else 0, if e == Feed then 1 else 0, if e == Return then 1 else 0))
  {
    CountBehind(Spelled(e), rest, 0);
    assert rest != "" ==> (Spelled(e) + rest)[|Spelled(e)|] == rest[0];
  }

  lemma NothingToCount()
    ensures CountFrom("", 0) == Counts(0, 0, 0)
  {
  }

  lemma {:induction false} CountsAre(lines: seq<string>, ends: seq<Ending>)
    requires Apart(lines, ends)
    ensures Count(Joined(lines, ends)) == Counts(HowMany(ends, Pair), HowMany(ends, Feed), HowMany(ends, Return))
    decreases |ends|
  {
    hide CountFrom, Spelled;
    assert OneLine(lines[0]);
    if ends == [] {
      CountAfterLine(lines[0], "");
      NothingToCount();
    } else {
      hide Apart;
      ApartTail(lines, ends);
      var rest := Joined(lines[1..], ends[1..]);
      CountsAre(lines[1..], ends[1..]);
      CountAfterLine(lines[0], Spelled(ends[0]) + rest);
      CountAfterEnding(ends[0], rest);
    }
  }

  lemma {:induction false} SomeOrNone(ends: seq<Ending>, e: Ending)
    ensures HowMany(ends, e) > 0 <==> e in ends
  {
    if ends != [] {
      SomeOrNone(ends[1..], e);
      assert ends == [ends[0]] + ends[1..];
    }
  }

  /** The style found is that of all the endings, mixed when two differ, none without any. */
  lemma StyleIs(lines: seq<string>, ends: seq<Ending>)
    requires Apart(lines, ends)
    ensures StyleOf(Count(Joined(lines, ends)))
         == if ends == [] then NoEnding
            else if exists i, j :: 0 <= i < |ends| && 0 <= j < |ends| && ends[i] != ends[j] then Mixed
            else match ends[0] case Feed => LF case Pair => CRLF case Return => CR
  {
    CountsAre(lines, ends);
    SomeOrNone(ends, Feed);
    SomeOrNone(ends, Pair);
    SomeOrNone(ends, Return);
  }

  // ----- Any text -----

  lemma FirstLineGrows(c: char, lines: seq<string>, ends: seq<Ending>)
    requires Apart(lines, ends) && c != '\r' && c != '\n'
    ensures Apart([[c] + lines[0]] + lines[1..], ends)
    ensures Joined([[c] + lines[0]] + lines[1..], ends) == [c] + Joined(lines, ends)
  {
    var more := [[c] + lines[0]] + lines[1..];
    forall i | 0 <= i < |more| ensures OneLine(more[i]) { assert OneLine(lines[i]); }
    forall i | 0 <= i < |ends| - 1 ensures !(ends[i] == Return && more[i + 1] == "" && ends[i + 1] == Feed) {
      assert more[i + 1] == lines[i + 1];
    }
    assert more[1..] == lines[1..];
  }

  lemma EndingGrows(e: Ending, lines: seq<string>, ends: seq<Ending>)
    requires Apart(lines, ends) && (e == Return ==> !(lines[0] == "" && ends != [] && ends[0] == Feed))
    ensures Apart([""] + lines, [e] + ends) && Joined([""] + lines, [e] + ends) == Spelled(e) + Joined(lines, ends)
  {
    var ls, es := [""] + lines, [e] + ends;
    forall i | 0 <= i < |ls| ensures OneLine(ls[i]) { assert i > 0 ==> OneLine(lines[i - 1]); }
    forall i | 0 <= i < |es| - 1 ensures !(es[i] == Return && ls[i + 1] == "" && es[i + 1] == Feed) {
      assert i > 0 ==> !(ends[i - 1] == Return && lines[i - 1 + 1] == "" && ends[i - 1 + 1] == Feed);
    }
    assert ls[1..] == lines && es[1..] == ends;
  }

  lemma NoFeedFirst(lines: seq<string>, ends: seq<Ending>)
    requires Apart(lines, ends) && (Joined(lines, ends) == "" || Joined(lines, ends)[0] != '\n')
    ensures !(lines[0] == "" && ends != [] && ends[0] == Feed)
  {
  }

  /** Every text is some lines and endings. */
  lemma {:induction false} AnyTextComesApart(t: string) returns (lines: seq<string>, ends: seq<Ending>)
    ensures Apart(lines, ends) && Joined(lines, ends) == t
    decreases |t|
  {
    hide Apart, Joined;
    if t == "" {
      lines, ends := [""], [];
      EmptyText();
    } else if t[0] == '\r' && |t| > 1 && t[1] == '\n' {
      lines, ends := AnyTextComesApart(t[2..]);
      EndingGrows(Pair, lines, ends);
      lines, ends := [""] + lines, [Pair] + ends;
    } else if t[0] == '\r' || t[0] == '\n' {
      lines, ends := AnyTextComesApart(t[1..]);
      if t[0] == '\r' { NoFeedFirst(lines, ends); }
      var e := if t[0] == '\r' then Return else Feed;
      EndingGrows(e, lines, ends);
      lines, ends := [""] + lines, [e] + ends;
    } else {
      lines, ends := AnyTextComesApart(t[1..]);
      FirstLineGrows(t[0], lines, ends);
      ApartHasLine(lines, ends);
      lines := [[t[0]] + lines[0]] + lines[1..];
    }
  }

  lemma ApartHasLine(lines: seq<string>, ends: seq<Ending>)
    requires Apart(lines, ends)
    ensures lines != []
  {
  }

  lemma EmptyText()
    ensures Apart([""], []) && Joined([""], []) == ""
  {
  }
}
