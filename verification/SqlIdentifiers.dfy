/** Splitting a qualified SQL name into its parts, against the printer that
    quotes each part and joins them with dots. */
module SqlIdentifiers {
  import opened MetadataKeys
  import opened Options

  datatype Style = Double | Back | Bracket

  function Opening(q: Style): char {
    match q
    case Double => '"'
    case Back => '`'
    case Bracket => '['
  }

  function Closing(q: Style): char {
    match q
    case Double => '"'
    case Back => '`'
    case Bracket => ']'
  }

  // ----- Printing -----

  /** Every `c` written twice. */
  function Doubled(s: string, c: char): string {
    if s == "" then ""
    else (if s[0] == c then [c, c] else [s[0]]) + Doubled(s[1..], c)
  }

  function Quote(s: string, q: Style): string {
    [Opening(q)] + Doubled(s, Closing(q)) + [Closing(q)]
  }

  datatype Part = Part(name: string, style: Style)

  function Print(parts: seq<Part>): string {
    if parts == [] then ""
    else if |parts| == 1 then Quote(parts[0].name, parts[0].style)
    else Quote(parts[0].name, parts[0].style) + "." + Print(parts[1..])
  }

  // ----- unquoteIdent -----

  /** Replaces each pair of adjacent `c`, left to right, by one. */
  function Collapse(s: string, c: char): string {
    if |s| < 2 then s
    else if s[0] == c && s[1] == c then [c] + Collapse(s[2..], c)
    else [s[0]] + Collapse(s[1..], c)
  }

  predicate Wrapped(s: string, q: Style) {
    s != "" && s[0] == Opening(q) && s[|s| - 1] == Closing(q)
  }

  /** `slice(1, -1)` of a one-character string is empty. */
  function Inner(s: string): string {
    if |s| < 2 then "" else s[1..|s| - 1]
  }

  function Unquote(value: string): string {
    var s := Trim(value);
    if Wrapped(s, Double) || Wrapped(s, Back) || Wrapped(s, Bracket)
    then Collapse(Collapse(Collapse(Inner(s), '"'), '`'), ']')
    else s
  }

  // ----- splitSqlQualifiedName -----

  /** The scanner between two characters; `quote` is the closing quote it waits for. */
  datatype Scan = Scan(parts: seq<string>, current: string, quote: Option<char>)

  function Flush(s: Scan): Scan {
    var part := Trim(s.current);
    Scan(if part != "" then s.parts + [Unquote(part)] else s.parts, "", s.quote)
  }

  /** A character outside quotes. */
  function Plain(s: Scan, ch: char): Scan {
    if ch == '.' then Flush(s)
    else
      var quote := if ch == '"' then Some('"') else if ch == '`' then Some('`')
                   else if ch == '[' then Some(']') else None;
      s.(current := s.current + [ch], quote := quote)
  }

  function Finish(rest: string, s: Scan): seq<string>
    decreases |rest|
  {
    if rest == "" then Flush(s).parts
    else if s.quote.None? then Finish(rest[1..], Plain(s, rest[0]))
    else
      var t := s.(current := s.current + [rest[0]]);
      if rest[0] != s.quote.value then Finish(rest[1..], t)
      else if |rest| > 1 && rest[1] == s.quote.value then Finish(rest[2..], t.(current := t.current + [rest[1]]))
      else Finish(rest[1..], t.(quote := None))
  }

  function Split(input: string): seq<string> {
    Finish(input, Scan([], "", None))
  }

  method SplitSqlQualifiedName(input: string) returns (parts: seq<string>)
    ensures parts == Split(input)
  {
    parts := [];
    var current: string := "";
    var quote: Option<char> := None;
    var i := 0;
    while i < |input|
      invariant 0 <= i <= |input|
      invariant Finish(input[i..], Scan(parts, current, quote)) == Split(input)
    {
      var ch := input[i];
      if quote.Some? {
        current := current + [ch];
        if ch == quote.value && i + 1 < |input| && input[i + 1] == quote.value {
          current := current + [input[i + 1]];
          i := i + 2;
          continue;
        }
        if ch == quote.value { quote := None; }
        i := i + 1;
        continue;
      }
      if ch == '.' {
        var part := Trim(current);
        if part != "" { parts := parts + [Unquote(part)]; }
        current := "";
      } else {
        if ch == '"' { quote := Some('"'); }
        else if ch == '`' { quote := Some('`'); }
        else if ch == '[' { quote := Some(']'); }
        current := current + [ch];
      }
      i := i + 1;
    }
    var part := Trim(current);
    if part != "" { parts := parts + [Unquote(part)]; }
  }

  // ----- Unquoting a printed part -----

  predicate NoPair(s: string, c: char) {
    forall i :: 0 <= i < |s| - 1 ==> !(s[i] == c && s[i + 1] == c)
  }

  lemma {:induction false} CollapseDoubled(s: string, c: char)
    ensures Collapse(Doubled(s, c), c) == s
  {
    if s != "" {
      CollapseDoubled(s[1..], c);
      var d := Doubled(s, c);
      if s[0] == c {
        assert d[2..] == Doubled(s[1..], c);
      } else {
        assert d[1..] == Doubled(s[1..], c);
        if |d| < 2 { assert Doubled(s[1..], c) == ""; }
      }
    }
  }

  /** Collapsing pairs of one character passes through the doubling of another. */
  lemma {:induction false} CollapseCommutes(s: string, c: char, d: char)
    requires c != d
    ensures Collapse(Doubled(s, d), c) == Doubled(Collapse(s, c), d)
    decreases |s|
  {
    if s == "" {
    } else if |s| >= 2 && s[0] == c && s[1] == c {
      CollapseCommutes(s[2..], c, d);
      assert Doubled(s, d) == [c, c] + Doubled(s[2..], d) by {
        assert s[1..][1..] == s[2..];
      }
      assert Doubled(s, d)[2..] == Doubled(s[2..], d);
    } else {
      CollapseCommutes(s[1..], c, d);
      DoubledHead(s, c, d);
    }
  }

  lemma DoubledHead(s: string, c: char, d: char)
    requires s != "" && c != d && !(|s| >= 2 && s[0] == c && s[1] == c)
    requires Collapse(Doubled(s[1..], d), c) == Doubled(Collapse(s[1..], c), d)
    ensures Collapse(Doubled(s, d), c) == Doubled(Collapse(s, c), d)
  {
    var rest := Doubled(s[1..], d);
    if s[0] == d {
      var w := Doubled(s, d);
      assert w == [d, d] + rest && w[1..] == [d] + rest && w[1..][1..] == rest;
      assert Collapse([d] + rest, c) == [d] + Collapse(rest, c) by {
        if rest != "" { assert ([d] + rest)[1..] == rest; }
      }
    } else {
      var w := Doubled(s, d);
      assert w == [s[0]] + rest && w[1..] == rest;
      if |s| >= 2 { assert rest[0] == s[1]; }
    }
    if |s| >= 2 {
      assert Collapse(s, c) == [s[0]] + Collapse(s[1..], c);
      assert ([s[0]] + Collapse(s[1..], c))[1..] == Collapse(s[1..], c);
    } else {
      assert s[1..] == "";
    }
  }

  lemma {:induction false} CollapseShrinks(s: string, c: char)
    ensures |Collapse(s, c)| <= |s|
    ensures |Collapse(s, c)| == |s| <==> NoPair(s, c)
    ensures NoPair(s, c) ==> Collapse(s, c) == s
    decreases |s|
  {
    if |s| >= 2 {
      if s[0] == c && s[1] == c {
        CollapseShrinks(s[2..], c);
      } else {
        CollapseShrinks(s[1..], c);
        NoPairTail(s, c);
      }
    }
  }

  lemma NoPairTail(s: string, c: char)
    requires |s| >= 2 && !(s[0] == c && s[1] == c)
    ensures NoPair(s, c) <==> NoPair(s[1..], c)
  {
    var t := s[1..];
    if NoPair(t, c) {
      forall i | 0 <= i < |s| - 1 ensures !(s[i] == c && s[i + 1] == c) {
        if i > 0 { assert t[i - 1] == s[i] && t[i] == s[i + 1]; }
      }
    }
    if NoPair(s, c) {
      forall i | 0 <= i < |t| - 1 ensures !(t[i] == c && t[i + 1] == c) {
        assert t[i] == s[i + 1] && t[i + 1] == s[i + 2];
      }
    }
  }

  lemma QuotedIsTrimmed(s: string, q: Style)
    ensures Trim(Quote(s, q)) == Quote(s, q) && Wrapped(Quote(s, q), q)
  {
  }

  /** No two adjacent copies of another style's quote character. */
  predicate Plainly(p: Part) {
    && (p.style != Double ==> NoPair(p.name, '"'))
    && (p.style != Back ==> NoPair(p.name, '`'))
    && (p.style != Bracket ==> NoPair(p.name, ']'))
  }

  /** What comes back from a quoted part: its own doubling undone, the other two collapsed. */
  function Seen(p: Part): string {
    match p.style
    case Double => Collapse(Collapse(p.name, '`'), ']')
    case Back => Collapse(Collapse(p.name, '"'), ']')
    case Bracket => Collapse(Collapse(p.name, '"'), '`')
  }

  lemma UnquoteQuoted(p: Part)
    ensures Unquote(Quote(p.name, p.style)) == Seen(p)
  {
    var s, q := p.name, p.style;
    QuotedIsTrimmed(s, q);
    assert Inner(Quote(s, q)) == Doubled(s, Closing(q));
    match q
    case Double => CollapseDoubled(s, '"');
    case Back =>
      CollapseCommutes(s, '"', '`');
      CollapseDoubled(Collapse(s, '"'), '`');
    case Bracket =>
      CollapseCommutes(s, '"', ']');
      CollapseCommutes(Collapse(s, '"'), '`', ']');
      CollapseDoubled(Collapse(Collapse(s, '"'), '`'), ']');
  }

  lemma SeenIffPlain(p: Part)
    ensures Seen(p) == p.name <==> Plainly(p)
  {
    CollapseTwice(p.name, '`', ']');
    CollapseTwice(p.name, '"', ']');
    CollapseTwice(p.name, '"', '`');
  }

  lemma CollapseTwice(s: string, c: char, d: char)
    ensures Collapse(Collapse(s, c), d) == s <==> NoPair(s, c) && NoPair(s, d)
  {
    CollapseShrinks(s, c);
    CollapseShrinks(Collapse(s, c), d);
    CollapseShrinks(s, d);
  }

  // ----- Scanning a printed list -----

  lemma {:induction false} ScanInside(parts: seq<string>, cur: string, s: string, c: char, tail: string)
    requires tail != "" ==> tail[0] != c
    ensures Finish(Doubled(s, c) + [c] + tail, Scan(parts, cur, Some(c)))
         == Finish(tail, Scan(parts, cur + Doubled(s, c) + [c], None))
    decreases |s|
  {
    var d := Doubled(s, c);
    var rest := d + [c] + tail;
    if s == "" {
      assert rest == [c] + tail && cur + d + [c] == cur + [c];
    } else if s[0] == c {
      var d' := Doubled(s[1..], c);
      assert rest == [c, c] + (d' + [c] + tail);
      ScanInside(parts, cur + [c] + [c], s[1..], c, tail);
      assert cur + [c] + [c] + d' + [c] == cur + d + [c];
    } else {
      var d' := Doubled(s[1..], c);
      assert rest == [s[0]] + (d' + [c] + tail);
      ScanInside(parts, cur + [s[0]], s[1..], c, tail);
      assert cur + [s[0]] + d' + [c] == cur + d + [c];
    }
  }

  lemma ScanQuoted(parts: seq<string>, p: Part, tail: string)
    requires tail != "" ==> tail[0] == '.'
    ensures Finish(Quote(p.name, p.style) + tail, Scan(parts, "", None))
         == Finish(tail, Scan(parts, Quote(p.name, p.style), None))
  {
    var o, c, d := Opening(p.style), Closing(p.style), Doubled(p.name, Closing(p.style));
    var rest := Quote(p.name, p.style) + tail;
    assert rest == [o] + (d + [c] + tail);
    OpensQuote(parts, p.style, d + [c] + tail);
    ScanInside(parts, [o], p.name, c, tail);
  }

  lemma OpensQuote(parts: seq<string>, q: Style, rest: string)
    ensures Finish([Opening(q)] + rest, Scan(parts, "", None))
         == Finish(rest, Scan(parts, [Opening(q)], Some(Closing(q))))
  {
    assert ([Opening(q)] + rest)[1..] == rest;
    assert "" + [Opening(q)] == [Opening(q)];
  }

  function SeenAll(ps: seq<Part>): seq<string> {
    if ps == [] then [] else [Seen(ps[0])] + SeenAll(ps[1..])
  }

  function Names(ps: seq<Part>): seq<string> {
    if ps == [] then [] else [ps[0].name] + Names(ps[1..])
  }

  lemma FlushQuoted(parts: seq<string>, p: Part)
    ensures Flush(Scan(parts, Quote(p.name, p.style), None)) == Scan(parts + [Seen(p)], "", None)
  {
    QuotedIsTrimmed(p.name, p.style);
    UnquoteQuoted(p);
  }

  lemma ScanLast(done: seq<string>, p: Part)
    ensures Finish(Quote(p.name, p.style), Scan(done, "", None)) == done + [Seen(p)]
  {
    FlushQuoted(done, p);
    ScanQuoted(done, p, "");
    assert Quote(p.name, p.style) + "" == Quote(p.name, p.style);
  }

  lemma ScanNext(done: seq<string>, p: Part, more: string)
    ensures Finish(Quote(p.name, p.style) + "." + more, Scan(done, "", None))
         == Finish(more, Scan(done + [Seen(p)], "", None))
  {
    var tail := "." + more;
    FlushQuoted(done, p);
    ScanQuoted(done, p, tail);
    assert tail[0] == '.' && tail[1..] == more;
    assert Quote(p.name, p.style) + "." + more == Quote(p.name, p.style) + tail;
  }

  lemma {:induction false} ScanPrinted(done: seq<string>, ps: seq<Part>)
    ensures Finish(Print(ps), Scan(done, "", None)) == done + SeenAll(ps)
    decreases |ps|
  {
    if |ps| == 1 {
      ScanLast(done, ps[0]);
      assert SeenAll(ps) == [Seen(ps[0])];
    } else if |ps| > 1 {
      ScanNext(done, ps[0], Print(ps[1..]));
      ScanPrinted(done + [Seen(ps[0])], ps[1..]);
    }
  }

  lemma {:induction false} SeenAllIffPlain(ps: seq<Part>)
    ensures SeenAll(ps) == Names(ps) <==> (forall i :: 0 <= i < |ps| ==> Plainly(ps[i]))
  {
    if ps != [] {
      SeenAllIffPlain(ps[1..]);
      SeenIffPlain(ps[0]);
      var a, b := SeenAll(ps), Names(ps);
      assert a[0] == Seen(ps[0]) && b[0] == ps[0].name && a[1..] == SeenAll(ps[1..]) && b[1..] == Names(ps[1..]);
      if forall i :: 0 <= i < |ps| - 1 ==> Plainly(ps[1..][i]) {
        forall i | 1 <= i < |ps| ensures Plainly(ps[i]) { assert ps[i] == ps[1..][i - 1]; }
      }
    }
  }

  /** Splitting a printed name gives its parts back exactly when none holds two adjacent copies
      of a quote character other than its own. */
  lemma SplitUndoesPrint(ps: seq<Part>)
    ensures Split(Print(ps)) == Names(ps) <==> (forall i :: 0 <= i < |ps| ==> Plainly(ps[i]))
    ensures |Split(Print(ps))| == |ps|
  {
    ScanPrinted([], ps);
    assert [] + SeenAll(ps) == SeenAll(ps);
    SeenAllIffPlain(ps);
    SeenAllLength(ps);
  }

  lemma {:induction false} SeenAllLength(ps: seq<Part>)
    ensures |SeenAll(ps)| == |ps|
  {
    if ps != [] { SeenAllLength(ps[1..]); }
  }
}
