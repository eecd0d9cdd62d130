/** Qualified names as people write them: parts bare or quoted, with white space around the dots,
    and parts left out. */
module SqlWriting {
  import opened MetadataKeys
  import opened SqlIdentifiers
  import opened Trimming
  import opened Options

  datatype Word = Nothing | BareWord(name: string) | Quoted(part: Part)

  datatype Piece = Piece(before: string, word: Word, after: string)

  /** A name that needs no quotes: no dot, no character that opens a quote, no white space at its ends. */
  ghost predicate NeedsNoQuotes(s: string) {
    && s != "" && !IsSpace(s[0]) && !IsSpace(s[|s| - 1])
    && forall i :: 0 <= i < |s| ==> s[i] != '.' && s[i] != '"' && s[i] != '`' && s[i] != '['
  }

  ghost predicate WellWritten(p: Piece) {
    Spaces(p.before) && Spaces(p.after) && (p.word.BareWord? ==> NeedsNoQuotes(p.word.name))
  }

  function Spell(w: Word): string {
    match w
    case Nothing => ""
    case BareWord(name) => name
    case Quoted(part) => Quote(part.name, part.style)
  }

  function Written(ps: seq<Piece>): string {
    if ps == [] then ""
    else
      var piece := ps[0].before + Spell(ps[0].word) + ps[0].after;
      if |ps| == 1 then piece else piece + "." + Written(ps[1..])
  }

  /** The names written, parts left out skipped. */
  function NamesIn(ps: seq<Piece>): seq<string> {
    if ps == [] then []
    else
      (match ps[0].word
       case Nothing => []
       case BareWord(name) => [name]
       case Quoted(part) => [Seen(part)])
      + NamesIn(ps[1..])
  }

  // ----- Scanning -----

  lemma {:induction false} ScanPlainly(parts: seq<string>, cur: string, s: string, tail: string)
    requires forall i :: 0 <= i < |s| ==> s[i] != '.' && s[i] != '"' && s[i] != '`' && s[i] != '['
    ensures Finish(s + tail, Scan(parts, cur, None)) == Finish(tail, Scan(parts, cur + s, None))
    decreases |s|
  {
    if s == "" {
      assert s + tail == tail && cur + s == cur;
    } else {
      assert (s + tail)[1..] == s[1..] + tail && cur + [s[0]] + s[1..] == cur + s;
      ScanPlainly(parts, cur + [s[0]], s[1..], tail);
    }
  }

  lemma SpacesArePlain(s: string)
    requires Spaces(s)
    ensures forall i :: 0 <= i < |s| ==> s[i] != '.' && s[i] != '"' && s[i] != '`' && s[i] != '[' && s[i] != ']'
  {
  }

  lemma OpensQuoteAt(parts: seq<string>, cur: string, q: Style, rest: string)
    ensures Finish([Opening(q)] + rest, Scan(parts, cur, None))
         == Finish(rest, Scan(parts, cur + [Opening(q)], Some(Closing(q))))
  {
    assert ([Opening(q)] + rest)[1..] == rest;
  }

  lemma ScanQuotedAt(parts: seq<string>, cur: string, p: Part, tail: string)
    requires tail != "" ==> tail[0] != Closing(p.style)
    ensures Finish(Quote(p.name, p.style) + tail, Scan(parts, cur, None))
         == Finish(tail, Scan(parts, cur + Quote(p.name, p.style), None))
  {
    hide Finish, Doubled;
    var o, c, d := Opening(p.style), Closing(p.style), Doubled(p.name, Closing(p.style));
    OpensQuoteAt(parts, cur, p.style, d + [c] + tail);
    ScanInside(parts, cur + [o], p.name, c, tail);
    assert Quote(p.name, p.style) + tail == [o] + (d + [c] + tail);
    assert cur + [o] + d + [c] == cur + Quote(p.name, p.style);
  }

  lemma ScanWord(parts: seq<string>, cur: string, w: Word, tail: string)
    requires w.BareWord? ==> NeedsNoQuotes(w.name)
    requires tail != "" ==> tail[0] == '.' || IsSpace(tail[0])
    ensures Finish(Spell(w) + tail, Scan(parts, cur, None)) == Finish(tail, Scan(parts, cur + Spell(w), None))
  {
    hide Finish, Quote;
    match w
    case Nothing => assert "" + tail == tail && cur + "" == cur;
    case BareWord(name) => ScanPlainly(parts, cur, name, tail);
    case Quoted(part) => ScanQuotedAt(parts, cur, part, tail);
  }

  lemma Regroup(a: string, w: string, z: string, tail: string)
    ensures a + w + z + tail == a + (w + (z + tail)) && "" + a == a
  {
  }

  /** One piece, up to the end of its white space. */
  lemma ScanPiece(parts: seq<string>, p: Piece, tail: string)
    requires WellWritten(p) && (tail != "" ==> tail[0] == '.')
    ensures Finish(p.before + Spell(p.word) + p.after + tail, Scan(parts, "", None))
         == Finish(tail, Scan(parts, p.before + Spell(p.word) + p.after, None))
  {
    hide Finish, Spell, NeedsNoQuotes;
    var w := Spell(p.word);
    SpacesArePlain(p.before);
    SpacesArePlain(p.after);
    Regroup(p.before, w, p.after, tail);
    ScanPlainly(parts, "", p.before, w + (p.after + tail));
    ScanWord(parts, p.before, p.word, p.after + tail);
    ScanPlainly(parts, p.before + w, p.after, tail);
  }

  lemma FlushPiece(parts: seq<string>, p: Piece)
    requires WellWritten(p)
    ensures Flush(Scan(parts, p.before + Spell(p.word) + p.after, None)) == Scan(parts + NamesIn([p]), "", None)
  {
    hide Trim, Collapse, Quote;
    assert [p][1..] == [];
    match p.word
    case Nothing =>
      TrimNothing(p.before, p.after);
    case BareWord(name) =>
      TrimPadded(p.before, name, p.after);
      BareIsItself(name);
    case Quoted(part) =>
      QuoteEnds(part);
      TrimPadded(p.before, Quote(part.name, part.style), p.after);
      UnquoteQuoted(part);
  }

  lemma QuoteEnds(p: Part)
    ensures var q := Quote(p.name, p.style); q != "" && !IsSpace(q[0]) && !IsSpace(q[|q| - 1])
  {
  }

  lemma BareIsItself(name: string)
    requires NeedsNoQuotes(name)
    ensures Unquote(name) == name
  {
    TrimPadded("", name, "");
    assert "" + name + "" == name;
    assert name[0] != '"' && name[0] != '`' && name[0] != '[';
  }

  lemma DotFlushes(parts: seq<string>, cur: string, more: string)
    ensures Finish("." + more, Scan(parts, cur, None)) == Finish(more, Flush(Scan(parts, cur, None)))
  {
    assert ("." + more)[1..] == more;
  }

  function TextOf(p: Piece): string {
    p.before + Spell(p.word) + p.after
  }

  lemma ScanLastPiece(done: seq<string>, p: Piece)
    requires WellWritten(p)
    ensures Finish(TextOf(p), Scan(done, "", None)) == done + NamesIn([p])
  {
    hide Finish, Flush, Spell, NamesIn, WellWritten;
    FlushPiece(done, p);
    ScanPiece(done, p, "");
    assert TextOf(p) + "" == TextOf(p);
    EndFlushes(done, TextOf(p));
  }

  lemma ScanNextPiece(done: seq<string>, p: Piece, more: string)
    requires WellWritten(p)
    ensures Finish(TextOf(p) + "." + more, Scan(done, "", None)) == Finish(more, Scan(done + NamesIn([p]), "", None))
  {
    hide Finish, Flush, Spell, NamesIn, WellWritten;
    FlushPiece(done, p);
    ScanPiece(done, p, "." + more);
    assert TextOf(p) + ("." + more) == TextOf(p) + "." + more;
    DotFlushes(done, TextOf(p), more);
  }

  lemma {:induction false} ScanWritten(done: seq<string>, ps: seq<Piece>)
    requires ps != [] && forall i :: 0 <= i < |ps| ==> WellWritten(ps[i])
    ensures Finish(Written(ps), Scan(done, "", None)) == done + NamesIn(ps)
    decreases |ps|
  {
    hide Finish, Spell, WellWritten, NamesIn, TextOf, Written;
    var p := ps[0];
    assert WellWritten(p);
    NamesHead(ps);
    WrittenHead(ps);
    if |ps| == 1 {
      ScanLastPiece(done, p);
      NothingWritten();
      assert ps[1..] == [] && NamesIn([p]) + [] == NamesIn([p]);
    } else {
      ScanNextPiece(done, p, Written(ps[1..]));
      ScanWritten(done + NamesIn([p]), ps[1..]);
    }
  }

  lemma NothingWritten()
    ensures NamesIn([]) == []
  {
  }

  lemma WrittenHead(ps: seq<Piece>)
    requires ps != []
    ensures Written(ps) == if |ps| == 1 then TextOf(ps[0]) else TextOf(ps[0]) + "." + Written(ps[1..])
  {
  }

  lemma NamesHead(ps: seq<Piece>)
    requires ps != []
    ensures NamesIn(ps) == NamesIn([ps[0]]) + NamesIn(ps[1..])
  {
    assert [ps[0]][1..] == [];
  }

  lemma EndFlushes(parts: seq<string>, cur: string)
    ensures Finish("", Scan(parts, cur, None)) == Flush(Scan(parts, cur, None)).parts
  {
  }

  /** However a qualified name is written, its names come back: bare ones as they are, quoted ones as
      the quotes mean them, white space around the dots dropped and empty parts skipped. */
  lemma SplitReadsWriting(ps: seq<Piece>)
    requires forall i :: 0 <= i < |ps| ==> WellWritten(ps[i])
    ensures Split(Written(ps)) == NamesIn(ps)
  {
    if ps == [] {
      assert Trim("") == "";
    } else {
      ScanWritten([], ps);
      assert [] + NamesIn(ps) == NamesIn(ps);
    }
  }

  /** So two bare names joined by a dot split into the two. */
  lemma BareNamesSplit(a: string, b: string)
    requires NeedsNoQuotes(a) && NeedsNoQuotes(b)
    ensures Split(a + "." + b) == [a, b]
  {
    var p, q := Piece("", BareWord(a), ""), Piece("", BareWord(b), "");
    assert [p, q][1..] == [q] && [q][1..] == [];
    assert "" + a + "" == a && "" + b + "" == b;
    SplitReadsWriting([p, q]);
    NamesHead([p, q]);
    NamesHead([q]);
    assert NamesIn([p]) == [a] + NamesIn([]) && NamesIn([q]) == [b] + NamesIn([]);
  }
}
