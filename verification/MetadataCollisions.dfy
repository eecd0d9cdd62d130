/** When two items of the metadata cache share a key. */
module MetadataCollisions {
  import opened MetadataKeys

  // ----- The items the program forms -----

  /** What `trim` leaves: nothing, or a name with no white space at either end. */
  predicate Trimmed(s: string) {
    s == "" || (!IsSpace(s[0]) && !IsSpace(s[|s| - 1]))
  }

  predicate AllTrimmed(ps: seq<string>) {
    forall i :: 0 <= i < |ps| ==> Trimmed(ps[i])
  }

  function Names(k: Kind): nat {
    match k
    case Catalogs => 0
    case Schemas => 1
    case Tables => 2
    case Columns => 3
    case ForeignKeys => 3
    case TableSearch => 4
  }

  predicate Numeral(s: string) {
    s != "" && forall i :: 0 <= i < |s| ==> '0' <= s[i] <= '9'
  }

  /** Every name is trimmed before it reaches `key`; a search has its prefix in lower case,
      so of characters `small` only, and its limit as a numeral. */
  predicate Formable(small: char -> bool, i: Item) {
    && |i.parts| == Names(i.kind) && AllTrimmed(i.parts)
    && (i.kind == TableSearch ==>
          (forall j :: 0 <= j < |i.parts[2]| ==> small(i.parts[2][j])) && Numeral(i.parts[3]))
  }

  /** Another item the program forms has the same key. */
  ghost predicate Collides(small: char -> bool, o: Owner, i: Item) {
    exists j: Item :: j != i && Formable(small, j) && KeyOf(o, j) == KeyOf(o, i)
  }

  /** A separator inside the name, with no white space on either side of it. */
  predicate MovableAt(s: string, x: nat) {
    x < |s| && s[x] == '|' && (x > 0 ==> !IsSpace(s[x - 1])) && (x + 1 < |s| ==> !IsSpace(s[x + 1]))
  }

  ghost predicate HasMovable(ps: seq<string>) {
    exists k, x :: 0 <= k < |ps| && MovableAt(ps[k], x)
  }

  // ----- Trimming -----

  lemma {:induction false} TrimStartShrinks(s: string)
    ensures |TrimStart(s)| <= |s| && (s != "" && IsSpace(s[0]) ==> |TrimStart(s)| < |s|)
    decreases |s|
  {
    if s != "" && IsSpace(s[0]) { TrimStartShrinks(s[1..]); }
  }

  lemma {:induction false} TrimEndShrinks(s: string)
    ensures |TrimEnd(s)| <= |s|
    decreases |s|
  {
    if s != "" && IsSpace(s[|s| - 1]) { TrimEndShrinks(s[..|s| - 1]); }
  }

  lemma TrimmedIff(s: string)
    ensures Trimmed(s) <==> Trim(s) == s
  {
    TrimStartShrinks(s);
    TrimEndShrinks(TrimStart(s));
    if s != "" && !IsSpace(s[0]) && IsSpace(s[|s| - 1]) { TrimEndShrinks(s[..|s| - 1]); }
  }

  // ----- Moving a separator -----

  lemma TwoHeads(a: string, c: string, post: seq<string>)
    ensures Join([a, c] + post) == a + "|" + Join([c] + post)
  {
    assert ([a, c] + post)[1..] == [c] + post;
  }

  lemma LongerHead(b: string, c: string, post: seq<string>)
    ensures Join([b + "|" + c] + post) == b + "|" + Join([c] + post)
  {
    if post == [] {
      assert [b + "|" + c] + post == [b + "|" + c] && [c] + post == [c];
    } else {
      SessionFirst(b + "|" + c, post);
      SessionFirst(c, post);
      assert (b + "|" + c) + "|" + Join(post) == b + "|" + (c + "|" + Join(post));
    }
  }

  lemma SeparatorMovesAtHead(a: string, b: string, c: string, post: seq<string>)
    ensures Join([a + "|" + b, c] + post) == Join([a, b + "|" + c] + post)
  {
    TwoHeads(a + "|" + b, c, post);
    TwoHeads(a, b + "|" + c, post);
    LongerHead(b, c, post);
    assert (a + "|" + b) + "|" + Join([c] + post) == a + "|" + (b + "|" + Join([c] + post));
  }

  /** Moving a separator from inside one name to the next gives the same joined string. */
  lemma {:induction false} SeparatorMoves(pre: seq<string>, a: string, b: string, c: string, post: seq<string>)
    ensures Join(pre + [a + "|" + b, c] + post) == Join(pre + [a, b + "|" + c] + post)
    decreases |pre|
  {
    var x, y := [a + "|" + b, c] + post, [a, b + "|" + c] + post;
    assert pre + [a + "|" + b, c] + post == pre + x && pre + [a, b + "|" + c] + post == pre + y;
    SeparatorMovesAtHead(a, b, c, post);
    JoinUnder(pre, x, y);
  }

  lemma {:induction false} JoinUnder(pre: seq<string>, x: seq<string>, y: seq<string>)
    requires x != [] && y != [] && Join(x) == Join(y)
    ensures Join(pre + x) == Join(pre + y)
    decreases |pre|
  {
    if pre == [] {
      assert pre + x == x && pre + y == y;
    } else {
      JoinUnder(pre[1..], x, y);
      assert (pre + x)[1..] == pre[1..] + x && (pre + y)[1..] == pre[1..] + y;
    }
  }

  lemma KeySpelled(o: Owner, i: Item)
    requires i.parts != []
    ensures KeyOf(o, i) == o.session + "|" + Name(i.kind) + "|" + Join(i.parts)
  {
    var n := [Name(i.kind)] + i.parts;
    assert [o.session, Name(i.kind)] + i.parts == [o.session] + n;
    SessionFirst(o.session, n);
    SessionFirst(Name(i.kind), i.parts);
    assert o.session + "|" + (Name(i.kind) + "|" + Join(i.parts)) == o.session + "|" + Name(i.kind) + "|" + Join(i.parts);
  }

  lemma MovedParts(s: string, x: nat)
    requires Trimmed(s) && MovableAt(s, x)
    ensures x < |s| && s == s[..x] + "|" + s[x + 1..] && Trimmed(s[..x]) && Trimmed(s[x + 1..])
  {
  }

  lemma TrimmedAround(a: string, b: string)
    requires Trimmed(a) && Trimmed(b)
    ensures Trimmed(a + "|" + b)
  {
  }

  lemma TwoUpdated(ps: seq<string>, k: nat, u: string, v: string)
    requires k + 1 < |ps|
    ensures ps[k := u][k + 1 := v] == ps[..k] + [u, v] + ps[k + 2..]
  {
  }

  lemma UpdatedTrimmed(ps: seq<string>, k: nat, u: string, v: string)
    requires k + 1 < |ps| && AllTrimmed(ps) && Trimmed(u) && Trimmed(v)
    ensures AllTrimmed(ps[k := u][k + 1 := v])
  {
    hide Trimmed;
  }

  /** The two ways to move a separator: out of name `k` into the next, or out of the next into `k`. */
  lemma MoveToNext(ps: seq<string>, k: nat, x: nat, a: string, b: string, c: string)
    requires AllTrimmed(ps) && k + 1 < |ps| && MovableAt(ps[k], x)
    requires a == ps[k][..x] && b == ps[k][x + 1..] && c == ps[k + 1]
    ensures var qs := ps[k := a][k + 1 := b + "|" + c]; AllTrimmed(qs) && qs != ps && Join(qs) == Join(ps)
  {
    hide Join, Trimmed, MovableAt;
    MovedParts(ps[k], x);
    TrimmedAround(b, c);
    UpdatedTrimmed(ps, k, a, b + "|" + c);
    TwoUpdated(ps, k, a, b + "|" + c);
    TwoUpdated(ps, k, a + "|" + b, c);
    assert ps[k := a + "|" + b][k + 1 := c] == ps;
    SeparatorMoves(ps[..k], a, b, c, ps[k + 2..]);
    assert ps[k := a][k + 1 := b + "|" + c][k] == a;
  }

  lemma MoveToPrevious(ps: seq<string>, k: nat, x: nat, c: string, a: string, b: string)
    requires AllTrimmed(ps) && k + 1 < |ps| && MovableAt(ps[k + 1], x)
    requires c == ps[k] && a == ps[k + 1][..x] && b == ps[k + 1][x + 1..]
    ensures var qs := ps[k := c + "|" + a][k + 1 := b]; AllTrimmed(qs) && qs != ps && Join(qs) == Join(ps)
  {
    hide Join, Trimmed, MovableAt;
    MovedParts(ps[k + 1], x);
    TrimmedAround(c, a);
    UpdatedTrimmed(ps, k, c + "|" + a, b);
    TwoUpdated(ps, k, c + "|" + a, b);
    TwoUpdated(ps, k, c, a + "|" + b);
    assert ps[k := c][k + 1 := a + "|" + b] == ps;
    SeparatorMoves(ps[..k], c, a, b, ps[k + 2..]);
    assert ps[k := c + "|" + a][k + 1 := b][k + 1] == b;
  }

  lemma MovableTwin(small: char -> bool, o: Owner, i: Item, k: nat, x: nat)
    requires Formable(small, i) && |i.parts| >= 2 && k < |i.parts| && MovableAt(i.parts[k], x)
    ensures Collides(small, o, i)
  {
    hide Join, Trimmed, KeyOf;
    var ps := i.parts;
    var qs;
    if k == 0 {
      var a, b := ps[0][..x], ps[0][x + 1..];
      qs := ps[0 := a][1 := b + "|" + ps[1]];
      MoveToNext(ps, 0, x, a, b, ps[1]);
    } else {
      var a, b := ps[k][..x], ps[k][x + 1..];
      qs := ps[k - 1 := ps[k - 1] + "|" + a][k := b];
      MoveToPrevious(ps, k - 1, x, ps[k - 1], a, b);
    }
    TwinCollides(small, o, i, Item(i.kind, qs));
  }

  lemma TwinCollides(small: char -> bool, o: Owner, i: Item, j: Item)
    requires Formable(small, j) && j != i && j.kind == i.kind && i.parts != [] && j.parts != []
    requires Join(j.parts) == Join(i.parts)
    ensures Collides(small, o, i)
  {
    hide Key, Join, Formable;
    KeySpelled(o, i);
    KeySpelled(o, j);
  }

  // ----- A twin needs a movable separator -----

  lemma {:induction false} JoinHead(ps: seq<string>)
    requires ps != [] && AllTrimmed(ps)
    ensures Join(ps) != "" ==> !IsSpace(Join(ps)[0])
  {
  }

  lemma CutInside(p: string, rest: string, q: string, more: seq<string>)
    requires Trimmed(p) && Trimmed(q) && more != [] && AllTrimmed(more) && |q| < |p|
    requires p + rest == q + "|" + Join(more)
    ensures MovableAt(p, |q|)
  {
    var all := q + "|" + Join(more);
    JoinHead(more);
    assert p[|q|] == (p + rest)[|q|] == all[|q|] == '|';
    if |q| > 0 { assert p[|q| - 1] == (p + rest)[|q| - 1] == all[|q| - 1] == q[|q| - 1]; }
    if |q| + 1 < |p| { assert p[|q| + 1] == (p + rest)[|q| + 1] == all[|q| + 1] == Join(more)[0]; }
  }

  lemma MovableLater(ps: seq<string>)
    requires ps != [] && HasMovable(ps[1..])
    ensures HasMovable(ps)
  {
    var k, x :| 0 <= k < |ps[1..]| && MovableAt(ps[1..][k], x);
    assert MovableAt(ps[k + 1], x);
  }

  /** The head of the longer cut runs past the head of `ps`: what is left of it. */
  lemma HeadRunsPast(p: string, rest: seq<string>, q: string, more: seq<string>, r: string)
    requires Trimmed(p) && Trimmed(q) && rest != [] && more != [] && AllTrimmed(rest) && |p| < |q|
    requires p + "|" + Join(rest) == q + "|" + Join(more) && r == q[|p| + 1..]
    ensures q == p + "|" + r && Trimmed(r) && Join(rest) == r + "|" + Join(more)
  {
    hide Join;
    var all := p + "|" + Join(rest);
    assert q == all[..|q|] && q[..|p|] == p && q[|p|] == '|';
    assert Join(rest) == all[|p| + 1..] == r + "|" + Join(more);
    JoinHead(rest);
    if r != "" { assert r[0] == Join(rest)[0] && r[|r| - 1] == q[|q| - 1]; }
  }

  lemma {:induction false} TwinNeedsMovable(ps: seq<string>, qs: seq<string>)
    requires AllTrimmed(ps) && AllTrimmed(qs) && |qs| >= |ps| >= 1 && Join(ps) == Join(qs)
    ensures ps == qs || HasMovable(ps)
    decreases |ps|
  {
    if |qs| == 1 {
      assert ps == [ps[0]] && qs == [qs[0]];
    } else if |ps| == 1 || |qs[0]| < |ps[0]| {
      CutInside(ps[0], Join(ps)[|ps[0]|..], qs[0], qs[1..]);
    } else if |qs[0]| == |ps[0]| {
      SameHead(ps, qs);
      TwinNeedsMovable(ps[1..], qs[1..]);
      if HasMovable(ps[1..]) { MovableLater(ps); }
      assert ps == [ps[0]] + ps[1..] && qs == [qs[0]] + qs[1..];
    } else {
      var r := qs[0][|ps[0]| + 1..];
      HeadRunsPast(ps[0], ps[1..], qs[0], qs[1..], r);
      var shorter := [r] + qs[1..];
      assert shorter[1..] == qs[1..];
      TwinNeedsMovable(ps[1..], shorter);
      MovableLater(ps);
    }
  }

  lemma SameHead(ps: seq<string>, qs: seq<string>)
    requires |ps| >= 2 && |qs| >= 2 && |ps[0]| == |qs[0]| && Join(ps) == Join(qs)
    ensures ps[0] == qs[0] && Join(ps[1..]) == Join(qs[1..])
  {
    var all := Join(ps);
    assert ps[0] == all[..|ps[0]|] == qs[0];
    assert Join(ps[1..]) == all[|ps[0]| + 1..] == Join(qs[1..]);
  }

  lemma SameKeySameKind(o: Owner, i: Item, j: Item)
    requires KeyOf(o, i) == KeyOf(o, j)
    ensures i.kind == j.kind && (i.parts != [] && j.parts != [] ==> Join(i.parts) == Join(j.parts))
  {
    var x, y := [Name(i.kind)] + i.parts, [Name(j.kind)] + j.parts;
    SessionFirst(o.session, x);
    SessionFirst(o.session, y);
    assert [o.session] + x == [o.session, Name(i.kind)] + i.parts && [o.session] + y == [o.session, Name(j.kind)] + j.parts;
    assert KeyOf(o, i)[|o.session| + 1..] == Join(x) == Join(y);
    KindFirst(i.kind, i.parts, j.kind, j.parts);
  }

  lemma KindFirst(j: Kind, ps: seq<string>, k: Kind, qs: seq<string>)
    requires Join([Name(j)] + ps) == Join([Name(k)] + qs)
    ensures j == k && (ps != [] && qs != [] ==> Join(ps) == Join(qs))
  {
    NamesBare(j);
    NamesBare(k);
    NamesDiffer(j, k);
    if ps == [] {
      assert [Name(j)] + ps == [Name(j)];
    } else {
      SessionFirst(Name(j), ps);
    }
    if qs == [] {
      assert [Name(k)] + qs == [Name(k)];
    } else {
      SessionFirst(Name(k), qs);
    }
    if ps != [] && qs != [] { FirstPart(Name(j), Join(ps), Name(k), Join(qs)); }
  }

  lemma FewNames(ps: seq<string>, qs: seq<string>)
    requires |ps| == |qs| <= 1 && (ps != [] ==> Join(ps) == Join(qs))
    ensures ps == qs
  {
  }

  /** Another item the program forms shares the key of this one exactly when the item has two
      or more names and one of them holds a separator with no white space beside it. */
  lemma CollidesIffMovable(small: char -> bool, o: Owner, i: Item)
    requires Formable(small, i)
    ensures Collides(small, o, i) <==> |i.parts| >= 2 && HasMovable(i.parts)
  {
    if |i.parts| >= 2 && HasMovable(i.parts) {
      var k, x :| 0 <= k < |i.parts| && MovableAt(i.parts[k], x);
      MovableTwin(small, o, i, k, x);
    }
    if Collides(small, o, i) {
      var j: Item :| j != i && Formable(small, j) && KeyOf(o, j) == KeyOf(o, i);
      SameKeySameKind(o, i, j);
      if |i.parts| <= 1 {
        FewNames(i.parts, j.parts);
      } else {
        TwinNeedsMovable(i.parts, j.parts);
      }
    }
  }

  /** Without separators an item is alone under its key. */
  lemma BareIsAlone(small: char -> bool, o: Owner, i: Item)
    requires Formable(small, i) && AllBare(i.parts)
    ensures !Collides(small, o, i)
  {
    CollidesIffMovable(small, o, i);
    if k, x :| 0 <= k < |i.parts| && MovableAt(i.parts[k], x) {
      assert !Bare(i.parts[k]);
    }
  }
}
