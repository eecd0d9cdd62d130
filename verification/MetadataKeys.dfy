/** The cache's string keys and the scopes an invalidation covers, both as the
    program tests them (equality and prefixes of joined strings) and as the
    catalog / schema / table hierarchy means them. */
module MetadataKeys {
  import opened Options

  datatype Kind = Catalogs | Schemas | Tables | TableSearch | Columns | ForeignKeys

  function Name(k: Kind): string {
    match k
    case Catalogs => "catalogs"
    case Schemas => "schemas"
    case Tables => "tables"
    case TableSearch => "tableSearch"
    case Columns => "columns"
    case ForeignKeys => "foreignKeys"
  }

  function Join(parts: seq<string>): string {
    if parts == [] then ""
    else if |parts| == 1 then parts[0]
    else parts[0] + "|" + Join(parts[1..])
  }

  function Key(session: string, kind: Kind, parts: seq<string>): string {
    Join([session, Name(kind)] + parts)
  }

  predicate StartsWith(s: string, prefix: string) {
    prefix <= s
  }

  // ----- Trimming, as JavaScript does it -----

  predicate IsSpace(c: char) {
    var n := c as int;
    9 <= n <= 13 || n == 0x20 || n == 0xa0 || n == 0x1680 || 0x2000 <= n <= 0x200a
    || n == 0x2028 || n == 0x2029 || n == 0x202f || n == 0x205f || n == 0x3000 || n == 0xfeff
  }

  function TrimStart(s: string): string {
    if s != "" && IsSpace(s[0]) then TrimStart(s[1..]) else s
  }

  function TrimEnd(s: string): string {
    if s != "" && IsSpace(s[|s| - 1]) then TrimEnd(s[..|s| - 1]) else s
  }

  function Trim(s: string): string {
    TrimEnd(TrimStart(s))
  }

  // ----- Targets -----

  datatype Target = Target(all: bool, catalog: Option<string>, schema: Option<string>, table: Option<string>)

  function Normalize(v: Option<string>): string {
    if v.Some? then Trim(v.value) else ""
  }

  function ResolveCatalog(catalog: Option<string>, fallback: Option<string>): string {
    Normalize(if catalog.Some? then catalog else fallback)
  }

  predicate Given(v: Option<string>) {
    v.Some? && v.value != ""
  }

  // The three tests the program makes on a key, shared by its two loops.

  predicate TableScope(s: string, c: string, m: string, t: string, key: string) {
    || key == Key(s, Columns, [c, m, t])
    || key == Key(s, ForeignKeys, [c, m, t])
    || key == Key(s, Tables, [c, m])
    || StartsWith(key, Key(s, TableSearch, [c, m]) + "|")
  }

  predicate SchemaScope(s: string, c: string, m: string, key: string) {
    || key == Key(s, Tables, [c, m])
    || StartsWith(key, Key(s, TableSearch, [c, m]) + "|")
    || StartsWith(key, Key(s, Columns, [c, m]) + "|")
    || StartsWith(key, Key(s, ForeignKeys, [c, m]) + "|")
  }

  predicate CatalogScope(s: string, c: string, key: string) {
    || key == Key(s, Schemas, [c])
    || StartsWith(key, Key(s, Tables, [c]) + "|")
    || StartsWith(key, Key(s, TableSearch, [c]) + "|")
    || StartsWith(key, Key(s, Columns, [c]) + "|")
    || StartsWith(key, Key(s, ForeignKeys, [c]) + "|")
  }

  /** Who the cache is for: its session and default catalog. */
  datatype Owner = Owner(session: string, defaultCatalog: Option<string>)

  /** Stored entries: only the narrowest level the target names. */
  predicate EntryScope(o: Owner, t: Target, key: string) {
    var c, m, b := ResolveCatalog(t.catalog, o.defaultCatalog), Normalize(t.schema), Normalize(t.table);
    t.all ||
    (if Given(t.table) then TableScope(o.session, c, m, b, key)
     else if Given(t.schema) then SchemaScope(o.session, c, m, key)
     else Given(t.catalog) && CatalogScope(o.session, c, key))
  }

  /** Fetches under way: every level the target names. */
  predicate FlightScope(o: Owner, t: Target, key: string) {
    var c, m, b := ResolveCatalog(t.catalog, o.defaultCatalog), Normalize(t.schema), Normalize(t.table);
    || t.all
    || (Given(t.table) && TableScope(o.session, c, m, b, key))
    || (Given(t.schema) && SchemaScope(o.session, c, m, key))
    || (Given(t.catalog) && CatalogScope(o.session, c, key))
  }

  // ----- Keys determine their parts when no part holds the separator -----

  predicate Bare(s: string) {
    '|' !in s
  }

  predicate AllBare(parts: seq<string>) {
    forall i :: 0 <= i < |parts| ==> Bare(parts[i])
  }

  /** What the program asks under a key: the object the key stands for. */
  datatype Item = Item(kind: Kind, parts: seq<string>)

  lemma {:induction false} FirstPart(a: string, x: string, b: string, y: string)
    requires Bare(a) && Bare(b) && a + "|" + x == b + "|" + y
    ensures a == b && x == y
  {
    var l, r := a + "|" + x, b + "|" + y;
    assert |a| == |b| by {
      assert l[|a|] == '|' && r[|b|] == '|';
      assert forall i :: 0 <= i < |a| ==> l[i] == a[i];
      assert forall i :: 0 <= i < |b| ==> r[i] == b[i];
    }
    assert a == l[..|a|] == r[..|b|] == b;
    assert x == l[|a| + 1..] == r[|b| + 1..] == y;
  }

  lemma PrefixHasSeparator(s: string, q: string)
    requires StartsWith(s, q + "|")
    ensures !Bare(s)
  {
    assert s[|q|] == '|';
  }

  /** A list is an exact prefix of another when its joined form, closed by a separator, is. */
  lemma {:induction false} JoinPrefix(ps: seq<string>, qs: seq<string>)
    requires AllBare(ps) && AllBare(qs) && qs != []
    ensures StartsWith(Join(ps), Join(qs) + "|") <==> (|qs| < |ps| && qs == ps[..|qs|])
    decreases |qs|
  {
    if |ps| <= 1 {
      if StartsWith(Join(ps), Join(qs) + "|") { PrefixHasSeparator(Join(ps), Join(qs)); }
    } else {
      assert Join(ps) == ps[0] + "|" + Join(ps[1..]);
      if |qs| == 1 {
        assert Join(qs) == qs[0];
        if StartsWith(Join(ps), qs[0] + "|") {
          var rest := Join(ps)[|qs[0]| + 1..];
          assert Join(ps) == qs[0] + "|" + rest;
          FirstPart(ps[0], Join(ps[1..]), qs[0], rest);
        }
        if qs == ps[..1] { assert Join(ps) == qs[0] + "|" + Join(ps[1..]); }
      } else {
        JoinPrefixLong(ps, qs);
      }
    }
  }

  lemma PrefixPeels(a: string, x: string, b: string, y: string)
    requires Bare(a) && Bare(b)
    ensures StartsWith(a + "|" + x, b + "|" + y + "|") <==> a == b && StartsWith(x, y + "|")
  {
    var l, r := a + "|" + x, b + "|" + y + "|";
    if StartsWith(l, r) {
      var rest := l[|r|..];
      assert l == r + rest == b + "|" + (y + "|" + rest);
      FirstPart(a, x, b, y + "|" + rest);
      assert x[..|y| + 1] == y + "|";
    }
    if a == b && StartsWith(x, y + "|") {
      var rest := x[|y| + 1..];
      assert x == y + "|" + rest;
      assert l == r + rest;
    }
  }

  lemma SlicePeels(ps: seq<string>, qs: seq<string>)
    requires |qs| >= 1 && |ps| >= 1
    ensures |qs| < |ps| && qs == ps[..|qs|] <==>
              ps[0] == qs[0] && |qs[1..]| < |ps[1..]| && qs[1..] == ps[1..][..|qs[1..]|]
  {
    if ps[0] == qs[0] && |qs[1..]| < |ps[1..]| && qs[1..] == ps[1..][..|qs[1..]|] {
      assert qs == [qs[0]] + qs[1..] && ps == [ps[0]] + ps[1..];
    }
  }

  lemma {:induction false} JoinPrefixLong(ps: seq<string>, qs: seq<string>)
    requires AllBare(ps) && AllBare(qs) && |qs| >= 2 && |ps| >= 2
    ensures StartsWith(Join(ps), Join(qs) + "|") <==> (|qs| < |ps| && qs == ps[..|qs|])
    decreases |qs|, 0
  {
    hide StartsWith;
    var p, q := ps[1..], qs[1..];
    assert Join(ps) == ps[0] + "|" + Join(p) && Join(qs) == qs[0] + "|" + Join(q);
    JoinPrefix(p, q);
    PrefixPeels(ps[0], Join(p), qs[0], Join(q));
    SlicePeels(ps, qs);
  }

  lemma {:induction false} JoinInjective(ps: seq<string>, qs: seq<string>)
    requires AllBare(ps) && AllBare(qs) && |ps| >= 1 && |qs| >= 1 && Join(ps) == Join(qs)
    ensures ps == qs
    decreases |ps|
  {
    if |ps| == 1 && |qs| == 1 {
    } else if |ps| == 1 || |qs| == 1 {
    } else {
      FirstPart(ps[0], Join(ps[1..]), qs[0], Join(qs[1..]));
      JoinInjective(ps[1..], qs[1..]);
    }
  }

  /** The session may hold anything: every key starts with the same one. */
  lemma SessionFirst(session: string, rest: seq<string>)
    requires rest != []
    ensures Join([session] + rest) == session + "|" + Join(rest)
  {
    assert ([session] + rest)[1..] == rest;
  }

  lemma NamesBare(k: Kind)
    ensures Bare(Name(k))
  {
  }

  lemma NamesDiffer(j: Kind, k: Kind)
    ensures Name(j) == Name(k) <==> j == k
  {
    if Name(j) == Name(k) {
      assert Name(j)[0] == Name(k)[0] && Name(j)[5] == Name(k)[5] && |Name(j)| == |Name(k)|;
    }
  }

  lemma KeyEquals(s: string, j: Kind, ps: seq<string>, k: Kind, qs: seq<string>)
    requires AllBare(ps) && AllBare(qs)
    ensures Key(s, j, ps) == Key(s, k, qs) <==> j == k && ps == qs
  {
    var x, y := [Name(j)] + ps, [Name(k)] + qs;
    assert [s, Name(j)] + ps == [s] + x && [s, Name(k)] + qs == [s] + y;
    SessionFirst(s, x);
    SessionFirst(s, y);
    NamesBare(j);
    NamesBare(k);
    NamesDiffer(j, k);
    if Key(s, j, ps) == Key(s, k, qs) {
      assert Join(x) == (s + "|" + Join(x))[|s| + 1..] == (s + "|" + Join(y))[|s| + 1..] == Join(y);
      JoinInjective(x, y);
      assert x[0] == Name(j) && y[0] == Name(k) && x[1..] == ps && y[1..] == qs;
    }
  }

  lemma KeyStartsWith(s: string, j: Kind, ps: seq<string>, k: Kind, qs: seq<string>)
    requires AllBare(ps) && AllBare(qs)
    ensures StartsWith(Key(s, j, ps), Key(s, k, qs) + "|") <==> j == k && |qs| < |ps| && ps[..|qs|] == qs
  {
    var x, y := [Name(j)] + ps, [Name(k)] + qs;
    assert [s, Name(j)] + ps == [s] + x && [s, Name(k)] + qs == [s] + y;
    SessionFirst(s, x);
    SessionFirst(s, y);
    NamesBare(j);
    NamesBare(k);
    NamesDiffer(j, k);
    JoinPrefix(x, y);
    PrefixUnderSession(s, Join(x), Join(y) + "|");
    assert (s + "|") + (Join(y) + "|") == s + "|" + Join(y) + "|";
    if |y| < |x| {
      assert x[..|y|] == [Name(j)] + ps[..|qs|];
      assert y == x[..|y|] <==> j == k && ps[..|qs|] == qs by {
        if y == x[..|y|] { assert y[0] == x[0] && y[1..] == x[..|y|][1..] == ps[..|qs|]; }
      }
    }
  }

  lemma PrefixUnderSession(s: string, a: string, b: string)
    ensures StartsWith(s + "|" + a, s + "|" + b) <==> StartsWith(a, b)
  {
    var h := s + "|";
    if h + b <= h + a {
      assert b == (h + b)[|h|..] && a == (h + a)[|h|..];
      assert (h + a)[..|h + b|] == h + b;
      assert a[..|b|] == (h + a)[|h|..|h| + |b|];
    }
    if b <= a {
      assert a == b + a[|b|..];
      assert h + a == (h + b) + a[|b|..];
    }
  }

  // ----- What the scopes mean -----

  /** The target's catalog, schema and table, as far as the tests use them. */
  predicate TableItem(c: string, m: string, t: string, i: Item) {
    match i.kind
    case Columns | ForeignKeys => i.parts == [c, m, t]
    case Tables => i.parts == [c, m]
    case TableSearch => |i.parts| > 2 && i.parts[..2] == [c, m]
    case _ => false
  }

  predicate SchemaItem(c: string, m: string, i: Item) {
    match i.kind
    case Tables => i.parts == [c, m]
    case TableSearch | Columns | ForeignKeys => |i.parts| > 2 && i.parts[..2] == [c, m]
    case _ => false
  }

  predicate CatalogItem(c: string, i: Item) {
    match i.kind
    case Schemas => i.parts == [c]
    case Tables | TableSearch | Columns | ForeignKeys => |i.parts| > 1 && i.parts[..1] == [c]
    case Catalogs => false
  }

  function KeyOf(o: Owner, i: Item): string {
    Key(o.session, i.kind, i.parts)
  }

  lemma TableScopeMeans(s: string, c: string, m: string, t: string, i: Item)
    requires AllBare(i.parts) && Bare(c) && Bare(m) && Bare(t)
    ensures TableScope(s, c, m, t, Key(s, i.kind, i.parts)) <==> TableItem(c, m, t, i)
  {
    KeyEquals(s, i.kind, i.parts, Columns, [c, m, t]);
    KeyEquals(s, i.kind, i.parts, ForeignKeys, [c, m, t]);
    KeyEquals(s, i.kind, i.parts, Tables, [c, m]);
    KeyStartsWith(s, i.kind, i.parts, TableSearch, [c, m]);
  }

  lemma SchemaScopeMeans(s: string, c: string, m: string, i: Item)
    requires AllBare(i.parts) && Bare(c) && Bare(m)
    ensures SchemaScope(s, c, m, Key(s, i.kind, i.parts)) <==> SchemaItem(c, m, i)
  {
    KeyEquals(s, i.kind, i.parts, Tables, [c, m]);
    KeyStartsWith(s, i.kind, i.parts, TableSearch, [c, m]);
    KeyStartsWith(s, i.kind, i.parts, Columns, [c, m]);
    KeyStartsWith(s, i.kind, i.parts, ForeignKeys, [c, m]);
  }

  lemma CatalogScopeMeans(s: string, c: string, i: Item)
    requires AllBare(i.parts) && Bare(c)
    ensures CatalogScope(s, c, Key(s, i.kind, i.parts)) <==> CatalogItem(c, i)
  {
    KeyEquals(s, i.kind, i.parts, Schemas, [c]);
    KeyStartsWith(s, i.kind, i.parts, Tables, [c]);
    KeyStartsWith(s, i.kind, i.parts, TableSearch, [c]);
    KeyStartsWith(s, i.kind, i.parts, Columns, [c]);
    KeyStartsWith(s, i.kind, i.parts, ForeignKeys, [c]);
  }

  /** A fetch under way is detached whenever its stored entry would be dropped. */
  lemma FlightContainsEntry(o: Owner, t: Target, key: string)
    requires EntryScope(o, t, key)
    ensures FlightScope(o, t, key)
  {
  }

  /** Dropping stored entries by string tests drops exactly the items of the target's
      narrowest level, when no name holds the separator. */
  lemma EntryScopeMeans(o: Owner, t: Target, i: Item)
    requires AllBare(i.parts)
    requires Bare(ResolveCatalog(t.catalog, o.defaultCatalog)) && Bare(Normalize(t.schema)) && Bare(Normalize(t.table))
    ensures var c, m, b := ResolveCatalog(t.catalog, o.defaultCatalog), Normalize(t.schema), Normalize(t.table);
            EntryScope(o, t, KeyOf(o, i)) <==>
              t.all || (if Given(t.table) then TableItem(c, m, b, i)
                        else if Given(t.schema) then SchemaItem(c, m, i)
                        else Given(t.catalog) && CatalogItem(c, i))
  {
    var c, m, b := ResolveCatalog(t.catalog, o.defaultCatalog), Normalize(t.schema), Normalize(t.table);
    TableScopeMeans(o.session, c, m, b, i);
    SchemaScopeMeans(o.session, c, m, i);
    CatalogScopeMeans(o.session, c, i);
  }
}
