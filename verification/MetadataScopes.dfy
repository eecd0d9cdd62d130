/** What an invalidation drops, kind by kind. */
module MetadataScopes {
  import opened MetadataKeys
  import opened MetadataCache
  import opened Trimming
  import opened Options

  /** A name as the program makes it, in which keys can be told apart. */
  predicate Proper(name: string) {
    Bare(name) && Trim(name) == name
  }

  /** The invalidation drops the stored item. */
  predicate Drops(o: Owner, t: Target, i: Item) {
    EntryScope(o, t, KeyOf(o, i))
  }

  lemma BareLists(c: string, m: string, b: string, l: string)
    requires Bare(c) && Bare(m) && Bare(b) && Bare(l)
    ensures AllBare([]) && AllBare([c]) && AllBare([c, m]) && AllBare([c, m, b]) && AllBare([c, m, b, l])
  {
  }

  lemma Prefixes(c: string, m: string, b: string, l: string)
    ensures [c, m, b][..2] == [c, m] && [c, m, b, l][..2] == [c, m]
    ensures [c, m][..1] == [c] && [c, m, b][..1] == [c] && [c, m, b, l][..1] == [c]
  {
  }

  lemma SamePairs(c: string, m: string, c': string, m': string)
    ensures [c', m'] == [c, m] <==> c' == c && m' == m
    ensures [c'] == [c] <==> c' == c
  {
    if [c', m'] == [c, m] { assert [c', m'][0] == c && [c', m'][1] == m; }
    if [c'] == [c] { assert [c'][0] == c; }
  }

  lemma SameTriples(c: string, m: string, b: string, c': string, m': string, b': string)
    ensures [c', m', b'] == [c, m, b] <==> c' == c && m' == m && b' == b
  {
    if [c', m', b'] == [c, m, b] { assert [c', m', b'][0] == c && [c', m', b'][1] == m && [c', m', b'][2] == b; }
  }

  /** A table drops its own columns and foreign keys, the listing of its schema and the searches there. */
  lemma TableDrops(o: Owner, c: string, m: string, b: string, c': string, m': string, b': string, l: string)
    requires Proper(c) && Proper(m) && Proper(b) && b != "" && Bare(c') && Bare(m') && Bare(b') && Bare(l)
    ensures var t := Target(false, Some(c), Some(m), Some(b));
            && (Drops(o, t, Item(Columns, [c', m', b'])) <==> c' == c && m' == m && b' == b)
            && (Drops(o, t, Item(ForeignKeys, [c', m', b'])) <==> c' == c && m' == m && b' == b)
            && (Drops(o, t, Item(Tables, [c', m'])) <==> c' == c && m' == m)
            && (Drops(o, t, Item(TableSearch, [c', m', b', l])) <==> c' == c && m' == m)
            && !Drops(o, t, Item(Schemas, [c'])) && !Drops(o, t, Item(Catalogs, []))
  {
    hide Drops, Trim;
    AllMean(o, Target(false, Some(c), Some(m), Some(b)), c', m', b', l);
    Prefixes(c', m', b', l);
    SamePairs(c, m, c', m');
    SameTriples(c, m, b, c', m', b');
  }

  /** A schema drops its listing, its searches and everything of its tables. */
  lemma SchemaDrops(o: Owner, c: string, m: string, c': string, m': string, b': string, l: string)
    requires Proper(c) && Proper(m) && m != "" && Bare(c') && Bare(m') && Bare(b') && Bare(l)
    ensures var t := Target(false, Some(c), Some(m), None);
            && (Drops(o, t, Item(Columns, [c', m', b'])) <==> c' == c && m' == m)
            && (Drops(o, t, Item(ForeignKeys, [c', m', b'])) <==> c' == c && m' == m)
            && (Drops(o, t, Item(Tables, [c', m'])) <==> c' == c && m' == m)
            && (Drops(o, t, Item(TableSearch, [c', m', b', l])) <==> c' == c && m' == m)
            && !Drops(o, t, Item(Schemas, [c'])) && !Drops(o, t, Item(Catalogs, []))
  {
    hide Drops, Trim;
    AllMean(o, Target(false, Some(c), Some(m), None), c', m', b', l);
    Prefixes(c', m', b', l);
    SamePairs(c, m, c', m');
  }

  /** A catalog drops its list of schemas and everything in them. */
  lemma CatalogDrops(o: Owner, c: string, c': string, m': string, b': string, l: string)
    requires Proper(c) && c != "" && Bare(c') && Bare(m') && Bare(b') && Bare(l)
    ensures var t := Target(false, Some(c), None, None);
            && (Drops(o, t, Item(Columns, [c', m', b'])) <==> c' == c)
            && (Drops(o, t, Item(ForeignKeys, [c', m', b'])) <==> c' == c)
            && (Drops(o, t, Item(Tables, [c', m'])) <==> c' == c)
            && (Drops(o, t, Item(TableSearch, [c', m', b', l])) <==> c' == c)
            && (Drops(o, t, Item(Schemas, [c'])) <==> c' == c) && !Drops(o, t, Item(Catalogs, []))
  {
    hide Drops, Trim;
    AllMean(o, Target(false, Some(c), None, None), c', m', b', l);
    Prefixes(c', m', b', l);
    SamePairs(c, "", c', "");
  }

  lemma AllMean(o: Owner, t: Target, c: string, m: string, b: string, l: string)
    requires Bare(c) && Bare(m) && Bare(b) && Bare(l)
    requires Bare(ResolveCatalog(t.catalog, o.defaultCatalog)) && Bare(Normalize(t.schema)) && Bare(Normalize(t.table))
    ensures Means(o, t, Item(Columns, [c, m, b])) && Means(o, t, Item(ForeignKeys, [c, m, b]))
    ensures Means(o, t, Item(Tables, [c, m])) && Means(o, t, Item(TableSearch, [c, m, b, l]))
    ensures Means(o, t, Item(Schemas, [c])) && Means(o, t, Item(Catalogs, []))
  {
    hide EntryScope, TableItem, SchemaItem, CatalogItem;
    BareLists(c, m, b, l);
    EntryScopeMeans(o, t, Item(Columns, [c, m, b]));
    EntryScopeMeans(o, t, Item(ForeignKeys, [c, m, b]));
    EntryScopeMeans(o, t, Item(Tables, [c, m]));
    EntryScopeMeans(o, t, Item(TableSearch, [c, m, b, l]));
    EntryScopeMeans(o, t, Item(Schemas, [c]));
    EntryScopeMeans(o, t, Item(Catalogs, []));
  }

  predicate Means(o: Owner, t: Target, i: Item) {
    var (c, m, b) := (ResolveCatalog(t.catalog, o.defaultCatalog), Normalize(t.schema), Normalize(t.table));
    Drops(o, t, i) <==>
      t.all || (if Given(t.table) then TableItem(c, m, b, i)
                else if Given(t.schema) then SchemaItem(c, m, i)
                else Given(t.catalog) && CatalogItem(c, i))
  }

  /** White space around the names of a target is dropped. */
  lemma PaddedTarget(o: Owner, before: string, after: string, c: string, m: string, b: string, key: string)
    requires Spaces(before) && Spaces(after) && c != "" && m != "" && b != ""
    requires Trim(c) == c && !IsSpace(c[0]) && !IsSpace(c[|c| - 1])
    requires Trim(m) == m && !IsSpace(m[0]) && !IsSpace(m[|m| - 1])
    requires Trim(b) == b && !IsSpace(b[0]) && !IsSpace(b[|b| - 1])
    ensures EntryScope(o, Target(false, Some(before + c + after), Some(before + m + after), Some(before + b + after)), key)
       <==> EntryScope(o, Target(false, Some(c), Some(m), Some(b)), key)
  {
    hide Trim, TableScope;
    TrimPadded(before, c, after);
    TrimPadded(before, m, after);
    TrimPadded(before, b, after);
  }

  /** A target that names no catalog means the default one. */
  lemma DefaultCatalogMeant(o: Owner, t: Target, c: string, key: string)
    requires t.catalog == None && o.defaultCatalog == Some(c) && (Given(t.table) || Given(t.schema))
    ensures EntryScope(o, t, key) <==> EntryScope(o, t.(catalog := Some(c)), key)
  {
  }

  /** A fetch under way is detached at every level the target names. */
  lemma FlightScopeIsEveryLevel(o: Owner, t: Target, key: string)
    ensures FlightScope(o, t, key) <==>
              || EntryScope(o, t, key)
              || (!t.all && Given(t.schema) && EntryScope(o, t.(table := None), key))
              || (!t.all && Given(t.catalog) && EntryScope(o, t.(table := None, schema := None), key))
  {
  }

  /** Whatever is covered is asked for anew, and what lies outside every level is left as it was. */
  lemma InvalidationForgets<V>(o: Owner, cache: Cache<V>, t: Target, key: string, now: int)
    ensures EntryScope(o, t, key) ==> Lookup(Invalidated(o, cache, t), key, now) == Began
    ensures !FlightScope(o, t, key) ==> Lookup(Invalidated(o, cache, t), key, now) == Lookup(cache, key, now)
  {
    if EntryScope(o, t, key) { FlightContainsEntry(o, t, key); }
  }
}
