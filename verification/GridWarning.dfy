/** When no warning is shown, how many rows can a statement change? */
module GridWarning {
  import opened GridChanges
  import opened GridMeaning
  import opened Options

  predicate Warns(changes: seq<Change>, columns: seq<string>, keys: seq<string>)
    requires AllFit(changes, columns)
  {
    MatchesRows(CompileAll(changes, columns, WhereColumns(keys, columns))) && Present(keys, columns) == []
  }

  ghost predicate AtMostOneRow(db: Db, s: Statement) {
    !s.Insert? ==> forall i, j :: i in Affected(db, s) && j in Affected(db, s) ==> i == j
  }

  ghost predicate EachAtMostOne(db: Db, statements: seq<Statement>) {
    forall k :: 0 <= k < |statements| ==> AtMostOneRow(db, statements[k])
  }

  /** On every table the declared key is unique in, edits saved without a warning never
      change two rows with one statement. */
  ghost predicate SafeWhenQuiet(columns: seq<string>, keys: seq<string>) {
    forall db: Db, changes: seq<Change> ::
      AllFit(changes, columns) && Keyed(db, columns, keys) && !Warns(changes, columns, keys) ==>
        EachAtMostOne(db, CompileAll(changes, columns, WhereColumns(keys, columns)))
  }

  lemma {:induction false} NoMatchNoPick(db: Db, statements: seq<Statement>)
    requires !MatchesRows(statements)
    ensures EachAtMostOne(db, statements)
    decreases |statements|
  {
    if statements != [] {
      var init := statements[..|statements| - 1];
      NoMatchNoPick(db, init);
      forall k | 0 <= k < |statements| ensures AtMostOneRow(db, statements[k]) {
        if k < |init| { assert statements[k] == init[k]; }
      }
    }
  }

  lemma FullKeyPicksOne(db: Db, columns: seq<string>, keys: seq<string>, values: seq<Cell>, s: Statement)
    requires keys != [] && Within(keys, columns) && Keyed(db, columns, keys)
    requires !s.Insert? && s.guard == WhereFor(keys, columns, values)
    ensures AtMostOneRow(db, s)
  {
    forall i, j | i in Affected(db, s) && j in Affected(db, s) ensures i == j {
      GuardPicksKey(db.rows[i], columns, keys, values);
      GuardPicksKey(db.rows[j], columns, keys, values);
    }
  }

  lemma FullKeyChange(db: Db, columns: seq<string>, keys: seq<string>, ch: Change)
    requires keys != [] && Within(keys, columns) && Keyed(db, columns, keys) && Fits(ch, columns)
    ensures EachAtMostOne(db, Compile(ch, columns, keys))
  {
    if ch.status != Inserted && ch.original.Some? && Compile(ch, columns, keys) != [] {
      FullKeyPicksOne(db, columns, keys, ch.original.value, Compile(ch, columns, keys)[0]);
    }
  }

  lemma EachOfBoth(db: Db, a: seq<Statement>, b: seq<Statement>)
    requires EachAtMostOne(db, a) && EachAtMostOne(db, b)
    ensures EachAtMostOne(db, a + b)
  {
    forall k | 0 <= k < |a + b| ensures AtMostOneRow(db, (a + b)[k]) {
      if k >= |a| { assert (a + b)[k] == b[k - |a|]; }
    }
  }

  lemma {:induction false} FullKeyIsSafe(db: Db, columns: seq<string>, keys: seq<string>, changes: seq<Change>)
    requires keys != [] && Within(keys, columns) && Keyed(db, columns, keys) && AllFit(changes, columns)
    ensures EachAtMostOne(db, CompileAll(changes, columns, keys))
    decreases |changes|
  {
    if changes != [] {
      var init, ch := changes[..|changes| - 1], changes[|changes| - 1];
      FullKeyIsSafe(db, columns, keys, init);
      FullKeyChange(db, columns, keys, ch);
      EachOfBoth(db, CompileAll(init, columns, keys), Compile(ch, columns, keys));
    }
  }

  // ----- Part of a composite key in the result -----

  /** Two rows that differ in the key column `m` alone. */
  function Twins(columns: seq<string>, keys: seq<string>, m: string): Db {
    var row: Row := map c | c in columns + keys :: Some("a");
    Db(map[0 := row, 1 := row[m := Some("b")]], 2, map[])
  }

  function DropFirst(columns: seq<string>): Change {
    var values := seq(|columns|, i => Some("a"));
    Change(Deleted, values, Some(values))
  }

  lemma TwinsKeyed(columns: seq<string>, keys: seq<string>, m: string)
    requires m in keys
    ensures Keyed(Twins(columns, keys, m), columns, keys)
  {
    var db := Twins(columns, keys, m);
    forall i | 0 <= i < |columns| ensures columns[i] in db.rows[0] && columns[i] in db.rows[1] {
      assert columns[i] in columns + keys;
    }
    var k :| 0 <= k < |keys| && keys[k] == m;
    assert m in columns + keys;
    assert KeyOf(db.rows[0], keys)[k] == Some("a") && KeyOf(db.rows[1], keys)[k] == Some("b");
  }

  lemma {:induction false} PresentWithin(keys: seq<string>, columns: seq<string>)
    ensures forall p :: p in Present(keys, columns) ==> p in columns
  {
    if keys != [] { PresentWithin(keys[1..], columns); }
  }

  lemma TwinMatches(columns: seq<string>, keys: seq<string>, m: string, id: nat)
    requires m !in columns && Present(keys, columns) != [] && id < 2
    ensures Matches(Twins(columns, keys, m).rows[id], WhereFor(Present(keys, columns), columns, DropFirst(columns).original.value))
  {
    var wanted, values := Present(keys, columns), DropFirst(columns).original.value;
    var row, guard := Twins(columns, keys, m).rows[id], WhereFor(wanted, columns, values);
    PresentWithin(keys, columns);
    forall i | 0 <= i < |guard| ensures Passes(row, guard[i]) {
      WhereAt(wanted, columns, values, i);
      assert wanted[i] in wanted && wanted[i] in columns;
      assert wanted[i] in columns + keys;
    }
  }

  lemma PartialKeyIsNotSafe(columns: seq<string>, keys: seq<string>, m: string)
    requires Present(keys, columns) != [] && m in keys && m !in columns
    ensures !SafeWhenQuiet(columns, keys)
  {
    var db, ch := Twins(columns, keys, m), DropFirst(columns);
    var changes := [ch];
    TwinsKeyed(columns, keys, m);
    TwinMatches(columns, keys, m, 0);
    TwinMatches(columns, keys, m, 1);
    var wanted := WhereColumns(keys, columns);
    var s := Delete(WhereFor(wanted, columns, ch.original.value));
    assert changes[..0] == [] && CompileAll(changes, columns, wanted) == [s];
    assert 0 in Affected(db, s) && 1 in Affected(db, s);
    assert !AtMostOneRow(db, s) && AllFit(changes, columns);
    assert !Warns(changes, columns, keys);
    assert !EachAtMostOne(db, CompileAll(changes, columns, wanted)) by { assert CompileAll(changes, columns, wanted)[0] == s; }
  }

  /** A quiet save is safe exactly when the result shows none of the declared key or all of
      it: with part of a composite key the rows are matched on that part, and nothing warns. */
  lemma QuietSaveIsSafeIff(columns: seq<string>, keys: seq<string>)
    ensures SafeWhenQuiet(columns, keys) <==> Present(keys, columns) == [] || Within(keys, columns)
  {
    if Present(keys, columns) == [] || Within(keys, columns) {
      forall db: Db, changes: seq<Change>
        | AllFit(changes, columns) && Keyed(db, columns, keys) && !Warns(changes, columns, keys)
        ensures EachAtMostOne(db, CompileAll(changes, columns, WhereColumns(keys, columns)))
      {
        if Present(keys, columns) == [] {
          NoMatchNoPick(db, CompileAll(changes, columns, WhereColumns(keys, columns)));
        } else {
          PresentAll(keys, columns);
          FullKeyIsSafe(db, columns, keys, changes);
        }
      }
    } else {
      var i :| 0 <= i < |keys| && keys[i] !in columns;
      PartialKeyIsNotSafe(columns, keys, keys[i]);
    }
  }
}
