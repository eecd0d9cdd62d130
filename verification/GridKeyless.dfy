/** Which rows a statement compiled for a grid picks, read off the cells: the whole key's, part of
    a key's, or with no key in the result every column's. */
module GridKeyless {
  import opened GridChanges
  import opened GridMeaning
  import opened Options

  /** The column takes part in the match: it is in the result, and in the primary key unless the
      result shows none of the key. */
  predicate TakesPart(c: string, columns: seq<string>, primaryKeys: seq<string>) {
    c in columns && (c in primaryKeys || forall k :: k in primaryKeys ==> k !in columns)
  }

  /** The row holds the original cell in every column that takes part. */
  predicate Agrees(row: Row, columns: seq<string>, primaryKeys: seq<string>, original: seq<Cell>)
    requires |original| == |columns|
  {
    forall i :: 0 <= i < |columns| && TakesPart(columns[i], columns, primaryKeys) ==>
      columns[i] in row && row[columns[i]] == original[i]
  }

  lemma {:induction false} PresentMembers(keys: seq<string>, columns: seq<string>)
    ensures forall c :: c in Present(keys, columns) <==> c in keys && c in columns
  {
    if keys != [] {
      PresentMembers(keys[1..], columns);
      assert keys == [keys[0]] + keys[1..];
    }
  }

  lemma WantedMembers(keys: seq<string>, columns: seq<string>)
    ensures forall c :: c in WhereColumns(keys, columns) <==> TakesPart(c, columns, keys)
    ensures columns != [] ==> WhereColumns(keys, columns) != []
  {
    PresentMembers(keys, columns);
    if k :| k in keys && k in columns {
      assert k in Present(keys, columns);
    } else if Present(keys, columns) != [] {
      assert Present(keys, columns)[0] in Present(keys, columns);
    }
  }

  lemma IndexOfAt(columns: seq<string>, i: nat)
    requires Distinct(columns) && i < |columns|
    ensures IndexOf(columns, columns[i]) == i
  {
    assert columns[i] in columns;
  }

  lemma GuardAgrees(row: Row, columns: seq<string>, primaryKeys: seq<string>, original: seq<Cell>)
    requires Distinct(columns) && columns != [] && |original| == |columns|
    ensures Matches(row, WhereFor(WhereColumns(primaryKeys, columns), columns, original))
       <==> Agrees(row, columns, primaryKeys, original)
  {
    hide WhereColumns, TakesPart, IndexOf;
    var wanted := WhereColumns(primaryKeys, columns);
    var guard := WhereFor(wanted, columns, original);
    WantedMembers(primaryKeys, columns);
    if Matches(row, guard) {
      forall i | 0 <= i < |columns| && TakesPart(columns[i], columns, primaryKeys)
        ensures columns[i] in row && row[columns[i]] == original[i]
      {
        var j :| 0 <= j < |wanted| && wanted[j] == columns[i];
        WhereAt(wanted, columns, original, j);
        IndexOfAt(columns, i);
        assert Passes(row, guard[j]);
      }
    }
    if Agrees(row, columns, primaryKeys, original) {
      forall j | 0 <= j < |guard| ensures Passes(row, guard[j]) {
        WhereAt(wanted, columns, original, j);
        assert wanted[j] in wanted && TakesPart(wanted[j], columns, primaryKeys);
        ColumnPlace(columns, wanted[j], primaryKeys);
        var i :| 0 <= i < |columns| && columns[i] == wanted[j];
        IndexOfAt(columns, i);
      }
    }
  }

  lemma ColumnPlace(columns: seq<string>, c: string, primaryKeys: seq<string>)
    requires TakesPart(c, columns, primaryKeys)
    ensures c in columns
  {
  }

  /** The UPDATE or DELETE compiled for a change affects exactly the rows that agree with its
      original row in every column that takes part. */
  lemma AffectedAgree(db: Db, columns: seq<string>, primaryKeys: seq<string>, ch: Change, s: Statement)
    requires Distinct(columns) && columns != [] && Fits(ch, columns) && ch.status != Inserted && ch.original.Some?
    requires Compile(ch, columns, WhereColumns(primaryKeys, columns)) == [s]
    ensures Affected(db, s) == set id | id in db.rows && Agrees(db.rows[id], columns, primaryKeys, ch.original.value)
  {
    hide WhereColumns, Matches, Agrees;
    var guard := WhereFor(WhereColumns(primaryKeys, columns), columns, ch.original.value);
    assert !s.Insert? && s.guard == guard;
    forall id | id in db.rows
      ensures Matches(db.rows[id], guard) <==> Agrees(db.rows[id], columns, primaryKeys, ch.original.value)
    {
      GuardAgrees(db.rows[id], columns, primaryKeys, ch.original.value);
    }
  }

  /** A change gets no statement exactly when there is no original row to find, or nothing in it
      was edited; otherwise it gets one, of its own kind. */
  lemma OneStatementIff(ch: Change, columns: seq<string>, primaryKeys: seq<string>)
    requires Fits(ch, columns)
    ensures var out := Compile(ch, columns, WhereColumns(primaryKeys, columns));
            match ch.status
            case Inserted => out == [Insert(columns, ch.values)]
            case Updated => if ch.original == Some(ch.values) || ch.original == None then out == [] else |out| == 1 && out[0].Update?
            case Deleted => if ch.original == None then out == [] else |out| == 1 && out[0].Delete?
  {
    if ch.status == Updated && ch.original.Some? { NoAssignments(columns, ch.values, ch.original.value); }
  }

  // ----- No key in the result -----

  /** The row holds these cells in every result column. */
  predicate HoldsAll(row: Row, columns: seq<string>, cells: seq<Cell>)
    requires |cells| == |columns|
  {
    forall i :: 0 <= i < |columns| ==> columns[i] in row && row[columns[i]] == cells[i]
  }

  /** With none of the key in the result, a statement affects exactly the rows that hold the
      original cell in every result column. */
  lemma KeylessAffects(db: Db, columns: seq<string>, primaryKeys: seq<string>, ch: Change, s: Statement)
    requires Distinct(columns) && columns != [] && (forall k :: k in primaryKeys ==> k !in columns)
    requires Fits(ch, columns) && ch.status != Inserted && ch.original.Some?
    requires Compile(ch, columns, WhereColumns(primaryKeys, columns)) == [s]
    ensures Affected(db, s) == set id | id in db.rows && HoldsAll(db.rows[id], columns, ch.original.value)
  {
    AffectedAgree(db, columns, primaryKeys, ch, s);
    forall id | id in db.rows
      ensures Agrees(db.rows[id], columns, primaryKeys, ch.original.value) <==> HoldsAll(db.rows[id], columns, ch.original.value)
    {
      assert forall i :: 0 <= i < |columns| ==> TakesPart(columns[i], columns, primaryKeys);
    }
  }

  /** So with no two rows equal in all of them, it changes the row it was made for and no other. */
  lemma KeylessPicksItsRow(db: Db, columns: seq<string>, primaryKeys: seq<string>, ch: Change, s: Statement, own: nat)
    requires Distinct(columns) && columns != [] && (forall k :: k in primaryKeys ==> k !in columns)
    requires Fits(ch, columns) && ch.status != Inserted && ch.original.Some?
    requires Compile(ch, columns, WhereColumns(primaryKeys, columns)) == [s]
    requires own in db.rows && HoldsAll(db.rows[own], columns, ch.original.value)
    requires forall id :: id in db.rows && HoldsAll(db.rows[id], columns, ch.original.value) ==> id == own
    ensures Affected(db, s) == {own}
    ensures var after := Execute(db, s).rows;
            && (forall id :: id in db.rows && id != own ==> id in after && after[id] == db.rows[id])
            && (forall id :: id in after ==> id in db.rows)
            && (own in after <==> ch.status == Updated)
            && (own in after ==> after[own].Keys == db.rows[own].Keys
                                 && HoldsAll(after[own], columns, ch.values)
                                 && forall c :: c in db.rows[own] && c !in columns ==> after[own][c] == db.rows[own][c])
  {
    KeylessAffects(db, columns, primaryKeys, ch, s);
    var guard := WhereFor(WhereColumns(primaryKeys, columns), columns, ch.original.value);
    assert forall id :: id in db.rows ==> (Matches(db.rows[id], guard) <==> id in Affected(db, s));
    if ch.status == Updated {
      var row := db.rows[own];
      AssignmentsEdit(row, columns, ch.values, ch.original.value);
      forall i | 0 <= i < |columns|
        ensures CellAfter(row, columns, ch.values, ch.original.value, columns[i]) == ch.values[i]
      {
        IndexOfAt(columns, i);
      }
    }
  }

  /** And a whole save without a key gives the edited table, when every row is told apart by its
      result columns and no change takes the cells a later statement looks for. */
  lemma KeylessSaveMeansTheEdit(db: Db, columns: seq<string>, primaryKeys: seq<string>, changes: seq<Change>)
    requires WellPosed(db, columns, columns, changes) && forall k :: k in primaryKeys ==> k !in columns
    ensures var statements := CompileAll(changes, columns, WhereColumns(primaryKeys, columns));
            ExecuteAll(db, statements) == Edited(db, columns, columns, changes) && EachAffectsOne(db, statements)
  {
    PresentMembers(primaryKeys, columns);
    if Present(primaryKeys, columns) != [] { assert Present(primaryKeys, columns)[0] in Present(primaryKeys, columns); }
    StatementsMeanTheEdit(db, columns, columns, changes);
  }
}
