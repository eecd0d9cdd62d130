/** The statements compiled for a grid mean what the edited grid means. */
module GridMeaning {
  import opened GridChanges
  import opened Options

  // ----- The edit, all changes at once -----

  function KeyOf(row: Row, keys: seq<string>): (k: seq<Cell>)
    ensures |k| == |keys|
  {
    seq(|keys|, i requires 0 <= i < |keys| => if keys[i] in row then row[keys[i]] else None)
  }

  function KeyFrom(columns: seq<string>, values: seq<Cell>, keys: seq<string>): (k: seq<Cell>)
    ensures |k| == |keys|
  {
    seq(|keys|, i requires 0 <= i < |keys| => CellAt(columns, values, keys[i]))
  }

  /** The change was made to the row with this key. */
  predicate Touches(ch: Change, columns: seq<string>, keys: seq<string>, key: seq<Cell>) {
    ch.status != Inserted && ch.original.Some? && KeyFrom(columns, ch.original.value, keys) == key
  }

  /** The row with the cells the user changed replaced, every other cell as it stands. */
  function EditedRow(row: Row, columns: seq<string>, ch: Change): Row
    requires Fits(ch, columns) && ch.original.Some?
  {
    map c | c in row ::
      var i := IndexOf(columns, c);
      if i < |columns| && ch.values[i] != ch.original.value[i] then ch.values[i] else row[c]
  }

  predicate AllFit(changes: seq<Change>, columns: seq<string>) {
    forall i :: 0 <= i < |changes| ==> Fits(changes[i], columns)
  }

  /** What the change made to a row does to it. */
  function Outcome(row: Row, columns: seq<string>, ch: Change): Option<Row>
    requires Fits(ch, columns) && ch.original.Some?
  {
    if ch.status == Deleted then None else Some(EditedRow(row, columns, ch))
  }

  /** What becomes of a row: gone, edited or untouched. */
  function Fate(row: Row, columns: seq<string>, keys: seq<string>, changes: seq<Change>): Option<Row>
    requires AllFit(changes, columns)
  {
    if changes == [] then Some(row)
    else
      var ch := changes[|changes| - 1];
      if Touches(ch, columns, keys, KeyOf(row, keys)) then Outcome(row, columns, ch)
      else Fate(row, columns, keys, changes[..|changes| - 1])
  }

  function Inserts(changes: seq<Change>): nat {
    if changes == [] then 0
    else Inserts(changes[..|changes| - 1]) + if changes[|changes| - 1].status == Inserted then 1 else 0
  }

  function Added(db: Db, columns: seq<string>, changes: seq<Change>): map<nat, Row> {
    if changes == [] then map[]
    else
      var before := changes[..|changes| - 1];
      var ch := changes[|changes| - 1];
      if ch.status == Inserted
      then Added(db, columns, before)[db.next + Inserts(before) := NewRow(db.defaults, columns, ch.values)]
      else Added(db, columns, before)
  }

  function Kept(db: Db, columns: seq<string>, keys: seq<string>, changes: seq<Change>): map<nat, Row>
    requires AllFit(changes, columns)
  {
    map id | id in db.rows && Fate(db.rows[id], columns, keys, changes).Some?
      :: Fate(db.rows[id], columns, keys, changes).value
  }

  function Edited(db: Db, columns: seq<string>, keys: seq<string>, changes: seq<Change>): Db
    requires AllFit(changes, columns)
  {
    Db(Kept(db, columns, keys, changes) + Added(db, columns, changes), db.next + Inserts(changes), db.defaults)
  }

  // ----- What makes an edit well posed -----

  ghost predicate Distinct(columns: seq<string>) {
    forall i, j :: 0 <= i < j < |columns| ==> columns[i] != columns[j]
  }

  ghost predicate Within(keys: seq<string>, columns: seq<string>) {
    forall i :: 0 <= i < |keys| ==> keys[i] in columns
  }

  ghost predicate HasColumns(row: Row, columns: seq<string>) {
    forall i :: 0 <= i < |columns| ==> columns[i] in row
  }

  /** The table: every row has the grid's columns, and no two rows the same key. */
  ghost predicate Keyed(db: Db, columns: seq<string>, keys: seq<string>) {
    && (forall id :: id in db.rows ==> id < db.next && HasColumns(db.rows[id], columns))
    && (forall i, j :: i in db.rows && j in db.rows && KeyOf(db.rows[i], keys) == KeyOf(db.rows[j], keys) ==> i == j)
  }

  ghost predicate Live(db: Db, keys: seq<string>, key: seq<Cell>) {
    exists id :: id in db.rows && KeyOf(db.rows[id], keys) == key
  }

  predicate Targets(ch: Change) {
    ch.status != Inserted && ch.original.Some?
  }

  predicate Makes(ch: Change) {
    ch.status == Inserted || (ch.status == Updated && ch.original.Some?)
  }

  function OldKey(ch: Change, columns: seq<string>, keys: seq<string>): seq<Cell>
    requires ch.original.Some?
  {
    KeyFrom(columns, ch.original.value, keys)
  }

  /** The change gets an UPDATE or a DELETE. */
  predicate Emits(ch: Change) {
    Targets(ch) && (ch.status == Deleted || ch.values != ch.original.value)
  }

  /** The edit is one of this table: every change was made to a row that is there, each to its own. */
  ghost predicate Posed(db: Db, columns: seq<string>, keys: seq<string>, changes: seq<Change>) {
    && Distinct(columns) && keys != [] && Within(keys, columns)
    && AllFit(changes, columns) && Keyed(db, columns, keys)
    && (forall i :: 0 <= i < |changes| && Targets(changes[i]) ==> Live(db, keys, OldKey(changes[i], columns, keys)))
    && (forall i, j :: 0 <= i < j < |changes| && Targets(changes[i]) && Targets(changes[j]) ==>
          OldKey(changes[i], columns, keys) != OldKey(changes[j], columns, keys))
  }

  /** One change gives a row the key by which a statement for the other will look. */
  predicate Overtakes(columns: seq<string>, keys: seq<string>, maker: Change, target: Change) {
    Makes(maker) && Emits(target) && KeyFrom(columns, maker.values, keys) == OldKey(target, columns, keys)
  }

  /** No change takes the key of a row that a later statement is for. A key that an earlier
      change has freed may be taken. */
  ghost predicate InTurn(columns: seq<string>, keys: seq<string>, changes: seq<Change>) {
    forall i, j :: 0 <= i < j < |changes| ==> !Overtakes(columns, keys, changes[i], changes[j])
  }

  ghost predicate WellPosed(db: Db, columns: seq<string>, keys: seq<string>, changes: seq<Change>) {
    Posed(db, columns, keys, changes) && InTurn(columns, keys, changes)
  }

  lemma PosedPrefix(db: Db, columns: seq<string>, keys: seq<string>, changes: seq<Change>)
    requires Posed(db, columns, keys, changes) && changes != []
    ensures Posed(db, columns, keys, changes[..|changes| - 1])
  {
  }

  lemma WellPosedPrefix(db: Db, columns: seq<string>, keys: seq<string>, changes: seq<Change>)
    requires WellPosed(db, columns, keys, changes) && changes != []
    ensures WellPosed(db, columns, keys, changes[..|changes| - 1])
  {
    hide Posed, Overtakes;
    PosedPrefix(db, columns, keys, changes);
  }

  // ----- Guards pick keys, assignments make the edited row -----

  lemma {:induction false} WhereAt(wanted: seq<string>, columns: seq<string>, values: seq<Cell>, i: nat)
    requires i < |wanted|
    ensures WhereFor(wanted, columns, values)[i] == Test(wanted[i], CellAt(columns, values, wanted[i]))
  {
    if i > 0 { WhereAt(wanted[1..], columns, values, i - 1); }
  }

  lemma GuardPicksKey(row: Row, columns: seq<string>, keys: seq<string>, values: seq<Cell>)
    requires keys != [] && Within(keys, columns) && HasColumns(row, columns)
    ensures Matches(row, WhereFor(keys, columns, values)) <==> KeyOf(row, keys) == KeyFrom(columns, values, keys)
  {
    var guard, a, b := WhereFor(keys, columns, values), KeyOf(row, keys), KeyFrom(columns, values, keys);
    forall i | 0 <= i < |keys| ensures Passes(row, guard[i]) <==> a[i] == b[i] {
      WhereAt(keys, columns, values, i);
      assert keys[i] in columns;
    }
    if Matches(row, guard) {
      forall i | 0 <= i < |keys| ensures a[i] == b[i] { assert Passes(row, guard[i]); }
    }
  }

  lemma DistinctTail(columns: seq<string>)
    requires Distinct(columns) && columns != []
    ensures Distinct(columns[1..]) && columns[0] !in columns[1..]
  {
  }

  /** The cell `c` ends with, after the assignments for these columns. */
  function CellAfter(row: Row, columns: seq<string>, values: seq<Cell>, original: seq<Cell>, c: string): Cell
    requires |values| == |original| == |columns| && c in row
  {
    var i := IndexOf(columns, c);
    if i < |columns| && values[i] != original[i] then values[i] else row[c]
  }

  function FirstSet(row: Row, columns: seq<string>, values: seq<Cell>, original: seq<Cell>): Row
    requires |values| == |original| == |columns| > 0
  {
    if values[0] == original[0] then row else row[columns[0] := values[0]]
  }

  lemma AssignmentsHead(row: Row, columns: seq<string>, values: seq<Cell>, original: seq<Cell>)
    requires |values| == |original| == |columns| > 0
    ensures SetCells(row, Assignments(columns, values, original))
         == SetCells(FirstSet(row, columns, values, original), Assignments(columns[1..], values[1..], original[1..]))
  {
    var rest := Assignments(columns[1..], values[1..], original[1..]);
    var all := Assignments(columns, values, original);
    if values[0] == original[0] {
      assert all == rest;
    } else {
      assert all[0] == Assign(columns[0], values[0]) && all[1..] == rest;
    }
  }

  lemma CellAfterHead(row: Row, columns: seq<string>, values: seq<Cell>, original: seq<Cell>, c: string)
    requires |values| == |original| == |columns| > 0 && Distinct(columns) && c in row && columns[0] in row
    ensures CellAfter(FirstSet(row, columns, values, original), columns[1..], values[1..], original[1..], c)
         == CellAfter(row, columns, values, original, c)
  {
    DistinctTail(columns);
  }

  lemma {:induction false} AssignmentsEdit(row: Row, columns: seq<string>, values: seq<Cell>, original: seq<Cell>)
    requires |values| == |original| == |columns| && Distinct(columns) && HasColumns(row, columns)
    ensures var r := SetCells(row, Assignments(columns, values, original));
            r.Keys == row.Keys && forall c :: c in row ==> r[c] == CellAfter(row, columns, values, original, c)
    decreases |columns|
  {
    if columns != [] {
      DistinctTail(columns);
      assert columns[0] in row;
      var row' := FirstSet(row, columns, values, original);
      assert row'.Keys == row.Keys;
      forall i | 0 <= i < |columns| - 1 ensures columns[1..][i] in row' { assert columns[i + 1] in row; }
      AssignmentsHead(row, columns, values, original);
      AssignmentsEdit(row', columns[1..], values[1..], original[1..]);
      forall c | c in row
        ensures CellAfter(row', columns[1..], values[1..], original[1..], c) == CellAfter(row, columns, values, original, c)
      {
        CellAfterHead(row, columns, values, original, c);
      }
    }
  }

  lemma UpdateEdits(row: Row, columns: seq<string>, ch: Change)
    requires Distinct(columns) && HasColumns(row, columns) && Fits(ch, columns) && ch.original.Some?
    ensures SetCells(row, Assignments(columns, ch.values, ch.original.value)) == EditedRow(row, columns, ch)
  {
    AssignmentsEdit(row, columns, ch.values, ch.original.value);
  }

  lemma {:induction false} NoAssignments(columns: seq<string>, values: seq<Cell>, original: seq<Cell>)
    requires |values| == |original| == |columns|
    ensures Assignments(columns, values, original) == [] <==> values == original
    decreases |columns|
  {
    if columns != [] {
      NoAssignments(columns[1..], values[1..], original[1..]);
      assert values == [values[0]] + values[1..] && original == [original[0]] + original[1..];
    }
  }

  /** A row edited by the change made to it has the key of the change's new values. */
  lemma EditedKey(row: Row, columns: seq<string>, keys: seq<string>, ch: Change)
    requires Within(keys, columns) && HasColumns(row, columns) && Fits(ch, columns) && ch.original.Some?
    requires KeyOf(row, keys) == OldKey(ch, columns, keys)
    ensures KeyOf(EditedRow(row, columns, ch), keys) == KeyFrom(columns, ch.values, keys)
  {
    var e := EditedRow(row, columns, ch);
    forall i | 0 <= i < |keys| ensures KeyOf(e, keys)[i] == KeyFrom(columns, ch.values, keys)[i] {
      assert keys[i] in columns;
      assert KeyOf(row, keys)[i] == KeyFrom(columns, ch.original.value, keys)[i];
    }
  }

  lemma {:induction false} NewRowCells(defaults: Row, columns: seq<string>, values: seq<Cell>)
    requires |values| == |columns|
    ensures var r := NewRow(defaults, columns, values);
            HasColumns(r, columns) && forall i :: 0 <= i < |columns| ==> r[columns[i]] == CellAt(columns, values, columns[i])
    decreases |columns|
  {
    if columns != [] {
      NewRowCells(defaults, columns[1..], values[1..]);
      var r := NewRow(defaults, columns, values);
      forall i | 0 <= i < |columns|
        ensures columns[i] in r && r[columns[i]] == CellAt(columns, values, columns[i])
      {
        if i > 0 && columns[i] != columns[0] {
          assert columns[1..][i - 1] == columns[i];
        }
      }
    }
  }

  lemma NewRowKey(defaults: Row, columns: seq<string>, keys: seq<string>, values: seq<Cell>)
    requires |values| == |columns| && Within(keys, columns)
    ensures KeyOf(NewRow(defaults, columns, values), keys) == KeyFrom(columns, values, keys)
  {
    NewRowCells(defaults, columns, values);
    forall i | 0 <= i < |keys|
      ensures KeyOf(NewRow(defaults, columns, values), keys)[i] == KeyFrom(columns, values, keys)[i]
    {
      var j :| 0 <= j < |columns| && columns[j] == keys[i];
    }
  }

  // ----- Rows halfway through the statements -----

  lemma {:induction false} AddedFrom(db: Db, columns: seq<string>, changes: seq<Change>, id: nat)
    requires id in Added(db, columns, changes)
    ensures db.next <= id < db.next + Inserts(changes)
    ensures exists j :: 0 <= j < |changes| && changes[j].status == Inserted
                     && Added(db, columns, changes)[id] == NewRow(db.defaults, columns, changes[j].values)
    decreases |changes|
  {
    var n := |changes| - 1;
    if changes[n].status == Inserted && id == db.next + Inserts(changes[..n]) {
      assert Added(db, columns, changes)[id] == NewRow(db.defaults, columns, changes[n].values);
    } else {
      AddedFrom(db, columns, changes[..n], id);
      var j :| 0 <= j < n && changes[..n][j].status == Inserted
            && Added(db, columns, changes[..n])[id] == NewRow(db.defaults, columns, changes[..n][j].values);
      assert changes[j] == changes[..n][j];
    }
  }

  lemma {:induction false} AddedBelow(db: Db, columns: seq<string>, changes: seq<Change>)
    ensures forall id :: id in Added(db, columns, changes) ==> db.next <= id < db.next + Inserts(changes)
  {
    forall id | id in Added(db, columns, changes) ensures db.next <= id < db.next + Inserts(changes) {
      AddedFrom(db, columns, changes, id);
    }
  }

  lemma {:induction false} FateFrom(row: Row, columns: seq<string>, keys: seq<string>, changes: seq<Change>)
    requires AllFit(changes, columns)
    ensures var key := KeyOf(row, keys);
            || (Fate(row, columns, keys, changes) == Some(row)
                && forall j :: 0 <= j < |changes| ==> !Touches(changes[j], columns, keys, key))
            || exists j :: (0 <= j < |changes| && Touches(changes[j], columns, keys, key)
                            && Fate(row, columns, keys, changes) == Outcome(row, columns, changes[j]))
    decreases |changes|
  {
    if changes != [] {
      var n := |changes| - 1;
      if Touches(changes[n], columns, keys, KeyOf(row, keys)) {
      } else {
        FateFrom(row, columns, keys, changes[..n]);
        assert forall j :: 0 <= j < n ==> changes[..n][j] == changes[j];
      }
    }
  }

  /** `ch` comes next after `done`. */
  ghost predicate NextUp(db: Db, columns: seq<string>, keys: seq<string>, done: seq<Change>, ch: Change) {
    WellPosed(db, columns, keys, done + [ch])
  }

  ghost predicate NextPosed(db: Db, columns: seq<string>, keys: seq<string>, done: seq<Change>, ch: Change) {
    Posed(db, columns, keys, done + [ch])
  }

  lemma NextPosedFacts(db: Db, columns: seq<string>, keys: seq<string>, done: seq<Change>, ch: Change)
    requires NextPosed(db, columns, keys, done, ch)
    ensures Posed(db, columns, keys, done) && Fits(ch, columns)
    ensures Targets(ch) ==> Live(db, keys, OldKey(ch, columns, keys))
    ensures Targets(ch) ==> forall j :: 0 <= j < |done| && Targets(done[j]) ==>
              OldKey(done[j], columns, keys) != OldKey(ch, columns, keys)
  {
    var all := done + [ch];
    assert all[|all| - 1] == ch && all[..|all| - 1] == done;
    PosedPrefix(db, columns, keys, all);
    assert forall j :: 0 <= j < |done| ==> all[j] == done[j];
  }

  lemma NextUpFacts(db: Db, columns: seq<string>, keys: seq<string>, done: seq<Change>, ch: Change)
    requires NextUp(db, columns, keys, done, ch)
    ensures WellPosed(db, columns, keys, done) && NextPosed(db, columns, keys, done, ch) && Fits(ch, columns)
    ensures Targets(ch) ==> Live(db, keys, OldKey(ch, columns, keys))
    ensures Targets(ch) ==> forall j :: 0 <= j < |done| && Targets(done[j]) ==>
              OldKey(done[j], columns, keys) != OldKey(ch, columns, keys)
    ensures forall j :: 0 <= j < |done| ==> !Overtakes(columns, keys, done[j], ch)
  {
    hide Posed, Overtakes;
    var all := done + [ch];
    assert all[|all| - 1] == ch && all[..|all| - 1] == done;
    WellPosedPrefix(db, columns, keys, all);
    NextPosedFacts(db, columns, keys, done, ch);
    assert forall j :: 0 <= j < |done| ==> all[j] == done[j];
  }

  /** After the earlier statements, the key a change was made to still picks out its row
      alone, and that row is as it was. */
  lemma KeyStillPicks(db: Db, columns: seq<string>, keys: seq<string>, done: seq<Change>, ch: Change, id: nat)
    requires NextUp(db, columns, keys, done, ch) && Emits(ch) && AllFit(done, columns)
    requires id in Edited(db, columns, keys, done).rows
    ensures HasColumns(Edited(db, columns, keys, done).rows[id], columns)
    ensures KeyOf(Edited(db, columns, keys, done).rows[id], keys) == OldKey(ch, columns, keys)
       <==> id in db.rows && KeyOf(db.rows[id], keys) == OldKey(ch, columns, keys)
    ensures KeyOf(Edited(db, columns, keys, done).rows[id], keys) == OldKey(ch, columns, keys)
        ==> id in db.rows && Edited(db, columns, keys, done).rows[id] == db.rows[id]
  {
    NextUpFacts(db, columns, keys, done, ch);
    AddedBelow(db, columns, done);
    if id in Added(db, columns, done) {
      AddedFrom(db, columns, done, id);
      var j :| 0 <= j < |done| && done[j].status == Inserted
            && Added(db, columns, done)[id] == NewRow(db.defaults, columns, done[j].values);
      assert Fits(done[j], columns) && !Overtakes(columns, keys, done[j], ch);
      NewRowKey(db.defaults, columns, keys, done[j].values);
      NewRowCells(db.defaults, columns, done[j].values);
    } else {
      KeptKey(db, columns, keys, done, ch, id);
    }
  }

  lemma TouchedKeyMoves(db: Db, columns: seq<string>, keys: seq<string>, done: seq<Change>, ch: Change, j: nat, row: Row)
    requires NextUp(db, columns, keys, done, ch) && Emits(ch) && AllFit(done, columns)
    requires j < |done| && Touches(done[j], columns, keys, KeyOf(row, keys)) && HasColumns(row, columns)
    ensures KeyOf(row, keys) != OldKey(ch, columns, keys)
    ensures done[j].status == Updated ==>
              HasColumns(EditedRow(row, columns, done[j]), columns)
              && KeyOf(EditedRow(row, columns, done[j]), keys) != OldKey(ch, columns, keys)
  {
    NextUpFacts(db, columns, keys, done, ch);
    assert Fits(done[j], columns) && !Overtakes(columns, keys, done[j], ch);
    EditedKey(row, columns, keys, done[j]);
    assert OldKey(done[j], columns, keys) != OldKey(ch, columns, keys);
  }

  lemma KeptKey(db: Db, columns: seq<string>, keys: seq<string>, done: seq<Change>, ch: Change, id: nat)
    requires NextUp(db, columns, keys, done, ch) && Emits(ch) && AllFit(done, columns)
    requires id in Kept(db, columns, keys, done)
    ensures HasColumns(Kept(db, columns, keys, done)[id], columns)
    ensures KeyOf(Kept(db, columns, keys, done)[id], keys) == OldKey(ch, columns, keys)
       <==> KeyOf(db.rows[id], keys) == OldKey(ch, columns, keys)
    ensures KeyOf(Kept(db, columns, keys, done)[id], keys) == OldKey(ch, columns, keys)
        ==> Kept(db, columns, keys, done)[id] == db.rows[id]
  {
    var row := db.rows[id];
    assert HasColumns(row, columns) by { NextUpFacts(db, columns, keys, done, ch); }
    FateFrom(row, columns, keys, done);
    if j :| (0 <= j < |done| && Touches(done[j], columns, keys, KeyOf(row, keys))
             && Fate(row, columns, keys, done) == Outcome(row, columns, done[j])) {
      TouchedKeyMoves(db, columns, keys, done, ch, j, row);
    }
  }

  // ----- One statement -----

  lemma FateSnoc(row: Row, columns: seq<string>, keys: seq<string>, done: seq<Change>, ch: Change)
    requires AllFit(done, columns) && AllFit(done + [ch], columns) && Fits(ch, columns)
    ensures Fate(row, columns, keys, done + [ch])
         == if Touches(ch, columns, keys, KeyOf(row, keys)) then Outcome(row, columns, ch)
            else Fate(row, columns, keys, done)
  {
    var all := done + [ch];
    assert all[..|all| - 1] == done && all[|all| - 1] == ch;
  }

  lemma AddedSnoc(db: Db, columns: seq<string>, done: seq<Change>, ch: Change)
    ensures Inserts(done + [ch]) == Inserts(done) + if ch.status == Inserted then 1 else 0
    ensures Added(db, columns, done + [ch])
         == if ch.status == Inserted
            then Added(db, columns, done)[db.next + Inserts(done) := NewRow(db.defaults, columns, ch.values)]
            else Added(db, columns, done)
  {
    var all := done + [ch];
    assert all[..|all| - 1] == done && all[|all| - 1] == ch;
  }

  lemma FitSnoc(columns: seq<string>, done: seq<Change>, ch: Change)
    requires AllFit(done + [ch], columns)
    ensures AllFit(done, columns) && Fits(ch, columns)
  {
    var all := done + [ch];
    assert all[|done|] == ch && forall i :: 0 <= i < |done| ==> all[i] == done[i];
  }

  /** A change that leaves every row's fate alone keeps the same rows. */
  lemma KeptIgnores(db: Db, columns: seq<string>, keys: seq<string>, done: seq<Change>, more: seq<Change>)
    requires AllFit(done, columns) && AllFit(more, columns)
    requires forall id :: id in db.rows ==> Fate(db.rows[id], columns, keys, more) == Fate(db.rows[id], columns, keys, done)
    ensures Kept(db, columns, keys, more) == Kept(db, columns, keys, done)
  {
  }

  lemma AddOne(kept: map<nat, Row>, added: map<nat, Row>, id: nat, row: Row)
    ensures (kept + added)[id := row] == kept + added[id := row]
  {
  }

  lemma SameRows(a: map<nat, Row>, b: map<nat, Row>)
    requires forall id: nat :: (id in a <==> id in b) && (id in a ==> a[id] == b[id])
    ensures a == b
  {
  }

  lemma InsertFates(db: Db, columns: seq<string>, keys: seq<string>, done: seq<Change>, ch: Change)
    requires AllFit(done, columns) && AllFit(done + [ch], columns) && ch.status == Inserted
    ensures Kept(db, columns, keys, done + [ch]) == Kept(db, columns, keys, done)
  {
    FitSnoc(columns, done, ch);
    forall id | id in db.rows
      ensures Fate(db.rows[id], columns, keys, done + [ch]) == Fate(db.rows[id], columns, keys, done)
    {
      FateSnoc(db.rows[id], columns, keys, done, ch);
    }
    KeptIgnores(db, columns, keys, done, done + [ch]);
  }

  lemma InsertMeans(db: Db, columns: seq<string>, keys: seq<string>, done: seq<Change>, ch: Change)
    requires AllFit(done, columns) && AllFit(done + [ch], columns) && ch.status == Inserted
    ensures Execute(Edited(db, columns, keys, done), Insert(columns, ch.values)) == Edited(db, columns, keys, done + [ch])
  {
    AddedSnoc(db, columns, done, ch);
    InsertFates(db, columns, keys, done, ch);
    AddOne(Kept(db, columns, keys, done), Added(db, columns, done), db.next + Inserts(done),
           NewRow(db.defaults, columns, ch.values));
  }

  lemma RowsMeetGuard(db: Db, columns: seq<string>, keys: seq<string>, done: seq<Change>, ch: Change, id: nat)
    requires NextUp(db, columns, keys, done, ch) && Emits(ch) && AllFit(done, columns)
    requires id in Edited(db, columns, keys, done).rows
    ensures var row := Edited(db, columns, keys, done).rows[id];
            && HasColumns(row, columns)
            && (Matches(row, WhereFor(keys, columns, ch.original.value)) <==>
                  id in db.rows && KeyOf(db.rows[id], keys) == OldKey(ch, columns, keys))
            && (Matches(row, WhereFor(keys, columns, ch.original.value)) ==> id in db.rows && row == db.rows[id])
  {
    KeyStillPicks(db, columns, keys, done, ch, id);
    GuardPicksKey(Edited(db, columns, keys, done).rows[id], columns, keys, ch.original.value);
  }

  /** The row a change was made to is untouched by the earlier ones. */
  lemma StillThere(db: Db, columns: seq<string>, keys: seq<string>, done: seq<Change>, ch: Change, id: nat)
    requires NextPosed(db, columns, keys, done, ch) && Targets(ch) && AllFit(done, columns)
    requires id in db.rows && KeyOf(db.rows[id], keys) == OldKey(ch, columns, keys)
    ensures Fate(db.rows[id], columns, keys, done) == Some(db.rows[id])
    ensures id in Edited(db, columns, keys, done).rows
  {
    NextPosedFacts(db, columns, keys, done, ch);
    FateFrom(db.rows[id], columns, keys, done);
  }

  /** Rows after an update or delete, read off the rows before it. */
  lemma EditedSnoc(db: Db, columns: seq<string>, keys: seq<string>, done: seq<Change>, ch: Change, id: nat)
    requires AllFit(done, columns) && AllFit(done + [ch], columns) && Fits(ch, columns) && Targets(ch)
    requires id in db.rows ==> id !in Added(db, columns, done)
    ensures var before, after := Edited(db, columns, keys, done).rows, Edited(db, columns, keys, done + [ch]).rows;
            if id in db.rows && KeyOf(db.rows[id], keys) == OldKey(ch, columns, keys)
            then (id in after <==> ch.status == Updated) && (id in after ==> after[id] == EditedRow(db.rows[id], columns, ch))
            else (id in after <==> id in before) && (id in after ==> after[id] == before[id])
  {
    AddedSnoc(db, columns, done, ch);
    if id in db.rows { FateSnoc(db.rows[id], columns, keys, done, ch); }
  }

  /** The statement for an update or delete does to the table what the change means. */
  lemma PickedRowMeans(db: Db, columns: seq<string>, keys: seq<string>, done: seq<Change>, ch: Change, s: Statement, id: nat)
    requires NextUp(db, columns, keys, done, ch) && Emits(ch)
    requires AllFit(done, columns) && AllFit(done + [ch], columns) && Fits(ch, columns)
    requires s == (if ch.status == Deleted then Delete(WhereFor(keys, columns, ch.original.value))
                   else Update(Assignments(columns, ch.values, ch.original.value),
                               WhereFor(keys, columns, ch.original.value)))
    ensures var now, after := Execute(Edited(db, columns, keys, done), s).rows, Edited(db, columns, keys, done + [ch]).rows;
            (id in now <==> id in after) && (id in now ==> now[id] == after[id])
  {
    NextUpFacts(db, columns, keys, done, ch);
    AddedBelow(db, columns, done);
    EditedSnoc(db, columns, keys, done, ch, id);
    var before := Edited(db, columns, keys, done).rows;
    if id in before { RowsMeetGuard(db, columns, keys, done, ch, id); }
    if id in db.rows && KeyOf(db.rows[id], keys) == OldKey(ch, columns, keys) {
      StillThere(db, columns, keys, done, ch, id);
      UpdateEdits(db.rows[id], columns, ch);
    }
  }

  lemma TargetMeans(db: Db, columns: seq<string>, keys: seq<string>, done: seq<Change>, ch: Change, s: Statement)
    requires NextUp(db, columns, keys, done, ch) && Emits(ch)
    requires AllFit(done, columns) && AllFit(done + [ch], columns) && Fits(ch, columns)
    requires s == (if ch.status == Deleted then Delete(WhereFor(keys, columns, ch.original.value))
                   else Update(Assignments(columns, ch.values, ch.original.value),
                               WhereFor(keys, columns, ch.original.value)))
    ensures Execute(Edited(db, columns, keys, done), s) == Edited(db, columns, keys, done + [ch])
  {
    var now, after := Execute(Edited(db, columns, keys, done), s), Edited(db, columns, keys, done + [ch]);
    forall id: nat ensures (id in now.rows <==> id in after.rows) && (id in now.rows ==> now.rows[id] == after.rows[id]) {
      PickedRowMeans(db, columns, keys, done, ch, s, id);
    }
    SameRows(now.rows, after.rows);
    AddedSnoc(db, columns, done, ch);
  }

  lemma OneRowPicked(db: Db, columns: seq<string>, keys: seq<string>, done: seq<Change>, ch: Change, s: Statement)
    requires NextUp(db, columns, keys, done, ch) && Emits(ch) && AllFit(done, columns)
    requires !s.Insert? && s.guard == WhereFor(keys, columns, ch.original.value)
    ensures exists id :: Affected(Edited(db, columns, keys, done), s) == {id}
  {
    NextUpFacts(db, columns, keys, done, ch);
    var before := Edited(db, columns, keys, done);
    var id :| id in db.rows && KeyOf(db.rows[id], keys) == OldKey(ch, columns, keys);
    StillThere(db, columns, keys, done, ch, id);
    forall i | i in before.rows ensures i in Affected(before, s) <==> i == id {
      RowsMeetGuard(db, columns, keys, done, ch, i);
    }
    assert Affected(before, s) == {id};
  }

  // ----- All of them -----

  ghost predicate EachAffectsOne(db: Db, statements: seq<Statement>)
    decreases |statements|
  {
    statements == [] ||
    var init := statements[..|statements| - 1];
    && (exists id :: Affected(ExecuteAll(db, init), statements[|statements| - 1]) == {id})
    && EachAffectsOne(db, init)
  }

  lemma ExecuteSnoc(db: Db, statements: seq<Statement>, s: Statement)
    ensures ExecuteAll(db, statements + [s]) == Execute(ExecuteAll(db, statements), s)
    ensures EachAffectsOne(db, statements + [s]) <==>
              EachAffectsOne(db, statements) && exists id :: Affected(ExecuteAll(db, statements), s) == {id}
  {
    var all := statements + [s];
    assert all[..|all| - 1] == statements && all[|all| - 1] == s;
  }

  lemma IdleRow(row: Row, columns: seq<string>, keys: seq<string>, ch: Change)
    requires Fits(ch, columns) && Targets(ch) && Compile(ch, columns, keys) == []
    ensures Outcome(row, columns, ch) == Some(row)
  {
    NoAssignments(columns, ch.values, ch.original.value);
    assert EditedRow(row, columns, ch) == row;
  }

  lemma IdleFate(db: Db, columns: seq<string>, keys: seq<string>, done: seq<Change>, ch: Change, id: nat)
    requires NextUp(db, columns, keys, done, ch) && AllFit(done, columns) && AllFit(done + [ch], columns) && Fits(ch, columns)
    requires ch.status != Inserted && Compile(ch, columns, keys) == [] && id in db.rows
    ensures Fate(db.rows[id], columns, keys, done + [ch]) == Fate(db.rows[id], columns, keys, done)
  {
    FateSnoc(db.rows[id], columns, keys, done, ch);
    if Touches(ch, columns, keys, KeyOf(db.rows[id], keys)) {
      IdleRow(db.rows[id], columns, keys, ch);
      NextUpFacts(db, columns, keys, done, ch);
      StillThere(db, columns, keys, done, ch, id);
    }
  }

  /** Nothing to assign means nothing was edited. */
  lemma IdleMeans(db: Db, columns: seq<string>, keys: seq<string>, done: seq<Change>, ch: Change)
    requires NextUp(db, columns, keys, done, ch) && AllFit(done, columns) && AllFit(done + [ch], columns) && Fits(ch, columns)
    requires ch.status != Inserted && Compile(ch, columns, keys) == []
    ensures Edited(db, columns, keys, done + [ch]) == Edited(db, columns, keys, done)
  {
    AddedSnoc(db, columns, done, ch);
    forall id | id in db.rows
      ensures Fate(db.rows[id], columns, keys, done + [ch]) == Fate(db.rows[id], columns, keys, done)
    {
      IdleFate(db, columns, keys, done, ch, id);
    }
    KeptIgnores(db, columns, keys, done, done + [ch]);
  }

  /** The statements so far leave the table as the changes so far mean it, one row each. */
  ghost predicate InStep(db: Db, columns: seq<string>, keys: seq<string>, done: seq<Change>, statements: seq<Statement>) {
    AllFit(done, columns)
    && ExecuteAll(db, statements) == Edited(db, columns, keys, done) && EachAffectsOne(db, statements)
  }

  lemma AppendMeans(db: Db, columns: seq<string>, keys: seq<string>, done: seq<Change>, ch: Change,
                    statements: seq<Statement>, s: Statement)
    requires InStep(db, columns, keys, done, statements) && AllFit(done + [ch], columns)
    requires Execute(Edited(db, columns, keys, done), s) == Edited(db, columns, keys, done + [ch])
    requires exists id :: Affected(Edited(db, columns, keys, done), s) == {id}
    ensures InStep(db, columns, keys, done + [ch], statements + [s])
  {
    ExecuteSnoc(db, statements, s);
  }

  lemma InsertStep(db: Db, columns: seq<string>, keys: seq<string>, done: seq<Change>, ch: Change, statements: seq<Statement>)
    requires NextUp(db, columns, keys, done, ch) && AllFit(done + [ch], columns) && Fits(ch, columns)
    requires InStep(db, columns, keys, done, statements) && ch.status == Inserted
    ensures InStep(db, columns, keys, done + [ch], statements + Compile(ch, columns, keys))
  {
    var s := Insert(columns, ch.values);
    InsertMeans(db, columns, keys, done, ch);
    assert Affected(Edited(db, columns, keys, done), s) == {Edited(db, columns, keys, done).next};
    AppendMeans(db, columns, keys, done, ch, statements, s);
  }

  lemma IdleStep(db: Db, columns: seq<string>, keys: seq<string>, done: seq<Change>, ch: Change, statements: seq<Statement>)
    requires NextUp(db, columns, keys, done, ch) && AllFit(done + [ch], columns) && Fits(ch, columns)
    requires InStep(db, columns, keys, done, statements)
    requires ch.status != Inserted && Compile(ch, columns, keys) == []
    ensures InStep(db, columns, keys, done + [ch], statements + Compile(ch, columns, keys))
  {
    IdleMeans(db, columns, keys, done, ch);
    assert statements + [] == statements;
  }

  lemma TargetStep(db: Db, columns: seq<string>, keys: seq<string>, done: seq<Change>, ch: Change,
                   statements: seq<Statement>, s: Statement)
    requires NextUp(db, columns, keys, done, ch) && AllFit(done + [ch], columns) && Fits(ch, columns)
    requires InStep(db, columns, keys, done, statements) && Emits(ch)
    requires s == (if ch.status == Deleted then Delete(WhereFor(keys, columns, ch.original.value))
                   else Update(Assignments(columns, ch.values, ch.original.value),
                               WhereFor(keys, columns, ch.original.value)))
    ensures InStep(db, columns, keys, done + [ch], statements + [s])
  {
    TargetMeans(db, columns, keys, done, ch, s);
    OneRowPicked(db, columns, keys, done, ch, s);
    AppendMeans(db, columns, keys, done, ch, statements, s);
  }

  lemma StepMeans(db: Db, columns: seq<string>, keys: seq<string>, done: seq<Change>, ch: Change, statements: seq<Statement>)
    requires NextUp(db, columns, keys, done, ch) && AllFit(done + [ch], columns) && Fits(ch, columns)
    requires InStep(db, columns, keys, done, statements)
    ensures InStep(db, columns, keys, done + [ch], statements + Compile(ch, columns, keys))
  {
    if ch.status == Inserted {
      InsertStep(db, columns, keys, done, ch, statements);
    } else if Compile(ch, columns, keys) == [] {
      IdleStep(db, columns, keys, done, ch, statements);
    } else {
      NoAssignments(columns, ch.values, ch.original.value);
      TargetStep(db, columns, keys, done, ch, statements, Compile(ch, columns, keys)[0]);
    }
  }

  lemma LastMeans(db: Db, columns: seq<string>, keys: seq<string>, done: seq<Change>, ch: Change, changes: seq<Change>)
    requires changes == done + [ch] && WellPosed(db, columns, keys, changes) && AllFit(done, columns)
    requires InStep(db, columns, keys, done, CompileAll(done, columns, keys))
    ensures InStep(db, columns, keys, changes, CompileAll(changes, columns, keys))
  {
    FitSnoc(columns, done, ch);
    StepMeans(db, columns, keys, done, ch, CompileAll(done, columns, keys));
    assert changes[..|changes| - 1] == done && changes[|changes| - 1] == ch;
  }

  lemma NothingMeans(db: Db, columns: seq<string>, keys: seq<string>)
    ensures InStep(db, columns, keys, [], [])
  {
    assert Kept(db, columns, keys, []) == db.rows;
  }

  lemma {:induction false} AllInStep(db: Db, columns: seq<string>, keys: seq<string>, changes: seq<Change>)
    requires WellPosed(db, columns, keys, changes)
    ensures InStep(db, columns, keys, changes, CompileAll(changes, columns, keys))
    decreases |changes|
  {
    if changes == [] {
      NothingMeans(db, columns, keys);
    } else {
      var done, ch := changes[..|changes| - 1], changes[|changes| - 1];
      WellPosedPrefix(db, columns, keys, changes);
      AllInStep(db, columns, keys, done);
      LastMeans(db, columns, keys, done, ch, changes);
    }
  }

  /** Run in order, the statements give the edited table, and each touches exactly one row:
      rows no change was made to stay as they are, and a changed row keeps every cell
      the user did not change. */
  lemma StatementsMeanTheEdit(db: Db, columns: seq<string>, keys: seq<string>, changes: seq<Change>)
    requires WellPosed(db, columns, keys, changes)
    ensures ExecuteAll(db, CompileAll(changes, columns, keys)) == Edited(db, columns, keys, changes)
    ensures EachAffectsOne(db, CompileAll(changes, columns, keys))
  {
    AllInStep(db, columns, keys, changes);
  }

  lemma {:induction false} PresentAll(keys: seq<string>, columns: seq<string>)
    requires Within(keys, columns)
    ensures Present(keys, columns) == keys
  {
    if keys != [] {
      assert keys[0] in columns;
      assert Within(keys[1..], columns) by {
        forall i | 0 <= i < |keys| - 1 ensures keys[1..][i] in columns { assert keys[i + 1] in columns; }
      }
      PresentAll(keys[1..], columns);
    }
  }

  /** The same about what the compiler returns for a grid that shows the whole primary key. */
  lemma GridDmlMeansTheEdit(db: Db, columns: seq<string>, primaryKeys: seq<string>, changes: seq<Change>)
    requires WellPosed(db, columns, primaryKeys, changes)
    ensures var statements := CompileAll(changes, columns, WhereColumns(primaryKeys, columns));
            ExecuteAll(db, statements) == Edited(db, columns, primaryKeys, changes) && EachAffectsOne(db, statements)
  {
    PresentAll(primaryKeys, columns);
    StatementsMeanTheEdit(db, columns, primaryKeys, changes);
  }
}
