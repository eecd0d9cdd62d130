/** Exactly when each statement compiled for an edit affects one row. */
module GridExact {
  import opened GridChanges
  import opened GridMeaning
  import opened Options

  // ----- The row that got in the way -----

  lemma {:induction false} AddedHas(db: Db, columns: seq<string>, changes: seq<Change>, j: nat)
    requires j < |changes| && changes[j].status == Inserted
    ensures exists id :: id in Added(db, columns, changes)
                      && Added(db, columns, changes)[id] == NewRow(db.defaults, columns, changes[j].values)
    decreases |changes|
  {
    var n := |changes| - 1;
    if j == n {
      assert db.next + Inserts(changes[..n]) in Added(db, columns, changes);
    } else {
      AddedHas(db, columns, changes[..n], j);
      AddedBelow(db, columns, changes[..n]);
      var id :| id in Added(db, columns, changes[..n])
             && Added(db, columns, changes[..n])[id] == NewRow(db.defaults, columns, changes[j].values);
      assert id in Added(db, columns, changes);
    }
  }

  /** An inserted row with the key meets the guard, and is not one of the table's own. */
  lemma InsertedMeets(db: Db, columns: seq<string>, keys: seq<string>, done: seq<Change>, ch: Change, j: nat) returns (id: nat)
    requires NextPosed(db, columns, keys, done, ch) && AllFit(done, columns) && Targets(ch)
    requires j < |done| && done[j].status == Inserted
    requires KeyFrom(columns, done[j].values, keys) == OldKey(ch, columns, keys)
    ensures var rows := Edited(db, columns, keys, done).rows;
            id in rows && id !in db.rows && Matches(rows[id], WhereFor(keys, columns, ch.original.value))
  {
    NextPosedFacts(db, columns, keys, done, ch);
    AddedHas(db, columns, done, j);
    AddedBelow(db, columns, done);
    var row := NewRow(db.defaults, columns, done[j].values);
    id :| id in Added(db, columns, done) && Added(db, columns, done)[id] == row;
    assert Fits(done[j], columns);
    NewRowCells(db.defaults, columns, done[j].values);
    NewRowKey(db.defaults, columns, keys, done[j].values);
    GuardPicksKey(row, columns, keys, ch.original.value);
    assert id >= db.next;
  }

  lemma UpdatedFate(db: Db, columns: seq<string>, keys: seq<string>, done: seq<Change>, j: nat, id: nat)
    requires Posed(db, columns, keys, done) && j < |done| && done[j].status == Updated && Targets(done[j])
    requires id in db.rows && KeyOf(db.rows[id], keys) == OldKey(done[j], columns, keys)
    ensures Fate(db.rows[id], columns, keys, done) == Some(EditedRow(db.rows[id], columns, done[j]))
  {
    FateFrom(db.rows[id], columns, keys, done);
    assert Touches(done[j], columns, keys, KeyOf(db.rows[id], keys));
    var k :| (0 <= k < |done| && Touches(done[k], columns, keys, KeyOf(db.rows[id], keys))
              && Fate(db.rows[id], columns, keys, done) == Outcome(db.rows[id], columns, done[k]));
    assert Targets(done[k]) && OldKey(done[k], columns, keys) == OldKey(done[j], columns, keys);
    assert k == j;
  }

  lemma UpdatedMeets(db: Db, columns: seq<string>, keys: seq<string>, done: seq<Change>, ch: Change, j: nat) returns (id: nat)
    requires NextPosed(db, columns, keys, done, ch) && AllFit(done, columns) && Targets(ch)
    requires j < |done| && done[j].status == Updated && Targets(done[j])
    requires KeyFrom(columns, done[j].values, keys) == OldKey(ch, columns, keys)
    ensures var rows := Edited(db, columns, keys, done).rows;
            && id in rows && id in db.rows && KeyOf(db.rows[id], keys) == OldKey(done[j], columns, keys)
            && Matches(rows[id], WhereFor(keys, columns, ch.original.value))
  {
    NextPosedFacts(db, columns, keys, done, ch);
    assert Live(db, keys, OldKey(done[j], columns, keys));
    id :| id in db.rows && KeyOf(db.rows[id], keys) == OldKey(done[j], columns, keys);
    UpdatedFate(db, columns, keys, done, j, id);
    AddedBelow(db, columns, done);
    EditedMeets(db, columns, keys, done[j], ch, db.rows[id]);
  }

  lemma EditedMeets(db: Db, columns: seq<string>, keys: seq<string>, maker: Change, ch: Change, row: Row)
    requires keys != [] && Within(keys, columns) && HasColumns(row, columns) && Fits(maker, columns) && Fits(ch, columns)
    requires maker.original.Some? && ch.original.Some? && KeyOf(row, keys) == OldKey(maker, columns, keys)
    requires KeyFrom(columns, maker.values, keys) == OldKey(ch, columns, keys)
    ensures Matches(EditedRow(row, columns, maker), WhereFor(keys, columns, ch.original.value))
  {
    EditedKey(row, columns, keys, maker);
    assert HasColumns(EditedRow(row, columns, maker), columns);
    GuardPicksKey(EditedRow(row, columns, maker), columns, keys, ch.original.value);
  }

  /** The row the change was made to meets the guard as well. */
  lemma TargetMeets(db: Db, columns: seq<string>, keys: seq<string>, done: seq<Change>, ch: Change) returns (id: nat)
    requires NextPosed(db, columns, keys, done, ch) && AllFit(done, columns) && Targets(ch)
    ensures var rows := Edited(db, columns, keys, done).rows;
            && id in rows && id in db.rows && KeyOf(db.rows[id], keys) == OldKey(ch, columns, keys)
            && Matches(rows[id], WhereFor(keys, columns, ch.original.value))
  {
    NextPosedFacts(db, columns, keys, done, ch);
    id :| id in db.rows && KeyOf(db.rows[id], keys) == OldKey(ch, columns, keys);
    StillThere(db, columns, keys, done, ch, id);
    AddedBelow(db, columns, done);
    GuardPicksKey(db.rows[id], columns, keys, ch.original.value);
  }

  lemma OvertakenHitsTwo(db: Db, columns: seq<string>, keys: seq<string>, done: seq<Change>, ch: Change, j: nat, s: Statement)
    requires NextPosed(db, columns, keys, done, ch) && AllFit(done, columns)
    requires j < |done| && Overtakes(columns, keys, done[j], ch)
    requires !s.Insert? && s.guard == WhereFor(keys, columns, ch.original.value)
    ensures !exists id :: Affected(Edited(db, columns, keys, done), s) == {id}
  {
    NextPosedFacts(db, columns, keys, done, ch);
    var own := TargetMeets(db, columns, keys, done, ch);
    var other;
    if done[j].status == Inserted {
      other := InsertedMeets(db, columns, keys, done, ch, j);
    } else {
      other := UpdatedMeets(db, columns, keys, done, ch, j);
    }
    assert own != other;
    assert own in Affected(Edited(db, columns, keys, done), s) && other in Affected(Edited(db, columns, keys, done), s);
  }

  // ----- Both ways -----

  lemma OneEach(db: Db, a: seq<Statement>, b: seq<Statement>)
    requires |b| <= 1 && EachAffectsOne(db, a + b)
    ensures EachAffectsOne(db, a)
  {
    if b == [] {
      assert a + b == a;
    } else {
      assert a + b == a + [b[0]];
      ExecuteSnoc(db, a, b[0]);
    }
  }

  lemma OvertakenLast(db: Db, columns: seq<string>, keys: seq<string>, done: seq<Change>, ch: Change, j: nat)
    requires NextPosed(db, columns, keys, done, ch) && AllFit(done, columns) && WellPosed(db, columns, keys, done)
    requires Fits(ch, columns) && j < |done| && Overtakes(columns, keys, done[j], ch)
    ensures !EachAffectsOne(db, CompileAll(done, columns, keys) + Compile(ch, columns, keys))
  {
    AllInStep(db, columns, keys, done);
    NoAssignments(columns, ch.values, ch.original.value);
    var s := Compile(ch, columns, keys)[0];
    assert Compile(ch, columns, keys) == [s];
    OvertakenHitsTwo(db, columns, keys, done, ch, j, s);
    ExecuteSnoc(db, CompileAll(done, columns, keys), s);
  }

  lemma {:induction false} OutOfTurnHitsTwo(db: Db, columns: seq<string>, keys: seq<string>, changes: seq<Change>)
    requires Posed(db, columns, keys, changes) && !InTurn(columns, keys, changes)
    ensures !EachAffectsOne(db, CompileAll(changes, columns, keys))
    decreases |changes|
  {
    hide Posed, Overtakes, EachAffectsOne, Compile;
    var done, ch := changes[..|changes| - 1], changes[|changes| - 1];
    assert changes == done + [ch];
    PosedPrefix(db, columns, keys, changes);
    NextPosedFacts(db, columns, keys, done, ch);
    PosedFits(db, columns, keys, changes);
    PosedFits(db, columns, keys, done);
    AtMostOne(ch, columns, keys);
    if !InTurn(columns, keys, done) {
      OutOfTurnHitsTwo(db, columns, keys, done);
      if EachAffectsOne(db, CompileAll(changes, columns, keys)) {
        OneEach(db, CompileAll(done, columns, keys), Compile(ch, columns, keys));
      }
    } else {
      var i, j :| 0 <= i < j < |changes| && Overtakes(columns, keys, changes[i], changes[j]);
      LastOvertaken(columns, keys, changes, i, j);
      OvertakenLast(db, columns, keys, done, ch, i);
    }
  }

  lemma LastOvertaken(columns: seq<string>, keys: seq<string>, changes: seq<Change>, i: nat, j: nat)
    requires i < j < |changes| && Overtakes(columns, keys, changes[i], changes[j])
    requires InTurn(columns, keys, changes[..|changes| - 1])
    ensures j == |changes| - 1
  {
    hide Overtakes;
  }

  lemma PosedFits(db: Db, columns: seq<string>, keys: seq<string>, changes: seq<Change>)
    requires Posed(db, columns, keys, changes)
    ensures AllFit(changes, columns)
  {
  }

  lemma AtMostOne(ch: Change, columns: seq<string>, keys: seq<string>)
    requires Fits(ch, columns)
    ensures |Compile(ch, columns, keys)| <= 1
  {
  }

  /** For any edit of the table, run in order each statement affects exactly one row if and only if
      no change takes the key of a row that a later statement is for; and then the statements
      give the edited table. A key that a delete or a key change has freed may be taken after it. */
  lemma OneRowEachIffInTurn(db: Db, columns: seq<string>, keys: seq<string>, changes: seq<Change>)
    requires Posed(db, columns, keys, changes)
    ensures EachAffectsOne(db, CompileAll(changes, columns, keys)) <==> InTurn(columns, keys, changes)
    ensures InTurn(columns, keys, changes) ==>
              ExecuteAll(db, CompileAll(changes, columns, keys)) == Edited(db, columns, keys, changes)
  {
    if InTurn(columns, keys, changes) {
      StatementsMeanTheEdit(db, columns, keys, changes);
    } else {
      OutOfTurnHitsTwo(db, columns, keys, changes);
    }
  }
}
