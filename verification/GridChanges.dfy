/** Compiling grid edits to DML, with a small semantics of the statements. */
module GridChanges {
  import opened Options

  /** A cell is NULL or a literal. */
  type Cell = Option<string>
  type Row = map<string, Cell>

  datatype Status = Inserted | Updated | Deleted

  datatype Change = Change(status: Status, values: seq<Cell>, original: Option<seq<Cell>>)

  datatype Test = Test(column: string, value: Cell)   // `column = value`, or `column IS NULL`
  datatype Assign = Assign(column: string, value: Cell)

  /** An empty `guard` stands for the text `1 = 0`. */
  datatype Statement =
    | Insert(columns: seq<string>, values: seq<Cell>)
    | Update(sets: seq<Assign>, guard: seq<Test>)
    | Delete(guard: seq<Test>)

  // ----- The compiler -----

  /** The first position of `c`, or the length. */
  function IndexOf(columns: seq<string>, c: string): (i: nat)
    ensures i <= |columns|
    ensures i < |columns| <==> c in columns
    ensures i < |columns| ==> columns[i] == c
  {
    if columns == [] then 0 else if columns[0] == c then 0 else 1 + IndexOf(columns[1..], c)
  }

  function CellAt(columns: seq<string>, values: seq<Cell>, c: string): Cell {
    var i := IndexOf(columns, c);
    if i < |columns| && i < |values| then values[i] else None
  }

  function WhereFor(wanted: seq<string>, columns: seq<string>, values: seq<Cell>): (w: seq<Test>)
    ensures |w| == |wanted|
  {
    if wanted == [] then []
    else [Test(wanted[0], CellAt(columns, values, wanted[0]))] + WhereFor(wanted[1..], columns, values)
  }

  function Assignments(columns: seq<string>, values: seq<Cell>, original: seq<Cell>): seq<Assign>
    requires |values| == |original| == |columns|
  {
    if columns == [] then []
    else (if values[0] == original[0] then [] else [Assign(columns[0], values[0])])
         + Assignments(columns[1..], values[1..], original[1..])
  }

  function Present(keys: seq<string>, columns: seq<string>): seq<string> {
    if keys == [] then []
    else (if keys[0] in columns then [keys[0]] else []) + Present(keys[1..], columns)
  }

  predicate Fits(ch: Change, columns: seq<string>) {
    |ch.values| == |columns| && (ch.original.Some? ==> |ch.original.value| == |columns|)
  }

  /** The statement for one change, if it needs one. */
  function Compile(ch: Change, columns: seq<string>, wanted: seq<string>): seq<Statement>
    requires Fits(ch, columns)
  {
    match ch.status
    case Inserted => [Insert(columns, ch.values)]
    case Updated =>
      if ch.original.None? then []
      else
        var sets := Assignments(columns, ch.values, ch.original.value);
        if sets == [] then [] else [Update(sets, WhereFor(wanted, columns, ch.original.value))]
    case Deleted =>
      if ch.original.None? then [] else [Delete(WhereFor(wanted, columns, ch.original.value))]
  }

  function CompileAll(changes: seq<Change>, columns: seq<string>, wanted: seq<string>): seq<Statement>
    requires forall i :: 0 <= i < |changes| ==> Fits(changes[i], columns)
  {
    if changes == [] then []
    else CompileAll(changes[..|changes| - 1], columns, wanted) + Compile(changes[|changes| - 1], columns, wanted)
  }

  function WhereColumns(keys: seq<string>, columns: seq<string>): seq<string> {
    if Present(keys, columns) != [] then Present(keys, columns) else columns
  }

  /** Some statement picks out existing rows. */
  predicate MatchesRows(statements: seq<Statement>) {
    statements != [] && (!statements[|statements| - 1].Insert? || MatchesRows(statements[..|statements| - 1]))
  }

  lemma CompileSnoc(changes: seq<Change>, i: nat, columns: seq<string>, wanted: seq<string>)
    requires i < |changes| && forall j :: 0 <= j < |changes| ==> Fits(changes[j], columns)
    ensures CompileAll(changes[..i + 1], columns, wanted)
         == CompileAll(changes[..i], columns, wanted) + Compile(changes[i], columns, wanted)
  {
    assert changes[..i + 1][..i] == changes[..i];
  }

  /** What the loop has built before change `i`. */
  ghost predicate Built(changes: seq<Change>, i: nat, columns: seq<string>, wanted: seq<string>,
                        statements: seq<Statement>, matchesRows: bool)
    requires i <= |changes| && forall j :: 0 <= j < |changes| ==> Fits(changes[j], columns)
  {
    statements == CompileAll(changes[..i], columns, wanted) && (matchesRows <==> MatchesRows(statements))
  }

  lemma BuiltIdle(changes: seq<Change>, i: nat, columns: seq<string>, wanted: seq<string>,
                  statements: seq<Statement>, matchesRows: bool)
    requires i < |changes| && forall j :: 0 <= j < |changes| ==> Fits(changes[j], columns)
    requires Built(changes, i, columns, wanted, statements, matchesRows) && Compile(changes[i], columns, wanted) == []
    ensures Built(changes, i + 1, columns, wanted, statements, matchesRows)
  {
    CompileSnoc(changes, i, columns, wanted);
  }

  lemma BuiltSnoc(changes: seq<Change>, i: nat, columns: seq<string>, wanted: seq<string>,
                  statements: seq<Statement>, matchesRows: bool, s: Statement)
    requires i < |changes| && forall j :: 0 <= j < |changes| ==> Fits(changes[j], columns)
    requires Built(changes, i, columns, wanted, statements, matchesRows) && Compile(changes[i], columns, wanted) == [s]
    ensures Built(changes, i + 1, columns, wanted, statements + [s], matchesRows || !s.Insert?)
  {
    CompileSnoc(changes, i, columns, wanted);
    assert (statements + [s])[..|statements|] == statements;
  }

  method BuildGridChangeStatements(columns: seq<string>, primaryKeys: seq<string>, changes: seq<Change>)
    returns (statements: seq<Statement>, whereUsesAllColumns: bool)
    requires forall i :: 0 <= i < |changes| ==> Fits(changes[i], columns)
    ensures statements == CompileAll(changes, columns, WhereColumns(primaryKeys, columns))
    ensures whereUsesAllColumns <==> MatchesRows(statements) && Present(primaryKeys, columns) == []
  {
    var keys := Present(primaryKeys, columns);
    var wanted := if |keys| > 0 then keys else columns;
    statements := [];
    var matchesRows := false;
    for i := 0 to |changes|
      invariant Built(changes, i, columns, wanted, statements, matchesRows)
    {
      var change := changes[i];
      var s: Statement;
      if change.status == Inserted {
        s := Insert(columns, change.values);
        BuiltSnoc(changes, i, columns, wanted, statements, matchesRows, s);
        statements := statements + [s];
      } else if change.status == Updated {
        var sets := if change.original.Some? then Assignments(columns, change.values, change.original.value) else [];
        if |sets| == 0 {
          BuiltIdle(changes, i, columns, wanted, statements, matchesRows);
          continue;
        }
        s := Update(sets, WhereFor(wanted, columns, change.original.value));
        BuiltSnoc(changes, i, columns, wanted, statements, matchesRows, s);
        statements := statements + [s];
        matchesRows := true;
      } else {
        if change.original.None? {
          BuiltIdle(changes, i, columns, wanted, statements, matchesRows);
          continue;
        }
        s := Delete(WhereFor(wanted, columns, change.original.value));
        BuiltSnoc(changes, i, columns, wanted, statements, matchesRows, s);
        statements := statements + [s];
        matchesRows := true;
      }
    }
    assert changes[..|changes|] == changes;
    whereUsesAllColumns := matchesRows && |keys| == 0;
  }

  // ----- What the statements do -----

  /** Rows by identity; `next` is the identity the next inserted row gets, and `defaults`
      the cells of the columns an INSERT does not list. */
  datatype Db = Db(rows: map<nat, Row>, next: nat, defaults: Row)

  predicate Passes(row: Row, t: Test) {
    t.column in row && row[t.column] == t.value
  }

  predicate Matches(row: Row, guard: seq<Test>) {
    guard != [] && forall i :: 0 <= i < |guard| ==> Passes(row, guard[i])
  }

  function SetCells(row: Row, sets: seq<Assign>): Row
    decreases |sets|
  {
    if sets == [] then row else SetCells(row[sets[0].column := sets[0].value], sets[1..])
  }

  function NewRow(defaults: Row, columns: seq<string>, values: seq<Cell>): Row {
    if columns == [] || values == [] then defaults
    else NewRow(defaults, columns[1..], values[1..])[columns[0] := values[0]]
  }

  function Execute(db: Db, s: Statement): Db {
    match s
    case Insert(columns, values) =>
      db.(rows := db.rows[db.next := NewRow(db.defaults, columns, values)], next := db.next + 1)
    case Update(sets, guard) =>
      db.(rows := map id | id in db.rows ::
                    if Matches(db.rows[id], guard) then SetCells(db.rows[id], sets) else db.rows[id])
    case Delete(guard) =>
      db.(rows := map id | id in db.rows && !Matches(db.rows[id], guard) :: db.rows[id])
  }

  function ExecuteAll(db: Db, statements: seq<Statement>): Db {
    if statements == [] then db
    else Execute(ExecuteAll(db, statements[..|statements| - 1]), statements[|statements| - 1])
  }

  function Affected(db: Db, s: Statement): set<nat> {
    match s
    case Insert(_, _) => {db.next}
    case Update(_, guard) => set id | id in db.rows && Matches(db.rows[id], guard)
    case Delete(guard) => set id | id in db.rows && Matches(db.rows[id], guard)
  }
}
