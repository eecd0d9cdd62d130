/** Content-addressed snapshots: rows that name blobs by the hash of their text, pruned by age
    and number, and the blobs no row names collected. */
module LocalHistory {
  import opened HistoryRows
  import opened Options

  const MAX_AGE_SECS := 7 * 24 * 60 * 60
  const MAX_SNAPSHOT_BYTES := 2 * 1024 * 1024

  datatype Error = PathRequired | TooLarge | NotFound | BlobMissing
  datatype Result<+T> = Ok(value: T) | Err(error: Error)

  /** SHA-256 in hex, and the UTF-8 length of a text. */
  datatype Library = Library(hash: string -> string, bytes: string -> nat)

  ghost predicate CollisionFree(lib: Library) {
    forall a: string, b: string :: lib.hash(a) == lib.hash(b) ==> a == b
  }

  datatype Store = Store(rows: seq<Row>, blobs: map<string, string>, nextId: nat)

  /** White space as Rust's `trim` takes it. */
  predicate IsSpace(c: char) {
    var n := c as int;
    9 <= n <= 13 || n == 0x20 || n == 0x85 || n == 0xa0 || n == 0x1680 || 0x2000 <= n <= 0x200a
    || n == 0x2028 || n == 0x2029 || n == 0x202f || n == 0x205f || n == 0x3000
  }

  function TrimStart(s: string): string {
    if s != [] && IsSpace(s[0]) then TrimStart(s[1..]) else s
  }

  function TrimEnd(s: string): string {
    if s != [] && IsSpace(s[|s| - 1]) then TrimEnd(s[..|s| - 1]) else s
  }

  function Slashes(s: string): string {
    if s == [] then [] else [if s[0] == '\\' then '/' else s[0]] + Slashes(s[1..])
  }

  function NormalizePath(path: string): Result<string> {
    var trimmed := TrimEnd(TrimStart(path));
    if trimmed == [] then Err(PathRequired) else Ok(Slashes(trimmed))
  }

  function LiveHashes(rows: seq<Row>): set<string> {
    set r | r in rows :: r.hash
  }

  function Collect(s: Store): Store {
    s.(blobs := map h | h in s.blobs && h in LiveHashes(s.rows) :: s.blobs[h])
  }

  function PrunePath(s: Store, path: string, now: int): Store {
    Collect(s.(rows := PruneRows(s.rows, path, now - MAX_AGE_SECS)))
  }

  function Written(s: Store, hash: string, text: string): Store {
    if hash in s.blobs then s else s.(blobs := s.blobs[hash := text])
  }

  function Latest(rows: seq<Row>, path: string): Option<string> {
    var list := Listing(rows, path);
    if list == [] then None else Some(list[0].hash)
  }

  /** The row goes in, then its path is pruned. */
  function Inserted(s: Store, row: Row, text: string, now: int): Store {
    var w := Written(s, row.hash, text);
    PrunePath(w.(rows := w.rows + [row], nextId := w.nextId + 1), row.path, now)
  }

  /** Why a snapshot was taken: at most 64 characters, `save` when nothing is said. */
  function Reason(reason: Option<string>): string {
    var trimmed := TrimEnd(TrimStart(if reason.Some? then reason.value else "save"));
    var cut := if |trimmed| > 64 then trimmed[..64] else trimmed;
    if cut == "" then "save" else cut
  }

  function NewRow(lib: Library, s: Store, path: string, text: string, reason: Option<string>, createdAt: int): Row {
    Row(s.nextId, path, lib.hash(text), createdAt, Reason(reason), lib.bytes(text))
  }

  /** `createdAt` and `now` are the two readings of the clock one snapshot takes. */
  function Snapshot(lib: Library, s: Store, path: string, text: string, reason: Option<string>, createdAt: int, now: int)
      : (Store, Result<Option<Row>>)
  {
    var p := NormalizePath(path);
    if p.Err? then (s, Err(p.error))
    else if lib.bytes(text) > MAX_SNAPSHOT_BYTES then (s, Err(TooLarge))
    else if Latest(s.rows, p.value) == Some(lib.hash(text)) then (s, Ok(None))
    else
      var row := NewRow(lib, s, p.value, text, reason, createdAt);
      (Inserted(s, row, text, now), Ok(Some(row)))
  }

  function Find(rows: seq<Row>, id: nat): Option<Row> {
    if rows == [] then None
    else if rows[|rows| - 1].id == id then Some(rows[|rows| - 1]) else Find(rows[..|rows| - 1], id)
  }

  function Read(s: Store, id: nat): Result<string> {
    var row := Find(s.rows, id);
    if row.None? then Err(NotFound)
    else if row.value.hash in s.blobs then Ok(s.blobs[row.value.hash]) else Err(BlobMissing)
  }

  function AgedIds(rows: seq<Row>, cutoff: int): set<nat> {
    set r | r in rows && r.createdAt < cutoff :: r.id
  }

  function Paths(rows: seq<Row>): seq<string> {
    if rows == [] then []
    else
      var before, last := Paths(rows[..|rows| - 1]), rows[|rows| - 1].path;
      if last in before then before else before + [last]
  }

  /** The first `n` of the paths pruned, each with its own reading of the clock. */
  function PruneFirst(s: Store, paths: seq<string>, clock: nat -> int, n: nat): Store
    requires n <= |paths|
  {
    if n == 0 then s else PrunePath(PruneFirst(s, paths, clock, n - 1), paths[n - 1], clock(n - 1))
  }

  function PruneAll(s: Store, now: int, clock: nat -> int): Store {
    var left := s.(rows := Without(s.rows, AgedIds(s.rows, now - MAX_AGE_SECS)));
    var paths := Paths(left.rows);
    PruneFirst(left, paths, clock, |paths|)
  }

  // ----- As it runs -----

  class LocalHistoryState {
    const lib: Library
    var rows: seq<Row>
    var blobs: map<string, string>
    var nextId: nat

    ghost function State(): Store
      reads this
    {
      Store(rows, blobs, nextId)
    }

    constructor (lib: Library)
      ensures State() == Store([], map[], 1) && this.lib == lib
    {
      this.lib, rows, blobs, nextId := lib, [], map[], 1;
    }

    method WriteBlob(hash: string, text: string)
      modifies this`blobs
      ensures State() == Written(old(State()), hash, text)
    {
      if hash in blobs { return; }
      blobs := blobs[hash := text];
    }

    method GcOrphanedBlobs()
      modifies this`blobs
      ensures State() == Collect(old(State()))
    {
      var live := LiveHashes(rows);
      var names := blobs.Keys;
      while names != {}
        invariant names <= old(blobs).Keys
        invariant blobs == map h | h in old(blobs) && (h in names || h in live) :: old(blobs)[h]
        decreases |names|
      {
        var name :| name in names;
        names := names - {name};
        if name !in live { blobs := blobs - {name}; }
      }
    }

    method PrunePathLocked(path: string, now: int)
      modifies this`rows, this`blobs
      ensures State() == PrunePath(old(State()), path, now)
    {
      hide Without, Listing, OldIds;
      rows := Without(rows, OldIds(rows, path, now - MAX_AGE_SECS));
      ghost var young := rows;
      var ids := Listing(rows, path);
      if |ids| > MAX_VERSIONS_PER_FILE {
        assert IdsOf(ids[MAX_VERSIONS_PER_FILE..MAX_VERSIONS_PER_FILE]) == {};
        WithoutNone(young, {});
        for i := MAX_VERSIONS_PER_FILE to |ids|
          invariant blobs == old(blobs) && rows == Without(young, IdsOf(ids[MAX_VERSIONS_PER_FILE..i]))
        {
          WithoutTwice(young, IdsOf(ids[MAX_VERSIONS_PER_FILE..i]), {ids[i].id});
          OneMoreId(ids, i);
          rows := Without(rows, {ids[i].id});
        }
        assert ids[MAX_VERSIONS_PER_FILE..|ids|] == ids[MAX_VERSIONS_PER_FILE..];
      }
      GcOrphanedBlobs();
    }

    method AddRow(row: Row, text: string, now: int)
      requires row.id == nextId
      modifies this
      ensures State() == Inserted(old(State()), row, text, now)
    {
      WriteBlob(row.hash, text);
      rows, nextId := rows + [row], nextId + 1;
      PrunePathLocked(row.path, now);
    }

    method TakeSnapshot(path: string, text: string, reason: Option<string>, createdAt: int, now: int) returns (r: Result<Option<Row>>)
      modifies this
      ensures (State(), r) == Snapshot(lib, old(State()), path, text, reason, createdAt, now)
    {
      hide TrimStart, TrimEnd, Inserted, NormalizePath, Latest;
      var p := NormalizePath(path);
      if p.Err? { return Err(p.error); }
      if lib.bytes(text) > MAX_SNAPSHOT_BYTES { return Err(TooLarge); }
      var hash := lib.hash(text);
      if Latest(rows, p.value) == Some(hash) { return Ok(None); }
      var shown := if reason.Some? then reason.value else "save";
      shown := TrimEnd(TrimStart(shown));
      if |shown| > 64 { shown := shown[..64]; }
      if shown == "" { shown := "save"; }
      var row := Row(nextId, p.value, hash, createdAt, shown, lib.bytes(text));
      AddRow(row, text, now);
      return Ok(Some(row));
    }

    method ReadText(id: nat) returns (r: Result<string>)
      ensures r == Read(State(), id)
    {
      var row := Find(rows, id);
      if row.None? { return Err(NotFound); }
      return if row.value.hash in blobs then Ok(blobs[row.value.hash]) else Err(BlobMissing);
    }

    method Prune(now: int, clock: nat -> int) returns (deleted: nat)
      modifies this`rows, this`blobs
      ensures State() == PruneAll(old(State()), now, clock)
      ensures deleted == |AgedIds(old(rows), now - MAX_AGE_SECS)|
    {
      var aged := AgedIds(rows, now - MAX_AGE_SECS);
      deleted := |aged|;
      rows := Without(rows, aged);
      ghost var left := State();
      var paths := Paths(rows);
      for i := 0 to |paths|
        invariant State() == PruneFirst(left, paths, clock, i)
      {
        PrunePathLocked(paths[i], clock(i));
      }
    }
  }

  lemma OneMoreId(ids: seq<Row>, i: nat)
    requires MAX_VERSIONS_PER_FILE <= i < |ids|
    ensures IdsOf(ids[MAX_VERSIONS_PER_FILE..i + 1]) == IdsOf(ids[MAX_VERSIONS_PER_FILE..i]) + {ids[i].id}
  {
    assert ids[MAX_VERSIONS_PER_FILE..i + 1] == ids[MAX_VERSIONS_PER_FILE..i] + [ids[i]];
  }
}
