/** What local history keeps over any sequence of snapshots and prunings. */
module HistoryIntegrity {
  import opened HistoryRows
  import opened LocalHistory
  import opened Options

  datatype Event =
    | Snap(path: string, text: string, reason: Option<string>, createdAt: int, now: int)
    | PruneEvery(now: int, clock: nat -> int)

  /** The store, and the text each id was given to. */
  datatype World = World(store: Store, taken: map<nat, string>)

  const START := World(Store([], map[], 1), map[])

  function Step(lib: Library, w: World, e: Event): World {
    match e
    case Snap(path, text, reason, createdAt, now) =>
      var (s, r) := Snapshot(lib, w.store, path, text, reason, createdAt, now);
      World(s, if r.Ok? && r.value.Some? then w.taken[r.value.value.id := text] else w.taken)
    case PruneEvery(now, clock) => w.(store := PruneAll(w.store, now, clock))
  }

  function Run(lib: Library, w: World, events: seq<Event>): World
    decreases |events|
  {
    if events == [] then w else Step(lib, Run(lib, w, events[..|events| - 1]), events[|events| - 1])
  }

  // ----- The invariant -----

  /** A row names a blob that holds the text its id was given to. */
  ghost predicate Backed(lib: Library, blobs: map<string, string>, taken: map<nat, string>, r: Row) {
    r.id in taken && r.hash == lib.hash(taken[r.id]) && r.hash in blobs && blobs[r.hash] == taken[r.id]
  }

  ghost predicate Inv(lib: Library, s: Store, taken: map<nat, string>) {
    && Ordered(s.rows, s.nextId)
    && (forall r :: r in s.rows ==> Backed(lib, s.blobs, taken, r))
    && (forall h :: h in s.blobs ==> lib.hash(s.blobs[h]) == h)
    && (forall id :: id in taken ==> id < s.nextId)
  }

  lemma CollectInv(lib: Library, s: Store, taken: map<nat, string>)
    requires Inv(lib, s, taken)
    ensures Inv(lib, Collect(s), taken) && Collect(s).blobs.Keys == LiveHashes(s.rows)
  {
    forall r | r in s.rows ensures Backed(lib, Collect(s).blobs, taken, r) {
      assert Backed(lib, s.blobs, taken, r) && r.hash in LiveHashes(s.rows);
    }
    forall h | h in LiveHashes(s.rows) ensures h in Collect(s).blobs {
      var r :| r in s.rows && r.hash == h;
      assert Backed(lib, s.blobs, taken, r);
    }
  }

  lemma FewerRowsInv(lib: Library, s: Store, taken: map<nat, string>, rows: seq<Row>)
    requires Inv(lib, s, taken) && Ordered(rows, s.nextId) && forall r :: r in rows ==> r in s.rows
    ensures Inv(lib, s.(rows := rows), taken)
  {
    forall r | r in rows ensures Backed(lib, s.blobs, taken, r) { assert r in s.rows; }
  }

  lemma PrunePathInv(lib: Library, s: Store, taken: map<nat, string>, path: string, now: int)
    requires Inv(lib, s, taken)
    ensures Inv(lib, PrunePath(s, path, now), taken) && PrunePath(s, path, now).nextId == s.nextId
    ensures PrunePath(s, path, now).blobs.Keys == LiveHashes(PrunePath(s, path, now).rows)
  {
    PruneOrdered(s.rows, path, now - MAX_AGE_SECS, s.nextId);
    FewerRowsInv(lib, s, taken, PruneRows(s.rows, path, now - MAX_AGE_SECS));
    CollectInv(lib, s.(rows := PruneRows(s.rows, path, now - MAX_AGE_SECS)), taken);
  }

  lemma WrittenInv(lib: Library, s: Store, taken: map<nat, string>, text: string)
    requires Inv(lib, s, taken) && CollisionFree(lib)
    ensures var w := Written(s, lib.hash(text), text);
            Inv(lib, w, taken) && lib.hash(text) in w.blobs && w.blobs[lib.hash(text)] == text
  {
    var h := lib.hash(text);
    if h in s.blobs {
      assert lib.hash(s.blobs[h]) == lib.hash(text);
    } else {
      forall r | r in s.rows ensures Backed(lib, s.blobs[h := text], taken, r) {
        assert Backed(lib, s.blobs, taken, r);
      }
    }
  }

  /** `s` with the row in and its blob written, before the pruning. */
  function Added(s: Store, row: Row, text: string): Store {
    var w := Written(s, row.hash, text);
    w.(rows := w.rows + [row], nextId := w.nextId + 1)
  }

  lemma AddedInv(lib: Library, s: Store, taken: map<nat, string>, row: Row, text: string)
    requires Inv(lib, s, taken) && CollisionFree(lib) && row.id == s.nextId && row.hash == lib.hash(text)
    ensures Inv(lib, Added(s, row, text), taken[row.id := text])
  {
    WrittenInv(lib, s, taken, text);
    var w, more := Written(s, row.hash, text), taken[row.id := text];
    forall r | r in w.rows + [row] ensures Backed(lib, w.blobs, more, r) {
      if r in w.rows {
        assert Backed(lib, w.blobs, taken, r);
        OrderedBelow(w.rows, w.nextId, r);
      }
    }
    OrderedMore(w.rows, w.nextId, row.id);
    OrderedSnoc(w.rows, row, w.nextId + 1);
  }

  lemma OrderedBelow(rows: seq<Row>, nextId: nat, r: Row)
    requires Ordered(rows, nextId) && r in rows
    ensures r.id < nextId
  {
  }

  lemma InsertedInv(lib: Library, s: Store, taken: map<nat, string>, row: Row, text: string, now: int)
    requires Inv(lib, s, taken) && CollisionFree(lib) && row.id == s.nextId && row.hash == lib.hash(text)
    ensures Inv(lib, Inserted(s, row, text, now), taken[row.id := text])
    ensures Inserted(s, row, text, now).blobs.Keys == LiveHashes(Inserted(s, row, text, now).rows)
  {
    AddedInv(lib, s, taken, row, text);
    PrunePathInv(lib, Added(s, row, text), taken[row.id := text], row.path, now);
  }

  lemma {:induction false} PruneFirstInv(lib: Library, s: Store, taken: map<nat, string>, paths: seq<string>,
                                         clock: nat -> int, n: nat)
    requires n <= |paths| && Inv(lib, s, taken)
    ensures var t := PruneFirst(s, paths, clock, n);
            Inv(lib, t, taken) && t.nextId == s.nextId && (n > 0 ==> t.blobs.Keys == LiveHashes(t.rows))
            && (n == 0 ==> t == s)
  {
    hide PrunePath;
    if n > 0 {
      PruneFirstInv(lib, s, taken, paths, clock, n - 1);
      PrunePathInv(lib, PruneFirst(s, paths, clock, n - 1), taken, paths[n - 1], clock(n - 1));
    }
  }

  lemma PruneAllInv(lib: Library, s: Store, taken: map<nat, string>, now: int, clock: nat -> int)
    requires Inv(lib, s, taken)
    ensures Inv(lib, PruneAll(s, now, clock), taken) && PruneAll(s, now, clock).nextId == s.nextId
  {
    var aged := AgedIds(s.rows, now - MAX_AGE_SECS);
    var rows := Without(s.rows, aged);
    WithoutOrdered(s.rows, aged, s.nextId);
    WithoutMembers(s.rows, aged);
    FewerRowsInv(lib, s, taken, rows);
    PruneFirstInv(lib, s.(rows := rows), taken, Paths(rows), clock, |Paths(rows)|);
  }

  lemma FreshId(lib: Library, s: Store, taken: map<nat, string>, text: string)
    requires Inv(lib, s, taken)
    ensures forall id :: id in taken ==> id in taken[s.nextId := text] && taken[s.nextId := text][id] == taken[id]
  {
    hide Backed, Ordered;
  }

  lemma StepInv(lib: Library, w: World, e: Event)
    requires Inv(lib, w.store, w.taken) && CollisionFree(lib)
    ensures Inv(lib, Step(lib, w, e).store, Step(lib, w, e).taken)
    ensures forall id :: id in w.taken ==> id in Step(lib, w, e).taken && Step(lib, w, e).taken[id] == w.taken[id]
  {
    hide Inv, Inserted, NormalizePath, Reason, PruneAll, Latest, CollisionFree;
    match e
    case Snap(path, text, reason, createdAt, now) =>
      var p := NormalizePath(path);
      if p.Ok? {
        FreshId(lib, w.store, w.taken, text);
        InsertedInv(lib, w.store, w.taken, NewRow(lib, w.store, p.value, text, reason, createdAt), text, now);
      }
    case PruneEvery(now, clock) => PruneAllInv(lib, w.store, w.taken, now, clock);
  }

  lemma {:induction false} RunInv(lib: Library, w: World, events: seq<Event>)
    requires Inv(lib, w.store, w.taken) && CollisionFree(lib)
    ensures Inv(lib, Run(lib, w, events).store, Run(lib, w, events).taken)
    ensures forall id :: id in w.taken ==> id in Run(lib, w, events).taken && Run(lib, w, events).taken[id] == w.taken[id]
    decreases |events|
  {
    if events != [] {
      RunInv(lib, w, events[..|events| - 1]);
      StepInv(lib, Run(lib, w, events[..|events| - 1]), events[|events| - 1]);
    }
  }

  // ----- Reading back -----

  lemma {:induction false} FindFacts(rows: seq<Row>, id: nat)
    ensures Find(rows, id).Some? ==> Find(rows, id).value in rows && Find(rows, id).value.id == id
    ensures Find(rows, id).None? ==> forall r :: r in rows ==> r.id != id
  {
    if rows != [] {
      FindFacts(rows[..|rows| - 1], id);
      assert rows == rows[..|rows| - 1] + [rows[|rows| - 1]];
    }
  }

  /** Whatever snapshots and prunings came before and after, and whichever paths share the
      text, a snapshot reads back as the text it was taken of for as long as its row stands. */
  lemma SnapshotReadsBack(lib: Library, before: seq<Event>, path: string, text: string, reason: Option<string>, createdAt: int, now: int,
                          after: seq<Event>, entry: Row)
    requires CollisionFree(lib)
    requires Snapshot(lib, Run(lib, START, before).store, path, text, reason, createdAt, now).1 == Ok(Some(entry))
    ensures var s := Run(lib, Step(lib, Run(lib, START, before), Snap(path, text, reason, createdAt, now)), after).store;
            Read(s, entry.id) == if exists r :: r in s.rows && r.id == entry.id then Ok(text) else Err(NotFound)
  {
    var w0 := Run(lib, START, before);
    var w1 := Step(lib, w0, Snap(path, text, reason, createdAt, now));
    RunInv(lib, START, before);
    StepInv(lib, w0, Snap(path, text, reason, createdAt, now));
    assert entry.id in w1.taken && w1.taken[entry.id] == text;
    RunInv(lib, w1, after);
    var w2 := Run(lib, w1, after);
    FindFacts(w2.store.rows, entry.id);
    var found := Find(w2.store.rows, entry.id);
    if found.Some? { assert Backed(lib, w2.store.blobs, w2.taken, found.value); }
  }

  // ----- One snapshot -----

  lemma InsertedListings(s: Store, row: Row, text: string, now: int)
    requires Ordered(s.rows, s.nextId) && row.id == s.nextId
    ensures var rows := Inserted(s, row, text, now).rows;
            && Ordered(rows, s.nextId + 1)
            && KeepsNewest(Insert(row, Listing(s.rows, row.path)), Listing(rows, row.path), now - MAX_AGE_SECS)
            && forall other :: other != row.path ==> Listing(rows, other) == Listing(s.rows, other)
  {
    var all, cutoff := s.rows + [row], now - MAX_AGE_SECS;
    assert all[..|all| - 1] == s.rows;
    OrderedSnoc(s.rows, row, s.nextId + 1);
    PruneOrdered(all, row.path, cutoff, s.nextId + 1);
    PruneKeepsNewest(all, row.path, cutoff, s.nextId + 1);
    forall other | other != row.path ensures Listing(PruneRows(all, row.path, cutoff), other) == Listing(s.rows, other) {
      PruneLeavesOthers(all, row.path, other, cutoff, s.nextId + 1);
    }
  }

  /** A snapshot that inserts leaves its path its newest fresh fifty rows, the new one counted,
      and every other path alone; and the blobs are those the rows name. */
  lemma InsertingSnapshot(lib: Library, before: seq<Event>, path: string, text: string, reason: Option<string>, createdAt: int, now: int,
                          s0: Store, s1: Store, entry: Row)
    requires CollisionFree(lib) && s0 == Run(lib, START, before).store
    requires Snapshot(lib, s0, path, text, reason, createdAt, now) == (s1, Ok(Some(entry)))
    ensures KeepsNewest(Insert(entry, Listing(s0.rows, entry.path)), Listing(s1.rows, entry.path), now - MAX_AGE_SECS)
    ensures forall other :: other != entry.path ==> Listing(s1.rows, other) == Listing(s0.rows, other)
    ensures s1.blobs.Keys == LiveHashes(s1.rows)
  {
    RunInv(lib, START, before);
    InsertedListings(s0, entry, text, now);
    InsertedInv(lib, s0, Run(lib, START, before).taken, entry, text, now);
  }

  /** `all` is `list` with `r` put in at `n`. */
  ghost predicate PutIn(list: seq<Row>, n: nat, r: Row, all: seq<Row>) {
    && n < |all| == |list| + 1 && all[n] == r
    && (forall i :: 0 <= i < n ==> all[i] == list[i])
    && (forall i :: n <= i < |list| ==> all[i + 1] == list[i])
  }

  lemma PutInCons(head: Row, list: seq<Row>, n: nat, r: Row, all: seq<Row>)
    requires PutIn(list, n, r, all)
    ensures PutIn([head] + list, n + 1, r, [head] + all)
  {
  }

  lemma {:induction false} InsertAt(r: Row, list: seq<Row>)
    requires forall i :: 0 <= i < |list| ==> list[i].id < r.id
    ensures PutIn(list, FreshCount(list, r.createdAt + 1), r, Insert(r, list))
    decreases |list|
  {
    if list != [] && list[0].createdAt > r.createdAt {
      InsertAt(r, list[1..]);
      PutInCons(list[0], list[1..], FreshCount(list[1..], r.createdAt + 1), r, Insert(r, list[1..]));
      assert list == [list[0]] + list[1..];
    }
  }

  lemma PlaceKept(list: seq<Row>, n: nat, r: Row, all: seq<Row>, kept: seq<Row>, cutoff: int)
    requires PutIn(list, n, r, all) && Sorted(all) && KeepsNewest(all, kept, cutoff)
    ensures r in kept <==> r.createdAt >= cutoff && n < MAX_VERSIONS_PER_FILE
  {
    if i :| 0 <= i < |kept| && kept[i] == r {
      SamePlace(all, i, n);
    }
    if |kept| <= n {
      assert |kept| < n ==> Newer(all[|kept|], all[n]);
    }
  }

  /** The new row is there afterwards exactly when it is not already a week old by the clock
      the pruning reads, and fewer than fifty rows of its path claim to be younger: a clock set
      back can lose the snapshot it was asked for. */
  lemma NewRowStaysIff(lib: Library, before: seq<Event>, path: string, text: string, reason: Option<string>, createdAt: int, now: int,
                       s0: Store, s1: Store, entry: Row)
    requires CollisionFree(lib) && s0 == Run(lib, START, before).store
    requires Snapshot(lib, s0, path, text, reason, createdAt, now) == (s1, Ok(Some(entry)))
    ensures entry in s1.rows <==>
              createdAt >= now - MAX_AGE_SECS
              && FreshCount(Listing(s0.rows, entry.path), createdAt + 1) < MAX_VERSIONS_PER_FILE
  {
    RunInv(lib, START, before);
    NewRowStays(s0, s1, entry, text, now);
  }

  lemma NewRowStays(s0: Store, s1: Store, row: Row, text: string, now: int)
    requires Ordered(s0.rows, s0.nextId) && row.id == s0.nextId && s1 == Inserted(s0, row, text, now)
    ensures row in s1.rows <==>
              row.createdAt >= now - MAX_AGE_SECS
              && FreshCount(Listing(s0.rows, row.path), row.createdAt + 1) < MAX_VERSIONS_PER_FILE
  {
    var list := Listing(s0.rows, row.path);
    ListingFacts(s0.rows, row.path, s0.nextId);
    forall i | 0 <= i < |list| ensures list[i].id < row.id {
      assert list[i] in list;
      OrderedBelow(s0.rows, s0.nextId, list[i]);
    }
    InsertAt(row, list);
    InsertSorted(row, list);
    InsertedListings(s0, row, text, now);
    ListingFacts(s1.rows, row.path, s0.nextId + 1);
    PlaceKept(list, FreshCount(list, row.createdAt + 1), row, Insert(row, list),
              Listing(s1.rows, row.path), now - MAX_AGE_SECS);
  }

  // ----- Neighbouring versions -----

  ghost predicate NeighboursDiffer(list: seq<Row>) {
    forall i :: 0 <= i < |list| - 1 ==> list[i].hash != list[i + 1].hash
  }

  /** No snapshot reads an earlier time than one before it. */
  ghost predicate Steady(events: seq<Event>) {
    forall i, j :: 0 <= i < j < |events| && events[i].Snap? && events[j].Snap? ==> events[i].createdAt <= events[j].createdAt
  }

  /** No row is younger than the clock, and no two neighbours are the same version. */
  ghost predicate Calm(s: Store, clock: int) {
    && Ordered(s.rows, s.nextId)
    && (forall path, r :: r in Listing(s.rows, path) ==> r.createdAt <= clock)
    && (forall path :: NeighboursDiffer(Listing(s.rows, path)))
  }

  ghost predicate CalmList(list: seq<Row>, clock: int) {
    NeighboursDiffer(list) && forall r :: r in list ==> r.createdAt <= clock
  }

  lemma PrefixCalm(list: seq<Row>, kept: seq<Row>, cutoff: int, clock: int)
    requires CalmList(list, clock) && KeepsNewest(list, kept, cutoff)
    ensures CalmList(kept, clock)
  {
    assert forall i :: 0 <= i < |kept| ==> kept[i] == list[i];
  }

  lemma PruneCalm(s: Store, path: string, now: int, clock: int)
    requires Calm(s, clock)
    ensures Calm(PrunePath(s, path, now), clock)
  {
    var cutoff := now - MAX_AGE_SECS;
    PruneOrdered(s.rows, path, cutoff, s.nextId);
    forall p: string ensures CalmList(Listing(PruneRows(s.rows, path, cutoff), p), clock) {
      assert CalmList(Listing(s.rows, p), clock);
      if p == path {
        PruneKeepsNewest(s.rows, path, cutoff, s.nextId);
        PrefixCalm(Listing(s.rows, p), Listing(PruneRows(s.rows, path, cutoff), p), cutoff, clock);
      } else {
        PruneLeavesOthers(s.rows, path, p, cutoff, s.nextId);
      }
    }
  }

  lemma {:induction false} PruneFirstCalm(s: Store, paths: seq<string>, clocks: nat -> int, n: nat, clock: int)
    requires n <= |paths| && Calm(s, clock)
    ensures Calm(PruneFirst(s, paths, clocks, n), clock)
  {
    hide PrunePath;
    if n > 0 {
      PruneFirstCalm(s, paths, clocks, n - 1, clock);
      PruneCalm(PruneFirst(s, paths, clocks, n - 1), paths[n - 1], clocks(n - 1), clock);
    }
  }

  lemma AgedEverywhere(rows: seq<Row>, cutoff: int, nextId: nat, path: string)
    requires Ordered(rows, nextId)
    ensures Listing(Without(rows, AgedIds(rows, cutoff)), path) <= Listing(rows, path)
  {
    var list, gone := Listing(rows, path), AgedIds(rows, cutoff);
    var n := FreshCount(list, cutoff);
    ListingFacts(rows, path, nextId);
    ListingWithout(rows, path, gone, nextId);
    forall i | 0 <= i < |list| ensures list[i].id in gone <==> n <= i {
      assert list[i] in list;
      assert n < i ==> Newer(list[n], list[i]);
      if list[i].id in gone {
        var q :| q in rows && q.createdAt < cutoff && q.id == list[i].id;
        SameRow(rows, nextId, q, list[i]);
      }
    }
    CutTail(list, n, gone);
  }

  lemma PruneAllCalm(s: Store, now: int, clocks: nat -> int, clock: int)
    requires Calm(s, clock)
    ensures Calm(PruneAll(s, now, clocks), clock)
  {
    var aged := AgedIds(s.rows, now - MAX_AGE_SECS);
    var left := s.(rows := Without(s.rows, aged));
    WithoutOrdered(s.rows, aged, s.nextId);
    forall p: string ensures CalmList(Listing(left.rows, p), clock) {
      assert CalmList(Listing(s.rows, p), clock);
      AgedEverywhere(s.rows, now - MAX_AGE_SECS, s.nextId, p);
      assert forall i :: 0 <= i < |Listing(left.rows, p)| ==> Listing(left.rows, p)[i] == Listing(s.rows, p)[i];
    }
    PruneFirstCalm(left, Paths(left.rows), clocks, |Paths(left.rows)|, clock);
  }

  lemma HeadInserted(list: seq<Row>, r: Row, clock: int)
    requires CalmList(list, clock) && clock <= r.createdAt && forall i :: 0 <= i < |list| ==> list[i].id < r.id
    requires list == [] || list[0].hash != r.hash
    ensures Insert(r, list) == [r] + list && CalmList(Insert(r, list), r.createdAt)
  {
    if list != [] { assert list[0] in list; }
  }

  lemma InsertedCalm(s: Store, row: Row, text: string, now: int, clock: int)
    requires Calm(s, clock) && clock <= row.createdAt && row.id == s.nextId
    requires Latest(s.rows, row.path) != Some(row.hash)
    ensures Calm(Inserted(s, row, text, now), row.createdAt)
    ensures row.createdAt >= now - MAX_AGE_SECS ==>
              Listing(Inserted(s, row, text, now).rows, row.path) != []
              && Listing(Inserted(s, row, text, now).rows, row.path)[0] == row
  {
    var rows, list := Inserted(s, row, text, now).rows, Listing(s.rows, row.path);
    InsertedListings(s, row, text, now);
    ListingFacts(s.rows, row.path, s.nextId);
    assert CalmList(list, clock);
    forall i | 0 <= i < |list| ensures list[i].id < row.id {
      assert list[i] in list;
      OrderedBelow(s.rows, s.nextId, list[i]);
    }
    HeadInserted(list, row, clock);
    PrefixCalm(Insert(row, list), Listing(rows, row.path), now - MAX_AGE_SECS, row.createdAt);
    forall p: string ensures CalmList(Listing(rows, p), row.createdAt) {
      OtherCalm(s, rows, p, row.path, clock, row.createdAt);
    }
  }

  lemma OtherCalm(s: Store, rows: seq<Row>, p: string, path: string, clock: int, later: int)
    requires Calm(s, clock) && clock <= later && CalmList(Listing(rows, path), later)
    requires p != path ==> Listing(rows, p) == Listing(s.rows, p)
    ensures CalmList(Listing(rows, p), later)
  {
    assert CalmList(Listing(s.rows, p), clock);
  }

  function LastTime(events: seq<Event>, start: int): int {
    if events == [] then start
    else if events[|events| - 1].Snap? then events[|events| - 1].createdAt
    else LastTime(events[..|events| - 1], start)
  }

  lemma {:induction false} LastTimeBelow(events: seq<Event>, start: int, t: int)
    requires forall i :: 0 <= i < |events| && events[i].Snap? ==> start <= events[i].createdAt <= t
    requires start <= t
    ensures LastTime(events, start) <= t
  {
    if events != [] && !events[|events| - 1].Snap? { LastTimeBelow(events[..|events| - 1], start, t); }
  }

  lemma LaterCalm(s: Store, clock: int, later: int)
    requires Calm(s, clock) && clock <= later
    ensures Calm(s, later)
  {
    hide Listing, NeighboursDiffer, Ordered;
  }

  lemma SnapCalm(lib: Library, s: Store, path: string, text: string, reason: Option<string>, createdAt: int, now: int,
                 clock: int)
    requires Calm(s, clock) && clock <= createdAt
    ensures Calm(Snapshot(lib, s, path, text, reason, createdAt, now).0, createdAt)
  {
    hide Calm, Inserted, NormalizePath, Listing, Reason;
    LaterCalm(s, clock, createdAt);
    var p := NormalizePath(path);
    if p.Ok? && Latest(s.rows, p.value) != Some(lib.hash(text)) {
      InsertedCalm(s, NewRow(lib, s, p.value, text, reason, createdAt), text, now, clock);
    }
  }

  lemma StepCalm(lib: Library, w: World, e: Event, clock: int)
    requires Calm(w.store, clock) && (e.Snap? ==> clock <= e.createdAt)
    ensures Calm(Step(lib, w, e).store, if e.Snap? then e.createdAt else clock)
  {
    hide Calm, Snapshot, PruneAll;
    match e
    case PruneEvery(now, clocks) => PruneAllCalm(w.store, now, clocks, clock);
    case Snap(path, text, reason, createdAt, now) => SnapCalm(lib, w.store, path, text, reason, createdAt, now, clock);
  }

  lemma {:induction false} RunCalm(lib: Library, events: seq<Event>, start: int)
    requires Steady(events) && forall i :: 0 <= i < |events| && events[i].Snap? ==> start <= events[i].createdAt
    ensures Calm(Run(lib, START, events).store, LastTime(events, start))
    decreases |events|
  {
    if events != [] {
      var init, last := events[..|events| - 1], events[|events| - 1];
      RunCalm(lib, init, start);
      if last.Snap? { LastTimeBelow(init, start, last.createdAt); }
      StepCalm(lib, Run(lib, START, init), last, LastTime(init, start));
    }
  }

  /** While the clock does not go back, no path ever lists the same version twice running. */
  lemma NeighboursAlwaysDiffer(lib: Library, events: seq<Event>, start: int, path: string)
    requires Steady(events) && forall i :: 0 <= i < |events| && events[i].Snap? ==> start <= events[i].createdAt
    ensures NeighboursDiffer(Listing(Run(lib, START, events).store.rows, path))
  {
    RunCalm(lib, events, start);
  }

  /** And every inserted snapshot, unless it waited a week for its turn, heads its path's list. */
  lemma SnapshotHeadsList(lib: Library, events: seq<Event>, start: int, path: string, text: string,
                          reason: Option<string>, createdAt: int, now: int, s1: Store, entry: Row)
    requires Steady(events + [Snap(path, text, reason, createdAt, now)]) && start <= createdAt
    requires forall i :: 0 <= i < |events| && events[i].Snap? ==> start <= events[i].createdAt
    requires Snapshot(lib, Run(lib, START, events).store, path, text, reason, createdAt, now) == (s1, Ok(Some(entry)))
    requires createdAt >= now - MAX_AGE_SECS
    ensures Listing(s1.rows, entry.path) != [] && Listing(s1.rows, entry.path)[0] == entry
  {
    var all := events + [Snap(path, text, reason, createdAt, now)];
    assert all[|events|].Snap? && forall i :: 0 <= i < |events| ==> all[i] == events[i];
    RunCalm(lib, events, start);
    LastTimeBelow(events, start, createdAt);
    InsertedCalm(Run(lib, START, events).store, entry, text, now, LastTime(events, start));
  }

  /** Where the new row lands decides it, and the program looks only at the head of the list. */
  lemma InsertKeepsNeighboursIff(list: seq<Row>, n: nat, r: Row, all: seq<Row>)
    requires PutIn(list, n, r, all) && NeighboursDiffer(list)
    ensures NeighboursDiffer(all) <==>
              (n > 0 ==> list[n - 1].hash != r.hash) && (n < |list| ==> list[n].hash != r.hash)
  {
    if (n > 0 ==> list[n - 1].hash != r.hash) && (n < |list| ==> list[n].hash != r.hash) {
      forall i | 0 <= i < |all| - 1 ensures all[i].hash != all[i + 1].hash {
        if i + 1 < n { assert list[i].hash != list[i + 1].hash; }
        if i > n { assert all[i] == list[i - 1] && all[i + 1] == list[i]; }
      }
    } else if n > 0 && list[n - 1].hash == r.hash {
      assert all[n - 1].hash == all[n - 1 + 1].hash;
    } else {
      assert all[n].hash == all[n + 1].hash;
    }
  }

  lemma NothingPruned(list: seq<Row>, kept: seq<Row>, cutoff: int)
    requires KeepsNewest(list, kept, cutoff) && |list| <= MAX_VERSIONS_PER_FILE
    requires forall i :: 0 <= i < |list| ==> list[i].createdAt >= cutoff
    ensures kept == list
  {
  }

  ghost predicate Holds(s: Store, nextId: nat, path: string, list: seq<Row>) {
    s.nextId == nextId && Ordered(s.rows, nextId) && Listing(s.rows, path) == list
  }

  lemma SnapInto(lib: Library, s: Store, nextId: nat, path: string, text: string, t: int, list: seq<Row>, grown: seq<Row>)
    requires Holds(s, nextId, path, list) && NormalizePath(path) == Ok(path)
    requires lib.bytes(text) <= MAX_SNAPSHOT_BYTES && (list == [] || list[0].hash != lib.hash(text))
    requires grown == Insert(NewRow(lib, s, path, text, None, t), list) && |grown| <= MAX_VERSIONS_PER_FILE
    requires forall i :: 0 <= i < |grown| ==> grown[i].createdAt >= t - MAX_AGE_SECS
    ensures Holds(Snapshot(lib, s, path, text, None, t, t).0, nextId + 1, path, grown)
  {
    var row := NewRow(lib, s, path, text, None, t);
    InsertedListings(s, row, text, t);
    NothingPruned(grown, Listing(Inserted(s, row, text, t).rows, path), t - MAX_AGE_SECS);
  }

  lemma LandsLast(r1: Row, r2: Row, r3: Row)
    requires r3.createdAt < r1.createdAt && r3.createdAt < r2.createdAt
    ensures Insert(r3, [r2, r1]) == [r2, r1, r3]
  {
    assert [r2, r1][1..] == [r1] && [r1][1..] == [];
    assert Insert(r3, [r1]) == [r1, r3];
  }

  /** Set the clock back once, and the same version stands twice running: take `a`, `b` and
      `a` again, both readings of the last snapshot earlier than either. */
  lemma ClockBackRepeats(lib: Library, path: string, a: string, b: string, s1: Store, s2: Store, s3: Store)
    requires NormalizePath(path) == Ok(path) && lib.hash(a) != lib.hash(b)
    requires lib.bytes(a) <= MAX_SNAPSHOT_BYTES && lib.bytes(b) <= MAX_SNAPSHOT_BYTES
    requires s1 == Snapshot(lib, START.store, path, a, None, 10, 10).0
    requires s2 == Snapshot(lib, s1, path, b, None, 20, 20).0 && s3 == Snapshot(lib, s2, path, a, None, 5, 5).0
    ensures !NeighboursDiffer(Listing(s3.rows, path))
  {
    hide Snapshot;
    var r1, r2, r3 := NewRow(lib, START.store, path, a, None, 10), NewRow(lib, s1, path, b, None, 20), NewRow(lib, s2, path, a, None, 5);
    SnapInto(lib, START.store, 1, path, a, 10, [], [r1]);
    SnapInto(lib, s1, 2, path, b, 20, [r1], [r2, r1]);
    LandsLast(r1, r2, r3);
    SnapInto(lib, s2, 3, path, a, 5, [r2, r1], [r2, r1, r3]);
    assert [r2, r1, r3][1].hash == [r2, r1, r3][1 + 1].hash;
  }

  // ----- Snapshots pruned as they are taken -----

  function ByTurns(a: string, b: string, n: nat): string {
    if n % 2 == 1 then a else b
  }

  /** `n` snapshots of one path at one time, of two texts by turns. */
  function Alternating(path: string, a: string, b: string, t: int, n: nat): seq<Event> {
    if n == 0 then [] else Alternating(path, a, b, t, n - 1) + [Snap(path, ByTurns(a, b, n), None, t, t)]
  }

  ghost predicate Filled(s: Store, path: string, t: int, n: nat, head: string) {
    var list := Listing(s.rows, path);
    && Ordered(s.rows, s.nextId) && |list| == n && (n > 0 ==> list[0].hash == head)
    && forall i :: 0 <= i < n ==> list[i].createdAt == t
  }

  lemma FillOne(lib: Library, s: Store, path: string, text: string, t: int, n: nat, head: string)
    requires Filled(s, path, t, n, head) && n < MAX_VERSIONS_PER_FILE && NormalizePath(path) == Ok(path)
    requires lib.bytes(text) <= MAX_SNAPSHOT_BYTES && (n > 0 ==> head != lib.hash(text))
    ensures Filled(Snapshot(lib, s, path, text, None, t, t).0, path, t, n + 1, lib.hash(text))
  {
    hide Snapshot, NormalizePath;
    var list, row := Listing(s.rows, path), NewRow(lib, s, path, text, None, t);
    ListingFacts(s.rows, path, s.nextId);
    if n > 0 {
      assert list[0] in list;
      OrderedBelow(s.rows, s.nextId, list[0]);
    }
    assert Insert(row, list) == [row] + list;
    SnapInto(lib, s, s.nextId, path, text, t, list, [row] + list);
  }

  lemma FillNext(lib: Library, w: World, path: string, a: string, b: string, t: int, n: nat)
    requires Filled(w.store, path, t, n, lib.hash(ByTurns(a, b, n))) && n < MAX_VERSIONS_PER_FILE
    requires NormalizePath(path) == Ok(path) && lib.hash(a) != lib.hash(b)
    requires lib.bytes(a) <= MAX_SNAPSHOT_BYTES && lib.bytes(b) <= MAX_SNAPSHOT_BYTES
    ensures Filled(Step(lib, w, Snap(path, ByTurns(a, b, n + 1), None, t, t)).store, path, t, n + 1,
                   lib.hash(ByTurns(a, b, n + 1)))
  {
    hide Filled, Snapshot, NormalizePath;
    FillOne(lib, w.store, path, ByTurns(a, b, n + 1), t, n, lib.hash(ByTurns(a, b, n)));
  }

  lemma {:induction false} FillAll(lib: Library, path: string, a: string, b: string, t: int, n: nat)
    requires NormalizePath(path) == Ok(path) && lib.hash(a) != lib.hash(b) && n <= MAX_VERSIONS_PER_FILE
    requires lib.bytes(a) <= MAX_SNAPSHOT_BYTES && lib.bytes(b) <= MAX_SNAPSHOT_BYTES
    ensures Filled(Run(lib, START, Alternating(path, a, b, t, n)).store, path, t, n, lib.hash(ByTurns(a, b, n)))
  {
    hide Filled, NormalizePath, ByTurns, Step;
    if n == 0 {
      StartFilled(path, t, lib.hash(ByTurns(a, b, 0)));
    } else {
      var init := Alternating(path, a, b, t, n - 1);
      FillAll(lib, path, a, b, t, n - 1);
      RunOneMore(lib, START, init, Snap(path, ByTurns(a, b, n), None, t, t));
      FillNext(lib, Run(lib, START, init), path, a, b, t, n - 1);
    }
  }

  lemma RunOneMore(lib: Library, w: World, init: seq<Event>, last: Event)
    ensures Run(lib, w, init + [last]) == Step(lib, Run(lib, w, init), last)
  {
    hide Step;
    var all := init + [last];
    assert all[..|all| - 1] == init && all[|all| - 1] == last;
  }

  lemma StartFilled(path: string, t: int, head: string)
    ensures Filled(START.store, path, t, 0, head)
  {
  }

  /** Set the clock back when fifty versions stand, and the snapshot that is reported as taken
      has no row. */
  lemma ClockBackLoses(lib: Library, path: string, a: string, b: string)
    requires NormalizePath(path) == Ok(path) && lib.hash(a) != lib.hash(b)
    requires lib.bytes(a) <= MAX_SNAPSHOT_BYTES && lib.bytes(b) <= MAX_SNAPSHOT_BYTES
    ensures var s0 := Run(lib, START, Alternating(path, a, b, 20, MAX_VERSIONS_PER_FILE)).store;
            var (s1, r) := Snapshot(lib, s0, path, a, None, 10, 10);
            r.Ok? && r.value.Some? && r.value.value !in s1.rows
  {
    hide Inserted, NormalizePath;
    FillAll(lib, path, a, b, 20, MAX_VERSIONS_PER_FILE);
    var s0 := Run(lib, START, Alternating(path, a, b, 20, MAX_VERSIONS_PER_FILE)).store;
    var row := NewRow(lib, s0, path, a, None, 10);
    NewRowStays(s0, Inserted(s0, row, a, 10), row, a, 10);
  }

  /** Set it ahead by more than a week between the two readings of one snapshot, and that one has
      none either. */
  lemma ClockAheadLoses(lib: Library, path: string, text: string)
    requires NormalizePath(path) == Ok(path) && lib.bytes(text) <= MAX_SNAPSHOT_BYTES
    ensures var (s1, r) := Snapshot(lib, START.store, path, text, None, 0, MAX_AGE_SECS + 1);
            r.Ok? && r.value.Some? && r.value.value !in s1.rows
  {
    hide Inserted, NormalizePath;
    var row := NewRow(lib, START.store, path, text, None, 0);
    NewRowStays(START.store, Inserted(START.store, row, text, MAX_AGE_SECS + 1), row, text, MAX_AGE_SECS + 1);
  }

  // ----- history_prune -----

  lemma {:induction false} PathsCover(rows: seq<Row>)
    ensures forall r :: r in rows ==> r.path in Paths(rows)
    ensures rows != [] <==> Paths(rows) != []
  {
    if rows != [] {
      PathsCover(rows[..|rows| - 1]);
      assert rows == rows[..|rows| - 1] + [rows[|rows| - 1]];
    }
  }

  /** After a prune the blobs are those the rows name, except that a prune whose age limit
      leaves no row at all collects nothing. */
  lemma PruneCollectsIffRowsLeft(lib: Library, before: seq<Event>, now: int, clock: nat -> int, s0: Store, s1: Store)
    requires CollisionFree(lib) && s0 == Run(lib, START, before).store && s1 == PruneAll(s0, now, clock)
    ensures if exists r :: r in s0.rows && r.createdAt >= now - MAX_AGE_SECS
            then s1.blobs.Keys == LiveHashes(s1.rows)
            else s1.rows == [] && s1.blobs == s0.blobs
  {
    RunInv(lib, START, before);
    var taken := Run(lib, START, before).taken;
    var aged := AgedIds(s0.rows, now - MAX_AGE_SECS);
    var rows := Without(s0.rows, aged);
    WithoutOrdered(s0.rows, aged, s0.nextId);
    WithoutMembers(s0.rows, aged);
    FewerRowsInv(lib, s0, taken, rows);
    PathsCover(rows);
    PruneFirstInv(lib, s0.(rows := rows), taken, Paths(rows), clock, |Paths(rows)|);
    if r :| r in s0.rows && r.createdAt >= now - MAX_AGE_SECS {
      StillFresh(s0.rows, s0.nextId, now - MAX_AGE_SECS, r);
    } else {
      AllAged(s0.rows, rows, now - MAX_AGE_SECS);
    }
  }

  lemma StillFresh(rows: seq<Row>, nextId: nat, cutoff: int, r: Row)
    requires Ordered(rows, nextId) && r in rows && r.createdAt >= cutoff
    ensures r.id !in AgedIds(rows, cutoff)
  {
    if r.id in AgedIds(rows, cutoff) {
      var q :| q in rows && q.createdAt < cutoff && q.id == r.id;
      SameRow(rows, nextId, q, r);
    }
  }

  lemma AllAged(rows: seq<Row>, left: seq<Row>, cutoff: int)
    requires forall r :: r in rows ==> r.createdAt < cutoff
    requires left == Without(rows, AgedIds(rows, cutoff))
    ensures left == []
  {
    forall i | 0 <= i < |rows| ensures rows[i].id in AgedIds(rows, cutoff) {
      assert rows[i] in rows;
    }
    WithoutAll(rows, AgedIds(rows, cutoff));
  }

  /** What pruning one path does to the listings. */
  ghost predicate PrunedTo(s: Store, t: Store, path: string) {
    && t.nextId == s.nextId && Ordered(t.rows, s.nextId) && (forall r :: r in t.rows ==> r in s.rows)
    && |Listing(t.rows, path)| <= MAX_VERSIONS_PER_FILE
    && forall other :: other != path ==> Listing(t.rows, other) == Listing(s.rows, other)
  }

  lemma PruneStep(s: Store, path: string, now: int)
    requires Ordered(s.rows, s.nextId)
    ensures PrunedTo(s, PrunePath(s, path, now), path)
  {
    var cutoff := now - MAX_AGE_SECS;
    PruneOrdered(s.rows, path, cutoff, s.nextId);
    PruneKeepsNewest(s.rows, path, cutoff, s.nextId);
    forall other | other != path ensures Listing(PruneRows(s.rows, path, cutoff), other) == Listing(s.rows, other) {
      PruneLeavesOthers(s.rows, path, other, cutoff, s.nextId);
    }
  }

  /** The first `n` paths have been capped. */
  ghost predicate Capped(s: Store, t: Store, paths: seq<string>, n: nat) {
    && n <= |paths| && t.nextId == s.nextId && Ordered(t.rows, s.nextId) && (forall r :: r in t.rows ==> r in s.rows)
    && forall i :: 0 <= i < n ==> |Listing(t.rows, paths[i])| <= MAX_VERSIONS_PER_FILE
  }

  lemma CappedNext(s: Store, t: Store, u: Store, paths: seq<string>, n: nat)
    requires n < |paths| && Capped(s, t, paths, n) && PrunedTo(t, u, paths[n])
    ensures Capped(s, u, paths, n + 1)
  {
  }

  lemma PruneCaps(s: Store, t: Store, paths: seq<string>, n: nat, now: int)
    requires n < |paths| && Capped(s, t, paths, n)
    ensures Capped(s, PrunePath(t, paths[n], now), paths, n + 1)
  {
    PruneStep(t, paths[n], now);
    CappedNext(s, t, PrunePath(t, paths[n], now), paths, n);
  }

  lemma {:induction false} FirstCapped(s: Store, paths: seq<string>, clock: nat -> int, n: nat)
    requires n <= |paths| && Ordered(s.rows, s.nextId)
    ensures Capped(s, PruneFirst(s, paths, clock, n), paths, n)
  {
    hide PrunePath;
    if n > 0 {
      FirstCapped(s, paths, clock, n - 1);
      PruneCaps(s, PruneFirst(s, paths, clock, n - 1), paths, n - 1, clock(n - 1));
    }
  }

  /** And every path is down to fifty rows. */
  lemma PruneCapsEveryPath(s: Store, now: int, clock: nat -> int, path: string)
    requires Ordered(s.rows, s.nextId)
    ensures |Listing(PruneAll(s, now, clock).rows, path)| <= MAX_VERSIONS_PER_FILE
  {
    var aged := AgedIds(s.rows, now - MAX_AGE_SECS);
    var left := s.(rows := Without(s.rows, aged));
    WithoutOrdered(s.rows, aged, s.nextId);
    CapsEvery(left, clock, path);
  }

  lemma CapsEvery(left: Store, clock: nat -> int, path: string)
    requires Ordered(left.rows, left.nextId)
    ensures |Listing(PruneFirst(left, Paths(left.rows), clock, |Paths(left.rows)|).rows, path)| <= MAX_VERSIONS_PER_FILE
  {
    var paths := Paths(left.rows);
    FirstCapped(left, paths, clock, |paths|);
    var rows := PruneFirst(left, paths, clock, |paths|).rows;
    ListingFacts(rows, path, left.nextId);
    PathsCover(left.rows);
    var list := Listing(rows, path);
    if list != [] {
      assert list[0] in list;
      var i :| 0 <= i < |paths| && paths[i] == path;
    }
  }
}
