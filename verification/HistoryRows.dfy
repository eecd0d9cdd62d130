/** The local-history table: rows in the order they were inserted, listed newest first. */
module HistoryRows {
  const MAX_VERSIONS_PER_FILE := 50

  datatype Row = Row(id: nat, path: string, hash: string, createdAt: int, reason: string, byteLen: nat)

  /** `ORDER BY created_at DESC, id DESC`. */
  predicate Newer(a: Row, b: Row) {
    a.createdAt > b.createdAt || (a.createdAt == b.createdAt && a.id > b.id)
  }

  function Insert(r: Row, list: seq<Row>): seq<Row> {
    if list == [] || Newer(r, list[0]) then [r] + list else [list[0]] + Insert(r, list[1..])
  }

  /** The rows of one path, newest first. */
  function Listing(rows: seq<Row>, path: string): seq<Row> {
    if rows == [] then []
    else
      var older, last := Listing(rows[..|rows| - 1], path), rows[|rows| - 1];
      if last.path == path then Insert(last, older) else older
  }

  /** DELETE of the rows with these ids. */
  function Without(rows: seq<Row>, gone: set<nat>): seq<Row> {
    if rows == [] then []
    else
      var kept, last := Without(rows[..|rows| - 1], gone), rows[|rows| - 1];
      if last.id in gone then kept else kept + [last]
  }

  function IdsOf(rows: seq<Row>): set<nat> {
    set r | r in rows :: r.id
  }

  function OldIds(rows: seq<Row>, path: string, cutoff: int): set<nat> {
    set r | r in rows && r.path == path && r.createdAt < cutoff :: r.id
  }

  /** What one path's pruning leaves: nothing older than the cutoff, and the newest fifty. */
  function PruneRows(rows: seq<Row>, path: string, cutoff: int): seq<Row> {
    var young := Without(rows, OldIds(rows, path, cutoff));
    var list := Listing(young, path);
    if |list| > MAX_VERSIONS_PER_FILE then Without(young, IdsOf(list[MAX_VERSIONS_PER_FILE..])) else young
  }

  // ----- Deleting -----

  /** Ids are given out in increasing order. */
  ghost predicate Ordered(rows: seq<Row>, nextId: nat) {
    && (forall i :: 0 <= i < |rows| ==> rows[i].id < nextId)
    && (forall i, j :: 0 <= i < j < |rows| ==> rows[i].id < rows[j].id)
  }

  lemma {:induction false} WithoutMembers(rows: seq<Row>, gone: set<nat>)
    ensures forall r :: r in Without(rows, gone) <==> r in rows && r.id !in gone
  {
    if rows != [] {
      WithoutMembers(rows[..|rows| - 1], gone);
      assert rows == rows[..|rows| - 1] + [rows[|rows| - 1]];
    }
  }

  lemma OrderedSnoc(rows: seq<Row>, last: Row, nextId: nat)
    requires Ordered(rows, last.id) && last.id < nextId
    ensures Ordered(rows + [last], nextId)
  {
  }

  lemma OrderedInit(rows: seq<Row>, nextId: nat)
    requires Ordered(rows, nextId) && rows != []
    ensures Ordered(rows[..|rows| - 1], rows[|rows| - 1].id) && rows[|rows| - 1].id < nextId
  {
  }

  lemma OrderedMore(rows: seq<Row>, nextId: nat, more: nat)
    requires Ordered(rows, nextId) && nextId <= more
    ensures Ordered(rows, more)
  {
  }

  lemma {:induction false} WithoutOrdered(rows: seq<Row>, gone: set<nat>, nextId: nat)
    requires Ordered(rows, nextId)
    ensures Ordered(Without(rows, gone), nextId)
    decreases |rows|
  {
    if rows != [] {
      var init, last := rows[..|rows| - 1], rows[|rows| - 1];
      OrderedInit(rows, nextId);
      WithoutOrdered(init, gone, last.id);
      OrderedMore(Without(init, gone), last.id, nextId);
      OrderedSnoc(Without(init, gone), last, nextId);
    }
  }

  lemma {:induction false} WithoutTwice(rows: seq<Row>, a: set<nat>, b: set<nat>)
    ensures Without(Without(rows, a), b) == Without(rows, a + b)
  {
    if rows != [] {
      var init, last := rows[..|rows| - 1], rows[|rows| - 1];
      WithoutTwice(init, a, b);
      if last.id !in a {
        var kept := Without(init, a) + [last];
        assert kept[..|kept| - 1] == Without(init, a);
      }
    }
  }

  lemma {:induction false} WithoutNone(rows: seq<Row>, gone: set<nat>)
    requires forall i :: 0 <= i < |rows| ==> rows[i].id !in gone
    ensures Without(rows, gone) == rows
  {
    if rows != [] { WithoutNone(rows[..|rows| - 1], gone); }
  }

  lemma {:induction false} WithoutSplit(a: seq<Row>, b: seq<Row>, gone: set<nat>)
    ensures Without(a + b, gone) == Without(a, gone) + Without(b, gone)
    decreases |b|
  {
    if b == [] {
      assert a + b == a;
    } else {
      var all := a + b;
      assert all[..|all| - 1] == a + b[..|b| - 1];
      WithoutSplit(a, b[..|b| - 1], gone);
    }
  }

  lemma {:induction false} WithoutAll(rows: seq<Row>, gone: set<nat>)
    requires forall i :: 0 <= i < |rows| ==> rows[i].id in gone
    ensures Without(rows, gone) == []
  {
    if rows != [] { WithoutAll(rows[..|rows| - 1], gone); }
  }

  // ----- Listing -----

  ghost predicate Sorted(list: seq<Row>) {
    forall i, j :: 0 <= i < j < |list| ==> Newer(list[i], list[j])
  }

  lemma {:induction false} InsertMembers(r: Row, list: seq<Row>)
    ensures forall q :: q in Insert(r, list) <==> q == r || q in list
    decreases |list|
  {
    if !(list == [] || Newer(r, list[0])) {
      InsertMembers(r, list[1..]);
      assert list == [list[0]] + list[1..];
    }
  }

  lemma {:induction false} InsertSorted(r: Row, list: seq<Row>)
    requires Sorted(list) && forall q :: q in list ==> q.id != r.id
    ensures Sorted(Insert(r, list))
    decreases |list|
  {
    if !(list == [] || Newer(r, list[0])) {
      var rest := list[1..];
      assert forall q :: q in rest ==> q in list && Newer(list[0], q);
      InsertSorted(r, rest);
      InsertMembers(r, rest);
      var inserted := Insert(r, rest);
      assert Newer(list[0], r);
      forall i | 0 <= i < |inserted| ensures Newer(list[0], inserted[i]) { assert inserted[i] in inserted; }
    }
  }

  lemma {:induction false} ListingFacts(rows: seq<Row>, path: string, nextId: nat)
    requires Ordered(rows, nextId)
    ensures forall r :: r in Listing(rows, path) <==> r in rows && r.path == path
    ensures Sorted(Listing(rows, path))
  {
    if rows != [] {
      var init, last := rows[..|rows| - 1], rows[|rows| - 1];
      assert forall i :: 0 <= i < |init| ==> init[i] == rows[i];
      ListingFacts(init, path, nextId);
      assert rows == init + [last];
      if last.path == path {
        InsertMembers(last, Listing(init, path));
        InsertSorted(last, Listing(init, path));
      }
    }
  }

  lemma WithoutCons(r: Row, list: seq<Row>, gone: set<nat>)
    ensures Without([r] + list, gone) == (if r.id in gone then [] else [r]) + Without(list, gone)
  {
    WithoutSplit([r], list, gone);
    assert [r][..0] == [];
  }

  lemma WithoutHead(list: seq<Row>, gone: set<nat>, r: Row)
    requires list != [] && Newer(r, list[0]) && Sorted(list)
    ensures Without(list, gone) != [] ==> Newer(r, Without(list, gone)[0])
  {
    WithoutMembers(list, gone);
    var kept := Without(list, gone);
    if kept != [] {
      assert kept[0] in kept;
      var i :| 0 <= i < |list| && list[i] == kept[0];
      assert i > 0 ==> Newer(list[0], list[i]);
    }
  }

  lemma {:induction false} InsertWithout(r: Row, list: seq<Row>, gone: set<nat>)
    requires Sorted(list)
    ensures Without(Insert(r, list), gone) == if r.id in gone then Without(list, gone) else Insert(r, Without(list, gone))
    decreases |list|
  {
    if list == [] || Newer(r, list[0]) {
      WithoutCons(r, list, gone);
      if list != [] { WithoutHead(list, gone, r); }
    } else {
      InsertWithout(r, list[1..], gone);
      InsertWithoutPast(r, list[0], list[1..], list, gone);
    }
  }

  lemma InsertWithoutPast(r: Row, head: Row, rest: seq<Row>, list: seq<Row>, gone: set<nat>)
    requires list == [head] + rest && !Newer(r, head)
    requires Without(Insert(r, rest), gone) == if r.id in gone then Without(rest, gone) else Insert(r, Without(rest, gone))
    ensures Without(Insert(r, list), gone) == if r.id in gone then Without(list, gone) else Insert(r, Without(list, gone))
  {
    WithoutCons(head, rest, gone);
    WithoutCons(head, Insert(r, rest), gone);
    InsertPast(r, head, rest);
    InsertPast(r, head, Without(rest, gone));
    assert [] + Without(rest, gone) == Without(rest, gone);
    assert [] + Without(Insert(r, rest), gone) == Without(Insert(r, rest), gone);
  }

  lemma InsertPast(r: Row, head: Row, kept: seq<Row>)
    requires !Newer(r, head)
    ensures Insert(r, [head] + kept) == [head] + Insert(r, kept)
  {
    assert ([head] + kept)[1..] == kept;
  }

  /** Deleting rows deletes them from every listing and moves nothing. */
  lemma {:induction false} ListingWithout(rows: seq<Row>, path: string, gone: set<nat>, nextId: nat)
    requires Ordered(rows, nextId)
    ensures Listing(Without(rows, gone), path) == Without(Listing(rows, path), gone)
  {
    if rows != [] {
      var init, last := rows[..|rows| - 1], rows[|rows| - 1];
      assert Ordered(init, nextId);
      ListingWithout(init, path, gone, nextId);
      ListingFacts(init, path, nextId);
      if last.id !in gone {
        var kept := Without(init, gone) + [last];
        assert kept[..|kept| - 1] == Without(init, gone);
      }
      if last.path == path { InsertWithout(last, Listing(init, path), gone); }
    }
  }

  // ----- Pruning -----

  /** `kept` are the newest of `list`: a prefix of it, fresh, at most fifty, and no shorter
      than those three demand. */
  ghost predicate KeepsNewest(list: seq<Row>, kept: seq<Row>, cutoff: int) {
    && kept <= list && |kept| <= MAX_VERSIONS_PER_FILE
    && (forall i :: 0 <= i < |kept| ==> kept[i].createdAt >= cutoff)
    && (|kept| < |list| ==> |kept| == MAX_VERSIONS_PER_FILE || list[|kept|].createdAt < cutoff)
  }

  function FreshCount(list: seq<Row>, cutoff: int): (n: nat)
    ensures n <= |list| && (n < |list| ==> list[n].createdAt < cutoff)
    ensures forall i :: 0 <= i < n ==> list[i].createdAt >= cutoff
  {
    if list == [] || list[0].createdAt < cutoff then 0 else 1 + FreshCount(list[1..], cutoff)
  }

  lemma CutTail(list: seq<Row>, n: nat, gone: set<nat>)
    requires n <= |list|
    requires forall i :: 0 <= i < n ==> list[i].id !in gone
    requires forall i :: n <= i < |list| ==> list[i].id in gone
    ensures Without(list, gone) == list[..n]
  {
    assert list == list[..n] + list[n..];
    WithoutSplit(list[..n], list[n..], gone);
    WithoutNone(list[..n], gone);
    WithoutAll(list[n..], gone);
  }

  lemma SameRow(rows: seq<Row>, nextId: nat, a: Row, b: Row)
    requires Ordered(rows, nextId) && a in rows && b in rows && a.id == b.id
    ensures a == b
  {
  }

  lemma SamePlace(list: seq<Row>, i: nat, j: nat)
    requires Sorted(list) && i < |list| && j < |list| && list[i] == list[j]
    ensures i == j
  {
  }

  lemma AgedOut(rows: seq<Row>, path: string, cutoff: int, nextId: nat, r: Row)
    requires Ordered(rows, nextId) && r in rows && r.path == path
    ensures r.id in OldIds(rows, path, cutoff) <==> r.createdAt < cutoff
  {
    if r.id in OldIds(rows, path, cutoff) {
      var q :| q in rows && q.path == path && q.createdAt < cutoff && q.id == r.id;
      SameRow(rows, nextId, q, r);
    }
  }

  lemma AgedOutOfListing(rows: seq<Row>, path: string, cutoff: int, nextId: nat)
    requires Ordered(rows, nextId)
    ensures var list := Listing(rows, path);
            Without(list, OldIds(rows, path, cutoff)) == list[..FreshCount(list, cutoff)]
  {
    hide Listing, Without, OldIds;
    var list := Listing(rows, path);
    var n := FreshCount(list, cutoff);
    ListingFacts(rows, path, nextId);
    forall i | 0 <= i < |list| ensures list[i].id in OldIds(rows, path, cutoff) <==> n <= i {
      assert list[i] in list;
      AgedOut(rows, path, cutoff, nextId, list[i]);
      assert n < i ==> Newer(list[n], list[i]);
    }
    CutTail(list, n, OldIds(rows, path, cutoff));
  }

  lemma SurplusOutOfListing(rows: seq<Row>, path: string, n: nat, nextId: nat)
    requires Ordered(rows, nextId) && n <= |Listing(rows, path)|
    ensures var list := Listing(rows, path); Without(list, IdsOf(list[n..])) == list[..n]
  {
    var list := Listing(rows, path);
    ListingFacts(rows, path, nextId);
    forall i | 0 <= i < |list| ensures list[i].id in IdsOf(list[n..]) <==> n <= i {
      if n <= i { assert list[n..][i - n] == list[i]; }
      if list[i].id in IdsOf(list[n..]) {
        var r :| r in list[n..] && r.id == list[i].id;
        var j :| 0 <= j < |list| - n && list[n..][j] == r;
        assert list[i] in list && list[n + j] in list;
        SameRow(rows, nextId, list[i], list[n + j]);
        SamePlace(list, i, n + j);
      }
    }
    CutTail(list, n, IdsOf(list[n..]));
  }

  lemma OtherListingsStay(rows: seq<Row>, path: string, other: string, gone: set<nat>, nextId: nat)
    requires Ordered(rows, nextId) && path != other
    requires forall id :: id in gone ==> exists r :: r in rows && r.path == path && r.id == id
    ensures Listing(Without(rows, gone), other) == Listing(rows, other)
  {
    ListingWithout(rows, other, gone, nextId);
    ListingFacts(rows, other, nextId);
    var list := Listing(rows, other);
    forall i, id | 0 <= i < |list| && id in gone ensures list[i].id != id {
      assert list[i] in list;
      var q :| q in rows && q.path == path && q.id == id;
    }
    WithoutNone(list, gone);
  }

  lemma PruneOrdered(rows: seq<Row>, path: string, cutoff: int, nextId: nat)
    requires Ordered(rows, nextId)
    ensures Ordered(PruneRows(rows, path, cutoff), nextId)
    ensures forall r :: r in PruneRows(rows, path, cutoff) ==> r in rows
  {
    var young := Without(rows, OldIds(rows, path, cutoff));
    var list := Listing(young, path);
    WithoutOrdered(rows, OldIds(rows, path, cutoff), nextId);
    WithoutMembers(rows, OldIds(rows, path, cutoff));
    if |list| > MAX_VERSIONS_PER_FILE {
      WithoutOrdered(young, IdsOf(list[MAX_VERSIONS_PER_FILE..]), nextId);
      WithoutMembers(young, IdsOf(list[MAX_VERSIONS_PER_FILE..]));
    }
  }

  lemma CutsKeepNewest(list: seq<Row>, cutoff: int, young: seq<Row>, kept: seq<Row>)
    requires young == list[..FreshCount(list, cutoff)]
    requires kept == if |young| > MAX_VERSIONS_PER_FILE then young[..MAX_VERSIONS_PER_FILE] else young
    ensures KeepsNewest(list, kept, cutoff)
  {
    assert kept == list[..|kept|];
  }

  lemma PruneListing(rows: seq<Row>, path: string, cutoff: int, nextId: nat, young: seq<Row>)
    requires Ordered(rows, nextId) && young == Without(rows, OldIds(rows, path, cutoff))
    ensures var list := Listing(young, path);
            Listing(PruneRows(rows, path, cutoff), path)
            == if |list| > MAX_VERSIONS_PER_FILE then list[..MAX_VERSIONS_PER_FILE] else list
  {
    var list := Listing(young, path);
    if |list| > MAX_VERSIONS_PER_FILE {
      WithoutOrdered(rows, OldIds(rows, path, cutoff), nextId);
      ListingWithout(young, path, IdsOf(list[MAX_VERSIONS_PER_FILE..]), nextId);
      SurplusOutOfListing(young, path, MAX_VERSIONS_PER_FILE, nextId);
    }
  }

  /** Pruning a path keeps exactly its newest fresh fifty rows. */
  lemma PruneKeepsNewest(rows: seq<Row>, path: string, cutoff: int, nextId: nat)
    requires Ordered(rows, nextId)
    ensures KeepsNewest(Listing(rows, path), Listing(PruneRows(rows, path, cutoff), path), cutoff)
  {
    var young := Without(rows, OldIds(rows, path, cutoff));
    ListingWithout(rows, path, OldIds(rows, path, cutoff), nextId);
    AgedOutOfListing(rows, path, cutoff, nextId);
    PruneListing(rows, path, cutoff, nextId, young);
    CutsKeepNewest(Listing(rows, path), cutoff, Listing(young, path), Listing(PruneRows(rows, path, cutoff), path));
  }

  /** And touches no other path. */
  lemma PruneLeavesOthers(rows: seq<Row>, path: string, other: string, cutoff: int, nextId: nat)
    requires Ordered(rows, nextId) && path != other
    ensures Listing(PruneRows(rows, path, cutoff), other) == Listing(rows, other)
  {
    var aged := OldIds(rows, path, cutoff);
    var young := Without(rows, aged);
    var list := Listing(young, path);
    OtherListingsStay(rows, path, other, aged, nextId);
    WithoutOrdered(rows, aged, nextId);
    if |list| > MAX_VERSIONS_PER_FILE {
      var gone := IdsOf(list[MAX_VERSIONS_PER_FILE..]);
      ListingFacts(young, path, nextId);
      forall id | id in gone ensures exists r :: r in young && r.path == path && r.id == id {
        var r :| r in list[MAX_VERSIONS_PER_FILE..] && r.id == id;
        assert r in list;
      }
      OtherListingsStay(young, path, other, gone, nextId);
    }
  }
}
