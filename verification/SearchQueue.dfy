/** The bounded table searches: at most `limit` at once, the rest waiting in order,
    including when a search throws as it is started from another's release. */
module SearchQueue {
  /** `submitted`, `started` and `settled` are the searches so far, in order;
      `throws` tells which fetchers throw before returning a promise. */
  datatype Gate = Gate(limit: nat, throws: nat -> bool, active: int, queue: seq<nat>, running: set<nat>,
                       submitted: seq<nat>, started: seq<nat>, settled: seq<nat>)

  /** `start`: a synchronous throw releases the slot at once, before its own promise rejects. */
  function Start(g: Gate, id: nat): (r: Gate)
    ensures r.limit == g.limit && r.submitted == g.submitted && |r.queue| <= |g.queue|
    decreases |g.queue|, 1
  {
    var h := g.(active := g.active + 1, started := g.started + [id]);
    if g.throws(id) then
      var r := Release(h);
      r.(settled := r.settled + [id])
    else h.(running := h.running + {id})
  }

  function Release(g: Gate): (r: Gate)
    ensures r.limit == g.limit && r.submitted == g.submitted && |r.queue| <= |g.queue|
    decreases |g.queue|, 0
  {
    var h := g.(active := g.active - 1);
    if h.queue == [] then h else Start(h.(queue := h.queue[1..]), h.queue[0])
  }

  function Submit(g: Gate, id: nat): Gate {
    var h := g.(submitted := g.submitted + [id]);
    if h.active < h.limit then Start(h, id) else h.(queue := h.queue + [id])
  }

  function Settle(g: Gate, id: nat): Gate {
    Release(g.(running := g.running - {id}, settled := g.settled + [id]))
  }

  // ----- Invariant -----

  ghost predicate Distinct(s: seq<nat>) {
    forall i, j :: 0 <= i < j < |s| ==> s[i] != s[j]
  }

  /** Every started search is running, settled, or among those `owed` a rejection, once. */
  ghost predicate Accounted(g: Gate, owed: multiset<nat>) {
    multiset(g.settled) + multiset(g.running) + owed == multiset(g.started)
  }

  /** Slots match the running searches, starts follow submissions in order, and nothing
      waits while a slot is free. */
  ghost predicate Settled(g: Gate, owed: multiset<nat>) {
    && g.limit >= 1 && g.active == |g.running| <= g.limit
    && g.started + g.queue == g.submitted && Distinct(g.submitted)
    && (g.queue != [] ==> g.active == g.limit)
    && Accounted(g, owed)
  }

  ghost predicate Inv(g: Gate) {
    Settled(g, multiset{})
  }

  /** A slot is free for `id`, the next in line. */
  ghost predicate FreeFor(g: Gate, id: nat, owed: multiset<nat>) {
    && g.limit >= 1 && g.active == |g.running| < g.limit
    && g.started + [id] + g.queue == g.submitted && Distinct(g.submitted)
    && (g.queue != [] ==> g.active == g.limit - 1)
    && Accounted(g, owed)
  }

  /** One slot is still counted for a search that is no longer running. */
  ghost predicate Releasing(g: Gate, owed: multiset<nat>) {
    && g.limit >= 1 && g.active - 1 == |g.running| < g.limit
    && g.started + g.queue == g.submitted && Distinct(g.submitted)
    && (g.queue != [] ==> g.active == g.limit)
    && Accounted(g, owed)
  }

  lemma NotStartedYet(g: Gate, id: nat, owed: multiset<nat>)
    requires FreeFor(g, id, owed)
    ensures id !in g.running && multiset(g.started + [id]) == multiset(g.started) + multiset{id}
  {
    forall i | 0 <= i < |g.started| ensures g.started[i] != id {
      assert g.submitted[i] == g.started[i] && g.submitted[|g.started|] == id;
    }
    assert id !in multiset(g.started);
  }

  lemma {:induction false} StartSettles(g: Gate, id: nat, owed: multiset<nat>)
    requires FreeFor(g, id, owed)
    ensures Settled(Start(g, id), owed)
    decreases |g.queue|, 1
  {
    hide Release;
    var h := g.(active := g.active + 1, started := g.started + [id]);
    NotStartedYet(g, id, owed);
    if g.throws(id) {
      ReleaseSettles(h, owed + multiset{id});
      var r := Release(h);
      assert multiset(r.settled + [id]) == multiset(r.settled) + multiset{id};
    } else {
      assert multiset(g.running + {id}) == multiset(g.running) + multiset{id};
    }
  }

  lemma {:induction false} ReleaseSettles(g: Gate, owed: multiset<nat>)
    requires Releasing(g, owed)
    ensures Settled(Release(g), owed)
    decreases |g.queue|, 0
  {
    if g.queue != [] {
      var h := g.(active := g.active - 1, queue := g.queue[1..]);
      assert h.started + [g.queue[0]] + h.queue == g.submitted;
      StartSettles(h, g.queue[0], owed);
    }
  }

  lemma SubmitInv(g: Gate, id: nat)
    requires Inv(g) && id !in g.submitted
    ensures Inv(Submit(g, id))
  {
    var h := g.(submitted := g.submitted + [id]);
    if g.active < g.limit {
      StartSettles(h, id, multiset{});
    } else {
      assert g.started + (g.queue + [id]) == g.submitted + [id];
    }
  }

  lemma SettleInv(g: Gate, id: nat)
    requires Inv(g) && id in g.running
    ensures Inv(Settle(g, id))
  {
    var h := g.(running := g.running - {id}, settled := g.settled + [id]);
    assert multiset(h.running) + multiset{id} == multiset(g.running);
    assert multiset(h.settled) == multiset(g.settled) + multiset{id};
    ReleaseSettles(h, multiset{});
  }

  // ----- Whole runs -----

  datatype Act = Search(id: nat) | Done(id: nat)

  ghost predicate Allowed(g: Gate, run: seq<Act>)
    decreases |run|
  {
    run == [] ||
    match run[0]
    case Search(id) => id !in g.submitted && Allowed(Submit(g, id), run[1..])
    case Done(id) => id in g.running && Allowed(Settle(g, id), run[1..])
  }

  ghost function Run(g: Gate, run: seq<Act>): Gate
    requires Allowed(g, run)
    decreases |run|
  {
    if run == [] then g
    else match run[0]
         case Search(id) => Run(Submit(g, id), run[1..])
         case Done(id) => Run(Settle(g, id), run[1..])
  }

  lemma {:induction false} RunInv(g: Gate, run: seq<Act>)
    requires Inv(g) && Allowed(g, run)
    ensures Inv(Run(g, run))
    decreases |run|
  {
    if run != [] {
      match run[0]
      case Search(id) => SubmitInv(g, id); RunInv(Submit(g, id), run[1..]);
      case Done(id) => SettleInv(g, id); RunInv(Settle(g, id), run[1..]);
    }
  }

  function Idle(limit: nat, throws: nat -> bool): Gate {
    Gate(limit, throws, 0, [], {}, [], [], [])
  }

  /** Over any run, whichever fetchers throw: never more than `limit` active, searches start in
      the order submitted, none waits while a slot is free, and each settles at most once,
      all of them once nothing runs. */
  lemma BoundedFifoOnce(limit: nat, throws: nat -> bool, run: seq<Act>)
    requires limit >= 1 && Allowed(Idle(limit, throws), run)
    ensures var g := Run(Idle(limit, throws), run);
            && g.active == |g.running| <= g.limit
            && g.started <= g.submitted
            && (g.queue != [] ==> g.active == g.limit)
            && (forall id :: multiset(g.settled)[id] <= 1)
            && (forall id :: id in g.settled ==> id in g.started && id !in g.running)
            && (g.running == {} ==> multiset(g.settled) == multiset(g.submitted))
  {
    RunInv(Idle(limit, throws), run);
    var g := Run(Idle(limit, throws), run);
    assert g.submitted[..|g.started|] == g.started;
    forall id ensures multiset(g.settled)[id] + multiset(g.running)[id] <= 1 {
      DistinctOnce(g.started, id);
    }
    if g.running == {} {
      assert g.queue == [];
      assert g.started == g.submitted;
    }
    forall id | id in g.settled ensures id in g.started && id !in g.running {
      assert id in multiset(g.settled);
      assert id in multiset(g.started);
    }
    RunKeepsLimit(Idle(limit, throws), run);
  }

  lemma {:induction false} RunKeepsLimit(g: Gate, run: seq<Act>)
    requires Allowed(g, run)
    ensures Run(g, run).limit == g.limit
    decreases |run|
  {
    if run != [] {
      match run[0]
      case Search(id) => RunKeepsLimit(Submit(g, id), run[1..]);
      case Done(id) => RunKeepsLimit(Settle(g, id), run[1..]);
    }
  }

  lemma {:induction false} DistinctOnce(s: seq<nat>, id: nat)
    requires Distinct(s)
    ensures multiset(s)[id] <= 1
  {
    if s != [] {
      var t, x := s[..|s| - 1], s[|s| - 1];
      assert s == t + [x];
      DistinctOnce(t, id);
      if x == id {
        assert id !in t;
        assert id !in multiset(t);
      }
    }
  }

  // ----- The object -----

  class SearchGate {
    const searchConcurrency: nat
    const throws: nat -> bool
    var activeSearches: int
    var searchQueue: seq<nat>
    ghost var running: set<nat>
    ghost var submitted: seq<nat>
    ghost var started: seq<nat>
    ghost var settled: seq<nat>

    ghost function State(): Gate
      reads this
    {
      Gate(searchConcurrency, throws, activeSearches, searchQueue, running, submitted, started, settled)
    }

    /** A requested concurrency below one is raised to one. */
    constructor (requested: int, throws: nat -> bool)
      ensures Inv(State()) && State() == Idle(if requested < 1 then 1 else requested, throws)
    {
      searchConcurrency := if requested < 1 then 1 else requested;
      this.throws := throws;
      activeSearches, searchQueue := 0, [];
      running, submitted, started, settled := {}, [], [], [];
    }

    method StartSearch(id: nat)
      modifies this
      ensures State() == Start(old(State()), id)
      decreases |searchQueue|, 1
    {
      activeSearches := activeSearches + 1;
      started := started + [id];
      if throws(id) {
        ReleaseSlot();
        settled := settled + [id];
      } else {
        running := running + {id};
      }
    }

    method ReleaseSlot()
      modifies this
      ensures State() == Release(old(State()))
      decreases |searchQueue|, 0
    {
      activeSearches := activeSearches - 1;
      if searchQueue != [] {
        var next := searchQueue[0];
        searchQueue := searchQueue[1..];
        StartSearch(next);
      }
    }

    method RunBoundedSearch(id: nat)
      requires Inv(State()) && id !in submitted
      modifies this
      ensures State() == Submit(old(State()), id) && Inv(State())
    {
      SubmitInv(State(), id);
      submitted := submitted + [id];
      if activeSearches < searchConcurrency {
        StartSearch(id);
      } else {
        searchQueue := searchQueue + [id];
      }
    }

    method Finished(id: nat)
      requires Inv(State()) && id in running
      modifies this
      ensures State() == Settle(old(State()), id) && Inv(State())
    {
      SettleInv(State(), id);
      running := running - {id};
      settled := settled + [id];
      ReleaseSlot();
    }
  }
}
