/** Freshness of the metadata cache in every interleaving of fetches, their
    callbacks and invalidations. */
module CacheFreshness {
  import opened MetadataKeys
  import opened MetadataCache
  import opened Options

  datatype Phase = Pending | Resolved | Failed | Done

  /** `begun` counts the invalidations made before the fetch; `existing` is the expired entry
      it may fall back to, which fetch `source` had stored. */
  datatype Fetch<V> = Fetch(
    key: string, begun: nat, existing: Option<Entry<V>>, source: Option<nat>, value: Option<V>, phase: Phase)

  /** The cache with its whole past: all fetches and invalidations in order, and which
      fetch each stored entry came from. */
  datatype World<V> = World(c: Cache<V>, fetches: seq<Fetch<V>>, wipes: seq<Target>, stored: map<string, nat>)

  datatype Event<V> =
    | Ask(key: string, now: int)
    | Resolve(p: nat, value: V, now: int)
    | Fail(p: nat)
    | Settle(p: nat)
    | Wipe(target: Target)

  ghost predicate Enabled<V>(w: World<V>, e: Event<V>) {
    match e
    case Ask(_, _) => true
    case Resolve(p, _, _) => p < |w.fetches| && w.fetches[p].phase == Pending
    case Fail(p) => p < |w.fetches| && w.fetches[p].phase == Pending
    case Settle(p) => p < |w.fetches| && (w.fetches[p].phase == Resolved || w.fetches[p].phase == Failed)
    case Wipe(_) => true
  }

  ghost function Step<V>(o: Owner, ttl: int, w: World<V>, e: Event<V>): World<V>
    requires Enabled(w, e)
  {
    match e
    case Ask(key, now) =>
      if Lookup(w.c, key, now) != Began then w
      else
        var source := if key in w.stored then Some(w.stored[key]) else None;
        World(Begin(w.c, key, |w.fetches|),
              w.fetches + [Fetch(key, |w.wipes|, Existing(w.c, key), source, None, Pending)], w.wipes, w.stored)
    case Resolve(p, value, now) =>
      var key := w.fetches[p].key;
      World(Fulfil(w.c, key, p, value, now, ttl),
            w.fetches[p := w.fetches[p].(phase := Resolved, value := Some(value))], w.wipes,
            if Registered(w.c, key, p) then w.stored[key := p] else w.stored)
    case Fail(p) => w.(fetches := w.fetches[p := w.fetches[p].(phase := Failed)])
    case Settle(p) =>
      w.(c := Finish(w.c, w.fetches[p].key, p), fetches := w.fetches[p := w.fetches[p].(phase := Done)])
    case Wipe(t) =>
      var c := Invalidated(o, w.c, t);
      World(c, w.fetches, w.wipes + [t], map k | k in w.stored && k in c.entries :: w.stored[k])
  }

  /** Fetch `p` was for `key` and began after the last invalidation covering it. */
  ghost predicate Fresh<V>(o: Owner, w: World<V>, p: nat, key: string) {
    && p < |w.fetches| && w.fetches[p].key == key
    && forall j :: w.fetches[p].begun <= j < |w.wipes| ==> !EntryScope(o, w.wipes[j], key)
  }

  ghost predicate StoredFresh<V>(o: Owner, w: World<V>) {
    && w.stored.Keys == w.c.entries.Keys
    && forall k :: k in w.stored ==>
         Fresh(o, w, w.stored[k], k) && w.fetches[w.stored[k]].value == Some(w.c.entries[k].value)
  }

  /** The registered fetch of a key is unfinished, fresh and the newest for it. */
  ghost predicate Owns<V>(o: Owner, w: World<V>, p: nat, key: string) {
    && Fresh(o, w, p, key) && w.fetches[p].phase != Done
    && (forall q :: p < q < |w.fetches| ==> w.fetches[q].key != key)
    && (key in w.stored ==> w.stored[key] <= p)
  }

  ghost predicate FlightsFresh<V>(o: Owner, w: World<V>) {
    forall k :: k in w.c.inFlight ==> Owns(o, w, w.c.inFlight[k], k)
  }

  /** What a registered fetch would fall back to is fresh as well. */
  ghost predicate FallbacksFresh<V>(o: Owner, w: World<V>) {
    forall k :: k in w.c.inFlight && w.c.inFlight[k] < |w.fetches| && w.fetches[w.c.inFlight[k]].existing.Some? ==>
      var f := w.fetches[w.c.inFlight[k]];
      f.source.Some? && Fresh(o, w, f.source.value, k) && w.fetches[f.source.value].value == Some(f.existing.value.value)
  }

  ghost predicate ValuesStay<V>(w: World<V>) {
    && (forall p :: 0 <= p < |w.fetches| ==> w.fetches[p].begun <= |w.wipes|)
    && (forall p :: 0 <= p < |w.fetches| && w.fetches[p].value.Some? ==> w.fetches[p].phase != Pending)
  }

  ghost predicate Inv<V>(o: Owner, w: World<V>) {
    StoredFresh(o, w) && FlightsFresh(o, w) && FallbacksFresh(o, w) && ValuesStay(w)
  }

  ghost function Empty<V>(): World<V> {
    World(Cache(map[], map[]), [], [], map[])
  }

  /** No invalidation in between, and every earlier fetch kept what is known of it. */
  ghost predicate SamePast<V>(w: World<V>, v: World<V>) {
    && v.wipes == w.wipes && |w.fetches| <= |v.fetches|
    && forall p :: 0 <= p < |w.fetches| ==> SameFetch(w.fetches[p], v.fetches[p])
  }

  ghost predicate SameFetch<V>(f: Fetch<V>, g: Fetch<V>) {
    && g == Fetch(f.key, f.begun, f.existing, f.source, g.value, g.phase)
    && (f.value.Some? ==> g.value == f.value)
  }

  lemma FreshKept<V>(o: Owner, w: World<V>, v: World<V>, p: nat, k: string)
    requires SamePast(w, v) && Fresh(o, w, p, k)
    ensures Fresh(o, v, p, k) && SameFetch(w.fetches[p], v.fetches[p])
  {
  }

  lemma StoredKept<V>(o: Owner, w: World<V>, v: World<V>)
    requires SamePast(w, v) && StoredFresh(o, w) && v.stored == w.stored && v.c.entries == w.c.entries
    ensures StoredFresh(o, v)
  {
    forall k | k in v.stored
      ensures Fresh(o, v, v.stored[k], k) && v.fetches[v.stored[k]].value == Some(v.c.entries[k].value)
    {
      FreshKept(o, w, v, w.stored[k], k);
    }
  }

  lemma FallbackKept<V>(o: Owner, w: World<V>, v: World<V>, k: string)
    requires SamePast(w, v) && FallbacksFresh(o, w)
    requires k in w.c.inFlight && k in v.c.inFlight && v.c.inFlight[k] == w.c.inFlight[k] < |w.fetches|
    ensures v.fetches[v.c.inFlight[k]].existing.Some? ==>
              var f := v.fetches[v.c.inFlight[k]];
              f.source.Some? && Fresh(o, v, f.source.value, k) && v.fetches[f.source.value].value == Some(f.existing.value.value)
  {
    var f := w.fetches[w.c.inFlight[k]];
    if f.existing.Some? { FreshKept(o, w, v, f.source.value, k); }
  }

  /** Steps that begin nothing: the registered fetches are among those before. */
  lemma FlightsKept<V>(o: Owner, w: World<V>, v: World<V>)
    requires Inv(o, w) && SamePast(w, v) && |v.fetches| == |w.fetches|
    requires forall k :: k in v.c.inFlight ==> k in w.c.inFlight && v.c.inFlight[k] == w.c.inFlight[k]
    requires forall k :: k in v.c.inFlight && v.c.inFlight[k] < |v.fetches| ==> v.fetches[v.c.inFlight[k]].phase != Done
    requires forall k :: k in v.c.inFlight && k in v.stored ==> v.stored[k] <= v.c.inFlight[k]
    ensures FlightsFresh(o, v) && FallbacksFresh(o, v)
  {
    forall k | k in v.c.inFlight ensures Owns(o, v, v.c.inFlight[k], k) {
      assert Owns(o, w, w.c.inFlight[k], k);
      FreshKept(o, w, v, w.c.inFlight[k], k);
    }
    forall k | k in v.c.inFlight && v.fetches[v.c.inFlight[k]].existing.Some?
      ensures var f := v.fetches[v.c.inFlight[k]];
              f.source.Some? && Fresh(o, v, f.source.value, k) && v.fetches[f.source.value].value == Some(f.existing.value.value)
    {
      assert Owns(o, w, w.c.inFlight[k], k);
      FallbackKept(o, w, v, k);
    }
  }

  lemma AskInv<V>(o: Owner, ttl: int, w: World<V>, key: string, now: int)
    requires Inv(o, w)
    ensures Inv(o, Step(o, ttl, w, Ask(key, now)))
  {
    if Lookup(w.c, key, now) == Began {
      var v := Step(o, ttl, w, Ask(key, now));
      assert SamePast(w, v);
      StoredKept(o, w, v);
      var n := |w.fetches|;
      assert Owns(o, v, n, key);
      if key in w.stored { FreshKept(o, w, v, w.stored[key], key); }
      forall k | k in v.c.inFlight && k != key ensures Owns(o, v, v.c.inFlight[k], k) {
        assert Owns(o, w, w.c.inFlight[k], k);
        FreshKept(o, w, v, w.c.inFlight[k], k);
        FallbackKept(o, w, v, k);
      }
      AskFallbacks(o, w, v, key);
    }
  }

  lemma AskFallbacks<V>(o: Owner, w: World<V>, v: World<V>, key: string)
    requires Inv(o, w) && SamePast(w, v) && v.c.inFlight == w.c.inFlight[key := |w.fetches|] && |v.fetches| == |w.fetches| + 1
    requires v.fetches[|w.fetches|]
          == Fetch(key, |w.wipes|, Existing(w.c, key), if key in w.stored then Some(w.stored[key]) else None, None, Pending)
    ensures FallbacksFresh(o, v)
  {
    forall k | k in v.c.inFlight && v.fetches[v.c.inFlight[k]].existing.Some?
      ensures var f := v.fetches[v.c.inFlight[k]];
              f.source.Some? && Fresh(o, v, f.source.value, k) && v.fetches[f.source.value].value == Some(f.existing.value.value)
    {
      if k == key {
        FreshKept(o, w, v, w.stored[key], key);
      } else {
        assert Owns(o, w, w.c.inFlight[k], k);
        FallbackKept(o, w, v, k);
      }
    }
  }

  lemma ResolveInv<V>(o: Owner, ttl: int, w: World<V>, p: nat, value: V, now: int)
    requires Inv(o, w) && Enabled(w, Resolve(p, value, now))
    ensures Inv(o, Step(o, ttl, w, Resolve(p, value, now)))
  {
    var v, key := Step(o, ttl, w, Resolve(p, value, now)), w.fetches[p].key;
    assert SamePast(w, v);
    if Registered(w.c, key, p) { assert Owns(o, w, p, key); }
    forall k | k in v.stored
      ensures Fresh(o, v, v.stored[k], k) && v.fetches[v.stored[k]].value == Some(v.c.entries[k].value)
    {
      if k != key || !Registered(w.c, key, p) { FreshKept(o, w, v, w.stored[k], k); }
      else { FreshKept(o, w, v, p, key); }
    }
    forall k | k in v.c.inFlight
      ensures (v.c.inFlight[k] < |v.fetches| ==> v.fetches[v.c.inFlight[k]].phase != Done)
           && (k in v.stored ==> v.stored[k] <= v.c.inFlight[k])
    {
      assert Owns(o, w, w.c.inFlight[k], k);
    }
    FlightsKept(o, w, v);
  }

  lemma FailInv<V>(o: Owner, ttl: int, w: World<V>, p: nat)
    requires Inv(o, w) && Enabled(w, Fail(p))
    ensures Inv(o, Step(o, ttl, w, Fail(p)))
  {
    var v := Step(o, ttl, w, Fail(p));
    assert SamePast(w, v);
    StoredKept(o, w, v);
    forall k | k in v.c.inFlight
      ensures (v.c.inFlight[k] < |v.fetches| ==> v.fetches[v.c.inFlight[k]].phase != Done)
           && (k in v.stored ==> v.stored[k] <= v.c.inFlight[k])
    {
      assert Owns(o, w, w.c.inFlight[k], k);
    }
    FlightsKept(o, w, v);
  }

  lemma SettleInv<V>(o: Owner, ttl: int, w: World<V>, p: nat)
    requires Inv(o, w) && Enabled(w, Settle(p))
    ensures Inv(o, Step(o, ttl, w, Settle(p)))
  {
    var v := Step(o, ttl, w, Settle(p));
    assert SamePast(w, v);
    StoredKept(o, w, v);
    forall k | k in v.c.inFlight
      ensures (v.c.inFlight[k] < |v.fetches| ==> v.fetches[v.c.inFlight[k]].phase != Done)
           && (k in v.stored ==> v.stored[k] <= v.c.inFlight[k])
    {
      assert Owns(o, w, w.c.inFlight[k], k);
    }
    FlightsKept(o, w, v);
  }

  lemma WipeInv<V>(o: Owner, ttl: int, w: World<V>, t: Target)
    requires Inv(o, w)
    ensures Inv(o, Step(o, ttl, w, Wipe(t)))
  {
    var v := Step(o, ttl, w, Wipe(t));
    assert forall q, k :: Fresh(o, w, q, k) && !EntryScope(o, t, k) ==> Fresh(o, v, q, k);
    forall k | k in v.c.inFlight ensures Owns(o, v, v.c.inFlight[k], k) && !EntryScope(o, t, k) {
      if EntryScope(o, t, k) { FlightContainsEntry(o, t, k); }
      assert Owns(o, w, w.c.inFlight[k], k);
    }
  }

  lemma StepInv<V>(o: Owner, ttl: int, w: World<V>, e: Event<V>)
    requires Inv(o, w) && Enabled(w, e)
    ensures Inv(o, Step(o, ttl, w, e))
  {
    match e
    case Ask(key, now) => AskInv(o, ttl, w, key, now);
    case Resolve(p, value, now) => ResolveInv(o, ttl, w, p, value, now);
    case Fail(p) => FailInv(o, ttl, w, p);
    case Settle(p) => SettleInv(o, ttl, w, p);
    case Wipe(t) => WipeInv(o, ttl, w, t);
  }

  // ----- Whole runs -----

  ghost predicate Allowed<V>(o: Owner, ttl: int, w: World<V>, run: seq<Event<V>>)
    decreases |run|
  {
    run == [] || (Enabled(w, run[0]) && Allowed(o, ttl, Step(o, ttl, w, run[0]), run[1..]))
  }

  ghost function Run<V>(o: Owner, ttl: int, w: World<V>, run: seq<Event<V>>): World<V>
    requires Allowed(o, ttl, w, run)
    decreases |run|
  {
    if run == [] then w else Run(o, ttl, Step(o, ttl, w, run[0]), run[1..])
  }

  lemma {:induction false} RunInv<V>(o: Owner, ttl: int, w: World<V>, run: seq<Event<V>>)
    requires Inv(o, w) && Allowed(o, ttl, w, run)
    ensures Inv(o, Run(o, ttl, w, run))
    decreases |run|
  {
    if run != [] {
      StepInv(o, ttl, w, run[0]);
      RunInv(o, ttl, Step(o, ttl, w, run[0]), run[1..]);
    }
  }

  /** Whatever `cached` serves from the cache was fetched after the last invalidation of its key. */
  lemma ServedIsFresh<V>(o: Owner, ttl: int, run: seq<Event<V>>, key: string, now: int)
    requires Allowed(o, ttl, Empty(), run)
    ensures var w := Run(o, ttl, Empty(), run);
            Lookup(w.c, key, now).Hit? ==>
              && key in w.stored && Fresh(o, w, w.stored[key], key)
              && w.fetches[w.stored[key]].value == Some(Lookup(w.c, key, now).value)
              && now < w.c.entries[key].expiresAt
  {
    RunInv(o, ttl, Empty(), run);
  }

  /** The stale-if-error value is expired, never invalidated. */
  lemma FallbackIsFresh<V>(o: Owner, ttl: int, run: seq<Event<V>>, p: nat)
    requires Allowed(o, ttl, Empty(), run) && p < |Run(o, ttl, Empty(), run).fetches|
    ensures var w := Run(o, ttl, Empty(), run); var f := w.fetches[p];
            Fallback(w.c, f.key, p, f.existing).Some? ==>
              f.source.Some? && Fresh(o, w, f.source.value, f.key)
              && w.fetches[f.source.value].value == Fallback(w.c, f.key, p, f.existing)
  {
    RunInv(o, ttl, Empty(), run);
  }

  lemma StoredGrows<V>(o: Owner, ttl: int, w: World<V>, e: Event<V>, key: string)
    requires Inv(o, w) && Enabled(w, e)
    ensures var v := Step(o, ttl, w, e);
            key in w.stored && key in v.stored ==> w.stored[key] <= v.stored[key]
  {
    if e.Resolve? && Registered(w.c, key, e.p) { assert Owns(o, w, e.p, key); }
  }

  lemma FlightStays<V>(o: Owner, ttl: int, w: World<V>, e: Event<V>, key: string)
    requires Enabled(w, e)
    ensures var v := Step(o, ttl, w, e);
            key in w.c.inFlight && key in v.c.inFlight ==> w.c.inFlight[key] == v.c.inFlight[key]
  {
  }

  /** A stored value never gives way to an older fetch's, a registered fetch is never displaced
      by another, and a stored value is never newer than the registered fetch. */
  lemma NewerNeverLosesToOlder<V>(o: Owner, ttl: int, w: World<V>, e: Event<V>, key: string)
    requires Inv(o, w) && Enabled(w, e)
    ensures var v := Step(o, ttl, w, e);
            && (key in w.stored && key in v.stored ==> w.stored[key] <= v.stored[key])
            && (key in w.c.inFlight && key in v.c.inFlight ==> w.c.inFlight[key] == v.c.inFlight[key])
            && (key in v.stored && key in v.c.inFlight ==> v.stored[key] <= v.c.inFlight[key])
  {
    StoredGrows(o, ttl, w, e, key);
    FlightStays(o, ttl, w, e, key);
    StepInv(o, ttl, w, e);
    var v := Step(o, ttl, w, e);
    if key in v.c.inFlight { assert Owns(o, v, v.c.inFlight[key], key); }
  }

  /** Once an invalidation has detached a fetch, none of its callbacks touches the cache. */
  lemma DetachedStaysInert<V>(o: Owner, ttl: int, w: World<V>, e: Event<V>, p: nat)
    requires Inv(o, w) && Enabled(w, e) && p < |w.fetches| && !Registered(w.c, w.fetches[p].key, p)
    ensures var v := Step(o, ttl, w, e);
            && v.fetches[p].key == w.fetches[p].key && !Registered(v.c, w.fetches[p].key, p)
            && (e == Fail(p) || e == Settle(p) || (e.Resolve? && e.p == p) ==> v.c == w.c && v.stored == w.stored)
  {
  }
}
