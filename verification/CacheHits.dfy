/** When the metadata cache answers by itself: for how long a value is served, which fetch a second
    question joins, and when an expired value is given instead of an error. */
module CacheHits {
  import opened MetadataKeys
  import opened MetadataCache
  import opened CacheFreshness
  import opened Options

  // ----- Runs -----

  lemma {:induction false} RunBoth<V>(o: Owner, ttl: int, w: World<V>, a: seq<Event<V>>, b: seq<Event<V>>)
    requires Allowed(o, ttl, w, a) && Allowed(o, ttl, Run(o, ttl, w, a), b)
    ensures Allowed(o, ttl, w, a + b) && Run(o, ttl, w, a + b) == Run(o, ttl, Run(o, ttl, w, a), b)
    decreases |a|
  {
    if a == [] {
      assert a + b == b;
    } else {
      assert (a + b)[0] == a[0] && (a + b)[1..] == a[1..] + b;
      RunBoth(o, ttl, Step(o, ttl, w, a[0]), a[1..], b);
    }
  }

  // ----- The fetch of a key -----

  /** Fetch `p` neither settles nor is detached by an invalidation. */
  ghost predicate Unsettled<V>(o: Owner, run: seq<Event<V>>, key: string, p: nat) {
    forall i :: 0 <= i < |run| ==> run[i] != Settle(p) && !(run[i].Wipe? && FlightScope(o, run[i].target, key))
  }

  lemma RegistrationStays<V>(o: Owner, ttl: int, w: World<V>, e: Event<V>, key: string, p: nat)
    requires Enabled(w, e) && Registered(w.c, key, p) && p < |w.fetches|
    requires e != Settle(p) && !(e.Wipe? && FlightScope(o, e.target, key))
    ensures var v := Step(o, ttl, w, e);
            Registered(v.c, key, p) && p < |v.fetches| && v.fetches[p].existing == w.fetches[p].existing
            && v.fetches[p].key == w.fetches[p].key
  {
  }

  lemma {:induction false} RegisteredAll<V>(o: Owner, ttl: int, w: World<V>, run: seq<Event<V>>, key: string, p: nat)
    requires Allowed(o, ttl, w, run) && Registered(w.c, key, p) && p < |w.fetches| && Unsettled(o, run, key, p)
    ensures var v := Run(o, ttl, w, run);
            Registered(v.c, key, p) && p < |v.fetches| && v.fetches[p].existing == w.fetches[p].existing
            && v.fetches[p].key == w.fetches[p].key
    decreases |run|
  {
    if run != [] {
      assert run[0] != Settle(p) && !(run[0].Wipe? && FlightScope(o, run[0].target, key));
      RegistrationStays(o, ttl, w, run[0], key, p);
      RegisteredAll(o, ttl, Step(o, ttl, w, run[0]), run[1..], key, p);
    }
  }

  /** While the fetch a question began is neither settled nor detached, no second fetch of the
      key begins: every question is answered by a live value or joins that one. */
  lemma QuestionsJoin<V>(o: Owner, ttl: int, w: World<V>, key: string, asked: int, run: seq<Event<V>>, now: int)
    requires Lookup(w.c, key, asked) == Began
    requires var v := Step(o, ttl, w, Ask(key, asked)); Allowed(o, ttl, v, run) && Unsettled(o, run, key, |w.fetches|)
    ensures var v := Run(o, ttl, Step(o, ttl, w, Ask(key, asked)), run);
            Lookup(v.c, key, now).Hit? || Lookup(v.c, key, now) == Joined(|w.fetches|)
  {
    RegisteredAll(o, ttl, Step(o, ttl, w, Ask(key, asked)), run, key, |w.fetches|);
  }

  /** And if it fails meanwhile, the value that had expired when it began is given, if there was one. */
  lemma ExpiredIsGiven<V>(o: Owner, ttl: int, w: World<V>, key: string, asked: int, run: seq<Event<V>>)
    requires Lookup(w.c, key, asked) == Began
    requires var v := Step(o, ttl, w, Ask(key, asked)); Allowed(o, ttl, v, run) && Unsettled(o, run, key, |w.fetches|)
    ensures var p, v := |w.fetches|, Run(o, ttl, Step(o, ttl, w, Ask(key, asked)), run);
            && p < |v.fetches|
            && Fallback(v.c, key, p, v.fetches[p].existing)
               == if key in w.c.entries then Some(w.c.entries[key].value) else None
  {
    RegisteredAll(o, ttl, Step(o, ttl, w, Ask(key, asked)), run, key, |w.fetches|);
  }

  // ----- How long a value is served -----

  /** No invalidation in the run covers the key, and no other fetch of it is stored. */
  ghost predicate Undisturbed<V>(o: Owner, ttl: int, w: World<V>, run: seq<Event<V>>, key: string)
    requires Allowed(o, ttl, w, run)
    decreases |run|
  {
    run == [] ||
    (&& !(run[0].Wipe? && EntryScope(o, run[0].target, key))
     && !(run[0].Resolve? && w.fetches[run[0].p].key == key && Registered(w.c, key, run[0].p))
     && Undisturbed(o, ttl, Step(o, ttl, w, run[0]), run[1..], key))
  }

  lemma {:induction false} EntryStays<V>(o: Owner, ttl: int, w: World<V>, run: seq<Event<V>>, key: string)
    requires Allowed(o, ttl, w, run) && Undisturbed(o, ttl, w, run, key) && key in w.c.entries
    ensures var v := Run(o, ttl, w, run); key in v.c.entries && v.c.entries[key] == w.c.entries[key]
    decreases |run|
  {
    if run != [] { EntryStays(o, ttl, Step(o, ttl, w, run[0]), run[1..], key); }
  }

  /** The value a registered fetch brings at time `t` is served to every question before `t + ttl`
      and to none from then on, until an invalidation covers the key or another fetch of it is stored. */
  lemma ServedUntilItExpires<V>(o: Owner, ttl: int, before: seq<Event<V>>, p: nat, value: V, t: int,
                                after: seq<Event<V>>, now: int)
    requires Allowed(o, ttl, Empty(), before)
    requires var w := Run(o, ttl, Empty(), before);
             && Enabled(w, Resolve(p, value, t)) && Registered(w.c, w.fetches[p].key, p)
             && Allowed(o, ttl, Step(o, ttl, w, Resolve(p, value, t)), after)
             && Undisturbed(o, ttl, Step(o, ttl, w, Resolve(p, value, t)), after, w.fetches[p].key)
    ensures Allowed(o, ttl, Empty(), before + [Resolve(p, value, t)] + after)
    ensures var key := Run(o, ttl, Empty(), before).fetches[p].key;
            var v := Run(o, ttl, Empty(), before + [Resolve(p, value, t)] + after);
            && (Lookup(v.c, key, now) == Hit(value) <==> now < t + ttl)
            && (Lookup(v.c, key, now).Hit? <==> now < t + ttl)
  {
    var w := Run(o, ttl, Empty(), before);
    var one := [Resolve(p, value, t)];
    assert one[1..] == [];
    assert Allowed(o, ttl, w, one) && Run(o, ttl, w, one) == Step(o, ttl, w, one[0]);
    RunBoth(o, ttl, Empty(), before, one);
    RunBoth(o, ttl, Empty(), before + one, after);
    EntryStays(o, ttl, Step(o, ttl, w, Resolve(p, value, t)), after, w.fetches[p].key);
  }

  /** From the question on: a question that begins a fetch, whose answer comes before the fetch is
      detached, is answered from the cache for `ttl` from that answer. */
  lemma AnswerIsKept<V>(o: Owner, ttl: int, before: seq<Event<V>>, key: string, asked: int, waiting: seq<Event<V>>,
                        value: V, t: int, now: int)
    requires Allowed(o, ttl, Empty(), before) && Lookup(Run(o, ttl, Empty(), before).c, key, asked) == Began
    requires var w := Run(o, ttl, Empty(), before);
             var p, v := |w.fetches|, Step(o, ttl, w, Ask(key, asked));
             && Allowed(o, ttl, v, waiting) && Unsettled(o, waiting, key, p)
             && Enabled(Run(o, ttl, v, waiting), Resolve(p, value, t))
    ensures var w := Run(o, ttl, Empty(), before);
            var v := Run(o, ttl, Step(o, ttl, w, Ask(key, asked)), waiting);
            Lookup(Step(o, ttl, v, Resolve(|w.fetches|, value, t)).c, key, now)
            == if now < t + ttl then Hit(value) else Joined(|w.fetches|)
  {
    var w := Run(o, ttl, Empty(), before);
    RegisteredAll(o, ttl, Step(o, ttl, w, Ask(key, asked)), waiting, key, |w.fetches|);
  }
}
