/** The metadata cache: stored entries with an expiry, fetches under way, and
    invalidations that may fall between any two of a fetch's callbacks. */
module MetadataCache {
  import opened MetadataKeys
  import opened Options

  datatype Entry<V> = Entry(value: V, expiresAt: int)

  /** `inFlight` names the registered fetch of a key by the order in which it began. */
  datatype Cache<V> = Cache(entries: map<string, Entry<V>>, inFlight: map<string, nat>)

  datatype Answer<V> = Hit(value: V) | Joined(fetch: nat) | Began

  // ----- The steps of `cached`, its callbacks and the invalidations -----

  function Existing<V>(c: Cache<V>, key: string): Option<Entry<V>> {
    if key in c.entries then Some(c.entries[key]) else None
  }

  function Lookup<V>(c: Cache<V>, key: string, now: int): Answer<V> {
    if key in c.entries && c.entries[key].expiresAt > now then Hit(c.entries[key].value)
    else if key in c.inFlight then Joined(c.inFlight[key])
    else Began
  }

  predicate Registered<V>(c: Cache<V>, key: string, p: nat) {
    key in c.inFlight && c.inFlight[key] == p
  }

  function Begin<V>(c: Cache<V>, key: string, p: nat): Cache<V> {
    c.(inFlight := c.inFlight[key := p])
  }

  function Fulfil<V>(c: Cache<V>, key: string, p: nat, value: V, now: int, ttl: int): Cache<V> {
    if Registered(c, key, p) then c.(entries := c.entries[key := Entry(value, now + ttl)]) else c
  }

  /** The catch callback: the expired value, if the failed fetch is still the registered one. */
  function Fallback<V>(c: Cache<V>, key: string, p: nat, existing: Option<Entry<V>>): Option<V> {
    if existing.Some? && Registered(c, key, p) then Some(existing.value.value) else None
  }

  function Finish<V>(c: Cache<V>, key: string, p: nat): Cache<V> {
    if Registered(c, key, p) then c.(inFlight := c.inFlight - {key}) else c
  }

  function Invalidated<V>(o: Owner, c: Cache<V>, t: Target): Cache<V> {
    if t.all then Cache(map[], map[])
    else Cache(map k | k in c.entries && !EntryScope(o, t, k) :: c.entries[k],
               map k | k in c.inFlight && !FlightScope(o, t, k) :: c.inFlight[k])
  }

  // ----- The object -----

  class DbMetadataCache<V(==)> {
    const owner: Owner
    const ttl: int
    var entries: map<string, Entry<V>>
    var inFlight: map<string, nat>

    ghost function Contents(): Cache<V>
      reads this
    {
      Cache(entries, inFlight)
    }

    constructor (owner: Owner, ttl: int)
      ensures Contents() == Cache(map[], map[]) && this.owner == owner && this.ttl == ttl
    {
      this.owner, this.ttl := owner, ttl;
      entries, inFlight := map[], map[];
    }

    /** Returns at once, joins the registered fetch, or registers fetch `p`. */
    method Cached(key: string, now: int, p: nat) returns (answer: Answer<V>, existing: Option<Entry<V>>)
      modifies this
      ensures answer == Lookup(old(Contents()), key, now) && existing == Existing(old(Contents()), key)
      ensures Contents() == if answer == Began then Begin(old(Contents()), key, p) else old(Contents())
    {
      existing := if key in entries then Some(entries[key]) else None;
      if existing.Some? && existing.value.expiresAt > now { return Hit(existing.value.value), existing; }
      if key in inFlight { return Joined(inFlight[key]), existing; }
      inFlight := inFlight[key := p];
      answer := Began;
    }

    /** A table search passes `notifyListeners` as false. */
    method Resolved(key: string, p: nat, value: V, now: int, notifyListeners: bool) returns (notify: bool)
      modifies this
      ensures Contents() == Fulfil(old(Contents()), key, p, value, now, ttl)
      ensures notify == (notifyListeners && Registered(old(Contents()), key, p))
    {
      notify := false;
      if key in inFlight && inFlight[key] == p {
        entries := entries[key := Entry(value, now + ttl)];
        notify := notifyListeners;
      }
    }

    method Rejected(key: string, p: nat, existing: Option<Entry<V>>) returns (value: Option<V>)
      ensures value == Fallback(Contents(), key, p, existing)
    {
      value := if existing.Some? && key in inFlight && inFlight[key] == p then Some(existing.value.value) else None;
    }

    method Settled(key: string, p: nat)
      modifies this
      ensures Contents() == Finish(old(Contents()), key, p)
    {
      if key in inFlight && inFlight[key] == p { inFlight := inFlight - {key}; }
    }

    method ClearAll()
      modifies this
      ensures Contents() == Cache(map[], map[])
    {
      entries, inFlight := map[], map[];
    }

    method Invalidate(t: Target) returns (notify: bool)
      modifies this
      ensures Contents() == Invalidated(owner, old(Contents()), t)
      ensures notify <==> t.all || Contents() != old(Contents())
    {
      hide EntryScope, FlightScope;
      if t.all {
        ClearAll();
        return true;
      }
      var entriesChanged, flightsChanged;
      entries, entriesChanged := DropWhere(entries, k => EntryScope(owner, t, k));
      inFlight, flightsChanged := DropWhere(inFlight, k => FlightScope(owner, t, k));
      notify := entriesChanged || flightsChanged;
    }
  }

  /** Visits every key once and deletes those in scope. */
  method DropWhere<W(==)>(m: map<string, W>, inScope: string -> bool) returns (kept: map<string, W>, changed: bool)
    ensures kept == map k | k in m && !inScope(k) :: m[k]
    ensures changed <==> kept != m
  {
    kept, changed := m, false;
    var todo := m.Keys;
    while todo != {}
      invariant todo <= m.Keys
      invariant kept == map k | k in m && (k in todo || !inScope(k)) :: m[k]
      invariant changed <==> kept != m
      decreases todo
    {
      var key :| key in todo;
      if inScope(key) {
        kept := kept - {key};
        changed := true;
        assert key !in kept && key in m;
      }
      todo := todo - {key};
    }
  }
}
