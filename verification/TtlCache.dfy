/** A cache that serves stale values, refreshes behind the caller, and can be invalidated at any time. */
module TtlCache {
  import opened Wrappers
  import opened ObjectKeys

  /** `fetched`. The zero time is older than any TTL. */
  datatype Stamp = Never | At(time: int)

  /** `value` is None where Go has the zero value of T: nothing was ever cached. */
  datatype Entry<T> = Entry(value: Option<T>, fetched: Stamp, valid: bool, refreshing: bool, generation: nat)

  function Blank<T>(): Entry<T> {
    Entry(None, Never, false, false, 0)
  }

  function EntryOf<T>(entries: map<string, Entry<T>>, key: string): Entry<T> {
    if key in entries then entries[key] else Blank()
  }

  predicate IsFresh<T>(e: Entry<T>, now: int, ttl: int) {
    e.valid && e.fetched.At? && now - e.fetched.time < ttl
  }

  function Filled<T>(e: Entry<T>, value: T, now: int): Entry<T> {
    e.(value := Some(value), fetched := At(now), valid := true)
  }

  /** Get, on an entry that is not fresh: `upstream` is what the fetch returns, if it succeeds. */
  function AfterGet<T>(e: Entry<T>, upstream: Option<T>, done: int): Entry<T> {
    if upstream.Some? then Filled(e, upstream.value, done) else e
  }

  /** The first critical section of GetAsync. */
  predicate StartsRefresh<T>(e: Entry<T>, now: int, ttl: int) {
    !IsFresh(e, now, ttl) && !e.refreshing
  }

  function AfterRead<T>(e: Entry<T>, now: int, ttl: int): Entry<T> {
    if StartsRefresh(e, now, ttl) then e.(refreshing := true) else e
  }

  /** The second one, in the background. A result from an earlier generation is dropped. */
  function AfterRefresh<T>(e: Entry<T>, generation: nat, upstream: Option<T>, done: int): Entry<T> {
    var idle := e.(refreshing := false);
    if e.generation != generation || upstream.None? then idle else Filled(idle, upstream.value, done)
  }

  function AfterStore<T>(e: Entry<T>, value: T, now: int): Entry<T> {
    Filled(e, value, now).(generation := e.generation + 1)
  }

  function AfterInvalidate<T>(e: Entry<T>): Entry<T> {
    e.(valid := false, generation := e.generation + 1)
  }

  function AfterExpire<T>(e: Entry<T>): Entry<T> {
    e.(fetched := if e.valid then Never else e.fetched, generation := e.generation + 1)
  }

  function AfterInvalidatePrefix<T>(entries: map<string, Entry<T>>, prefix: string): map<string, Entry<T>> {
    map k | k in entries :: if HasPrefix(k, prefix) then AfterInvalidate(entries[k]) else entries[k]
  }

  // ------------------------------------------------- what callers can observe

  /** Nothing that may be served without a fetch: no entry, no valid value, or one that was expired by hand. */
  ghost predicate Absent<T>(entries: map<string, Entry<T>>, key: string) {
    key !in entries || !entries[key].valid || entries[key].fetched.Never?
  }

  /** A valid value that was fetched, or stored, at time t. */
  ghost predicate WasFetched<T>(entries: map<string, Entry<T>>, key: string, t: int) {
    key in entries && entries[key].valid && entries[key].fetched == At(t)
  }

  ghost predicate IsRefreshing<T>(entries: map<string, Entry<T>>, key: string) {
    key in entries && entries[key].refreshing
  }

  /** What is cached for the key, how old it is and whether it may be used have not changed. */
  ghost predicate SameValues<T>(before: map<string, Entry<T>>, after: map<string, Entry<T>>, key: string) {
    key in after &&
    (if key in before
     then after[key].value == before[key].value && after[key].valid == before[key].valid &&
          after[key].fetched == before[key].fetched
     else !after[key].valid)
  }

  /** A refresh that started before does not count any more. */
  ghost predicate NewGeneration<T>(before: map<string, Entry<T>>, after: map<string, Entry<T>>, key: string) {
    key in after &&
    (key in before ==>
      after[key].generation > before[key].generation && after[key].refreshing == before[key].refreshing)
  }

  ghost predicate Others<T>(before: map<string, Entry<T>>, after: map<string, Entry<T>>, key: string) {
    forall k :: k != key ==> (k in after <==> k in before) && (k in before ==> after[k] == before[k])
  }

  // ----------------------------------------------------------- implementation

  /** What Get returns: a value, and whether it came from upstream; or the error. */
  datatype GetReply<T> = Cached(value: Option<T>) | FromUpstream(value: Option<T>) | Failed

  /** One method per critical section. A method call is one turn at the lock. */
  class Cache<T> {
    const ttl: int
    var entries: map<string, Entry<T>>

    constructor (ttl: int)
      ensures this.ttl == ttl && entries == map[]
    {
      this.ttl, entries := ttl, map[];
    }

    /** Looks an entry up, creating it if need be. */
    method Lookup(key: string) returns (e: Entry<T>)
      modifies this`entries
      ensures e == EntryOf(old(entries), key) && entries == old(entries)[key := e]
    {
      if key !in entries {
        entries := entries[key := Blank()];
      }
      e := entries[key];
      assert entries == old(entries)[key := e];
    }

    /** The lock is held over the fetch. `upstream` is what the fetch would return. */
    method Get(key: string, now: int, upstream: Option<T>, done: int) returns (reply: GetReply<T>, fetches: bool)
      modifies this`entries
      ensures var e := EntryOf(old(entries), key);
        && fetches == !IsFresh(e, now, ttl)
        && entries == old(entries)[key := if fetches then AfterGet(e, upstream, done) else e]
        && reply == (if !fetches then Cached(e.value)
                     else if upstream.Some? then FromUpstream(upstream)
                     else if e.valid then Cached(e.value) else Failed)
      ensures Absent(old(entries), key) ==> fetches
      ensures forall t :: WasFetched(old(entries), key, t) ==> (fetches <==> t + ttl <= now)
      ensures fetches && upstream.Some? ==>
        key in entries && entries[key].valid && entries[key].fetched == At(done) && entries[key].value == upstream
      ensures !fetches || upstream.None? ==> SameValues(old(entries), entries, key)
      ensures Others(old(entries), entries, key)
    {
      var e := Lookup(key);
      if e.valid && e.fetched.At? && now - e.fetched.time < ttl {
        return Cached(e.value), false;
      }
      if upstream.None? {
        return if e.valid then Cached(e.value) else Failed, true;
      }
      e := e.(value := upstream, fetched := At(done), valid := true);
      entries := entries[key := e];
      return FromUpstream(upstream), true;
    }

    /** Never waits: the value there is, whether it may be used, and the generation to refresh for, if any. */
    method GetAsync(key: string, now: int) returns (value: Option<T>, valid: bool, refresh: Option<nat>)
      modifies this`entries
      ensures var e := EntryOf(old(entries), key);
        && value == e.value && valid == e.valid
        && refresh == (if StartsRefresh(e, now, ttl) then Some(e.generation) else None)
        && entries == old(entries)[key := AfterRead(e, now, ttl)]
      ensures Absent(old(entries), key) && !IsRefreshing(old(entries), key) ==> refresh.Some?
      ensures forall t :: WasFetched(old(entries), key, t) ==>
        (refresh.Some? <==> t + ttl <= now && !old(entries)[key].refreshing)
      ensures refresh.Some? || IsRefreshing(old(entries), key) ==> IsRefreshing(entries, key)
      ensures SameValues(old(entries), entries, key) && Others(old(entries), entries, key)
    {
      var e := Lookup(key);
      if e.valid && e.fetched.At? && now - e.fetched.time < ttl {
        return e.value, true, None;
      }
      if !e.refreshing {
        entries := entries[key := e.(refreshing := true)];
        return e.value, e.valid, Some(e.generation);
      }
      return e.value, e.valid, None;
    }

    method FinishRefresh(key: string, generation: nat, upstream: Option<T>, done: int)
      requires key in entries
      modifies this`entries
      ensures entries == old(entries)[key := AfterRefresh(old(entries)[key], generation, upstream, done)]
      ensures !entries[key].refreshing && entries[key].generation == old(entries)[key].generation
      ensures upstream.Some? && generation == old(entries)[key].generation ==>
        entries[key].valid && entries[key].fetched == At(done) && entries[key].value == upstream
      ensures upstream.None? || generation != old(entries)[key].generation ==> SameValues(old(entries), entries, key)
      ensures Others(old(entries), entries, key)
    {
      var e := entries[key].(refreshing := false);
      entries := entries[key := e];
      if e.generation != generation || upstream.None? {
        return;
      }
      entries := entries[key := e.(value := upstream, fetched := At(done), valid := true)];
    }

    method Peek(key: string) returns (value: Option<T>, valid: bool)
      modifies this`entries
      ensures value == EntryOf(old(entries), key).value && valid == EntryOf(old(entries), key).valid
      ensures entries == old(entries)[key := EntryOf(old(entries), key)]
      ensures key !in old(entries) ==> !valid
      ensures SameValues(old(entries), entries, key) && Others(old(entries), entries, key)
    {
      var e := Lookup(key);
      return e.value, e.valid;
    }

    method Store(key: string, value: T, now: int)
      modifies this`entries
      ensures entries == old(entries)[key := AfterStore(EntryOf(old(entries), key), value, now)]
      ensures entries[key].valid && entries[key].fetched == At(now) && entries[key].value == Some(value)
      ensures NewGeneration(old(entries), entries, key) && Others(old(entries), entries, key)
    {
      var e := Lookup(key);
      e := e.(value := Some(value), fetched := At(now), valid := true);
      entries := entries[key := e.(generation := e.generation + 1)];
    }

    method Invalidate(key: string)
      modifies this`entries
      ensures entries == old(entries)[key := AfterInvalidate(EntryOf(old(entries), key))]
      ensures !entries[key].valid
      ensures NewGeneration(old(entries), entries, key) && Others(old(entries), entries, key)
    {
      var e := Lookup(key);
      e := e.(valid := false);
      entries := entries[key := e.(generation := e.generation + 1)];
    }

    method Expire(key: string)
      modifies this`entries
      ensures entries == old(entries)[key := AfterExpire(EntryOf(old(entries), key))]
      ensures key in old(entries) && old(entries)[key].valid ==>
        entries[key].valid && entries[key].fetched.Never? && entries[key].value == old(entries)[key].value
      ensures key !in old(entries) || !old(entries)[key].valid ==> !entries[key].valid
      ensures NewGeneration(old(entries), entries, key) && Others(old(entries), entries, key)
    {
      var e := Lookup(key);
      if e.valid {
        e := e.(fetched := Never);
      }
      entries := entries[key := e.(generation := e.generation + 1)];
    }

    /** Visits the entries in any order; those there are, not those there will be. */
    method InvalidatePrefix(prefix: string)
      modifies this`entries
      ensures entries == AfterInvalidatePrefix(old(entries), prefix)
      ensures entries.Keys == old(entries).Keys
      ensures forall k, rest :: k in entries && k == prefix + rest ==>
        !entries[k].valid && NewGeneration(old(entries), entries, k)
      ensures forall k :: k in entries && |k| < |prefix| ==> entries[k] == old(entries)[k]
      ensures forall k :: k in entries && |k| >= |prefix| && k[..|prefix|] != prefix ==> entries[k] == old(entries)[k]
    {
      var rest := entries.Keys;
      while rest != {}
        invariant rest <= entries.Keys == old(entries).Keys
        invariant forall k :: k in rest ==> entries[k] == old(entries)[k]
        invariant forall k :: k in entries && k !in rest ==>
          entries[k] == if HasPrefix(k, prefix) then AfterInvalidate(old(entries)[k]) else old(entries)[k]
      {
        var key :| key in rest;
        rest := rest - {key};
        if HasPrefix(key, prefix) {
          var e := entries[key].(valid := false);
          entries := entries[key := e.(generation := e.generation + 1)];
        }
      }
    }
  }
}
