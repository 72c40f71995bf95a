// The sharded store: cache/internal/storage/shard.go and store.go.  Every
// shard operation holds the shard's lock, so it is one atomic step.
module Cache {
  import opened Wrappers
  import opened Decimal
  import opened Recency
  import opened CacheModel

  class Metrics {
    var cache_hits: nat
    var cache_misses: nat
    var expired_keys: nat
    var evicted_keys: nat
    var current_entries: int
    var memory_bytes: int

    constructor ()
      ensures cache_hits == cache_misses == expired_keys == evicted_keys == 0
      ensures current_entries == memory_bytes == 0
    {
      cache_hits, cache_misses, expired_keys, evicted_keys := 0, 0, 0, 0;
      current_entries, memory_bytes := 0, 0;
    }
  }

  class Shard {
    var entries: map<string, CacheEntry>
    var lru: seq<string>
    var used_bytes: int
    const max_bytes: nat
    const metrics: Metrics

    constructor (max_bytes: nat, metrics: Metrics)
      ensures State() == EMPTY && Accounted(State()) && this.max_bytes == max_bytes && this.metrics == metrics
    {
      entries, lru, used_bytes := map[], [], 0;
      this.max_bytes, this.metrics := max_bytes, metrics;
    }

    ghost function State(): ShardState
      reads this
    {
      ShardState(entries, lru, used_bytes)
    }

    // The shared gauges moved by exactly what this shard's contents moved.
    twostate predicate Counted()
      reads this, metrics
    {
      && metrics.current_entries == old(metrics.current_entries) + |entries| - old(|entries|)
      && metrics.memory_bytes == old(metrics.memory_bytes) + used_bytes - old(used_bytes)
    }

    method RemoveLocked(key: string)
      modifies this`entries, this`lru, this`used_bytes, metrics`current_entries, metrics`memory_bytes
      ensures State() == RemoveKey(old(State()), key) && Counted()
      ensures entries == old(entries) - {key}
    {
      if key !in entries {
        return;
      }
      var ent := entries[key];
      assert |entries - {key}| == |entries| - 1 by { OneFewer(entries, key); }
      entries := entries - {key};
      lru := Removed(lru, key);
      used_bytes := used_bytes - ent.size_bytes;
      metrics.current_entries := metrics.current_entries - 1;
      metrics.memory_bytes := metrics.memory_bytes - ent.size_bytes;
    }

    method Get(key: string, now: int) returns (value: Option<string>)
      modifies this`entries, this`lru, this`used_bytes, metrics
      ensures State() == AfterGet(old(State()), key, now) && Counted()
      ensures value == ValueOf(Find(old(State()), key, now))
      ensures metrics.cache_hits == old(metrics.cache_hits) + (if value.Some? then 1 else 0)
      ensures metrics.cache_misses == old(metrics.cache_misses) + (if value.Some? then 0 else 1)
      ensures metrics.evicted_keys == old(metrics.evicted_keys)
    {
      if key !in entries {
        metrics.cache_misses := metrics.cache_misses + 1;
        return None;
      }
      var ent := entries[key];
      if IsExpired(ent, now) {
        RemoveLocked(key);
        metrics.expired_keys := metrics.expired_keys + 1;
        metrics.cache_misses := metrics.cache_misses + 1;
        return None;
      }
      lru := Touched(lru, key);
      metrics.cache_hits := metrics.cache_hits + 1;
      value := Some(ent.value);
    }

    method Exists(key: string, now: int) returns (found: bool)
      modifies this`entries, this`lru, this`used_bytes, metrics
      ensures State() == DropExpired(old(State()), key, now) && Counted()
      ensures found <==> Find(old(State()), key, now).Some?
    {
      if key !in entries {
        return false;
      }
      if IsExpired(entries[key], now) {
        RemoveLocked(key);
        metrics.expired_keys := metrics.expired_keys + 1;
        return false;
      }
      found := true;
    }

    method EvictLast()
      modifies this`entries, this`lru, this`used_bytes, metrics
      requires Accounted(State()) && lru != []
      ensures State() == RemoveKey(old(State()), old(lru)[|old(lru)| - 1]) && Counted() && Accounted(State())
      ensures |lru| == |old(lru)| - 1 && |entries| == old(|entries|) - 1
      ensures metrics.evicted_keys == old(metrics.evicted_keys) + 1
    {
      var key := lru[|lru| - 1];
      assert key in lru;
      EvictOne(State());
      OneFewer(entries, key);
      RemoveLocked(key);
      metrics.evicted_keys := metrics.evicted_keys + 1;
    }

    method EvictIfOverBudget()
      modifies this`entries, this`lru, this`used_bytes, metrics
      requires Accounted(State())
      ensures State() == Evicted(old(State()), max_bytes) && Counted() && Accounted(State())
      ensures metrics.evicted_keys == old(metrics.evicted_keys) + old(|entries|) - |entries|
    {
      hide Accounted, Evicted, RemoveKey;
      while used_bytes > max_bytes
        invariant Evicted(State(), max_bytes) == Evicted(old(State()), max_bytes) && Counted() && Accounted(State())
        invariant metrics.evicted_keys == old(metrics.evicted_keys) + old(|entries|) - |entries|
        decreases |lru|
      {
        NothingToEvict(State(), max_bytes);
        if lru == [] {
          return;
        }
        EvictOne(State());
        EvictedOnce(State(), max_bytes);
        EvictLast();
      }
      NothingToEvict(State(), max_bytes);
    }

    // Puts an entry in place with its accounts, then evicts.
    method StoreLocked(key: string, ent: CacheEntry)
      modifies this`entries, this`lru, this`used_bytes, metrics
      requires Accounted(State())
      ensures State() == Evicted(Stored(old(State()), key, ent), max_bytes) && Counted() && Accounted(State())
    {
      hide Accounted, Evicted, Removed;
      StoredAccounted(State(), key, ent);
      if key in entries {
        used_bytes := used_bytes + ent.size_bytes - entries[key].size_bytes;
        metrics.memory_bytes := metrics.memory_bytes + ent.size_bytes - entries[key].size_bytes;
        SameCount(entries, key, ent);
      } else {
        used_bytes := used_bytes + ent.size_bytes;
        metrics.current_entries := metrics.current_entries + 1;
        metrics.memory_bytes := metrics.memory_bytes + ent.size_bytes;
        OneMore(entries, key, ent);
      }
      entries := entries[key := ent];
      lru := Touched(lru, key);
      EvictIfOverBudget();
    }

    method Set(key: string, value: string, opts: SetOptions, now: int) returns (applied: bool)
      modifies this`entries, this`lru, this`used_bytes, metrics
      requires Accounted(State())
      ensures State() == AfterSet(old(State()), key, value, opts, now, max_bytes) && Counted() && Accounted(State())
      ensures applied <==> SetApplies(old(State()), key, opts, now)
      ensures applied && |key| + |value| + 64 <= max_bytes ==>
        && key in entries && entries[key].value == value
        && entries[key].expires_at == if opts.has_ttl && opts.ttl > 0 then Some(now + opts.ttl) else None
    {
      hide Accounted, Evicted;
      GetAccounted(State(), key, now);
      SetStores(State(), key, value, opts, now, max_bytes);
      var exists_ := key in entries;
      if exists_ && IsExpired(entries[key], now) {
        RemoveLocked(key);
        exists_ := false;
      }
      if opts.nx && exists_ {
        return false;
      }
      if opts.xx && !exists_ {
        return false;
      }
      StoreLocked(key, SetEntry(key, value, opts, now));
      applied := true;
    }

    method Delete(key: string) returns (present: bool)
      modifies this`entries, this`lru, this`used_bytes, metrics
      requires Accounted(State())
      ensures State() == RemoveKey(old(State()), key) && Counted() && Accounted(State())
      ensures present <==> key in old(entries)
    {
      RemoveKeyAccounted(State(), key);
      if key !in entries {
        return false;
      }
      RemoveLocked(key);
      present := true;
    }

    method Expire(key: string, ttl: int, now: int) returns (ok: bool)
      modifies this`entries
      requires Accounted(State())
      ensures State() == AfterExpire(old(State()), key, ttl, now) && |entries| == old(|entries|) && Accounted(State())
      ensures ok <==> Find(old(State()), key, now).Some?
    {
      ExpireAccounted(State(), key, ttl, now);
      if key !in entries || IsExpired(entries[key], now) {
        return false;
      }
      SameCount(entries, key, entries[key].(expires_at := Some(now + ttl)));
      entries := entries[key := entries[key].(expires_at := Some(now + ttl))];
      ok := true;
    }

    method Persist(key: string, now: int) returns (cleared: bool)
      modifies this`entries
      requires Accounted(State())
      ensures State() == AfterPersist(old(State()), key, now) && |entries| == old(|entries|) && Accounted(State())
      ensures cleared <==> Find(old(State()), key, now).Some? && old(entries)[key].expires_at.Some?
    {
      ExpireAccounted(State(), key, 0, now);
      if key !in entries || IsExpired(entries[key], now) {
        return false;
      }
      if entries[key].expires_at.None? {
        assert entries[key := entries[key].(expires_at := None)] == entries;
        return false;
      }
      SameCount(entries, key, entries[key].(expires_at := None));
      entries := entries[key := entries[key].(expires_at := None)];
      cleared := true;
    }

    method IncrBy(key: string, delta: int, now: int) returns (next: Option<int>)
      modifies this`entries, this`lru, this`used_bytes, metrics
      requires Accounted(State())
      ensures State() == AfterIncr(old(State()), key, delta, now, max_bytes) && Counted() && Accounted(State())
      ensures next == Increased(old(State()), key, delta, now)
    {
      hide Accounted, Evicted, IntText, ParseInt64, WrapInt64;
      var current := 0;
      if key in entries && !IsExpired(entries[key], now) {
        var parsed := ParseInt64(entries[key].value);
        if parsed.None? {
          return None;
        }
        current := parsed.value;
      }
      var sum := WrapInt64(current + delta);
      var value := IntText(sum);
      var deadline := if key in entries then entries[key].expires_at else None;
      StoreLocked(key, CacheEntry(value, deadline, ApproxSize(key, value)));
      next := Some(sum);
    }

    method RestoreEntry(key: string, ent: CacheEntry, now: int)
      modifies this`entries, this`lru, this`used_bytes, metrics
      requires Accounted(State())
      ensures State() == AfterRestore(old(State()), key, ent, now)
      ensures key !in old(entries) ==> Counted() && Accounted(State())
    {
      RestoreAccounted(State(), key, ent, now);
      if IsExpired(ent, now) {
        return;
      }
      if key !in entries {
        OneMore(entries, key, ent);
      }
      entries := entries[key := ent];
      lru := Touched(lru, key);
      used_bytes := used_bytes + ent.size_bytes;
      metrics.current_entries := metrics.current_entries + 1;
      metrics.memory_bytes := metrics.memory_bytes + ent.size_bytes;
    }

    method FlushAll()
      modifies this`entries, this`lru, this`used_bytes, metrics
      ensures State() == EMPTY && Counted() && Accounted(State())
    {
      metrics.current_entries := metrics.current_entries - |entries|;
      metrics.memory_bytes := metrics.memory_bytes - used_bytes;
      entries, lru, used_bytes := map[], [], 0;
    }

    // Collects the expired keys, then removes them one by one.
    method SweepExpired(now: int)
      modifies this`entries, this`lru, this`used_bytes, metrics
      requires Accounted(State())
      ensures State() == AfterSweep(old(State()), now) && Counted() && Accounted(State())
      ensures metrics.expired_keys == old(metrics.expired_keys) + |ExpiredKeys(old(State()), now)|
    {
      hide Accounted, RemoveKey, Kept, Removed;
      var expired := set k | k in entries && IsExpired(entries[k], now);
      assert expired == ExpiredKeys(State(), now);
      ghost var todo := |expired|;
      AllListed(State());
      KeptAll(lru, entries.Keys);
      while expired != {}
        invariant Counted() && Accounted(State()) && expired <= ExpiredKeys(old(State()), now)
        invariant forall k :: k in entries <==> k in old(entries) && (!IsExpired(old(entries)[k], now) || k in expired)
        invariant forall k :: k in entries ==> entries[k] == old(entries)[k]
        invariant lru == Kept(old(lru), entries.Keys)
        invariant metrics.expired_keys == old(metrics.expired_keys) + todo - |expired|
        decreases |expired|
      {
        var key :| key in expired;
        RemoveKeyAccounted(State(), key);
        KeptFewer(old(lru), entries.Keys, key);
        RemovedState(State(), key);
        RemoveLocked(key);
        metrics.expired_keys := metrics.expired_keys + 1;
        expired := expired - {key};
      }
      assert entries == Live(old(State()), now);
      BytesOf(State());
    }

    method DbSize() returns (n: nat)
      ensures n == |entries|
    {
      n := |entries|;
    }
  }

  lemma NothingToEvict(s: ShardState, max: int)
    ensures s.used <= max || s.recency == [] ==> Evicted(s, max) == s
  {
  }

  lemma AllListed(s: ShardState)
    requires Accounted(s)
    ensures forall k :: k in s.recency ==> k in s.entries.Keys
  {
  }

  lemma BytesOf(s: ShardState)
    requires Accounted(s)
    ensures (forall k :: k in s.recency ==> k in s.entries) && s.used == TotalSize(s.entries, s.recency)
  {
  }

  lemma RemovedState(s: ShardState, key: string)
    requires key in s.entries
    ensures RemoveKey(s, key).recency == Removed(s.recency, key)
      && RemoveKey(s, key).entries.Keys == s.entries.Keys - {key}
  {
  }

  lemma OneFewer(m: map<string, CacheEntry>, key: string)
    requires key in m
    ensures |m - {key}| == |m| - 1
  {
    assert m.Keys == (m - {key}).Keys + {key};
    assert |m.Keys| == |m| && |(m - {key}).Keys| == |m - {key}|;
  }

  lemma OneMore(m: map<string, CacheEntry>, key: string, ent: CacheEntry)
    requires key !in m
    ensures |m[key := ent]| == |m| + 1
  {
    assert m[key := ent].Keys == m.Keys + {key};
    assert |m.Keys| == |m| && |m[key := ent].Keys| == |m[key := ent]|;
  }

  lemma SameCount(m: map<string, CacheEntry>, key: string, ent: CacheEntry)
    requires key in m
    ensures |m[key := ent]| == |m|
  {
    assert m[key := ent].Keys == m.Keys;
    assert |m.Keys| == |m| && |m[key := ent].Keys| == |m[key := ent]|;
  }
}
