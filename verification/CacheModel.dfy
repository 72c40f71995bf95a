// The plan cache's shard as a value: cache/internal/storage/entry.go, lru.go
// and shard.go.  Keys and values are byte strings, one char per byte; time is
// a number of nanoseconds.
module Recency {
  import opened Bags

  // The recency list, most recently used first.

  function Removed(order: seq<string>, key: string): (r: seq<string>)
    ensures key !in r && forall x :: x in r <==> x in order && x != key
  {
    if order == [] then []
    else (if order[0] == key then [] else [order[0]]) + Removed(order[1..], key)
  }

  // lru.touch: moved or pushed to the front.
  function Touched(order: seq<string>, key: string): (r: seq<string>)
    ensures forall x :: x in r <==> x in order || x == key
  {
    [key] + Removed(order, key)
  }

  lemma {:induction false} RemovedDistinct(order: seq<string>, key: string)
    requires NoRepeats(order)
    ensures NoRepeats(Removed(order, key)) && NoRepeats(Touched(order, key))
  {
    if order != [] {
      RemovedDistinct(order[1..], key);
      var rest := Removed(order[1..], key);
      assert order[0] !in order[1..];
      assert order[0] !in rest;
    }
  }

  // Removing the last key takes it off the end.
  lemma {:induction false} RemovedLast(order: seq<string>)
    requires NoRepeats(order) && order != []
    ensures Removed(order, order[|order| - 1]) == order[..|order| - 1]
  {
    var last := order[|order| - 1];
    if |order| > 1 {
      RemovedLast(order[1..]);
      assert order[1..][..|order| - 2] == order[1..|order| - 1];
      assert order[..|order| - 1] == [order[0]] + order[1..|order| - 1];
    } else {
      assert order == [last];
    }
  }

  // The order among the other keys does not change.
  lemma {:induction false} RemovedAbsent(order: seq<string>, key: string)
    requires key !in order
    ensures Removed(order, key) == order
  {
    if order != [] {
      RemovedAbsent(order[1..], key);
    }
  }

  // The keys of a set, in their order.
  function Kept(order: seq<string>, keys: set<string>): (r: seq<string>)
    ensures forall x :: x in r <==> x in order && x in keys
  {
    if order == [] then [] else (if order[0] in keys then [order[0]] else []) + Kept(order[1..], keys)
  }

  lemma {:induction false} KeptAll(order: seq<string>, keys: set<string>)
    requires forall k :: k in order ==> k in keys
    ensures Kept(order, keys) == order
  {
    if order != [] {
      KeptAll(order[1..], keys);
    }
  }

  lemma {:induction false} KeptFewer(order: seq<string>, keys: set<string>, key: string)
    ensures Removed(Kept(order, keys), key) == Kept(order, keys - {key})
  {
    if order != [] {
      KeptFewer(order[1..], keys, key);
      var rest := Kept(order[1..], keys);
      if order[0] in keys {
        assert ([order[0]] + rest)[1..] == rest;
      } else {
        assert Kept(order, keys) == rest;
      }
    }
  }

  lemma {:induction false} KeptDistinct(order: seq<string>, keys: set<string>)
    requires NoRepeats(order)
    ensures NoRepeats(Kept(order, keys))
  {
    if order != [] {
      KeptDistinct(order[1..], keys);
      assert order[0] !in order[1..];
    }
  }
}

module CacheModel {
  import opened Wrappers
  import opened Decimal
  import opened Bags
  import opened Recency

  const ENTRY_OVERHEAD_BYTES := 64

  datatype CacheEntry = CacheEntry(value: string, expires_at: Option<int>, size_bytes: nat)

  datatype SetOptions = SetOptions(ttl: int, has_ttl: bool, nx: bool, xx: bool)

  datatype ShardState = ShardState(entries: map<string, CacheEntry>, recency: seq<string>, used: int)

  const EMPTY := ShardState(map[], [], 0)

  function ApproxSize(key: string, value: string): nat
  {
    |key| + |value| + ENTRY_OVERHEAD_BYTES
  }

  predicate IsExpired(ent: CacheEntry, now: int)
  {
    ent.expires_at.Some? && now > ent.expires_at.value
  }

  // ---- Accounting ----

  function TotalSize(entries: map<string, CacheEntry>, order: seq<string>): nat
    requires forall k :: k in order ==> k in entries
  {
    if order == [] then 0 else entries[order[0]].size_bytes + TotalSize(entries, order[1..])
  }

  // The recency list holds the stored keys, each once, and the used bytes
  // are the sizes of the entries.
  ghost predicate Accounted(s: ShardState)
  {
    && NoRepeats(s.recency)
    && (forall k :: k in s.recency <==> k in s.entries)
    && s.used == TotalSize(s.entries, s.recency)
  }

  lemma {:induction false} TotalFrame(a: map<string, CacheEntry>, b: map<string, CacheEntry>, order: seq<string>)
    requires forall k :: k in order ==> k in a && k in b && a[k] == b[k]
    ensures TotalSize(a, order) == TotalSize(b, order)
  {
    if order != [] {
      TotalFrame(a, b, order[1..]);
    }
  }

  lemma {:induction false} TotalRemoved(entries: map<string, CacheEntry>, order: seq<string>, key: string)
    requires NoRepeats(order) && forall k :: k in order ==> k in entries
    ensures TotalSize(entries, Removed(order, key)) + (if key in order then entries[key].size_bytes else 0)
      == TotalSize(entries, order)
  {
    if order != [] {
      TotalRemoved(entries, order[1..], key);
      var rest := Removed(order[1..], key);
      if order[0] == key {
        assert key !in order[1..];
        assert Removed(order, key) == rest;
      } else {
        assert Removed(order, key) == [order[0]] + rest;
        assert ([order[0]] + rest)[1..] == rest;
      }
    }
  }

  // ---- Steps ----

  // removeLocked
  function RemoveKey(s: ShardState, key: string): ShardState
  {
    if key in s.entries then ShardState(s.entries - {key}, Removed(s.recency, key), s.used - s.entries[key].size_bytes)
    else s
  }

  lemma RemoveKeyAccounted(s: ShardState, key: string)
    requires Accounted(s)
    ensures Accounted(RemoveKey(s, key))
  {
    if key in s.entries {
      RemovedDistinct(s.recency, key);
      TotalRemoved(s.entries, s.recency, key);
      TotalFrame(s.entries, s.entries - {key}, Removed(s.recency, key));
    }
  }

  // The lazy deletion every reading operation begins with.
  function DropExpired(s: ShardState, key: string, now: int): ShardState
  {
    if key in s.entries && IsExpired(s.entries[key], now) then RemoveKey(s, key) else s
  }

  function TouchKey(s: ShardState, key: string): ShardState
  {
    s.(recency := Touched(s.recency, key))
  }

  // An entry put in place of whatever the key had, used most recently.
  function Stored(s: ShardState, key: string, ent: CacheEntry): ShardState
  {
    ShardState(s.entries[key := ent], Touched(s.recency, key),
               s.used + ent.size_bytes - (if key in s.entries then s.entries[key].size_bytes else 0))
  }

  lemma StoredAccounted(s: ShardState, key: string, ent: CacheEntry)
    requires Accounted(s)
    ensures Accounted(Stored(s, key, ent))
  {
    hide Removed, NoRepeats, TotalSize;
    var rest, entries := Removed(s.recency, key), s.entries[key := ent];
    RemovedDistinct(s.recency, key);
    TotalRemoved(s.entries, s.recency, key);
    TotalFrame(s.entries, entries, rest);
    TotalHead(entries, key, rest);
  }

  lemma TotalHead(entries: map<string, CacheEntry>, key: string, rest: seq<string>)
    requires key in entries && forall k :: k in rest ==> k in entries
    ensures TotalSize(entries, [key] + rest) == entries[key].size_bytes + TotalSize(entries, rest)
  {
    assert ([key] + rest)[1..] == rest;
  }

  lemma TouchAccounted(s: ShardState, key: string)
    requires Accounted(s) && key in s.entries
    ensures Accounted(TouchKey(s, key))
  {
    StoredAccounted(s, key, s.entries[key]);
    assert s.entries[key := s.entries[key]] == s.entries;
  }

  // evictIfOverBudget
  function Evicted(s: ShardState, max: int): ShardState
    decreases |s.recency|
  {
    if s.used <= max || s.recency == [] then s
    else
      var last := s.recency[|s.recency| - 1];
      var s' := RemoveKey(s, last);
      if |s'.recency| < |s.recency| then Evicted(s', max) else s
  }

  // ---- Eviction keeps the longest prefix that fits ----

  // n is the length of the longest prefix of the order that fits.
  ghost predicate LongestFit(entries: map<string, CacheEntry>, order: seq<string>, max: int, n: nat)
    requires forall k :: k in order ==> k in entries
  {
    n <= |order| && forall m :: 0 <= m <= |order| ==> (m <= n <==> TotalSize(entries, order[..m]) <= max)
  }

  function Restricted(entries: map<string, CacheEntry>, order: seq<string>): map<string, CacheEntry>
  {
    map k | k in entries && k in order :: entries[k]
  }

  lemma {:induction false} TotalGrows(entries: map<string, CacheEntry>, order: seq<string>, m: nat)
    requires m <= |order| && forall k :: k in order ==> k in entries
    ensures TotalSize(entries, order[..m]) <= TotalSize(entries, order)
  {
    if m > 0 {
      TotalGrows(entries, order[1..], m - 1);
      assert order[..m][0] == order[0] && order[..m][1..] == order[1..][..m - 1];
    }
  }

  // after is s cut down to the longest prefix that fits.
  ghost predicate CutDown(s: ShardState, after: ShardState, max: int, n: nat)
  {
    && (forall k :: k in s.recency ==> k in s.entries)
    && LongestFit(s.entries, s.recency, max, n)
    && after.recency == s.recency[..n] && after.entries == Restricted(s.entries, s.recency[..n])
    && Accounted(after) && after.used <= max
  }

  lemma {:induction false} EvictedKeepsPrefix(s: ShardState, max: int) returns (n: nat)
    requires Accounted(s) && max >= 0
    ensures CutDown(s, Evicted(s, max), max, n)
    decreases |s.recency|
  {
    if s.used <= max || s.recency == [] {
      n := |s.recency|;
      NothingCut(s, max);
    } else {
      var last := s.recency[|s.recency| - 1];
      var s' := RemoveKey(s, last);
      EvictOne(s);
      EvictedOnce(s, max);
      hide *;
      n := EvictedKeepsPrefix(s', max);
      CutLonger(s, s', Evicted(s', max), max, n);
    }
  }

  lemma EvictedOnce(s: ShardState, max: int)
    requires s.used > max && s.recency != [] && |RemoveKey(s, s.recency[|s.recency| - 1]).recency| < |s.recency|
    ensures Evicted(s, max) == Evicted(RemoveKey(s, s.recency[|s.recency| - 1]), max)
  {
  }

  lemma NothingCut(s: ShardState, max: int)
    requires Accounted(s) && s.used <= max
    ensures CutDown(s, s, max, |s.recency|)
  {
    assert s.recency[..|s.recency|] == s.recency && Restricted(s.entries, s.recency) == s.entries;
    forall m | 0 <= m <= |s.recency| ensures TotalSize(s.entries, s.recency[..m]) <= max {
      TotalGrows(s.entries, s.recency, m);
    }
  }

  lemma CutLonger(s: ShardState, s': ShardState, after: ShardState, max: int, n: nat)
    requires Accounted(s) && s.used > max && s.recency != []
    requires s'.recency == s.recency[..|s.recency| - 1] && s'.entries == s.entries - {s.recency[|s.recency| - 1]}
    requires s.recency[|s.recency| - 1] !in s'.recency
    requires Accounted(s') && CutDown(s', after, max, n)
    ensures CutDown(s, after, max, n)
  {
    hide TotalSize, NoRepeats;
    LongerFit(s, s', max, n);
    assert s'.recency[..n] == s.recency[..n];
    RestrictedMore(s.entries, s.recency[|s.recency| - 1], s'.recency[..n]);
  }

  // One eviction takes the last key off.
  lemma EvictOne(s: ShardState)
    requires Accounted(s) && s.recency != []
    ensures var last := s.recency[|s.recency| - 1];
      && RemoveKey(s, last).recency == s.recency[..|s.recency| - 1] && RemoveKey(s, last).entries == s.entries - {last}
      && last !in s.recency[..|s.recency| - 1]
    ensures Accounted(RemoveKey(s, s.recency[|s.recency| - 1]))
  {
    var last := s.recency[|s.recency| - 1];
    assert last in s.recency;
    RemovedLast(s.recency);
    RemoveKeyAccounted(s, last);
  }

  lemma RestrictedMore(entries: map<string, CacheEntry>, key: string, order: seq<string>)
    requires key !in order
    ensures Restricted(entries - {key}, order) == Restricted(entries, order)
  {
  }

  lemma LongerFit(s: ShardState, s': ShardState, max: int, n: nat)
    requires Accounted(s) && s.used > max && s.recency != []
    requires s'.recency == s.recency[..|s.recency| - 1] && s'.entries == s.entries - {s.recency[|s.recency| - 1]}
    requires Accounted(s') && LongestFit(s'.entries, s'.recency, max, n)
    ensures LongestFit(s.entries, s.recency, max, n)
  {
    hide NoRepeats;
    var size := |s.recency|;
    forall m | 0 <= m <= size ensures m <= n <==> TotalSize(s.entries, s.recency[..m]) <= max {
      if m == size {
        assert s.recency[..m] == s.recency;
      } else {
        assert s'.recency[..m] == s.recency[..m];
        TotalFrame(s.entries, s'.entries, s.recency[..m]);
      }
    }
  }

  // ---- Operations ----

  // get, exists and ttl: what is found, and what is left behind.
  function Find(s: ShardState, key: string, now: int): Option<CacheEntry>
  {
    if key in s.entries && !IsExpired(s.entries[key], now) then Some(s.entries[key]) else None
  }

  function ValueOf(found: Option<CacheEntry>): Option<string>
  {
    if found.Some? then Some(found.value.value) else None
  }

  function AfterGet(s: ShardState, key: string, now: int): ShardState
  {
    var s' := DropExpired(s, key, now);
    if key in s'.entries then TouchKey(s', key) else s'
  }

  function SetEntry(key: string, value: string, opts: SetOptions, now: int): CacheEntry
  {
    CacheEntry(value, if opts.has_ttl && opts.ttl > 0 then Some(now + opts.ttl) else None, ApproxSize(key, value))
  }

  // Whether NX or XX lets the write through.
  predicate SetApplies(s: ShardState, key: string, opts: SetOptions, now: int)
  {
    var present := Find(s, key, now).Some?;
    !(opts.nx && present) && !(opts.xx && !present)
  }

  function AfterSet(s: ShardState, key: string, value: string, opts: SetOptions, now: int, max: int): ShardState
  {
    var s' := DropExpired(s, key, now);
    if SetApplies(s, key, opts, now) then Evicted(Stored(s', key, SetEntry(key, value, opts, now)), max) else s'
  }

  function AfterExpire(s: ShardState, key: string, ttl: int, now: int): ShardState
  {
    if Find(s, key, now).Some? then s.(entries := s.entries[key := s.entries[key].(expires_at := Some(now + ttl))])
    else s
  }

  function AfterPersist(s: ShardState, key: string, now: int): ShardState
  {
    if Find(s, key, now).Some? then s.(entries := s.entries[key := s.entries[key].(expires_at := None)]) else s
  }

  // incrBy on a value that is a 64-bit integer; the sum wraps around.
  function Increased(s: ShardState, key: string, delta: int, now: int): Option<int>
  {
    var found := Find(s, key, now);
    if found.None? then Some(WrapInt64(delta))
    else
      var parsed := ParseInt64(found.value.value);
      if parsed.None? then None else Some(WrapInt64(parsed.value + delta))
  }

  // An existing entry keeps its deadline, passed or not.
  function IncrEntry(s: ShardState, key: string, n: int): CacheEntry
  {
    CacheEntry(IntText(n), if key in s.entries then s.entries[key].expires_at else None, ApproxSize(key, IntText(n)))
  }

  function AfterIncr(s: ShardState, key: string, delta: int, now: int, max: int): ShardState
  {
    var next := Increased(s, key, delta, now);
    if next.None? then s
    else
      Evicted(Stored(s, key, IncrEntry(s, key, next.value)), max)
  }

  // restoreEntry adds the entry's size without taking off a replaced one's.
  function AfterRestore(s: ShardState, key: string, ent: CacheEntry, now: int): ShardState
  {
    if IsExpired(ent, now) then s
    else ShardState(s.entries[key := ent], Touched(s.recency, key), s.used + ent.size_bytes)
  }

  function Live(s: ShardState, now: int): map<string, CacheEntry>
  {
    map k | k in s.entries && !IsExpired(s.entries[k], now) :: s.entries[k]
  }

  // sweepExpired
  function AfterSweep(s: ShardState, now: int): ShardState
  {
    var live := Live(s, now);
    var order := Kept(s.recency, live.Keys);
    ShardState(live, order, TotalSize(live, order))
  }

  lemma SweepAccounted(s: ShardState, now: int)
    requires Accounted(s)
    ensures Accounted(AfterSweep(s, now)) && AfterSweep(s, now).used <= s.used
  {
    KeptDistinct(s.recency, Live(s, now).Keys);
    TotalKept(s.entries, Live(s, now), s.recency);
  }

  lemma {:induction false} TotalKept(all: map<string, CacheEntry>, some: map<string, CacheEntry>, order: seq<string>)
    requires (forall k :: k in order ==> k in all) && forall k :: k in some ==> k in all && all[k] == some[k]
    ensures TotalSize(some, Kept(order, some.Keys)) <= TotalSize(all, order)
  {
    if order != [] {
      TotalKept(all, some, order[1..]);
      var rest := Kept(order[1..], some.Keys);
      if order[0] in some {
        TotalHead(some, order[0], rest);
      } else {
        assert Kept(order, some.Keys) == rest;
      }
    }
  }

  function ExpiredKeys(s: ShardState, now: int): set<string>
  {
    set k | k in s.entries && IsExpired(s.entries[k], now)
  }

  // ---- What every operation keeps ----

  lemma GetAccounted(s: ShardState, key: string, now: int)
    requires Accounted(s)
    ensures Accounted(DropExpired(s, key, now)) && Accounted(AfterGet(s, key, now))
  {
    RemoveKeyAccounted(s, key);
    var s' := DropExpired(s, key, now);
    if key in s'.entries {
      TouchAccounted(s', key);
    }
  }

  lemma ExpireAccounted(s: ShardState, key: string, ttl: int, now: int)
    requires Accounted(s)
    ensures Accounted(AfterExpire(s, key, ttl, now)) && Accounted(AfterPersist(s, key, now))
  {
    if Find(s, key, now).Some? {
      SameSizes(s.entries, AfterExpire(s, key, ttl, now).entries, s.recency);
      SameSizes(s.entries, AfterPersist(s, key, now).entries, s.recency);
    }
  }

  lemma {:induction false} SameSizes(a: map<string, CacheEntry>, b: map<string, CacheEntry>, order: seq<string>)
    requires forall k :: k in order ==> k in a && k in b && a[k].size_bytes == b[k].size_bytes
    ensures TotalSize(a, order) == TotalSize(b, order)
  {
    if order != [] {
      SameSizes(a, b, order[1..]);
    }
  }

  // An applied set keeps exactly the longest prefix of the recency order,
  // new key first, that fits the budget; an entry that fits is kept.
  lemma SetKeepsLongestPrefix(s: ShardState, key: string, value: string, opts: SetOptions, now: int, max: int)
    returns (n: nat)
    requires Accounted(s) && max >= 0 && SetApplies(s, key, opts, now)
    ensures var before := Stored(DropExpired(s, key, now), key, SetEntry(key, value, opts, now));
      var after := AfterSet(s, key, value, opts, now, max);
      before.recency == Touched(s.recency, key) && CutDown(before, after, max, n)
    ensures ApproxSize(key, value) <= max ==>
      Find(AfterSet(s, key, value, opts, now, max), key, now) == Some(SetEntry(key, value, opts, now))
  {
    hide LongestFit, Evicted, Accounted, Removed;
    var s', ent := DropExpired(s, key, now), SetEntry(key, value, opts, now);
    GetAccounted(s, key, now);
    StoredAccounted(s', key, ent);
    RemovedTwice(s.recency, key);
    n := EvictedKeepsPrefix(Stored(s', key, ent), max);
    if ApproxSize(key, value) <= max {
      HeadFits(Stored(s', key, ent), max, n);
    }
  }

  // So the value and deadline of an applied set that fits are those given.
  lemma SetStores(s: ShardState, key: string, value: string, opts: SetOptions, now: int, max: int)
    requires Accounted(s)
    ensures SetApplies(s, key, opts, now) && |key| + |value| + 64 <= max ==>
      var entries := AfterSet(s, key, value, opts, now, max).entries;
      && key in entries && entries[key].value == value
      && entries[key].expires_at == if opts.has_ttl && opts.ttl > 0 then Some(now + opts.ttl) else None
  {
    hide Accounted, AfterSet, CutDown, SetApplies;
    if SetApplies(s, key, opts, now) && |key| + |value| + 64 <= max {
      var n := SetKeepsLongestPrefix(s, key, value, opts, now, max);
    }
  }

  lemma HeadFits(s: ShardState, max: int, n: nat)
    requires Accounted(s) && s.recency != [] && LongestFit(s.entries, s.recency, max, n)
      && s.entries[s.recency[0]].size_bytes <= max
    ensures s.recency[0] in s.recency[..n]
  {
    assert s.recency[..1] == [s.recency[0]];
    assert s.recency[..1][1..] == [];
    assert TotalSize(s.entries, s.recency[..1]) == s.entries[s.recency[0]].size_bytes;
  }

  lemma {:induction false} RemovedTwice(order: seq<string>, key: string)
    ensures Removed(Removed(order, key), key) == Removed(order, key)
  {
    RemovedAbsent(Removed(order, key), key);
  }

  lemma IncrAccounted(s: ShardState, key: string, delta: int, now: int, max: int)
    requires Accounted(s) && max >= 0
    ensures Accounted(AfterIncr(s, key, delta, now, max))
    ensures Increased(s, key, delta, now).Some? ==> AfterIncr(s, key, delta, now, max).used <= max
  {
    var next := Increased(s, key, delta, now);
    if next.Some? {
      StoredAccounted(s, key, IncrEntry(s, key, next.value));
      var n := EvictedKeepsPrefix(Stored(s, key, IncrEntry(s, key, next.value)), max);
    }
  }

  // Restoring keeps the accounts exactly when it replaces nothing of any size.
  lemma RestoreAccounted(s: ShardState, key: string, ent: CacheEntry, now: int)
    requires Accounted(s)
    ensures Accounted(AfterRestore(s, key, ent, now))
       <==> IsExpired(ent, now) || key !in s.entries || s.entries[key].size_bytes == 0
  {
    if !IsExpired(ent, now) {
      StoredAccounted(s, key, ent);
      var good, got := Stored(s, key, ent), AfterRestore(s, key, ent, now);
      assert good.entries == got.entries && good.recency == got.recency;
    }
  }

  // An increased value is found afterwards exactly when the entry it increases
  // has not expired and the new one fits the budget.
  lemma IncrFound(s: ShardState, key: string, delta: int, now: int, max: int)
    requires Accounted(s) && max >= 0
    ensures var next := Increased(s, key, delta, now);
      next.Some? && Find(AfterIncr(s, key, delta, now, max), key, now) == Some(IncrEntry(s, key, next.value)) <==>
      && next.Some?
      && !(key in s.entries && IsExpired(s.entries[key], now))
      && ApproxSize(key, IntText(next.value)) <= max
  {
    hide LongestFit, Evicted, Accounted, IntText, WrapInt64, ParseInt64, Removed;
    var next := Increased(s, key, delta, now);
    if next.Some? {
      var ent := IncrEntry(s, key, next.value);
      var stored := Stored(s, key, ent);
      StoredAccounted(s, key, ent);
      var n := EvictedKeepsPrefix(stored, max);
      HeadKept(stored, max, n);
    }
  }

  // The most recent entry is kept exactly when it fits alone.
  lemma HeadKept(s: ShardState, max: int, n: nat)
    requires Accounted(s) && s.recency != [] && LongestFit(s.entries, s.recency, max, n)
    ensures s.recency[0] in s.recency[..n] <==> s.entries[s.recency[0]].size_bytes <= max
  {
    if s.entries[s.recency[0]].size_bytes <= max {
      HeadFits(s, max, n);
    } else {
      assert s.recency[..1] == [s.recency[0]];
      assert s.recency[..1][1..] == [];
      assert TotalSize(s.entries, s.recency[..1]) == s.entries[s.recency[0]].size_bytes;
    }
  }

  // An increment of an expired entry returns the delta and is lost.
  lemma IncrOfExpiredIsLost(s: ShardState, key: string, delta: int, now: int, max: int)
    requires Accounted(s) && max >= 0 && key in s.entries && IsExpired(s.entries[key], now)
    ensures Increased(s, key, delta, now) == Some(WrapInt64(delta))
      && Find(AfterIncr(s, key, delta, now, max), key, now) == None
  {
    hide Evicted, Accounted, IntText, WrapInt64;
    var ent := IncrEntry(s, key, WrapInt64(delta));
    StoredAccounted(s, key, ent);
    var n := EvictedKeepsPrefix(Stored(s, key, ent), max);
  }
}
