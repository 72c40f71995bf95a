// What one shard answers after its operations (cache/internal/storage/shard.go,
// lru.go), in values, times and positions of the recency list.
module CacheMeaning {
  import opened Wrappers
  import opened Decimal
  import opened Bags
  import opened Recency
  import opened CacheModel

  // What a get of the key answers at time t.
  function Answered(s: ShardState, key: string, t: int): Option<string>
  {
    var found := Find(s, key, t);
    if found.Some? then Some(found.value.value) else None
  }

  // The entry under a key is answered exactly up to its deadline.
  lemma AnsweredUpToDeadline(s: ShardState, key: string, t: int)
    ensures Answered(s, key, t) == if key !in s.entries then None
      else match s.entries[key].expires_at
        case None => Some(s.entries[key].value)
        case Some(deadline) => if t <= deadline then Some(s.entries[key].value) else None
    ensures ValueOf(Find(s, key, t)) == Answered(s, key, t)
  {
  }

  // After an applied set whose entry fits the budget, the value is answered at
  // every time up to now + ttl, when a positive TTL was given, and always
  // otherwise.
  lemma SetIsAnswered(s: ShardState, key: string, value: string, opts: SetOptions, now: int, max: int, t: int)
    requires Accounted(s) && |key| + |value| + 64 <= max
    requires !(opts.nx && Answered(s, key, now).Some?) && !(opts.xx && Answered(s, key, now).None?)
    ensures var after := AfterSet(s, key, value, opts, now, max);
      Answered(after, key, t) == if opts.has_ttl && opts.ttl > 0 && t > now + opts.ttl then None else Some(value)
  {
    hide Accounted, Evicted, Stored, DropExpired, LongestFit;
    var n := SetKeepsLongestPrefix(s, key, value, opts, now, max);
  }

  // It is charged for its key, its value and 64 bytes more.
  lemma SetCharges(s: ShardState, key: string, value: string, opts: SetOptions, now: int, max: int)
    requires Accounted(s) && |key| + |value| + 64 <= max
    requires !(opts.nx && Answered(s, key, now).Some?) && !(opts.xx && Answered(s, key, now).None?)
    ensures var after := AfterSet(s, key, value, opts, now, max);
      key in after.entries && after.entries[key].size_bytes == |key| + |value| + 64
  {
    hide Accounted, Evicted, Stored, DropExpired, LongestFit;
    var n := SetKeepsLongestPrefix(s, key, value, opts, now, max);
  }

  // A set that is not applied changes no answer.
  lemma RefusedSetIsUnseen(s: ShardState, key: string, value: string, opts: SetOptions, now: int, max: int, k: string,
                           t: int)
    requires (opts.nx && Answered(s, key, now).Some?) || (opts.xx && Answered(s, key, now).None?)
    requires t >= now
    ensures Answered(AfterSet(s, key, value, opts, now, max), k, t) == Answered(s, k, t)
  {
    hide Removed;
  }

  // EXPIRE moves the deadline of an answered key, PERSIST takes it away;
  // neither touches another key, or one that is not answered.
  lemma ExpireIsAnswered(s: ShardState, key: string, ttl: int, now: int, k: string, t: int)
    requires t >= now
    ensures var value, after := Answered(s, key, now), AfterExpire(s, key, ttl, now);
      Answered(after, k, t) == if k == key && value.Some? then (if t <= now + ttl then value else None)
                               else Answered(s, k, t)
    ensures var value, after := Answered(s, key, now), AfterPersist(s, key, now);
      Answered(after, k, t) == if k == key && value.Some? then value else Answered(s, k, t)
  {
  }

  lemma DeleteIsAnswered(s: ShardState, key: string, k: string, t: int)
    ensures Answered(RemoveKey(s, key), k, t) == if k == key then None else Answered(s, k, t)
  {
    hide Removed;
  }

  predicate Int64(n: int)
  {
    MIN_INT64 <= n <= MAX_INT64
  }

  lemma NoWrap(n: int)
    ensures Int64(WrapInt64(n)) && (WrapInt64(n) - n) % 0x1_0000_0000_0000_0000 == 0
    ensures Int64(n) ==> WrapInt64(n) == n
  {
  }

  // INCR adds: to the number a key answers, or to zero.
  lemma IncrAdds(s: ShardState, key: string, delta: int, now: int, n: int)
    requires Int64(n) && Answered(s, key, now) == Some(IntText(n))
    ensures Increased(s, key, delta, now) == Some(WrapInt64(n + delta))
    ensures Int64(n + delta) ==> Increased(s, key, delta, now) == Some(n + delta)
  {
    hide IntText;
    IntRoundTrip(n);
    NoWrap(n + delta);
  }

  lemma IncrOfNothing(s: ShardState, key: string, delta: int, now: int)
    requires Answered(s, key, now).None? && Int64(delta)
    ensures Increased(s, key, delta, now) == Some(delta)
  {
    NoWrap(delta);
  }

  // And the sum is answered afterwards, until the deadline the key had.
  lemma IncrIsAnswered(s: ShardState, key: string, delta: int, now: int, max: int, n: int)
    requires Accounted(s) && Int64(n) && Int64(n + delta) && Answered(s, key, now) == Some(IntText(n))
    requires |key| + |IntText(n + delta)| + 64 <= max
    ensures var after := AfterIncr(s, key, delta, now, max);
      key in after.entries && after.entries[key].value == IntText(n + delta)
      && after.entries[key].expires_at == s.entries[key].expires_at
  {
    hide Accounted, Evicted, Stored, IntText, Increased;
    IncrAdds(s, key, delta, now, n);
    IncrFound(s, key, delta, now, max);
  }

  // ---- Recency ----

  lemma {:induction false} RemovedIsFilter(order: seq<string>, key: string)
    ensures Removed(order, key) == Filter(k => k != key, order)
  {
    if order != [] {
      RemovedIsFilter(order[1..], key);
    }
  }

  // An answered get moves its key to the front and keeps the order of the
  // others; a get that answers nothing at most drops the key.
  lemma GetMovesToFront(s: ShardState, key: string, now: int)
    requires Accounted(s)
    ensures var order := AfterGet(s, key, now).recency;
      if Answered(s, key, now).Some? then order == [key] + Filter(k => k != key, s.recency)
      else order == Filter(k => k != key, s.recency)
  {
    RemovedIsFilter(s.recency, key);
    if key !in s.entries {
      RemovedAbsent(s.recency, key);
    }
  }

  // So does a set that is applied and fits, with what fits after it.
  lemma SetMovesToFront(s: ShardState, key: string, value: string, opts: SetOptions, now: int, max: int)
    requires Accounted(s) && |key| + |value| + 64 <= max
    requires !(opts.nx && Answered(s, key, now).Some?) && !(opts.xx && Answered(s, key, now).None?)
    ensures var order := AfterSet(s, key, value, opts, now, max).recency;
      order != [] && order <= [key] + Filter(k => k != key, s.recency)
  {
    hide Accounted, Evicted, TotalSize, Removed, Filter;
    var n := SetKeepsLongestPrefix(s, key, value, opts, now, max);
    RemovedIsFilter(s.recency, key);
    var after := AfterSet(s, key, value, opts, now, max);
    assert after.recency == Touched(s.recency, key)[..n];
    assert key in after.entries;
    assert key in after.recency by { SetAccounted(s, key, value, opts, now, max); }
  }

  lemma SetAccounted(s: ShardState, key: string, value: string, opts: SetOptions, now: int, max: int)
    requires Accounted(s) && max >= 0 && SetApplies(s, key, opts, now)
    ensures Accounted(AfterSet(s, key, value, opts, now, max))
  {
    hide Accounted, Evicted;
    var n := SetKeepsLongestPrefix(s, key, value, opts, now, max);
  }
}
