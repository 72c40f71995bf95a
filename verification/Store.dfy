// The store's shards together, as one timed map
// (cache/internal/storage/store.go).
module StoreModel {
  import opened Wrappers
  import opened Recency
  import opened CacheModel

  // The atomic steps: one operation on one shard at one time.
  datatype Op =
    | Get(key: string)
    | Exists(key: string)
    | Set(key: string, value: string, opts: SetOptions)
    | Delete(key: string)
    | Expire(key: string, ttl: int)
    | Persist(key: string)
    | Flush(shard: nat)
    | Sweep(shard: nat)

  datatype Store = Store(shards: seq<ShardState>, max: nat, hash: string -> nat) {
    // shardFor
    function Home(key: string): (i: nat)
      requires |shards| > 0
      ensures i < |shards|
    {
      hash(key) % |shards|
    }
  }

  predicate Enabled(st: Store, op: Op)
  {
    |st.shards| > 0 && match op case Flush(i) => i < |st.shards| case Sweep(i) => i < |st.shards| case _ => true
  }

  function Target(st: Store, op: Op): (i: nat)
    requires Enabled(st, op)
    ensures i < |st.shards|
  {
    match op
    case Flush(i) => i
    case Sweep(i) => i
    case _ => st.Home(op.key)
  }

  // What the step does to its shard.
  function ShardStep(s: ShardState, op: Op, now: int, max: nat): ShardState
  {
    match op
    case Get(key) => AfterGet(s, key, now)
    case Exists(key) => DropExpired(s, key, now)
    case Set(key, value, opts) => AfterSet(s, key, value, opts, now, max)
    case Delete(key) => RemoveKey(s, key)
    case Expire(key, ttl) => AfterExpire(s, key, ttl, now)
    case Persist(key) => AfterPersist(s, key, now)
    case Flush(_) => EMPTY
    case Sweep(_) => AfterSweep(s, now)
  }

  function Step(st: Store, op: Op, now: int): Store
    requires Enabled(st, op)
  {
    var i := Target(st, op);
    st.(shards := st.shards[i := ShardStep(st.shards[i], op, now, st.max)])
  }

  // ---- Invariants of every run ----

  ghost predicate Good(st: Store)
  {
    |st.shards| > 0 && forall i :: 0 <= i < |st.shards| ==>
      && Accounted(st.shards[i]) && st.shards[i].used <= st.max
      && forall k :: k in st.shards[i].entries ==> st.Home(k) == i
  }

  // Keys only appear by a set of that key.
  lemma StepKeys(s: ShardState, op: Op, now: int, max: nat)
    requires Accounted(s)
    ensures forall k :: k in ShardStep(s, op, now, max).entries ==> k in s.entries || (op.Set? && k == op.key)
  {
    match op
    case Set(key, value, opts) =>
      if SetApplies(s, key, opts, now) {
        var n := SetKeepsLongestPrefix(s, key, value, opts, now, max);
      }
    case _ =>
  }

  lemma ShardStepGood(s: ShardState, op: Op, now: int, max: nat)
    requires Accounted(s) && s.used <= max
    ensures Accounted(ShardStep(s, op, now, max)) && ShardStep(s, op, now, max).used <= max
  {
    hide Accounted, Evicted;
    match op
    case Get(key) => GetAccounted(s, key, now);
    case Exists(key) => GetAccounted(s, key, now);
    case Set(key, value, opts) =>
      GetAccounted(s, key, now);
      if SetApplies(s, key, opts, now) {
        var n := SetKeepsLongestPrefix(s, key, value, opts, now, max);
      }
    case Delete(key) => RemoveKeyAccounted(s, key);
    case Expire(key, ttl) => ExpireAccounted(s, key, ttl, now);
    case Persist(key) => ExpireAccounted(s, key, 0, now);
    case Flush(_) => EmptyAccounted();
    case Sweep(_) => SweepAccounted(s, now);
  }

  lemma RemovedUses(s: ShardState, key: string)
    ensures RemoveKey(s, key).used <= s.used && RemoveKey(s, key).entries == s.entries - {key}
  {
  }

  lemma EmptyAccounted()
    ensures Accounted(EMPTY)
  {
  }

  lemma StepGood(st: Store, op: Op, now: int)
    requires Good(st) && Enabled(st, op)
    ensures Good(Step(st, op, now))
  {
    hide Accounted, ShardStep;
    var i := Target(st, op);
    ShardStepGood(st.shards[i], op, now, st.max);
    StepKeys(st.shards[i], op, now, st.max);
  }

  // ---- The map the store stands for ----

  // The map that never forgets: every applied write, nothing evicted.
  function Written(m: map<string, CacheEntry>, st: Store, op: Op, now: int): map<string, CacheEntry>
    requires Enabled(st, op)
  {
    var s := st.shards[Target(st, op)];
    match op
    case Set(key, value, opts) => if SetApplies(s, key, opts, now) then m[key := SetEntry(key, value, opts, now)] else m
    case Delete(key) => m - {key}
    case Expire(key, ttl) => if Find(s, key, now).Some?
      && key in m then m[key := m[key].(expires_at := Some(now + ttl))] else m
    case Persist(key) => if Find(s, key, now).Some? && key in m then m[key := m[key].(expires_at := None)] else m
    case Flush(i) => map k | k in m && st.Home(k) != i :: m[k]
    case _ => m
  }

  // Everything stored is what was last written.
  ghost predicate Remembers(st: Store, m: map<string, CacheEntry>)
  {
    forall i, k :: 0 <= i < |st.shards| && k in st.shards[i].entries ==> k in m && m[k] == st.shards[i].entries[k]
  }

  // Everything written and not expired is stored.
  ghost predicate Complete(st: Store, m: map<string, CacheEntry>, now: int)
  {
    |st.shards| > 0 && forall k :: k in m && !IsExpired(m[k], now) ==> k in st.shards[st.Home(k)].entries
  }

  // The step throws no live entry out.
  ghost predicate EvictsNothing(st: Store, op: Op, now: int)
    requires Enabled(st, op)
  {
    op.Set? && SetApplies(st.shards[Target(st, op)], op.key, op.opts, now) ==>
      Stored(DropExpired(st.shards[Target(st, op)], op.key, now), op.key, SetEntry(op.key, op.value, op.opts, now)).used
        <= st.max
  }

  lemma SetSubset(s: ShardState, key: string, value: string, opts: SetOptions, now: int, max: nat)
    requires Accounted(s) && SetApplies(s, key, opts, now)
    ensures var after := AfterSet(s, key, value, opts, now, max);
      forall k :: k in after.entries ==>
        if k == key then after.entries[k] == SetEntry(key, value, opts, now)
        else k in s.entries && after.entries[k] == s.entries[k]
    ensures Stored(DropExpired(s, key, now), key, SetEntry(key, value, opts, now)).used <= max ==>
      AfterSet(s, key, value, opts, now, max).entries
        == DropExpired(s, key, now).entries[key := SetEntry(key, value, opts, now)]
  {
    hide Accounted, Removed;
    var n := SetKeepsLongestPrefix(s, key, value, opts, now, max);
  }

  // Entries after a step are entries before it or the one it wrote.
  lemma StepEntries(s: ShardState, op: Op, now: int, max: nat)
    requires Accounted(s)
    ensures op.Get? || op.Exists? || op.Delete? ==> forall k :: k in ShardStep(s, op, now, max).entries ==>
      k in s.entries && ShardStep(s, op, now, max).entries[k] == s.entries[k]
    ensures op.Get? || op.Exists? || op.Delete? ==>
      forall k :: k in s.entries && k !in ShardStep(s, op, now, max).entries ==>
      k == op.key && (op.Delete? || IsExpired(s.entries[k], now))
    ensures op.Sweep? ==> ShardStep(s, op, now, max).entries == Live(s, now)
  {
    hide Accounted, Removed;
  }

  ghost predicate Agrees(entries: map<string, CacheEntry>, m: map<string, CacheEntry>, k: string)
  {
    k in entries ==> k in m && m[k] == entries[k]
  }

  lemma ShardRemembers(st: Store, m: map<string, CacheEntry>, op: Op, now: int, k: string)
    requires Good(st) && Enabled(st, op) && Agrees(st.shards[Target(st, op)].entries, m, k)
    ensures Agrees(ShardStep(st.shards[Target(st, op)], op, now, st.max).entries, Written(m, st, op, now), k)
  {
    hide Accounted, AfterSet, Removed, Stored;
    var s := st.shards[Target(st, op)];
    StepEntries(s, op, now, st.max);
    match op
    case Set(key, value, opts) =>
      if SetApplies(s, key, opts, now) {
        SetSubset(s, key, value, opts, now, st.max);
      } else {
        SetRefused(s, key, value, opts, now, st.max);
      }
    case _ =>
  }

  lemma SetRefused(s: ShardState, key: string, value: string, opts: SetOptions, now: int, max: nat)
    requires !SetApplies(s, key, opts, now)
    ensures AfterSet(s, key, value, opts, now, max) == DropExpired(s, key, now)
    ensures forall k :: k in DropExpired(s, key, now).entries ==>
      k in s.entries && DropExpired(s, key, now).entries[k] == s.entries[k]
    ensures forall k :: k in s.entries && k !in DropExpired(s, key, now).entries ==>
      k == key && IsExpired(s.entries[k], now)
  {
  }

  lemma WrittenElsewhere(m: map<string, CacheEntry>, st: Store, op: Op, now: int)
    requires Enabled(st, op)
    ensures forall k :: st.Home(k) != Target(st, op) ==>
      (k in m <==> k in Written(m, st, op, now)) && (k in m ==> Written(m, st, op, now)[k] == m[k])
  {
  }

  lemma StepRemembers(st: Store, m: map<string, CacheEntry>, op: Op, now: int)
    requires Good(st) && Enabled(st, op) && Remembers(st, m)
    ensures Remembers(Step(st, op, now), Written(m, st, op, now))
  {
    hide Accounted, ShardStep, Written, Target;
    WrittenElsewhere(m, st, op, now);
    var t, st', m' := Target(st, op), Step(st, op, now), Written(m, st, op, now);
    forall i, k | 0 <= i < |st'.shards| ensures Agrees(st'.shards[i].entries, m', k) {
      if i == t {
        ShardRemembers(st, m, op, now, k);
      } else if k in st.shards[i].entries {
        assert st.Home(k) == i;
      }
    }
    assert forall i, k :: 0 <= i < |st'.shards| && k in st'.shards[i].entries ==> Agrees(st'.shards[i].entries, m', k);
  }

  lemma ShardComplete(st: Store, m: map<string, CacheEntry>, op: Op, now: int, k: string)
    requires Good(st) && Enabled(st, op) && Remembers(st, m) && Complete(st, m, now) && EvictsNothing(st, op, now)
    requires k in Written(m, st, op, now) && !IsExpired(Written(m, st, op, now)[k], now) && st.Home(k) == Target(st, op)
    ensures k in ShardStep(st.shards[Target(st, op)], op, now, st.max).entries
  {
    hide Accounted, AfterSet, Removed, Stored;
    var s := st.shards[Target(st, op)];
    assert forall j :: j in s.entries ==> j in m && m[j] == s.entries[j];
    StepEntries(s, op, now, st.max);
    match op
    case Set(key, value, opts) =>
      if SetApplies(s, key, opts, now) {
        SetSubset(s, key, value, opts, now, st.max);
      } else {
        SetRefused(s, key, value, opts, now, st.max);
      }
    case _ =>
  }

  lemma StepComplete(st: Store, m: map<string, CacheEntry>, op: Op, now: int)
    requires Good(st) && Enabled(st, op) && Remembers(st, m) && Complete(st, m, now) && EvictsNothing(st, op, now)
    ensures Complete(Step(st, op, now), Written(m, st, op, now), now)
  {
    hide Accounted, ShardStep, Written;
    var st' := Step(st, op, now);
    WrittenElsewhere(m, st, op, now);
    forall k | k in Written(m, st, op, now) && !IsExpired(Written(m, st, op, now)[k], now)
      ensures k in st'.shards[st'.Home(k)].entries
    {
      if st.Home(k) == Target(st, op) {
        ShardComplete(st, m, op, now, k);
      } else {
        assert k in m;
      }
    }
  }

  // ---- Runs ----

  datatype Event = Event(now: int, op: Op)

  predicate Runnable(st: Store, trace: seq<Event>)
  {
    forall i :: 0 <= i < |trace| ==> Enabled(st, trace[i].op)
  }

  predicate Until(trace: seq<Event>, now: int)
  {
    forall i :: 0 <= i < |trace| ==> trace[i].now <= now
  }

  function Run(st: Store, trace: seq<Event>): Store
    requires Runnable(st, trace)
    ensures |Run(st, trace).shards| == |st.shards| && Run(st, trace).max == st.max && Run(st, trace).hash == st.hash
  {
    if trace == [] then st
    else Step(Run(st, trace[..|trace| - 1]), trace[|trace| - 1].op, trace[|trace| - 1].now)
  }

  function History(st: Store, trace: seq<Event>): map<string, CacheEntry>
    requires Runnable(st, trace)
  {
    if trace == [] then map[]
    else Written(History(st, trace[..|trace| - 1]), Run(st, trace[..|trace| - 1]), trace[|trace| - 1].op,
                 trace[|trace| - 1].now)
  }

  // Time does not go back.
  ghost predicate Chronological(trace: seq<Event>)
  {
    forall i, j :: 0 <= i < j < |trace| ==> trace[i].now <= trace[j].now
  }

  ghost predicate NothingEvicted(st: Store, trace: seq<Event>)
    requires Runnable(st, trace)
  {
    trace == [] || (NothingEvicted(st, trace[..|trace| - 1])
      && EvictsNothing(Run(st, trace[..|trace| - 1]), trace[|trace| - 1].op, trace[|trace| - 1].now))
  }

  predicate Fresh(st: Store)
  {
    |st.shards| > 0 && forall s :: s in st.shards ==> s == EMPTY
  }

  // Over every interleaving of steps: the accounts balance, no shard is over
  // budget, each key is in its own shard, and what is stored is what was
  // last written; with nothing evicted, everything unexpired is stored.
  lemma {:induction false} RunIsTimedMap(st: Store, trace: seq<Event>, now: int)
    requires Fresh(st) && Runnable(st, trace) && Chronological(trace)
    requires Until(trace, now)
    ensures Good(Run(st, trace)) && Remembers(Run(st, trace), History(st, trace))
    ensures NothingEvicted(st, trace) ==> Complete(Run(st, trace), History(st, trace), now)
  {
    if trace == [] {
      EmptyAccounted();
      assert forall i :: 0 <= i < |st.shards| ==> st.shards[i] in st.shards;
    } else {
      hide Accounted, Written, Step, Good, Remembers;
      var front, last := trace[..|trace| - 1], trace[|trace| - 1];
      RunIsTimedMap(st, front, last.now);
      var before, m := Run(st, front), History(st, front);
      StepGood(before, last.op, last.now);
      StepRemembers(before, m, last.op, last.now);
      if NothingEvicted(st, trace) {
        StepComplete(before, m, last.op, last.now);
        LaterComplete(Run(st, trace), History(st, trace), last.now, now);
      }
    }
  }

  lemma LaterComplete(st: Store, m: map<string, CacheEntry>, now: int, later: int)
    requires Complete(st, m, now) && now <= later
    ensures Complete(st, m, later)
  {
  }

  // ---- The timed map of a trace, in values and deadlines ----

  datatype Note = Note(value: string, deadline: Option<int>)

  // What a client is told of a key.
  function Told(st: Store, key: string, now: int): Option<string>
    requires |st.shards| > 0
  {
    var found := Find(st.shards[st.Home(key)], key, now);
    if found.Some? then Some(found.value.value) else None
  }

  // What a map of notes tells of it.
  function Looked(m: map<string, Note>, key: string, now: int): Option<string>
  {
    if key !in m then None
    else match m[key].deadline
      case None => Some(m[key].value)
      case Some(deadline) => if now <= deadline then Some(m[key].value) else None
  }

  function Deadline(opts: SetOptions, now: int): Option<int>
  {
    if opts.has_ttl && opts.ttl > 0 then Some(now + opts.ttl) else None
  }

  // What a step notes in a map of n hash classes, the key being present or
  // not: NX writes where it is not, XX, EXPIRE and PERSIST where it is.
  function Noted(m: map<string, Note>, op: Op, now: int, present: bool, hash: string -> nat, n: nat): map<string, Note>
    requires n > 0
  {
    match op
    case Set(key, value, opts) =>
      if (opts.nx && present) || (opts.xx && !present) then m else m[key := Note(value, Deadline(opts, now))]
    case Delete(key) => m - {key}
    case Expire(key, ttl) => if present && key in m then m[key := Note(m[key].value, Some(now + ttl))] else m
    case Persist(key) => if present && key in m then m[key := Note(m[key].value, None)] else m
    case Flush(i) => map k | k in m && hash(k) % n != i :: m[k]
    case _ => m
  }

  function KeyOf(op: Op): Option<string>
  {
    match op
    case Flush(_) => None
    case Sweep(_) => None
    case _ => Some(op.key)
  }

  // The notes of a trace, presence being what the notes themselves tell.
  function Ledger(trace: seq<Event>, hash: string -> nat, n: nat): map<string, Note>
    requires n > 0
  {
    if trace == [] then map[]
    else
      var front, last := Ledger(trace[..|trace| - 1], hash, n), trace[|trace| - 1];
      var key := KeyOf(last.op);
      Noted(front, last.op, last.now, key.Some? && Looked(front, key.value, last.now).Some?, hash, n)
  }

  // The notes of a run, presence being what the store tells.
  function Log(st: Store, trace: seq<Event>): map<string, Note>
    requires |st.shards| > 0 && Runnable(st, trace)
  {
    if trace == [] then map[]
    else
      var front, before, last := Log(st, trace[..|trace| - 1]), Run(st, trace[..|trace| - 1]), trace[|trace| - 1];
      var key := KeyOf(last.op);
      Noted(front, last.op, last.now, key.Some? && Told(before, key.value, last.now).Some?, st.hash, |st.shards|)
  }

  function Notes(m: map<string, CacheEntry>): map<string, Note>
  {
    map k | k in m :: Note(m[k].value, m[k].expires_at)
  }

  lemma WrittenNotes(st: Store, m: map<string, CacheEntry>, op: Op, now: int)
    requires Enabled(st, op)
    ensures var key := KeyOf(op);
      Notes(Written(m, st, op, now))
        == Noted(Notes(m), op, now, key.Some? && Told(st, key.value, now).Some?, st.hash, |st.shards|)
  {
    hide IsExpired;
    match op
    case Set(key, value, opts) =>
    case Expire(key, ttl) =>
    case Persist(key) =>
    case Delete(key) =>
    case Flush(i) =>
    case _ =>
  }

  lemma {:induction false} HistoryIsLog(st: Store, trace: seq<Event>)
    requires |st.shards| > 0 && Runnable(st, trace)
    ensures Notes(History(st, trace)) == Log(st, trace)
  {
    if trace != [] {
      hide Written, Step, Noted, Told, Notes;
      var front, last := trace[..|trace| - 1], trace[|trace| - 1];
      HistoryIsLog(st, front);
      WrittenNotes(Run(st, front), History(st, front), last.op, last.now);
    } else {
      assert Notes(map[]) == map[];
    }
  }

  // A get tells the last value noted, and nothing past its deadline; with
  // nothing evicted it tells exactly what the notes do.
  lemma GetReturnsLastWrite(st: Store, trace: seq<Event>, key: string, now: int)
    requires Fresh(st) && Runnable(st, trace) && Chronological(trace)
    requires Until(trace, now)
    ensures var told, noted := Told(Run(st, trace), key, now), Looked(Log(st, trace), key, now);
      (told.Some? ==> told == noted) && (NothingEvicted(st, trace) ==> told == noted)
  {
    hide Good, History, NothingEvicted, Log, Run;
    RunIsTimedMap(st, trace, now);
    HistoryIsLog(st, trace);
  }

  // With nothing evicted, the store tells what the notes tell.
  lemma SameView(st: Store, m: map<string, CacheEntry>, now: int)
    requires |st.shards| > 0 && Remembers(st, m) && Complete(st, m, now)
    ensures forall key :: Told(st, key, now) == Looked(Notes(m), key, now)
  {
  }

  lemma {:induction false} LogIsLedger(st: Store, trace: seq<Event>)
    requires Fresh(st) && Runnable(st, trace) && Chronological(trace) && NothingEvicted(st, trace)
    ensures Log(st, trace) == Ledger(trace, st.hash, |st.shards|)
  {
    if trace != [] {
      hide Written, Noted, Step, Good, Remembers, Complete, Told, Looked, EvictsNothing, Notes;
      var front, last := trace[..|trace| - 1], trace[|trace| - 1];
      LogIsLedger(st, front);
      HistoryIsLog(st, front);
      RunIsTimedMap(st, front, last.now);
      SameView(Run(st, front), History(st, front), last.now);
    }
  }

  // With nothing evicted, what the store tells of every key, after any
  // interleaving of steps, is what the ledger of the trace tells.
  lemma ViewIsLedger(st: Store, trace: seq<Event>, now: int)
    requires Fresh(st) && Runnable(st, trace) && Chronological(trace) && Until(trace, now) && NothingEvicted(st, trace)
    ensures forall key :: Told(Run(st, trace), key, now) == Looked(Ledger(trace, st.hash, |st.shards|), key, now)
  {
    hide Good, Remembers, Complete, History, NothingEvicted, Told, Looked, Ledger, Run, Log;
    LogIsLedger(st, trace);
    HistoryIsLog(st, trace);
    RunIsTimedMap(st, trace, now);
    SameView(Run(st, trace), History(st, trace), now);
  }

  // Reads and sweeps change nothing that is still live, now or later.
  lemma ReadsKeepView(s: ShardState, op: Op, now: int, later: int, max: nat)
    requires Accounted(s) && (op.Get? || op.Exists? || op.Sweep?) && now <= later
    ensures Live(ShardStep(s, op, now, max), later) == Live(s, later)
  {
    hide Accounted;
  }
}

module ShardedCache {
  import opened Wrappers
  import opened Recency
  import opened CacheModel
  import opened StoreModel
  import opened Cache

  function EntryTotal(states: seq<ShardState>): nat
  {
    if states == [] then 0 else EntryTotal(states[..|states| - 1]) + |states[|states| - 1].entries|
  }

  function ByteTotal(states: seq<ShardState>): int
  {
    if states == [] then 0 else ByteTotal(states[..|states| - 1]) + states[|states| - 1].used
  }

  lemma {:induction false} TotalsUpdate(states: seq<ShardState>, i: nat, s: ShardState)
    requires i < |states|
    ensures EntryTotal(states[i := s]) == EntryTotal(states) - |states[i].entries| + |s.entries|
    ensures ByteTotal(states[i := s]) == ByteTotal(states) - states[i].used + s.used
  {
    var n := |states| - 1;
    if i < n {
      assert states[i := s][..n] == states[..n][i := s];
      TotalsUpdate(states[..n], i, s);
    } else {
      assert states[i := s][..n] == states[..n];
    }
  }

  lemma {:induction false} EmptyTotals(states: seq<ShardState>)
    requires forall i :: 0 <= i < |states| ==> states[i] == EMPTY
    ensures EntryTotal(states) == 0 && ByteTotal(states) == 0
  {
    if states != [] {
      EmptyTotals(states[..|states| - 1]);
    }
  }

  // The keys that live in shard i of n.
  function KeysAt(keys: seq<string>, i: nat, n: nat, hash: string -> nat): set<string>
    requires n > 0
  {
    set k | k in keys && hash(k) % n == i
  }

  lemma NoKeys(n: nat, hash: string -> nat)
    requires n > 0
    ensures forall i: nat :: KeysAt([], i, n, hash) == {}
  {
  }

  lemma OneMoreKey(keys: seq<string>, key: string, n: nat, hash: string -> nat)
    requires n > 0
    ensures forall i: nat ::
      KeysAt(keys + [key], i, n, hash) == KeysAt(keys, i, n, hash) + (if hash(key) % n == i then {key} else {})
  {
  }

  lemma ShardGood(st: Store, i: nat)
    requires Good(st) && i < |st.shards|
    ensures Accounted(st.shards[i])
  {
  }

  lemma SweptEntries(s: ShardState, now: int)
    ensures AfterSweep(s, now).entries == Live(s, now)
  {
  }

  // The totals after a step are those before, less the shard's old
  // contribution, plus its new one.
  lemma StepTotals(st: Store, op: Op, now: int)
    requires Good(st) && Enabled(st, op)
    ensures Good(Step(st, op, now))
    ensures var i := Target(st, op); var s, s' := st.shards[i], ShardStep(st.shards[i], op, now, st.max);
      && EntryTotal(Step(st, op, now).shards) == EntryTotal(st.shards) - |s.entries| + |s'.entries|
      && ByteTotal(Step(st, op, now).shards) == ByteTotal(st.shards) - s.used + s'.used
  {
    hide Good, ShardStep;
    StepGood(st, op, now);
    TotalsUpdate(st.shards, Target(st, op), ShardStep(st.shards[Target(st, op)], op, now, st.max));
  }

  class ShardedStore {
    const shards: seq<Shard>
    const metrics: Metrics
    const hash: string -> nat

    // The shards are different objects that share the gauges.
    ghost predicate Wired()
    {
      && |shards| > 0
      && (forall i, j :: 0 <= i < j < |shards| ==> shards[i] != shards[j])
      && forall i :: 0 <= i < |shards| ==> shards[i].metrics == metrics && shards[i].max_bytes == shards[0].max_bytes
    }

    ghost function Model(): Store
      requires Wired()
      reads shards
    {
      Store(seq(|shards|, i requires 0 <= i < |shards| reads shards => shards[i].State()), shards[0].max_bytes, hash)
    }

    // Every shard's own invariant, and the gauges are the totals over shards.
    ghost predicate Valid()
      reads shards, metrics
    {
      && Wired() && Good(Model())
      && metrics.current_entries == EntryTotal(Model().shards) && metrics.memory_bytes == ByteTotal(Model().shards)
    }

    constructor (num_shards: int, max_memory_bytes: int, m: Metrics, hash: string -> nat)
      requires m.current_entries == 0 && m.memory_bytes == 0
      ensures Valid() && Fresh(Model()) && metrics == m && this.hash == hash
      ensures |shards| == (if num_shards < 1 then 1 else num_shards) && fresh(shards)
      ensures Model().max == if max_memory_bytes < |shards| then 1 else max_memory_bytes / |shards|
    {
      var n: nat := if num_shards < 1 then 1 else num_shards;
      // the division truncates; a budget below one byte per shard becomes one
      var per_shard: nat := if max_memory_bytes < n then 1 else max_memory_bytes / n;
      var made: seq<Shard> := [];
      for i := 0 to n
        invariant |made| == i && fresh(made) && m.current_entries == 0 && m.memory_bytes == 0
        invariant forall a, b :: 0 <= a < b < i ==> made[a] != made[b]
        invariant forall a :: 0 <= a < i ==>
          made[a].State() == EMPTY && made[a].max_bytes == per_shard && made[a].metrics == m
      {
        var sh := new Shard(per_shard, m);
        made := made + [sh];
      }
      shards, metrics, this.hash := made, m, hash;
      new;
      EmptyTotals(Model().shards);
      EmptyAccounted();
      assert forall s :: s in Model().shards ==> s == EMPTY;
    }

    method Get(key: string, now: int) returns (value: Option<string>)
      requires Valid()
      modifies shards, metrics
      ensures Valid() && Model() == Step(old(Model()), Op.Get(key), now)
      ensures value == ValueOf(Find(old(Model()).shards[old(Model()).Home(key)], key, now))
    {
      hide Good, Accounted, AfterGet, AfterSet, AfterExpire, AfterPersist, DropExpired, RemoveKey, EntryTotal,
           ByteTotal;
      var i := hash(key) % |shards|;
      ShardGood(Model(), i);
      value := shards[i].Get(key, now);
      StepTotals(old(Model()), Op.Get(key), now);
      assert Model().shards == Step(old(Model()), Op.Get(key), now).shards;
    }

    method Exists(key: string, now: int) returns (found: bool)
      requires Valid()
      modifies shards, metrics
      ensures Valid() && Model() == Step(old(Model()), Op.Exists(key), now)
      ensures found <==> Find(old(Model()).shards[old(Model()).Home(key)], key, now).Some?
    {
      hide Good, Accounted, AfterGet, AfterSet, AfterExpire, AfterPersist, DropExpired, RemoveKey, EntryTotal,
           ByteTotal;
      var i := hash(key) % |shards|;
      ShardGood(Model(), i);
      found := shards[i].Exists(key, now);
      StepTotals(old(Model()), Op.Exists(key), now);
      assert Model().shards == Step(old(Model()), Op.Exists(key), now).shards;
    }

    method Set(key: string, value: string, opts: SetOptions, now: int) returns (applied: bool)
      requires Valid()
      modifies shards, metrics
      ensures Valid() && Model() == Step(old(Model()), Op.Set(key, value, opts), now)
      ensures applied <==> SetApplies(old(Model()).shards[old(Model()).Home(key)], key, opts, now)
    {
      hide Good, Accounted, AfterGet, AfterSet, AfterExpire, AfterPersist, DropExpired, RemoveKey, EntryTotal,
           ByteTotal;
      var i := hash(key) % |shards|;
      ShardGood(Model(), i);
      applied := shards[i].Set(key, value, opts, now);
      StepTotals(old(Model()), Op.Set(key, value, opts), now);
      assert Model().shards == Step(old(Model()), Op.Set(key, value, opts), now).shards;
    }

    // Deletes the keys one after another and counts those that were there.
    method Delete(keys: seq<string>) returns (count: nat)
      requires Valid()
      modifies shards, metrics
      ensures Valid() && count == EntryTotal(old(Model()).shards) - EntryTotal(Model().shards)
      ensures forall i :: 0 <= i < |shards| ==>
        shards[i].entries == old(shards[i].entries) - KeysAt(keys, i, |shards|, hash)
    {
      hide Good, Accounted, EntryTotal, ByteTotal, Step, KeysAt;
      count := 0;
      NoKeys(|shards|, hash);
      for n := 0 to |keys|
        invariant Valid() && count == EntryTotal(old(Model()).shards) - EntryTotal(Model().shards)
        invariant forall i :: 0 <= i < |shards| ==>
          shards[i].entries == old(shards[i].entries) - KeysAt(keys[..n], i, |shards|, hash)
      {
        assert keys[..n + 1] == keys[..n] + [keys[n]];
        OneMoreKey(keys[..n], keys[n], |shards|, hash);
        var present := DeleteOne(keys[n]);
        if present {
          count := count + 1;
        }
      }
      assert keys[..|keys|] == keys;
    }

    method DeleteOne(key: string) returns (present: bool)
      requires Valid()
      modifies shards, metrics
      ensures Valid() && Model() == Step(old(Model()), Op.Delete(key), 0)
      ensures EntryTotal(Model().shards) == EntryTotal(old(Model()).shards) - (if present then 1 else 0)
      ensures forall i :: 0 <= i < |shards| ==>
        shards[i].entries == old(shards[i].entries) - (if hash(key) % |shards| == i then {key} else {})
    {
      hide Good, Accounted, AfterGet, AfterSet, AfterExpire, AfterPersist, DropExpired, RemoveKey, EntryTotal,
           ByteTotal;
      var i := hash(key) % |shards|;
      ShardGood(Model(), i);
      present := shards[i].Delete(key);
      StepTotals(old(Model()), Op.Delete(key), 0);
      assert Model().shards == Step(old(Model()), Op.Delete(key), 0).shards;
      RemovedUses(old(shards[i].State()), key);
      TotalsUpdate(old(Model()).shards, i, shards[i].State());
      if present {
        OneFewer(old(shards[i].entries), key);
      }
    }

    method Expire(key: string, ttl: int, now: int) returns (ok: bool)
      requires Valid()
      modifies shards
      ensures Valid() && Model() == Step(old(Model()), Op.Expire(key, ttl), now)
      ensures ok <==> Find(old(Model()).shards[old(Model()).Home(key)], key, now).Some?
    {
      hide Good, Accounted, AfterGet, AfterSet, AfterExpire, AfterPersist, DropExpired, RemoveKey, EntryTotal,
           ByteTotal;
      var i := hash(key) % |shards|;
      ShardGood(Model(), i);
      ok := shards[i].Expire(key, ttl, now);
      StepTotals(old(Model()), Op.Expire(key, ttl), now);
      assert Model().shards == Step(old(Model()), Op.Expire(key, ttl), now).shards;
    }

    method Persist(key: string, now: int) returns (cleared: bool)
      requires Valid()
      modifies shards
      ensures Valid() && Model() == Step(old(Model()), Op.Persist(key), now)
      ensures var found := Find(old(Model()).shards[old(Model()).Home(key)], key, now);
        cleared <==> found.Some? && found.value.expires_at.Some?
    {
      hide Good, Accounted, AfterGet, AfterSet, AfterExpire, AfterPersist, DropExpired, RemoveKey, EntryTotal,
           ByteTotal;
      var i := hash(key) % |shards|;
      ShardGood(Model(), i);
      cleared := shards[i].Persist(key, now);
      StepTotals(old(Model()), Op.Persist(key), now);
      assert Model().shards == Step(old(Model()), Op.Persist(key), now).shards;
    }

    method DBSize() returns (total: nat)
      requires Valid()
      ensures total == EntryTotal(Model().shards) == metrics.current_entries
    {
      hide Good, Accounted, ByteTotal;
      total := 0;
      ghost var states := Model().shards;
      for i := 0 to |shards|
        invariant total == EntryTotal(states[..i])
      {
        var n := shards[i].DbSize();
        assert states[..i + 1][..i] == states[..i];
        total := total + n;
      }
      assert states[..|shards|] == states;
    }

    method FlushAll()
      requires Valid()
      modifies shards, metrics
      ensures Valid() && Fresh(Model()) && metrics.current_entries == 0 && metrics.memory_bytes == 0
    {
      hide Good, Accounted, Step;
      for i := 0 to |shards|
        invariant Valid() && forall j :: 0 <= j < i ==> shards[j].State() == EMPTY
      {
        FlushOne(i);
      }
      EmptyTotals(Model().shards);
      assert forall s :: s in Model().shards ==> s == EMPTY;
    }

    method FlushOne(i: nat)
      requires Valid() && i < |shards|
      modifies shards, metrics
      ensures Valid() && Model() == Step(old(Model()), Flush(i), 0)
      ensures shards[i].State() == EMPTY && forall j :: 0 <= j < |shards| && j != i ==>
        shards[j].State() == old(shards[j].State())
    {
      hide Good, Accounted, EntryTotal, ByteTotal;
      shards[i].FlushAll();
      StepTotals(old(Model()), Flush(i), 0);
      assert Model().shards == Step(old(Model()), Flush(i), 0).shards;
    }

    // One tick of the expiration worker.
    method SweepAll(now: int)
      requires Valid()
      modifies shards, metrics
      ensures Valid()
      ensures forall i :: 0 <= i < |shards| ==> shards[i].entries == Live(old(shards[i].State()), now)
    {
      hide Good, Accounted, EntryTotal, ByteTotal, Step, Live, AfterSweep;
      for i := 0 to |shards|
        invariant Valid()
        invariant forall j :: 0 <= j < i ==> shards[j].entries == Live(old(shards[j].State()), now)
        invariant forall j :: i <= j < |shards| ==> shards[j].State() == old(shards[j].State())
      {
        SweepOne(i, now);
      }
    }

    method SweepOne(i: nat, now: int)
      requires Valid() && i < |shards|
      modifies shards, metrics
      ensures Valid() && Model() == Step(old(Model()), Sweep(i), now)
      ensures shards[i].entries == Live(old(shards[i].State()), now)
      ensures forall j :: 0 <= j < |shards| && j != i ==> shards[j].State() == old(shards[j].State())
    {
      hide Good, Accounted, AfterSweep, EntryTotal, ByteTotal;
      ShardGood(Model(), i);
      SweptEntries(shards[i].State(), now);
      shards[i].SweepExpired(now);
      StepTotals(old(Model()), Sweep(i), now);
      assert Model().shards == Step(old(Model()), Sweep(i), now).shards;
    }
  }
}
