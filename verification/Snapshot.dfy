// Snapshots of the cache (cache/internal/persistence/snapshot.go): the bytes
// written, and the store they load into.
module SnapshotFormat {
  import opened Wrappers
  import opened CacheModel

  type Listed = (string, CacheEntry)

  const MAGIC := "GOCACHE1"
  const FORMAT_VERSION := 1
  const MAX_FIELD_LENGTH := 512 * 1024 * 1024

  // ---- Big-endian numbers ----

  function Power256(width: nat): (p: nat)
    ensures p > 0
  {
    if width == 0 then 1 else 256 * Power256(width - 1)
  }

  function BigEndian(n: nat, width: nat): (s: string)
    ensures |s| == width
  {
    if width == 0 then "" else BigEndian(n / 256, width - 1) + [(n % 256) as char]
  }

  function Number(s: string): nat
  {
    if s == [] then 0 else 256 * Number(s[..|s| - 1]) + s[|s| - 1] as int
  }

  lemma {:induction false} NumberRoundTrip(n: nat, width: nat)
    requires n < Power256(width)
    ensures Number(BigEndian(n, width)) == n
  {
    if width > 0 {
      NumberRoundTrip(n / 256, width - 1);
      assert BigEndian(n, width)[..width - 1] == BigEndian(n / 256, width - 1);
    }
  }

  lemma Widths()
    ensures Power256(4) == 0x1_0000_0000 && Power256(8) == 0x1_0000_0000_0000_0000
  {
    assert Power256(1) == 256 && Power256(2) == 0x1_0000 && Power256(3) == 0x100_0000;
    assert Power256(4) == 0x1_0000_0000 && Power256(5) == 0x100_0000_0000 && Power256(6) == 0x1_0000_0000_0000;
    assert Power256(7) == 0x100_0000_0000_0000;
  }

  function Unsigned64(n: int): nat
    requires -0x8000_0000_0000_0000 <= n < 0x8000_0000_0000_0000
  {
    if n < 0 then n + 0x1_0000_0000_0000_0000 else n
  }

  function Signed64(n: nat): int
  {
    if n >= 0x8000_0000_0000_0000 then n - 0x1_0000_0000_0000_0000 else n
  }

  // ---- Writing ----

  // The length is cut to 32 bits, as uint32(len(b)) does.
  function Field(b: string): string
  {
    BigEndian(|b| % 0x1_0000_0000, 4) + b
  }

  function Deadline(ent: CacheEntry): string
    requires Storable(ent)
  {
    if ent.expires_at.Some? then [1 as char] + BigEndian(Unsigned64(ent.expires_at.value), 8)
    else [0 as char] + BigEndian(0, 8)
  }

  // Deadlines are int64 nanoseconds.
  predicate Storable(ent: CacheEntry)
  {
    ent.expires_at.Some? ==> -0x8000_0000_0000_0000 <= ent.expires_at.value < 0x8000_0000_0000_0000
  }

  predicate AllStorable(es: seq<Listed>)
  {
    forall i :: 0 <= i < |es| ==> Storable(es[i].1)
  }

  function EncodeEntry(e: Listed): string
    requires Storable(e.1)
  {
    Field(e.0) + Field(e.1.value) + Deadline(e.1)
  }

  function EncodeEntries(es: seq<Listed>): string
    requires AllStorable(es)
  {
    if es == [] then "" else EncodeEntry(es[0]) + EncodeEntries(es[1..])
  }

  function Header(count: nat): string
  {
    MAGIC + BigEndian(FORMAT_VERSION, 4) + BigEndian(count % 0x1_0000_0000_0000_0000, 8)
  }

  function Checked(payload: string, crc: string -> nat): string
  {
    payload + BigEndian(crc(payload) % 0x1_0000_0000, 4)
  }

  function Snapshot(es: seq<Listed>, crc: string -> nat): string
    requires AllStorable(es)
  {
    Checked(Header(|es|) + EncodeEntries(es), crc)
  }

  lemma {:induction false} EncodeEntriesSnoc(es: seq<Listed>, e: Listed)
    requires AllStorable(es) && Storable(e.1)
    ensures AllStorable(es + [e]) && EncodeEntries(es + [e]) == EncodeEntries(es) + EncodeEntry(e)
  {
    hide EncodeEntry, Storable;
    if es == [] {
      assert es + [e] == [e];
      assert EncodeEntries([e]) == EncodeEntry(e) + EncodeEntries([]);
    } else {
      assert (es + [e])[0] == es[0] && (es + [e])[1..] == es[1..] + [e];
      EncodeEntriesSnoc(es[1..], e);
    }
  }

  method AppendEntry(data: string, e: Listed) returns (r: string)
    requires Storable(e.1)
    ensures r == data + EncodeEntry(e)
  {
    hide Field, Deadline;
    r := data + Field(e.0);
    r := r + Field(e.1.value);
    r := r + Deadline(e.1);
  }

  // SaveSnapshot, up to the file.
  method SavePayload(es: seq<Listed>, crc: string -> nat) returns (data: string)
    requires AllStorable(es)
    ensures data == Snapshot(es, crc)
  {
    hide EncodeEntry, BigEndian;
    data := MAGIC;
    data := data + BigEndian(FORMAT_VERSION, 4);
    data := data + BigEndian(|es| % 0x1_0000_0000_0000_0000, 8);
    for i := 0 to |es|
      invariant data == Header(|es|) + EncodeEntries(es[..i])
    {
      assert es[..i + 1] == es[..i] + [es[i]];
      EncodeEntriesSnoc(es[..i], es[i]);
      assert Header(|es|) + (EncodeEntries(es[..i]) + EncodeEntry(es[i])) == data + EncodeEntry(es[i]);
      data := AppendEntry(data, es[i]);
    }
    assert es[..|es|] == es;
    data := data + BigEndian(crc(data) % 0x1_0000_0000, 4);
  }

  // ---- Reading ----

  // readBytesField
  function DecodeField(input: string): (r: Option<(string, string)>)
    ensures r.Some? ==> |r.value.1| < |input|
  {
    if |input| < 4 then None
    else
      var n := Number(input[..4]);
      if n > MAX_FIELD_LENGTH || |input| < 4 + n then None
      else Some((input[4..4 + n], input[4 + n..]))
  }

  // The flag byte and the deadline; the entry's size is left at zero.
  function DecodeEntry(input: string): (r: Option<(Listed, string)>)
    ensures r.Some? ==> |r.value.1| < |input|
  {
    var key := DecodeField(input);
    if key.None? then None
    else
      var value := DecodeField(key.value.1);
      if value.None? || |value.value.1| < 9 then None
      else
        var tail := value.value.1;
        var at := if tail[0] == 1 as char then Some(Signed64(Number(tail[1..9]))) else None;
        Some(((key.value.0, CacheEntry(value.value.0, at, 0)), tail[9..]))
  }

  // Entries read before the first unreadable one, and whether all were read.
  function DecodeEntries(input: string, n: nat): (seq<Listed>, bool)
  {
    if n == 0 then ([], true)
    else
      var e := DecodeEntry(input);
      if e.None? then ([], false)
      else
        var others := DecodeEntries(e.value.1, n - 1);
        ([e.value.0] + others.0, others.1)
  }

  // LoadSnapshot: the entries restored, and the error if any.
  datatype Loaded = Loaded(entries: seq<Listed>, error: Option<string>)

  function Load(data: string, crc: string -> nat): Loaded
  {
    if |data| < |MAGIC| + 4 + 8 + 4 then Loaded([], Some("persistence: snapshot file too short to be valid"))
    else if crc(data[..|data| - 4]) % 0x1_0000_0000 != Number(data[|data| - 4..]) then
      Loaded([], Some("persistence: checksum mismatch -- snapshot file is corrupt"))
    else if data[..8] != MAGIC then Loaded([], Some("persistence: bad magic bytes -- not a valid snapshot"))
    else if Number(data[8..12]) != FORMAT_VERSION
      then Loaded([], Some("persistence: unsupported snapshot format version"))
    else
      var r := DecodeEntries(data[20..], Number(data[12..20]));
      Loaded(r.0, if r.1 then None else Some("persistence: unreadable entry"))
  }

  // LoadSnapshot's reading loop: entries are handed over as they are read.
  method LoadEntries(data: string, crc: string -> nat) returns (r: Loaded)
    ensures r == Load(data, crc)
  {
    hide DecodeEntry, Number;
    if |data| < |MAGIC| + 4 + 8 + 4 {
      return Loaded([], Some("persistence: snapshot file too short to be valid"));
    }
    if crc(data[..|data| - 4]) % 0x1_0000_0000 != Number(data[|data| - 4..]) {
      return Loaded([], Some("persistence: checksum mismatch -- snapshot file is corrupt"));
    }
    if data[..8] != MAGIC {
      return Loaded([], Some("persistence: bad magic bytes -- not a valid snapshot"));
    }
    if Number(data[8..12]) != FORMAT_VERSION {
      return Loaded([], Some("persistence: unsupported snapshot format version"));
    }
    var count, rest := Number(data[12..20]), data[20..];
    var restored: seq<Listed> := [];
    assert restored + DecodeEntries(rest, count).0 == DecodeEntries(rest, count).0;
    for i := 0 to count
      invariant DecodeEntries(data[20..], count)
        == (restored + DecodeEntries(rest, count - i).0, DecodeEntries(rest, count - i).1)
    {
      var e := DecodeEntry(rest);
      if e.None? {
        assert restored + [] == restored;
        return Loaded(restored, Some("persistence: unreadable entry"));
      }
      ghost var others := DecodeEntries(e.value.1, count - i - 1);
      assert restored + ([e.value.0] + others.0) == (restored + [e.value.0]) + others.0;
      restored := restored + [e.value.0];
      rest := e.value.1;
    }
    assert restored + [] == restored;
    r := Loaded(restored, None);
  }

  // ---- Round trip ----

  predicate Fits(e: Listed)
  {
    |e.0| <= MAX_FIELD_LENGTH && |e.1.value| <= MAX_FIELD_LENGTH && Storable(e.1)
  }

  // What comes back: everything but the size.
  function Unsized(e: Listed): Listed
  {
    (e.0, e.1.(size_bytes := 0))
  }

  function UnsizedAll(es: seq<Listed>): seq<Listed>
  {
    seq(|es|, i requires 0 <= i < |es| => Unsized(es[i]))
  }

  lemma FieldRoundTrip(b: string, after: string)
    requires |b| <= MAX_FIELD_LENGTH
    ensures DecodeField(Field(b) + after) == Some((b, after))
  {
    hide BigEndian, Number;
    Widths();
    NumberRoundTrip(|b|, 4);
    var s := Field(b) + after;
    assert s[..4] == BigEndian(|b|, 4) && s[4..4 + |b|] == b && s[4 + |b|..] == after;
  }

  lemma DeadlineRoundTrip(ent: CacheEntry, after: string)
    requires Storable(ent)
    ensures var s := Deadline(ent) + after;
      |s| >= 9 && s[9..] == after
      && (if s[0] == 1 as char then Some(Signed64(Number(s[1..9]))) else None) == ent.expires_at
  {
    hide BigEndian, Number;
    Widths();
    var s := Deadline(ent) + after;
    assert s[9..] == after;
    if ent.expires_at.Some? {
      var n := Unsigned64(ent.expires_at.value);
      NumberRoundTrip(n, 8);
      assert s[1..9] == BigEndian(n, 8);
    }
  }

  lemma EntryRoundTrip(e: Listed, after: string)
    requires Fits(e)
    ensures DecodeEntry(EncodeEntry(e) + after) == Some((Unsized(e), after))
  {
    hide Field, DecodeField, Deadline, Number;
    var tail := Deadline(e.1) + after;
    var rest := Field(e.1.value) + tail;
    assert EncodeEntry(e) + after == Field(e.0) + rest;
    FieldRoundTrip(e.0, rest);
    FieldRoundTrip(e.1.value, tail);
    DeadlineRoundTrip(e.1, after);
  }

  lemma {:induction false} EntriesRoundTrip(es: seq<Listed>, after: string)
    requires forall i :: 0 <= i < |es| ==> Fits(es[i])
    ensures AllStorable(es) && DecodeEntries(EncodeEntries(es) + after, |es|) == (UnsizedAll(es), true)
  {
    hide EncodeEntry, DecodeEntry;
    if es == [] {
      assert EncodeEntries(es) + after == after;
    } else {
      EntriesRoundTrip(es[1..], after);
      var rest := EncodeEntries(es[1..]) + after;
      assert EncodeEntries(es) + after == EncodeEntry(es[0]) + rest;
      EntryRoundTrip(es[0], rest);
      assert UnsizedAll(es) == [Unsized(es[0])] + UnsizedAll(es[1..]);
    }
  }

  lemma HeaderRead(es: seq<Listed>, crc: string -> nat)
    requires AllStorable(es) && |es| < 0x1_0000_0000_0000_0000
    ensures var data := Snapshot(es, crc);
      && |data| >= 24 && data[..8] == MAGIC && Number(data[8..12]) == FORMAT_VERSION && Number(data[12..20]) == |es|
      && data[..|data| - 4] == Header(|es|) + EncodeEntries(es)
      && Number(data[|data| - 4..]) == crc(Header(|es|) + EncodeEntries(es)) % 0x1_0000_0000
      && data[20..] == EncodeEntries(es) + BigEndian(crc(Header(|es|) + EncodeEntries(es)) % 0x1_0000_0000, 4)
  {
    hide BigEndian, Number, EncodeEntries;
    Widths();
    NumberRoundTrip(FORMAT_VERSION, 4);
    NumberRoundTrip(|es|, 8);
    var payload := Header(|es|) + EncodeEntries(es);
    var sum := crc(payload) % 0x1_0000_0000;
    NumberRoundTrip(sum, 4);
    var data := Snapshot(es, crc);
    assert |MAGIC| == 8 && |Header(|es|)| == 20;
    assert data == MAGIC + BigEndian(FORMAT_VERSION, 4) + BigEndian(|es|, 8) + EncodeEntries(es) + BigEndian(sum, 4);
    assert data[..8] == MAGIC && data[8..12] == BigEndian(FORMAT_VERSION, 4) && data[12..20] == BigEndian(|es|, 8);
    assert data[..|data| - 4] == payload && data[|data| - 4..] == BigEndian(sum, 4);
    assert data[20..] == EncodeEntries(es) + BigEndian(sum, 4);
  }

  // A snapshot loads back to the entries saved, in order, without their sizes.
  lemma SnapshotRoundTrip(es: seq<Listed>, crc: string -> nat)
    requires |es| < 0x1_0000_0000_0000_0000 && forall i :: 0 <= i < |es| ==> Fits(es[i])
    ensures AllStorable(es) && Load(Snapshot(es, crc), crc) == Loaded(UnsizedAll(es), None)
  {
    hide BigEndian, Number, EncodeEntries, DecodeEntries, Snapshot, Header;
    HeaderRead(es, crc);
    EntriesRoundTrip(es, BigEndian(crc(Header(|es|) + EncodeEntries(es)) % 0x1_0000_0000, 4));
  }
}

// Loading into a store.
module SnapshotLoading {
  import opened Wrappers
  import opened Recency
  import opened CacheModel
  import opened StoreModel
  import opened SnapshotFormat

  function Restored(st: Store, e: Listed, now: int): (r: Store)
    requires |st.shards| > 0
    ensures |r.shards| == |st.shards| && r.hash == st.hash && r.max == st.max
  {
    st.(shards := st.shards[st.Home(e.0) := AfterRestore(st.shards[st.Home(e.0)], e.0, e.1, now)])
  }

  function RestoreAll(st: Store, es: seq<Listed>, now: int): (r: Store)
    requires |st.shards| > 0
    ensures |r.shards| == |st.shards| && r.hash == st.hash && r.max == st.max
  {
    if es == [] then st else Restored(RestoreAll(st, es[..|es| - 1], now), es[|es| - 1], now)
  }

  ghost predicate DistinctKeys(es: seq<Listed>)
  {
    forall i, j :: 0 <= i < j < |es| ==> es[i].0 != es[j].0
  }

  // The last live entry listed for a key.
  function Lookup(es: seq<Listed>, key: string, now: int): Option<CacheEntry>
  {
    if es == [] then None
    else if es[|es| - 1].0 == key && !IsExpired(es[|es| - 1].1, now) then Some(es[|es| - 1].1)
    else Lookup(es[..|es| - 1], key, now)
  }

  // A key is found after loading exactly when a live entry is listed for it.
  lemma {:induction false} RestoreAllFinds(st: Store, es: seq<Listed>, now: int, key: string)
    requires Fresh(st)
    ensures var entries := RestoreAll(st, es, now).shards[st.Home(key)].entries;
      Lookup(es, key, now) == if key in entries then Some(entries[key]) else None
    ensures Find(RestoreAll(st, es, now).shards[st.Home(key)], key, now) == Lookup(es, key, now)
  {
    if es == [] {
      assert st.shards[st.Home(key)] in st.shards;
    } else {
      RestoreAllFinds(st, es[..|es| - 1], now, key);
    }
  }

  lemma {:induction false} LookupListed(es: seq<Listed>, key: string, now: int, i: nat)
    requires DistinctKeys(es) && i < |es| && es[i].0 == key
    ensures Lookup(es, key, now) == if IsExpired(es[i].1, now) then None else Some(es[i].1)
  {
    if i < |es| - 1 {
      LookupListed(es[..|es| - 1], key, now, i);
    } else {
      LookupAbsent(es[..|es| - 1], key, now);
    }
  }

  lemma {:induction false} LookupAbsent(es: seq<Listed>, key: string, now: int)
    requires forall i :: 0 <= i < |es| ==> es[i].0 != key
    ensures Lookup(es, key, now) == None
  {
    if es != [] {
      LookupAbsent(es[..|es| - 1], key, now);
    }
  }

  // Distinct keys replace nothing, so the accounts balance.
  lemma {:induction false} RestoreAllAccounted(st: Store, es: seq<Listed>, now: int)
    requires Fresh(st) && DistinctKeys(es)
    ensures forall i :: 0 <= i < |st.shards| ==> Accounted(RestoreAll(st, es, now).shards[i])
  {
    hide Accounted, AfterRestore;
    if es == [] {
      EmptyAccounted();
      assert forall i :: 0 <= i < |st.shards| ==> st.shards[i] in st.shards;
    } else {
      var front, e := es[..|es| - 1], es[|es| - 1];
      RestoreAllAccounted(st, front, now);
      RestoreAllFinds(st, front, now, e.0);
      LookupAbsent(front, e.0, now);
      RestoreAccounted(RestoreAll(st, front, now).shards[st.Home(e.0)], e.0, e.1, now);
    }
  }

  // Saving the live entries of a store and loading them later into an empty
  // one: found are exactly the saved entries not yet expired, values and
  // deadlines unchanged.
  lemma SaveThenLoad(es: seq<Listed>, crc: string -> nat, st: Store, now: int, key: string)
    requires |es| < 0x1_0000_0000_0000_0000 && (forall i :: 0 <= i < |es| ==> Fits(es[i])) && DistinctKeys(es)
      && Fresh(st)
    ensures AllStorable(es)
    ensures var loaded := Load(Snapshot(es, crc), crc);
      var found := Find(RestoreAll(st, loaded.entries, now).shards[st.Home(key)], key, now);
      && loaded.error == None
      && (forall i :: 0 <= i < |es| && es[i].0 == key ==>
            found == if IsExpired(es[i].1, now) then None else Some(es[i].1.(size_bytes := 0)))
      && ((forall i :: 0 <= i < |es| ==> es[i].0 != key) ==> found == None)
  {
    hide Load, Snapshot, RestoreAll, Lookup;
    SnapshotRoundTrip(es, crc);
    var back := UnsizedAll(es);
    RestoreAllFinds(st, back, now, key);
    forall i | 0 <= i < |es| && es[i].0 == key
      ensures Lookup(back, key, now) == if IsExpired(es[i].1, now) then None else Some(es[i].1.(size_bytes := 0))
    {
      LookupListed(back, key, now, i);
    }
    if forall i :: 0 <= i < |es| ==> es[i].0 != key {
      LookupAbsent(back, key, now);
    }
  }

  // ---- Saving a store ----

  // The listing has every live entry of the store once.
  ghost predicate Lists(st: Store, es: seq<Listed>, at: int)
  {
    && |st.shards| > 0 && DistinctKeys(es)
    && (forall i :: 0 <= i < |es| ==> Find(st.shards[st.Home(es[i].0)], es[i].0, at) == Some(es[i].1))
    && forall key :: Find(st.shards[st.Home(key)], key, at).Some? ==> exists i :: 0 <= i < |es| && es[i].0 == key
  }

  // forEach: the map is walked in any order.
  method ForEachInShard(s: ShardState, at: int) returns (es: seq<Listed>)
    ensures DistinctKeys(es) && forall i :: 0 <= i < |es| ==> Find(s, es[i].0, at) == Some(es[i].1)
    ensures forall key :: Find(s, key, at).Some? ==> exists i :: 0 <= i < |es| && es[i].0 == key
  {
    es := [];
    var keys := s.entries.Keys;
    while keys != {}
      invariant keys <= s.entries.Keys && DistinctKeys(es)
      invariant forall i :: 0 <= i < |es| ==> es[i].0 !in keys && Find(s, es[i].0, at) == Some(es[i].1)
      invariant forall key :: Find(s, key, at).Some? ==> key in keys || exists i :: 0 <= i < |es| && es[i].0 == key
      decreases |keys|
    {
      var key :| key in keys;
      ghost var before := es;
      keys := keys - {key};
      if !IsExpired(s.entries[key], at) {
        es := es + [(key, s.entries[key])];
      }
      forall k | Find(s, k, at).Some? ensures k in keys || exists i :: 0 <= i < |es| && es[i].0 == k {
        if k == key {
          assert es[|es| - 1].0 == key;
        } else if k !in keys {
          var i :| 0 <= i < |before| && before[i].0 == k;
          assert es[i].0 == k;
        }
      }
    }
  }

  method ForEach(st: Store, at: int) returns (es: seq<Listed>)
    requires Good(st)
    ensures Lists(st, es, at)
  {
    hide Accounted, Find;
    es := [];
    for n := 0 to |st.shards|
      invariant DistinctKeys(es)
      invariant forall i :: 0 <= i < |es| ==>
        st.Home(es[i].0) < n && Find(st.shards[st.Home(es[i].0)], es[i].0, at) == Some(es[i].1)
      invariant forall key :: st.Home(key) < n && Find(st.shards[st.Home(key)], key, at).Some? ==>
        exists i :: 0 <= i < |es| && es[i].0 == key
    {
      ghost var before := es;
      var more := ForEachInShard(st.shards[n], at);
      forall i | 0 <= i < |more| ensures st.Home(more[i].0) == n { FoundAtHome(st, n, more[i].0, at); }
      es := es + more;
      forall key | st.Home(key) <= n && Find(st.shards[st.Home(key)], key, at).Some?
        ensures exists i :: 0 <= i < |es| && es[i].0 == key {
        if st.Home(key) == n {
          var i :| 0 <= i < |more| && more[i].0 == key;
          assert es[|before| + i].0 == key;
        } else {
          var i :| 0 <= i < |before| && before[i].0 == key;
          assert es[i].0 == key;
        }
      }
    }
  }

  lemma FoundAtHome(st: Store, n: nat, key: string, at: int)
    requires Good(st) && n < |st.shards| && Find(st.shards[n], key, at).Some?
    ensures st.Home(key) == n
  {
    hide Accounted;
  }

  // Saving a store and loading the snapshot later into an empty one, with any
  // number of shards: a key is found there exactly as it would be in the old
  // store, its size aside.
  lemma SaveStoreThenLoad(st: Store, es: seq<Listed>, crc: string -> nat, empty: Store, at: int, now: int, key: string)
    requires Good(st) && Lists(st, es, at) && at <= now && Fresh(empty)
    requires |es| < 0x1_0000_0000_0000_0000 && forall i :: 0 <= i < |es| ==> Fits(es[i])
    ensures AllStorable(es)
    ensures var loaded := Load(Snapshot(es, crc), crc);
      var was, found := Find(st.shards[st.Home(key)], key, now),
        Find(RestoreAll(empty, loaded.entries, now).shards[empty.Home(key)], key, now);
      loaded.error == None && found == if was.Some? then Some(was.value.(size_bytes := 0)) else None
  {
    hide Load, Snapshot, RestoreAll, AllStorable, Fits, Accounted;
    SaveThenLoad(es, crc, empty, now, key);
    if i :| 0 <= i < |es| && es[i].0 == key {
      assert Find(st.shards[st.Home(key)], key, at) == Some(es[i].1);
    } else {
      assert Find(st.shards[st.Home(key)], key, at).None?;
    }
  }

  // What is loaded counts for nothing: every size is zero.
  lemma {:induction false} LoadedUsesNothing(st: Store, es: seq<Listed>, now: int)
    requires Fresh(st) && forall i :: 0 <= i < |es| ==> es[i].1.size_bytes == 0
    ensures forall i :: 0 <= i < |st.shards| ==> RestoreAll(st, es, now).shards[i].used == 0
  {
    if es == [] {
      assert forall i :: 0 <= i < |st.shards| ==> st.shards[i] in st.shards;
    } else {
      LoadedUsesNothing(st, es[..|es| - 1], now);
    }
  }
}
