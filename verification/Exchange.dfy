// Static partitioning of base tables (distributed/partition.cpp).
module Partition {
  import opened Wrappers
  import opened Ast
  import opened Values
  import opened Bags
  import opened Relational

  // The % of C++: truncated toward zero.
  function TruncatedRemainder(a: int, n: nat): int
    requires n > 0
  {
    if a >= 0 then a % n else -((-a) % n)
  }

  function PartitionOf(id: int, num_workers: nat): nat
  {
    if num_workers == 0 then 0
    else
      var m := TruncatedRemainder(id, num_workers);
      if m < 0 then m + num_workers else m
  }

  // Negative ids included, the partition is the mathematical remainder.
  lemma PartitionIsRemainder(id: int, n: nat)
    requires n > 0
    ensures PartitionOf(id, n) == id % n < n
  {
    if id < 0 {
      var q, r := (-id) / n, (-id) % n;
      assert -id == n * q + r;
      if r == 0 {
        assert id == n * (-q) + 0;
        RemainderUnique(id, n, -q, 0);
      } else {
        assert id == n * (-q - 1) + (n - r) by { assert n * (-q - 1) == n * (-q) - n; }
        RemainderUnique(id, n, -q - 1, n - r);
      }
    }
  }

  lemma RemainderUnique(a: int, n: nat, q: int, r: nat)
    requires n > 0 && r < n && a == n * q + r
    ensures a % n == r
  {
    var q', r' := a / n, a % n;
    assert n * (q - q') == r' - r by { assert n * (q - q') == n * q - n * q'; }
    AtLeastOnce(n, q - q');
  }

  lemma AtLeastOnce(n: nat, d: int)
    ensures (d >= 1 ==> n * d >= n) && (d <= -1 ==> n * d <= -(n as int))
  {
  }

  // The first column named "id".
  function IdColumn(columns: seq<string>): (i: Option<nat>)
    ensures i.Some? ==> i.value < |columns| && columns[i.value] == "id"
  {
    if columns == [] then None
    else if columns[0] == "id" then Some(0)
    else
      var i := IdColumn(columns[1..]);
      if i.Some? then Some(i.value + 1) else None
  }

  function Owned(id_col: nat, worker: nat, n: nat): Row -> bool
  {
    (row: Row) => id_col < |row| && row[id_col].Integer? && PartitionOf(row[id_col].int_val, n) == worker
  }

  function OwnedRows(t: Table, worker: nat, n: nat): seq<Row>
  {
    var id_col := IdColumn(t.columns);
    if id_col.None? then t.rows else Filter(Owned(id_col.value, worker, n), t.rows)
  }

  method FindIdColumn(columns: seq<string>) returns (id_col: nat)
    ensures IdColumn(columns) == if id_col < |columns| then Some(id_col) else None
  {
    id_col := |columns|;
    for i := 0 to |columns|
      invariant id_col == |columns| && IdColumn(columns) == Shifted(IdColumn(columns[i..]), i)
    {
      assert columns[i..][0] == columns[i] && columns[i..][1..] == columns[i + 1..];
      if columns[i] == "id" {
        id_col := i;
        break;
      }
    }
  }

  method FilterTableToPartition(full: Table, worker_id: nat, num_workers: nat) returns (part: Table)
    requires forall r :: r in full.rows ==> |r| == |full.columns|
    ensures part == Table(full.columns, OwnedRows(full, worker_id, num_workers))
  {
    hide IdColumn, PartitionOf;
    var id_col := FindIdColumn(full.columns);
    if id_col >= |full.columns| {
      return full;
    }
    var owned: seq<Row> := [];
    for n := 0 to |full.rows|
      invariant owned == Filter(Owned(id_col, worker_id, num_workers), full.rows[..n])
    {
      var row := full.rows[n];
      assert full.rows[..n + 1] == full.rows[..n] + [row];
      FilterAppend(Owned(id_col, worker_id, num_workers), full.rows[..n], [row]);
      assert row in full.rows;
      if row[id_col].Integer? && PartitionOf(row[id_col].int_val, num_workers) == worker_id {
        owned := owned + [row];
      }
    }
    assert full.rows[..|full.rows|] == full.rows;
    part := Table(full.columns, owned);
  }

  function Shifted(i: Option<nat>, by_: nat): Option<nat>
  {
    if i.Some? then Some(i.value + by_) else None
  }

  // filter_database_to_partition: the tables the catalog names.
  function PartOf(full: Database, names: seq<string>, worker: nat, n: nat): Database
  {
    map name | name in full && name in names :: Table(full[name].columns, OwnedRows(full[name], worker, n))
  }

  method FilterDatabaseToPartition(full: Database, names: seq<string>, worker_id: nat, num_workers: nat)
    returns (db: Database)
    requires WellFormed(full)
    ensures db == PartOf(full, names, worker_id, num_workers)
  {
    db := map[];
    for i := 0 to |names|
      invariant db == PartOf(full, names[..i], worker_id, num_workers)
    {
      assert names[..i + 1] == names[..i] + [names[i]];
      if names[i] in full {
        var t := full[names[i]];
        forall r | r in t.rows ensures |r| == |t.columns| {
          var k :| 0 <= k < |t.rows| && t.rows[k] == r;
        }
        var part := FilterTableToPartition(t, worker_id, num_workers);
        db := db[names[i] := part];
      }
    }
    assert names[..|names|] == names;
  }

  // ---- Nothing lost, nothing twice ----

  function Parts(t: Table, n: nat): seq<seq<Row>>
  {
    seq(n, w requires 0 <= w < n => OwnedRows(t, w, n))
  }

  // What the first m of n workers find when they keep some of their rows.
  function KeptParts(t: Table, keep: Row -> bool, m: nat, n: nat): seq<seq<Row>>
  {
    seq(m, w requires 0 <= w < m => Filter(keep, OwnedRows(t, w, n)))
  }

  // Every row has exactly one owner.
  predicate Partitioned(t: Table, n: nat)
  {
    var id_col := IdColumn(t.columns);
    if id_col.Some? then forall r: Row :: r in t.rows ==> id_col.value < |r| && r[id_col.value].Integer?
    else n == 1 || t.rows == []
  }

  lemma KeptPartsGrow(t: Table, keep: Row -> bool, m: nat, n: nat, x: Row)
    requires m > 0
    ensures PartCount(KeptParts(t, keep, m, n), x)
         == PartCount(KeptParts(t, keep, m - 1, n), x) + (if keep(x) then multiset(OwnedRows(t, m - 1, n))[x] else 0)
  {
    hide OwnedRows;
    var parts := KeptParts(t, keep, m, n);
    assert parts[..m - 1] == KeptParts(t, keep, m - 1, n);
    FilterCount(keep, OwnedRows(t, m - 1, n), x);
  }

  // Without ids every worker has the whole table.
  lemma {:induction false} UnownedCount(t: Table, keep: Row -> bool, m: nat, n: nat, x: Row)
    requires IdColumn(t.columns).None?
    ensures PartCount(KeptParts(t, keep, m, n), x) == m * (if keep(x) then multiset(t.rows)[x] else 0)
  {
    hide KeptParts, PartCount;
    if m == 0 {
      NoParts(t, keep, n, x);
    } else {
      KeptPartsGrow(t, keep, m, n, x);
      UnownedCount(t, keep, m - 1, n, x);
      OneMore(m - 1, if keep(x) then multiset(t.rows)[x] else 0);
    }
  }

  lemma NoParts(t: Table, keep: Row -> bool, n: nat, x: Row)
    ensures PartCount(KeptParts(t, keep, 0, n), x) == 0
  {
  }

  lemma OneMore(m: nat, c: nat)
    ensures (m + 1) * c == m * c + c
  {
  }

  predicate OwnedBelow(id_col: nat, m: nat, n: nat, x: Row)
  {
    id_col < |x| && x[id_col].Integer? && PartitionOf(x[id_col].int_val, n) < m
  }

  // With ids a row is found by the worker its id belongs to.
  lemma {:induction false} OwnedCount(t: Table, keep: Row -> bool, m: nat, n: nat, x: Row)
    requires IdColumn(t.columns).Some?
    ensures PartCount(KeptParts(t, keep, m, n), x)
         == if keep(x) && OwnedBelow(IdColumn(t.columns).value, m, n, x) then multiset(t.rows)[x] else 0
  {
    hide KeptParts, PartCount, PartitionOf, IdColumn;
    if m == 0 {
      NoParts(t, keep, n, x);
    } else {
      KeptPartsGrow(t, keep, m, n, x);
      OwnedCount(t, keep, m - 1, n, x);
      FilterCount(Owned(IdColumn(t.columns).value, m - 1, n), t.rows, x);
    }
  }

  // What the workers' filtered scans give together.
  lemma PartsTogether(t: Table, keep: Row -> bool, n: nat)
    requires n > 0 && Partitioned(t, n)
    ensures multiset(Concat(KeptParts(t, keep, n, n))) == multiset(Filter(keep, t.rows))
  {
    hide PartitionOf, IdColumn, KeptParts, Filter, Concat, PartCount;
    var parts := KeptParts(t, keep, n, n);
    forall x: Row ensures multiset(Concat(parts))[x] == multiset(Filter(keep, t.rows))[x] {
      ConcatCount(parts, x);
      FilterCount(keep, t.rows, x);
      if IdColumn(t.columns).Some? {
        OwnedCount(t, keep, n, n, x);
        if x in t.rows {
          PartitionIsRemainder(x[IdColumn(t.columns).value].int_val, n);
        }
      } else {
        UnownedCount(t, keep, n, n, x);
      }
    }
  }

  // Together the workers hold the table exactly when every row has one owner:
  // a non-Integer id belongs to no worker, a table without ids to all of them.
  lemma PartitionExact(t: Table, n: nat)
    requires n > 0 && forall r :: r in t.rows ==> |r| == |t.columns|
    ensures multiset(Concat(Parts(t, n))) == multiset(t.rows) <==> Partitioned(t, n)
  {
    hide PartitionOf, IdColumn;
    var all := (row: Row) => true;
    var parts := KeptParts(t, all, n, n);
    forall w | 0 <= w < n ensures parts[w] == Parts(t, n)[w] {
      AllPass(all, OwnedRows(t, w, n));
    }
    AllPass(all, t.rows);
    assert parts == Parts(t, n);
    if Partitioned(t, n) {
      PartsTogether(t, all, n);
    } else {
      MisplacedRow(t, n);
    }
  }

  lemma MisplacedRow(t: Table, n: nat)
    requires n > 0 && (forall r :: r in t.rows ==> |r| == |t.columns|) && !Partitioned(t, n)
    ensures var all := (row: Row) => true; multiset(Concat(KeptParts(t, all, n, n))) != multiset(t.rows)
  {
    hide PartitionOf, IdColumn, KeptParts, Concat, PartCount, OwnedRows;
    var all, id_col := (row: Row) => true, IdColumn(t.columns);
    if id_col.None? {
      var x := t.rows[0];
      assert x in t.rows && multiset(t.rows)[x] > 0;
      ConcatCount(KeptParts(t, all, n, n), x);
      UnownedCount(t, all, n, n, x);
      TwoOrMore(n, multiset(t.rows)[x]);
    } else {
      var x: Row :| x in t.rows && !(id_col.value < |x| && x[id_col.value].Integer?);
      assert multiset(t.rows)[x] > 0;
      ConcatCount(KeptParts(t, all, n, n), x);
      OwnedCount(t, all, n, n, x);
    }
  }

  lemma TwoOrMore(n: nat, c: nat)
    requires n >= 2 && c > 0
    ensures n * c > c
  {
  }
}

// Joining by parts.
module Exchange {
  import opened Values
  import opened Bags
  import opened Relational

  function JoinParts(ls: seq<seq<Row>>, rs: seq<seq<Row>>, keep: Row -> bool): seq<seq<Row>>
    requires |ls| == |rs|
  {
    seq(|ls|, t requires 0 <= t < |ls| => JoinRows(ls[t], rs[t], keep))
  }

  // How often x is among the rows the first m targets join.
  lemma {:induction false} JoinPartsCount(ls: seq<seq<Row>>, rs: seq<seq<Row>>, keep: Row -> bool, width: nat, x: Row)
    requires |ls| == |rs| && (forall t :: 0 <= t < |ls| ==> Wide(ls[t], width)) && |x| >= width
    ensures PartCount(JoinParts(ls, rs, keep), x) == if keep(x) then Products(ls, rs, x[..width], x[width..]) else 0
  {
    hide JoinRows;
    if ls != [] {
      var n := |ls| - 1;
      JoinPartsCount(ls[..n], rs[..n], keep, width, x);
      assert JoinParts(ls, rs, keep)[..n] == JoinParts(ls[..n], rs[..n], keep);
      JoinCount(ls[n], rs[n], keep, width, x);
    }
  }

  ghost function Products(ls: seq<seq<Row>>, rs: seq<seq<Row>>, a: Row, b: Row): nat
    requires |ls| == |rs|
  {
    if ls == [] then 0
    else Products(ls[..|ls| - 1], rs[..|rs| - 1], a, b) + multiset(ls[|ls| - 1])[a] * multiset(rs[|rs| - 1])[b]
  }

  // ---- Broadcast: one side is the same everywhere ----

  lemma {:induction false} ProductsSameRight(ls: seq<seq<Row>>, rs: seq<seq<Row>>, r: seq<Row>, a: Row, b: Row)
    requires |ls| == |rs| && forall t :: 0 <= t < |rs| ==> rs[t] == r
    ensures Products(ls, rs, a, b) == PartCount(ls, a) * multiset(r)[b]
  {
    if ls != [] {
      ProductsSameRight(ls[..|ls| - 1], rs[..|rs| - 1], r, a, b);
      Distribute(PartCount(ls[..|ls| - 1], a), multiset(ls[|ls| - 1])[a], multiset(r)[b]);
    }
  }

  lemma {:induction false} ProductsSameLeft(ls: seq<seq<Row>>, rs: seq<seq<Row>>, l: seq<Row>, a: Row, b: Row)
    requires |ls| == |rs| && forall t :: 0 <= t < |ls| ==> ls[t] == l
    ensures Products(ls, rs, a, b) == multiset(l)[a] * PartCount(rs, b)
  {
    if ls != [] {
      ProductsSameLeft(ls[..|ls| - 1], rs[..|rs| - 1], l, a, b);
      DistributeLeft(multiset(l)[a], PartCount(rs[..|rs| - 1], b), multiset(rs[|rs| - 1])[b]);
    }
  }

  lemma DistributeLeft(c: nat, a: nat, b: nat)
    ensures c * (a + b) == c * a + c * b
  {
  }

  // The whole join, from the multiplicities of its parts.
  lemma JoinFromProducts(ls: seq<seq<Row>>, rs: seq<seq<Row>>, l: seq<Row>, r: seq<Row>, keep: Row -> bool, width: nat,
                         x: Row)
    requires |ls| == |rs| && Wide(l, width) && forall t :: 0 <= t < |ls| ==> Wide(ls[t], width)
    requires |x| >= width && keep(x) ==>
      Products(ls, rs, x[..width], x[width..]) == multiset(l)[x[..width]] * multiset(r)[x[width..]]
    ensures multiset(Concat(JoinParts(ls, rs, keep)))[x] == multiset(JoinRows(l, r, keep))[x]
  {
    hide JoinRows;
    ConcatCount(JoinParts(ls, rs, keep), x);
    if |x| < width {
      JoinWidth(l, r, keep, width, x);
      ShortNowhere(ls, rs, keep, width, x);
    } else {
      JoinPartsCount(ls, rs, keep, width, x);
      JoinCount(l, r, keep, width, x);
    }
  }

  lemma {:induction false} ShortNowhere(ls: seq<seq<Row>>, rs: seq<seq<Row>>, keep: Row -> bool, width: nat, x: Row)
    requires |ls| == |rs| && (forall t :: 0 <= t < |ls| ==> Wide(ls[t], width)) && |x| < width
    ensures PartCount(JoinParts(ls, rs, keep), x) == 0
  {
    hide JoinRows;
    if ls != [] {
      var n := |ls| - 1;
      ShortNowhere(ls[..n], rs[..n], keep, width, x);
      assert JoinParts(ls, rs, keep)[..n] == JoinParts(ls[..n], rs[..n], keep);
      JoinWidth(ls[n], rs[n], keep, width, x);
    }
  }

  // Every part of the left side joined with the whole right side.
  lemma BroadcastRight(ls: seq<seq<Row>>, rs: seq<seq<Row>>, l: seq<Row>, r: seq<Row>, b: seq<Row>, keep: Row -> bool,
                       width: nat)
    requires |ls| == |rs| && Wide(l, width) && multiset(Concat(ls)) == multiset(l) && multiset(b) == multiset(r)
    requires forall t :: 0 <= t < |rs| ==> rs[t] == b
    ensures multiset(Concat(JoinParts(ls, rs, keep))) == multiset(JoinRows(l, r, keep))
  {
    hide JoinRows;
    PartsWide(ls, l, width);
    forall x ensures multiset(Concat(JoinParts(ls, rs, keep)))[x] == multiset(JoinRows(l, r, keep))[x] {
      if |x| >= width && keep(x) {
        ProductsSameRight(ls, rs, b, x[..width], x[width..]);
        ConcatCount(ls, x[..width]);
      }
      JoinFromProducts(ls, rs, l, r, keep, width, x);
    }
  }

  lemma BroadcastLeft(ls: seq<seq<Row>>, rs: seq<seq<Row>>, l: seq<Row>, r: seq<Row>, b: seq<Row>, keep: Row -> bool,
                      width: nat)
    requires |ls| == |rs| && Wide(l, width) && multiset(Concat(rs)) == multiset(r) && multiset(b) == multiset(l)
    requires forall t :: 0 <= t < |ls| ==> ls[t] == b
    ensures multiset(Concat(JoinParts(ls, rs, keep))) == multiset(JoinRows(l, r, keep))
  {
    hide JoinRows;
    forall x | x in b ensures |x| == width { assert x in multiset(b); assert x in l; }
    forall x ensures multiset(Concat(JoinParts(ls, rs, keep)))[x] == multiset(JoinRows(l, r, keep))[x] {
      if |x| >= width && keep(x) {
        ProductsSameLeft(ls, rs, b, x[..width], x[width..]);
        ConcatCount(rs, x[width..]);
      }
      JoinFromProducts(ls, rs, l, r, keep, width, x);
    }
  }

  lemma PartsWide(ls: seq<seq<Row>>, l: seq<Row>, width: nat)
    requires Wide(l, width) && multiset(Concat(ls)) == multiset(l)
    ensures forall t :: 0 <= t < |ls| ==> Wide(ls[t], width)
  {
    ConcatMembers(ls);
    forall t, x | 0 <= t < |ls| && x in ls[t] ensures |x| == width {
      assert x in Concat(ls);
      assert x in multiset(l);
    }
  }

  // ---- Shuffle: both sides by the target of their rows ----

  function At(target: Row -> nat, t: nat): Row -> bool
  {
    row => target(row) == t
  }

  function ByTarget(target: Row -> nat, n: nat, rows: seq<Row>): seq<seq<Row>>
  {
    seq(n, t requires 0 <= t < n => Filter(At(target, t), rows))
  }

  lemma ProductsGrow(ls: seq<seq<Row>>, rs: seq<seq<Row>>, m: nat, a: Row, b: Row)
    requires |ls| == |rs| && 0 < m <= |ls|
    ensures Products(ls[..m], rs[..m], a, b)
      == Products(ls[..m - 1], rs[..m - 1], a, b) + multiset(ls[m - 1])[a] * multiset(rs[m - 1])[b]
  {
    assert ls[..m][..m - 1] == ls[..m - 1] && rs[..m][..m - 1] == rs[..m - 1];
  }

  lemma ByTargetCount(target: Row -> nat, n: nat, rows: seq<Row>, t: nat, x: Row)
    requires t < n
    ensures |ByTarget(target, n, rows)| == n
    ensures multiset(ByTarget(target, n, rows)[t])[x] == if target(x) == t then multiset(rows)[x] else 0
  {
    FilterCount(At(target, t), rows, x);
  }

  lemma {:induction false} ProductsByTarget(lt: Row -> nat, rt: Row -> nat, n: nat, m: nat, l: seq<Row>, r: seq<Row>,
                                            a: Row, b: Row)
    requires m <= n
    ensures |ByTarget(lt, n, l)| == n == |ByTarget(rt, n, r)|
    ensures Products(ByTarget(lt, n, l)[..m], ByTarget(rt, n, r)[..m], a, b)
         == if lt(a) == rt(b) && lt(a) < m then multiset(l)[a] * multiset(r)[b] else 0
  {
    ByTargetSizes(lt, rt, n, l, r);
    if m > 0 {
      hide ByTarget, Products;
      ProductsByTarget(lt, rt, n, m - 1, l, r, a, b);
      ProductsGrow(ByTarget(lt, n, l), ByTarget(rt, n, r), m, a, b);
      ByTargetCount(lt, n, l, m - 1, a);
      ByTargetCount(rt, n, r, m - 1, b);
      ProductStep(lt(a), rt(b), m, multiset(l)[a], multiset(r)[b],
                  multiset(ByTarget(lt, n, l)[m - 1])[a], multiset(ByTarget(rt, n, r)[m - 1])[b]);
    }
  }

  // Only the worker both rows are sent to adds to the product.
  lemma ProductStep(ta: nat, tb: nat, m: nat, la: nat, rb: nat, p: nat, q: nat)
    requires m > 0 && p == (if ta == m - 1 then la else 0) && q == (if tb == m - 1 then rb else 0)
    ensures (if ta == tb && ta < m - 1 then la * rb else 0) + p * q == if ta == tb && ta < m then la * rb else 0
  {
    TimesZero(la, rb);
  }

  lemma TimesZero(a: nat, b: nat)
    ensures a * 0 == 0 == 0 * b
  {
  }

  // Matching rows always meet.
  ghost predicate Meet(l: seq<Row>, r: seq<Row>, keep: Row -> bool, lt: Row -> nat, rt: Row -> nat)
  {
    forall a, b :: a in l && b in r && keep(a + b) ==> lt(a) == rt(b)
  }

  lemma ByTargetWide(target: Row -> nat, n: nat, rows: seq<Row>, width: nat)
    requires Wide(rows, width)
    ensures forall t :: 0 <= t < n ==> Wide(ByTarget(target, n, rows)[t], width)
  {
    forall t | 0 <= t < n ensures Wide(ByTarget(target, n, rows)[t], width) {
      FilterMembers(At(target, t), rows);
    }
  }

  // How often x is among the rows joined after the shuffle.
  lemma ShuffledCount(l: seq<Row>, r: seq<Row>, keep: Row -> bool, lt: Row -> nat, rt: Row -> nat, n: nat, width: nat,
                      x: Row)
    requires Wide(l, width) && (forall a :: a in l ==> lt(a) < n) && |x| >= width
    ensures multiset(Concat(JoinParts(ByTarget(lt, n, l), ByTarget(rt, n, r), keep)))[x]
         == if keep(x) && lt(x[..width]) == rt(x[width..]) then multiset(l)[x[..width]] * multiset(r)[x[width..]] else 0
  {
    hide JoinRows, Products;
    var ls, rs := ByTarget(lt, n, l), ByTarget(rt, n, r);
    ByTargetWide(lt, n, l, width);
    ConcatCount(JoinParts(ls, rs, keep), x);
    JoinPartsCount(ls, rs, keep, width, x);
    ProductsByTarget(lt, rt, n, n, l, r, x[..width], x[width..]);
    assert ls[..n] == ls && rs[..n] == rs;
    if x[..width] !in l {
      TimesZero(0, multiset(r)[x[width..]]);
    }
  }

  // The shuffled join is the join exactly when matching rows always meet.
  lemma ShuffleExact(l: seq<Row>, r: seq<Row>, keep: Row -> bool, lt: Row -> nat, rt: Row -> nat, n: nat, width: nat)
    requires Wide(l, width) && forall a :: a in l ==> lt(a) < n
    ensures multiset(Concat(JoinParts(ByTarget(lt, n, l), ByTarget(rt, n, r), keep))) == multiset(JoinRows(l, r, keep))
       <==> Meet(l, r, keep, lt, rt)
  {
    hide JoinRows, ByTarget, JoinParts;
    var shuffled :=
      Concat(JoinParts(ByTarget(lt, n, l), ByTarget(rt, n, r), keep)) by { ByTargetSizes(lt, rt, n, l, r); }
    if Meet(l, r, keep, lt, rt) {
      forall x ensures multiset(shuffled)[x] == multiset(JoinRows(l, r, keep))[x] {
        MeetCount(l, r, keep, lt, rt, n, width, x);
      }
    }
    if multiset(shuffled) == multiset(JoinRows(l, r, keep)) {
      forall a, b | a in l && b in r && keep(a + b) ensures lt(a) == rt(b) {
        var x := a + b;
        assert x[..width] == a && x[width..] == b;
        JoinCount(l, r, keep, width, x);
        ShuffledCount(l, r, keep, lt, rt, n, width, x);
        Positive(multiset(l)[a], multiset(r)[b]);
      }
    }
  }

  lemma ByTargetSizes(lt: Row -> nat, rt: Row -> nat, n: nat, l: seq<Row>, r: seq<Row>)
    ensures |ByTarget(lt, n, l)| == n == |ByTarget(rt, n, r)|
  {
  }

  lemma Positive(a: nat, b: nat)
    requires a > 0 && b > 0
    ensures a * b > 0
  {
  }

  lemma MeetCount(l: seq<Row>, r: seq<Row>, keep: Row -> bool, lt: Row -> nat, rt: Row -> nat, n: nat, width: nat,
                  x: Row)
    requires Wide(l, width) && (forall a :: a in l ==> lt(a) < n) && Meet(l, r, keep, lt, rt)
    ensures multiset(Concat(JoinParts(ByTarget(lt, n, l), ByTarget(rt, n, r), keep)))[x]
      == multiset(JoinRows(l, r, keep))[x]
  {
    hide JoinRows;
    if |x| < width {
      JoinWidth(l, r, keep, width, x);
      ByTargetWide(lt, n, l, width);
      ConcatCount(JoinParts(ByTarget(lt, n, l), ByTarget(rt, n, r), keep), x);
      ShortNowhere(ByTarget(lt, n, l), ByTarget(rt, n, r), keep, width, x);
    } else {
      var a, b := x[..width], x[width..];
      assert x == a + b;
      JoinCount(l, r, keep, width, x);
      ShuffledCount(l, r, keep, lt, rt, n, width, x);
      if a !in l || b !in r {
        TimesZero(multiset(l)[a], multiset(r)[b]);
      }
    }
  }
}
