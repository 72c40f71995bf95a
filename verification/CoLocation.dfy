// When the merge of the workers' aggregates can be skipped, and why the order
// in which rows arrive does not matter (distributed/properties.hpp and the
// shuffle path of distributed/coordinator.cpp).
module CoLocation {
  import opened Wrappers
  import opened Ast
  import opened Values
  import opened Bags
  import opened Relational
  import opened Grouping
  import opened Aggregation
  import opened PartialAggregation

  // No group has rows in two parts.
  ghost predicate Apart(gr: GroupBy, parts: seq<seq<Row>>)
  {
    forall i, j, k :: 0 <= i < j < |parts| && k in Texts(gr.Text, parts[i]) ==> k !in Texts(gr.Text, parts[j])
  }

  lemma {:induction false} TextsOfAll(gr: GroupBy, parts: seq<seq<Row>>, k: string)
    ensures k in Texts(gr.Text, Concat(parts)) <==> exists i :: 0 <= i < |parts| && k in Texts(gr.Text, parts[i])
  {
    if parts == [] {
      assert Texts(gr.Text, []) == [];
    } else {
      hide Texts;
      var front, last := parts[..|parts| - 1], parts[|parts| - 1];
      TextsOfAll(gr, front, k);
      GroupAppend(gr.Text, Concat(front), last, k);
      if k in Texts(gr.Text, Concat(front)) {
        var i :| 0 <= i < |front| && k in Texts(gr.Text, front[i]);
        assert parts[i] == front[i];
      }
      if i :| 0 <= i < |parts| && k in Texts(gr.Text, parts[i]) && i < |front| {
        assert front[i] == parts[i];
      }
    }
  }

  lemma ApartSnoc(gr: GroupBy, front: seq<seq<Row>>, last: seq<Row>)
    ensures Apart(gr, front + [last]) <==>
      Apart(gr, front) && forall k :: k in Texts(gr.Text, last) ==> k !in Texts(gr.Text, Concat(front))
  {
    hide Texts;
    var parts := front + [last];
    if Apart(gr, parts) {
      forall k | k in Texts(gr.Text, last) ensures k !in Texts(gr.Text, Concat(front)) {
        forall i | 0 <= i < |front| ensures k !in Texts(gr.Text, front[i]) {
          assert parts[i] == front[i] && parts[|front|] == last;
        }
        TextsOfAll(gr, front, k);
      }
      forall i, j, k | 0 <= i < j < |front| && k in Texts(gr.Text, front[i]) ensures k !in Texts(gr.Text, front[j]) {
        assert parts[i] == front[i] && parts[j] == front[j];
      }
    }
    if Apart(gr, front) && forall k :: k in Texts(gr.Text, last) ==> k !in Texts(gr.Text, Concat(front)) {
      forall i, j, k | 0 <= i < j < |parts| && k in Texts(gr.Text, parts[i]) ensures k !in Texts(gr.Text, parts[j]) {
        assert parts[i] == front[i];
        if j == |front| {
          TextsOfAll(gr, front, k);
        } else {
          assert parts[j] == front[j];
        }
      }
    }
  }

  lemma FilterShorter(p: string -> bool, s: seq<string>)
    ensures |Filter(p, s)| <= |s|
    ensures |Filter(p, s)| == |s| ==> forall x :: x in s ==> p(x)
  {
    if s != [] {
      FilterShorter(p, s[1..]);
    }
  }

  // The number of groups adds up only when none is shared.
  lemma GroupsAdd(gr: GroupBy, a: seq<Row>, b: seq<Row>)
    ensures |Keys(gr.Text, a + b)| <= |Keys(gr.Text, a)| + |Keys(gr.Text, b)|
    ensures |Keys(gr.Text, a + b)| == |Keys(gr.Text, a)| + |Keys(gr.Text, b)| ==>
      forall k :: k in Texts(gr.Text, b) ==> k !in Texts(gr.Text, a)
  {
    GroupAppend(gr.Text, a, b, "");
    var ta, tb := Texts(gr.Text, a), Texts(gr.Text, b);
    FirstSeenAppend(ta, tb);
    FilterShorter(New(ta), FirstSeen(tb));
  }

  lemma {:induction false} FewerGroups(gr: GroupBy, aggs: seq<Agg>, parts: seq<seq<Row>>)
    requires gr.group_by != []
    ensures |Keys(gr.Text, Concat(parts))| <= |Partials(gr, aggs, parts)|
    ensures |Keys(gr.Text, Concat(parts))| == |Partials(gr, aggs, parts)| ==> Apart(gr, parts)
  {
    hide Texts, FirstSeen, AggRow;
    if parts == [] {
      NothingTracked(gr, aggs);
    } else {
      hide Apart;
      var front, last := parts[..|parts| - 1], parts[|parts| - 1];
      assert parts == front + [last];
      FewerGroups(gr, aggs, front);
      GroupsAdd(gr, Concat(front), last);
      ApartSnoc(gr, front, last);
      assert |HashAggregate(gr, aggs, last)| == |Keys(gr.Text, last)|;
    }
  }

  lemma AggRowElsewhere(gr: GroupBy, aggs: seq<Agg>, a: seq<Row>, b: seq<Row>, k: string)
    ensures k !in Texts(gr.Text, b) ==> AggRow(gr, aggs, k, a + b) == AggRow(gr, aggs, k, a)
    ensures k !in Texts(gr.Text, a) ==> AggRow(gr, aggs, k, a + b) == AggRow(gr, aggs, k, b)
  {
    hide Group, Texts;
    GroupAppend(gr.Text, a, b, k);
    NoGroup(gr.Text, a, k);
    NoGroup(gr.Text, b, k);
    assert Group(gr.Text, k, a) + [] == Group(gr.Text, k, a);
    assert [] + Group(gr.Text, k, b) == Group(gr.Text, k, b);
  }

  lemma AggRowsApart(gr: GroupBy, aggs: seq<Agg>, a: seq<Row>, b: seq<Row>)
    requires forall k :: k in Texts(gr.Text, b) ==> k !in Texts(gr.Text, a)
    ensures AggRows(gr, aggs, a + b) == AggRows(gr, aggs, a) + AggRows(gr, aggs, b)
  {
    hide AggRow, Texts;
    GroupAppend(gr.Text, a, b, "");
    FirstSeenApart(Texts(gr.Text, a), Texts(gr.Text, b));
    var ka, kb := Keys(gr.Text, a), Keys(gr.Text, b);
    assert Keys(gr.Text, a + b) == ka + kb;
    forall n | 0 <= n < |ka + kb|
      ensures AggRow(gr, aggs, (ka + kb)[n], a + b) == (AggRows(gr, aggs, a) + AggRows(gr, aggs, b))[n]
    {
      AggRowElsewhere(gr, aggs, a, b, (ka + kb)[n]);
      if n < |ka| {
        assert ka[n] in ka;
      } else {
        assert kb[n - |ka|] in kb;
      }
    }
  }

  // Concatenating the workers' own aggregates is aggregating all the rows,
  // in the same order, exactly when no group occurs on two workers.
  lemma {:induction false} ConcatenationIsAggregate(gr: GroupBy, aggs: seq<Agg>, parts: seq<seq<Row>>)
    requires gr.group_by != []
    ensures Partials(gr, aggs, parts) == HashAggregate(gr, aggs, Concat(parts)) <==> Apart(gr, parts)
  {
    hide Apart, AggRow, Texts, FirstSeen;
    FewerGroups(gr, aggs, parts);
    if Apart(gr, parts) {
      ApartConcatenates(gr, aggs, parts);
    }
  }

  lemma {:induction false} ApartConcatenates(gr: GroupBy, aggs: seq<Agg>, parts: seq<seq<Row>>)
    requires gr.group_by != [] && Apart(gr, parts)
    ensures Partials(gr, aggs, parts) == AggRows(gr, aggs, Concat(parts))
  {
    hide Apart, AggRow, Texts, FirstSeen;
    if parts == [] {
      NothingTracked(gr, aggs);
    } else {
      var front, last := parts[..|parts| - 1], parts[|parts| - 1];
      assert parts == front + [last];
      ApartSnoc(gr, front, last);
      ApartConcatenates(gr, aggs, front);
      AggRowsApart(gr, aggs, Concat(front), last);
    }
  }

  // ---- Group texts and the texts of their columns ----

  predicate Plain(s: string)
  {
    SEPARATOR !in s
  }

  ghost predicate PlainKeys(key: Row)
  {
    forall i :: 0 <= i < |key| ==> Plain(LiteralText(key[i]))
  }

  lemma {:induction false} SameHead(s: string, t: string, s': string, t': string)
    requires Plain(s) && Plain(t) && s + [SEPARATOR] + s' == t + [SEPARATOR] + t'
    ensures s == t && s' == t'
  {
    var a, b := s + [SEPARATOR] + s', t + [SEPARATOR] + t';
    assert a[|s|] == SEPARATOR && b[|t|] == SEPARATOR;
    assert forall i :: 0 <= i < |s| ==> a[i] == s[i];
    assert forall i :: 0 <= i < |t| ==> b[i] == t[i];
    assert |s| == |t|;
    assert a[..|s|] == s && b[..|t|] == t;
    assert a[|s| + 1..] == s' && b[|t| + 1..] == t';
  }

  lemma {:induction false} KeyTextColumns(a: Row, b: Row)
    requires |a| == |b| && KeyText(a) == KeyText(b) && PlainKeys(a) && PlainKeys(b)
    ensures forall i :: 0 <= i < |a| ==> LiteralText(a[i]) == LiteralText(b[i])
  {
    hide LiteralText;
    if a != [] {
      SameHead(LiteralText(a[0]), LiteralText(b[0]), KeyText(a[1..]), KeyText(b[1..]));
      KeyTextColumns(a[1..], b[1..]);
      forall i | 0 <= i < |a| ensures LiteralText(a[i]) == LiteralText(b[i]) {
        if i > 0 {
          assert a[i] == a[1..][i - 1] && b[i] == b[1..][i - 1];
        }
      }
    }
  }

  // Each row of part t belongs there by the text of one value of it.
  ghost predicate PlacedBy(parts: seq<seq<Row>>, home: string -> nat, e: Expr, schema: Schema)
  {
    forall t, r :: 0 <= t < |parts| && r in parts[t] ==> home(LiteralText(ValueOf(e, schema, r))) == t
  }

  lemma SameHome(gr: GroupBy, parts: seq<seq<Row>>, home: string -> nat, e: Expr, i: nat, j: nat, k: string)
    requires e in gr.group_by && PlacedBy(parts, home, e, gr.schema) && i < |parts| && j < |parts|
    requires forall t, r :: 0 <= t < |parts| && r in parts[t] ==> PlainKeys(gr.Key(r))
    requires k in Texts(gr.Text, parts[i]) && k in Texts(gr.Text, parts[j])
    ensures i == j
  {
    hide PlainKeys, LiteralText, ValueOf;
    var c :| 0 <= c < |gr.group_by| && gr.group_by[c] == e;
    var m :| 0 <= m < |parts[i]| && gr.Text(parts[i][m]) == k;
    var n :| 0 <= n < |parts[j]| && gr.Text(parts[j][n]) == k;
    var r, s := parts[i][m], parts[j][n];
    assert r in parts[i] && s in parts[j];
    assert gr.Text(r) == KeyText(gr.Key(r)) && gr.Text(s) == KeyText(gr.Key(s));
    KeyTextColumns(gr.Key(r), gr.Key(s));
    assert LiteralText(gr.Key(r)[c]) == LiteralText(gr.Key(s)[c]);
  }

  // Rows placed by a grouping column: no group is in two places.
  lemma GroupedByHome(gr: GroupBy, parts: seq<seq<Row>>, home: string -> nat, e: Expr)
    requires e in gr.group_by && PlacedBy(parts, home, e, gr.schema)
    requires forall t, r :: 0 <= t < |parts| && r in parts[t] ==> PlainKeys(gr.Key(r))
    ensures Apart(gr, parts)
  {
    hide PlainKeys, LiteralText, ValueOf, Texts, PlacedBy;
    forall i, j, k | 0 <= i < j < |parts| && k in Texts(gr.Text, parts[i]) ensures k !in Texts(gr.Text, parts[j]) {
      if k in Texts(gr.Text, parts[j]) {
        SameHome(gr, parts, home, e, i, j, k);
      }
    }
  }

  // ---- Rows in another order ----

  // Two rows in one group have the same key, not just the same text.
  ghost predicate KeysDetermined(gr: GroupBy, rows: seq<Row>)
  {
    forall r, s :: r in rows && s in rows && gr.Text(r) == gr.Text(s) ==> gr.Key(r) == gr.Key(s)
  }

  ghost predicate OrderFree(gr: GroupBy, aggs: seq<Agg>, rows: seq<Row>)
  {
    && KeysDetermined(gr, rows)
    && forall i, k :: 0 <= i < |aggs| ==> FitsAnyOrder(aggs[i].func, Args(aggs[i], gr.schema, Group(gr.Text, k, rows)))
  }

  // A group has one key, and no two values of it tie for MIN or MAX.
  ghost predicate Determined(gr: GroupBy, aggs: seq<Agg>, rows: seq<Row>)
  {
    && KeysDetermined(gr, rows)
    && forall i, k :: 0 <= i < |aggs| && aggs[i].func in {Min, Max} ==>
      NoTies(Args(aggs[i], gr.schema, Group(gr.Text, k, rows)))
  }

  lemma RunsOrderFree(gr: GroupBy, aggs: seq<Agg>, rows: seq<Row>)
    requires Determined(gr, aggs, rows) && AllRun(gr, aggs, rows)
    ensures OrderFree(gr, aggs, rows)
  {
    hide Args, ValuesRun, Fits, Group, NoTies, Orderable;
    forall i, k | 0 <= i < |aggs|
      ensures FitsAnyOrder(aggs[i].func, Args(aggs[i], gr.schema, Group(gr.Text, k, rows))) {
      assert GroupRuns(gr, aggs, rows, k);
      ValuesRunFit(aggs[i].func, Args(aggs[i], gr.schema, Group(gr.Text, k, rows)));
      FitsIsOrderable(aggs[i].func, Args(aggs[i], gr.schema, Group(gr.Text, k, rows)));
    }
  }

  lemma FitsIsOrderable(f: Func, vs: seq<Literal>)
    requires Fits(f, vs)
    ensures f in {Min, Max} ==> Orderable(vs)
  {
  }

  function Map<T, U>(f: T -> U, s: seq<T>): seq<U>
  {
    seq(|s|, i requires 0 <= i < |s| => f(s[i]))
  }

  lemma {:induction false} MapPermutes<T, U>(f: T -> U, a: seq<T>, b: seq<T>)
    requires multiset(a) == multiset(b)
    ensures multiset(Map(f, a)) == multiset(Map(f, b))
  {
    var fa, fb := Map(f, a), Map(f, b);
    if a == [] {
      assert |b| == |multiset(b)| == 0;
    } else {
      var i := PermutationStep(a, b);
      var rest := b[..i] + b[i + 1..];
      MapPermutes(f, a[1..], rest);
      assert fa == [f(a[0])] + Map(f, a[1..]);
      MultisetSplit(fb, i);
      assert fb[..i] + fb[i + 1..] == Map(f, rest);
    }
  }

  lemma GroupPermutes(gr: GroupBy, a: seq<Row>, b: seq<Row>, k: string)
    requires multiset(a) == multiset(b)
    ensures multiset(Group(gr.Text, k, a)) == multiset(Group(gr.Text, k, b))
  {
    forall r ensures multiset(Group(gr.Text, k, a))[r] == multiset(Group(gr.Text, k, b))[r] {
      FilterCount(InGroup(gr.Text, k), a, r);
      FilterCount(InGroup(gr.Text, k), b, r);
    }
  }

  lemma ResultsPermute(gr: GroupBy, aggs: seq<Agg>, a: seq<Row>, b: seq<Row>)
    requires multiset(a) == multiset(b)
    requires forall i :: 0 <= i < |aggs| ==> FitsAnyOrder(aggs[i].func, Args(aggs[i], gr.schema, a))
    ensures Results(aggs, gr.schema, a) == Results(aggs, gr.schema, b)
  {
    hide Fold, FitsAnyOrder, ArgOf;
    forall i | 0 <= i < |aggs|
      ensures Fold(aggs[i].func, Args(aggs[i], gr.schema, a)) == Fold(aggs[i].func, Args(aggs[i], gr.schema, b))
    {
      var arg := (row: Row) => ArgOf(aggs[i], gr.schema, row);
      MapPermutes(arg, a, b);
      assert Args(aggs[i], gr.schema, a) == Map(arg, a) && Args(aggs[i], gr.schema, b) == Map(arg, b);
      FoldPermutes(aggs[i].func, Args(aggs[i], gr.schema, a), Args(aggs[i], gr.schema, b));
    }
  }

  lemma AggRowPermutes(gr: GroupBy, aggs: seq<Agg>, a: seq<Row>, b: seq<Row>, k: string)
    requires multiset(a) == multiset(b) && OrderFree(gr, aggs, a)
    ensures AggRow(gr, aggs, k, a) == AggRow(gr, aggs, k, b)
  {
    hide Results, FitsAnyOrder, Args;
    var ga, gb := Group(gr.Text, k, a), Group(gr.Text, k, b);
    GroupPermutes(gr, a, b, k);
    FilterMembers(InGroup(gr.Text, k), a);
    FilterMembers(InGroup(gr.Text, k), b);
    ResultsPermute(gr, aggs, ga, gb);
    assert |ga| == |multiset(ga)| == |multiset(gb)| == |gb|;
    if ga != [] {
      assert ga[0] in ga && gb[0] in multiset(gb);
      assert gb[0] in multiset(ga);
      assert ga[0] in a && gb[0] in a;
    }
  }

  lemma KeysPermute(gr: GroupBy, a: seq<Row>, b: seq<Row>)
    requires multiset(a) == multiset(b)
    ensures multiset(Keys(gr.Text, a)) == multiset(Keys(gr.Text, b))
  {
    forall k ensures multiset(Keys(gr.Text, a))[k] == multiset(Keys(gr.Text, b))[k] {
      FirstSeenDistinct(Texts(gr.Text, a));
      FirstSeenDistinct(Texts(gr.Text, b));
      DistinctCount(Keys(gr.Text, a), k);
      DistinctCount(Keys(gr.Text, b), k);
      NoGroup(gr.Text, a, k);
      NoGroup(gr.Text, b, k);
      GroupPermutes(gr, a, b, k);
      assert |Group(gr.Text, k, a)| == |multiset(Group(gr.Text, k, a))|;
      assert |Group(gr.Text, k, b)| == |multiset(Group(gr.Text, k, b))|;
    }
  }

  // The same rows in any order give the same groups with the same results.
  lemma AggregatePermutes(gr: GroupBy, aggs: seq<Agg>, a: seq<Row>, b: seq<Row>)
    requires multiset(a) == multiset(b) && OrderFree(gr, aggs, a)
    ensures multiset(HashAggregate(gr, aggs, a)) == multiset(HashAggregate(gr, aggs, b))
  {
    hide AggRow, FirstSeen, OrderFree;
    assert |a| == |multiset(a)| == |multiset(b)| == |b|;
    KeysPermute(gr, a, b);
    var ka, kb := Keys(gr.Text, a), Keys(gr.Text, b);
    var row := (k: string) => AggRow(gr, aggs, k, a);
    MapPermutes(row, ka, kb);
    assert AggRows(gr, aggs, a) == Map(row, ka);
    forall i | 0 <= i < |kb| ensures AggRow(gr, aggs, kb[i], a) == AggRow(gr, aggs, kb[i], b) {
      AggRowPermutes(gr, aggs, a, b, kb[i]);
    }
    assert AggRows(gr, aggs, b) == Map(row, kb);
  }
}
