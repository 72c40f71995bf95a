// When aggregating on workers throws: exactly when aggregating on one node
// does (distributed/coordinator.cpp against execution/operators.cpp).
module MergeRuns {
  import opened Wrappers
  import opened Ast
  import opened Values
  import opened Evaluation
  import opened Bags
  import opened Relational
  import opened Grouping
  import opened Aggregation
  import opened PartialAggregation
  import opened CoLocation

  // ---- In any order ----

  lemma ValuesRunPermutes(f: Func, a: seq<Literal>, b: seq<Literal>)
    requires multiset(a) == multiset(b)
    ensures ValuesRun(f, a) <==> ValuesRun(f, b)
  {
    SameElements(a, b);
    var some := (v: Literal) => !v.Null?;
    forall v ensures multiset(NonNulls(a))[v] == multiset(NonNulls(b))[v] {
      FilterCount(some, a, v);
      FilterCount(some, b, v);
    }
    assert multiset(NonNulls(a)) == multiset(NonNulls(b));
    assert |NonNulls(a)| == |multiset(NonNulls(a))| == |NonNulls(b)|;
  }

  lemma GroupRunsPermutes(gr: GroupBy, aggs: seq<Agg>, a: seq<Row>, b: seq<Row>, k: string)
    requires multiset(a) == multiset(b) && GroupRuns(gr, aggs, a, k)
    ensures GroupRuns(gr, aggs, b, k)
  {
    hide ValuesRun, ArgOf;
    GroupPermutes(gr, a, b, k);
    forall i | 0 <= i < |aggs| ensures ValuesRun(aggs[i].func, Args(aggs[i], gr.schema, Group(gr.Text, k, b))) {
      ArgsMapped(aggs[i], gr.schema, Group(gr.Text, k, a), Group(gr.Text, k, b));
      ValuesRunPermutes(aggs[i].func, Args(aggs[i], gr.schema, Group(gr.Text, k, a)),
                        Args(aggs[i], gr.schema, Group(gr.Text, k, b)));
    }
  }

  lemma ArgsMapped(a: Agg, schema: Schema, x: seq<Row>, y: seq<Row>)
    requires multiset(x) == multiset(y)
    ensures multiset(Args(a, schema, x)) == multiset(Args(a, schema, y))
  {
    var arg := (row: Row) => ArgOf(a, schema, row);
    MapPermutes(arg, x, y);
    assert Args(a, schema, x) == Map(arg, x) && Args(a, schema, y) == Map(arg, y);
  }

  // Whether an aggregation throws does not depend on the order of the rows.
  lemma AggregablePermutes(gr: GroupBy, aggs: seq<Agg>, a: seq<Row>, b: seq<Row>)
    requires multiset(a) == multiset(b)
    ensures Aggregable(gr, aggs, a) <==> Aggregable(gr, aggs, b)
  {
    hide Aggregable, RowEvaluates, GroupRuns;
    AggregableIff(gr, aggs, a);
    AggregableIff(gr, aggs, b);
    SameElements(a, b);
    forall k ensures GroupRuns(gr, aggs, a, k) <==> GroupRuns(gr, aggs, b, k) {
      if GroupRuns(gr, aggs, a, k) {
        GroupRunsPermutes(gr, aggs, a, b, k);
      }
      if GroupRuns(gr, aggs, b, k) {
        GroupRunsPermutes(gr, aggs, b, a, k);
      }
    }
  }

  // ---- One more worker ----

  // Merging a group's rows from one worker after another does not throw.
  ghost predicate CellsMerge(gr: GroupBy, a: Agg, m: AvgMapping, worker: seq<Agg>, parts: seq<seq<Row>>, k: string)
    decreases |parts|
  {
    parts == [] ||
    var front, last := parts[..|parts| - 1], parts[|parts| - 1];
    CellsMerge(gr, a, m, worker, front, k) && LastMerges(gr, a, m, worker, front, last, k)
  }

  ghost predicate LastMerges(gr: GroupBy, a: Agg, m: AvgMapping, worker: seq<Agg>, front: seq<seq<Row>>, last: seq<Row>,
                             k: string)
  {
    k in GroupsOf(gr, last) ==>
      StepMerges(a.func, m, |gr.group_by|,
                 MergeFold(a.func, m, |gr.group_by|, Group(PartialText(|gr.group_by|), k, Partials(gr, worker, front))),
                 AggRow(gr, worker, k, last))
  }

  // Without GROUP BY there is one group, of the empty text.
  ghost predicate IsGroup(gr: GroupBy, k: string)
  {
    gr.group_by == [] ==> k == ""
  }

  lemma GroupIsNew(text: Row -> string, a: seq<Row>, b: seq<Row>, n: nat)
    requires NoRepeats(Texts(text, b)) && n < |b|
    ensures Group(text, text(b[n]), a + b[..n]) == Group(text, text(b[n]), a)
  {
    GroupAppend(text, a, b[..n], text(b[n]));
    forall r | r in b[..n] ensures text(r) != text(b[n]) {
      var i :| 0 <= i < n && b[i] == r;
      assert Texts(text, b)[i] != Texts(text, b)[n];
    }
    NonePass(InGroup(text, text(b[n])), b[..n]);
    assert Group(text, text(b[n]), a) + [] == Group(text, text(b[n]), a);
  }

  ghost predicate RowsMerge(g: nat, aggs: seq<Agg>, mapping: seq<AvgMapping>, a: seq<Row>, b: seq<Row>)
    requires |mapping| == |aggs|
  {
    forall n :: 0 <= n < |b| ==> RowMerges(g, aggs, mapping, a, b[n])
  }

  // Rows of different groups do not see each other.
  lemma MergeableAppend(g: nat, aggs: seq<Agg>, mapping: seq<AvgMapping>, a: seq<Row>, b: seq<Row>)
    requires |mapping| == |aggs| && NoRepeats(Texts(PartialText(g), b))
    ensures Mergeable(g, aggs, mapping, a + b) <==> Mergeable(g, aggs, mapping, a) && RowsMerge(g, aggs, mapping, a, b)
  {
    hide MergeAccs, StepMerges, PartialText, Group;
    var rows := a + b;
    forall n | 0 <= n < |a| ensures rows[..n] == a[..n] && rows[n] == a[n] {
    }
    forall n | 0 <= n < |b|
      ensures RowMerges(g, aggs, mapping, rows[..|a| + n], rows[|a| + n]) <==> RowMerges(g, aggs, mapping, a, b[n])
    {
      assert rows[..|a| + n] == a + b[..n] && rows[|a| + n] == b[n];
      GroupIsNew(PartialText(g), a, b, n);
    }
    hide RowMerges;
    if Mergeable(g, aggs, mapping, rows) {
      forall n | 0 <= n < |a| ensures RowMerges(g, aggs, mapping, a[..n], a[n]) {
        assert RowMerges(g, aggs, mapping, rows[..n], rows[n]);
      }
      forall n | 0 <= n < |b| ensures RowMerges(g, aggs, mapping, a, b[n]) {
        assert RowMerges(g, aggs, mapping, rows[..|a| + n], rows[|a| + n]);
      }
    } else if Mergeable(g, aggs, mapping, a) && RowsMerge(g, aggs, mapping, a, b) {
      forall n | 0 <= n < |rows| ensures RowMerges(g, aggs, mapping, rows[..n], rows[n]) {
        if n >= |a| {
          assert RowMerges(g, aggs, mapping, a, b[n - |a|]);
        }
      }
      assert false;
    }
  }

  ghost predicate AllLastMerge(gr: GroupBy, aggs: seq<Agg>, split: AvgSplit, front: seq<seq<Row>>, last: seq<Row>)
    requires |split.mapping| == |aggs|
  {
    forall k, i :: IsGroup(gr, k) && 0 <= i < |aggs| ==>
      LastMerges(gr, aggs[i], split.mapping[i], split.worker_aggregates, front, last, k)
  }

  // The rows one worker sends merge when the cells of each group do.
  lemma LastRowsMerge(gr: GroupBy, aggs: seq<Agg>, split: AvgSplit, front: seq<seq<Row>>, last: seq<Row>)
    requires |split.mapping| == |aggs| && forall b :: b in split.worker_aggregates ==> b.func != Avg
    ensures RowsMerge(|gr.group_by|, aggs, split.mapping, Partials(gr, split.worker_aggregates, front),
                      HashAggregate(gr, split.worker_aggregates, last))
       <==> AllLastMerge(gr, aggs, split, front, last)
    ensures NoRepeats(Texts(PartialText(|gr.group_by|), HashAggregate(gr, split.worker_aggregates, last)))
  {
    hide StepMerges, Group, MergeFold, AggRow, Partials, HashAggregate, FirstSeen;
    var g, worker, groups := |gr.group_by|, split.worker_aggregates, GroupsOf(gr, last);
    var text, sent, before := PartialText(g), HashAggregate(gr, worker, last), Partials(gr, worker, front);
    SentRows(gr, worker, last);
    SentTexts(gr, worker, last);
    GroupsDistinct(gr, last);
    forall n | 0 <= n < |groups|
      ensures text(sent[n]) == groups[n] && sent[n] == AggRow(gr, worker, groups[n], last) && IsGroup(gr, groups[n])
    {
      assert Texts(text, sent)[n] == groups[n];
      OnlyEmptyText(gr, last, groups[n]);
    }
    hide GroupsOf, PartialText;
    if RowsMerge(g, aggs, split.mapping, before, sent) {
      forall k, i | IsGroup(gr, k) && 0 <= i < |aggs|
        ensures LastMerges(gr, aggs[i], split.mapping[i], worker, front, last, k) {
        if k in groups {
          var n :| 0 <= n < |groups| && groups[n] == k;
          assert RowMerges(g, aggs, split.mapping, before, sent[n]);
        }
      }
    }
    if AllLastMerge(gr, aggs, split, front, last) {
      forall n | 0 <= n < |sent| ensures RowMerges(g, aggs, split.mapping, before, sent[n]) {
        forall i | 0 <= i < |aggs|
          ensures StepMerges(aggs[i].func, split.mapping[i], g,
                             MergeAccs(g, aggs, split.mapping, Group(text, text(sent[n]), before))[i], sent[n])
        {
          assert groups[n] in groups;
          assert LastMerges(gr, aggs[i], split.mapping[i], worker, front, last, groups[n]);
        }
      }
    }
  }

  ghost predicate AllCellsMerge(gr: GroupBy, aggs: seq<Agg>, split: AvgSplit, parts: seq<seq<Row>>)
    requires |split.mapping| == |aggs|
  {
    forall k, i :: IsGroup(gr, k) && 0 <= i < |aggs| ==>
      CellsMerge(gr, aggs[i], split.mapping[i], split.worker_aggregates, parts, k)
  }

  lemma {:induction false} MergeableIff(gr: GroupBy, aggs: seq<Agg>, split: AvgSplit, parts: seq<seq<Row>>)
    requires |split.mapping| == |aggs| && forall b :: b in split.worker_aggregates ==> b.func != Avg
    ensures Mergeable(|gr.group_by|, aggs, split.mapping, Partials(gr, split.worker_aggregates, parts))
      <==> AllCellsMerge(gr, aggs, split, parts)
  {
    hide LastMerges, HashAggregate, RowMerges, RowsMerge;
    if parts != [] {
      var front, last := parts[..|parts| - 1], parts[|parts| - 1];
      MergeableIff(gr, aggs, split, front);
      LastRowsMerge(gr, aggs, split, front, last);
      hide Mergeable;
      MergeableAppend(|gr.group_by|, aggs, split.mapping, Partials(gr, split.worker_aggregates, front),
                      HashAggregate(gr, split.worker_aggregates, last));
      hide Partials;
      CellsOneMore(gr, aggs, split, front, last);
      assert parts == front + [last];
    }
  }

  lemma CellsOneMore(gr: GroupBy, aggs: seq<Agg>, split: AvgSplit, front: seq<seq<Row>>, last: seq<Row>)
    requires |split.mapping| == |aggs|
    ensures AllCellsMerge(gr, aggs, split, front + [last])
      <==> AllCellsMerge(gr, aggs, split, front) && AllLastMerge(gr, aggs, split, front, last)
  {
    hide LastMerges;
    var parts := front + [last];
    assert parts[..|parts| - 1] == front;
    forall k, i | IsGroup(gr, k) && 0 <= i < |aggs|
      ensures CellsMerge(gr, aggs[i], split.mapping[i], split.worker_aggregates, parts, k)
         <==> CellsMerge(gr, aggs[i], split.mapping[i], split.worker_aggregates, front, k)
              && LastMerges(gr, aggs[i], split.mapping[i], split.worker_aggregates, front, last, k)
    {
    }
  }

  // ---- The values of one group ----

  ghost function Best(f: Func, vs: seq<Literal>): Option<Literal>
  {
    if f == Min then Fold(f, vs).min else Fold(f, vs).max
  }

  lemma NonNullsAppend(a: seq<Literal>, b: seq<Literal>)
    ensures NonNulls(a + b) == NonNulls(a) + NonNulls(b)
    ensures forall v :: v in NonNulls(a) <==> v in a && !v.Null?
    ensures forall v :: v in NonNulls(b) <==> v in b && !v.Null?
  {
    var some := (v: Literal) => !v.Null?;
    FilterAppend(some, a, b);
    FilterMembers(some, a);
    FilterMembers(some, b);
  }

  // Values that run together run apart.
  lemma ValuesRunParts(f: Func, a: seq<Literal>, b: seq<Literal>)
    ensures ValuesRun(f, a + b) ==> ValuesRun(f, a) && ValuesRun(f, b)
    ensures f in {Count, Sum, Avg} ==> (ValuesRun(f, a + b) <==> ValuesRun(f, a) && ValuesRun(f, b))
  {
    NonNullsAppend(a, b);
    assert forall v :: v in a + b <==> v in a || v in b;
  }

  lemma OneKind(vs: seq<Literal>, v: Literal)
    requires (|NonNulls(vs)| <= 1 || AllNumeric(vs) || AllText(vs)) && v in vs && !v.Null?
    ensures IsNumeric(v) <==> AllNumeric(vs)
    ensures v.Str? <==> AllText(vs)
  {
    NonNullsAppend(vs, []);
    if |NonNulls(vs)| <= 1 {
      assert v in NonNulls(vs);
      forall w | w in vs ensures w.Null? || w == v {
        assert !w.Null? ==> w in NonNulls(vs);
      }
    }
  }

  // Values with a least and values with a least run together exactly when
  // the two leasts can be compared.
  lemma BestsDecide(f: Func, us: seq<Literal>, vs: seq<Literal>)
    requires f in {Min, Max} && ValuesRun(f, us) && ValuesRun(f, vs) && Best(f, us).Some? && Best(f, vs).Some?
    ensures ValuesRun(f, us + vs) <==> LiteralLess(Best(f, vs).value, Best(f, us).value).Some?
    ensures ValuesRun(f, us + vs) <==> LiteralLess(Best(f, us).value, Best(f, vs).value).Some?
  {
    hide Fold;
    BestRuns(f, us);
    BestRuns(f, vs);
    NonNullsAppend(us, vs);
    OneKind(us, Best(f, us).value);
    OneKind(vs, Best(f, vs).value);
    var all := us + vs;
    assert forall v :: v in all <==> v in us || v in vs;
    assert |NonNulls(all)| >= 2;
  }

  lemma NoBest(f: Func, us: seq<Literal>, vs: seq<Literal>)
    requires f in {Min, Max} && ValuesRun(f, us) && ValuesRun(f, vs) && (Best(f, us).None? || Best(f, vs).None?)
    ensures ValuesRun(f, us + vs)
  {
    hide Fold;
    BestRuns(f, us);
    BestRuns(f, vs);
    NonNullsAppend(us, vs);
    assert forall v :: v in us + vs <==> v in us || v in vs;
    if NonNulls(us) == [] {
      forall v | v in us ensures v.Null? { assert !v.Null? ==> v in NonNulls(us); }
    } else {
      forall v | v in vs ensures v.Null? { assert !v.Null? ==> v in NonNulls(vs); }
    }
  }

  // One more worker's cell for a MIN or MAX.
  lemma BestMerges(f: Func, i: nat, g: nat, acc: MergeAcc, us: seq<Literal>, lead: Option<seq<Literal>>, row: Row,
                   vs: seq<Literal>)
    requires f in {Min, Max} && ValuesRun(f, us) && ValuesRun(f, vs)
    requires CellsOf(f, Direct(i), g, row, vs) && Agree(f, acc, Fold(f, us), lead)
    requires if lead.None? then us == [] else HasValue(lead.value) ==> HasValue(us)
    ensures ValuesRun(f, us + vs) ==> StepMerges(f, Direct(i), g, acc, row)
    ensures (HasValue(us + vs) && lead.Some? ==> HasValue(lead.value)) && StepMerges(f, Direct(i), g, acc, row) ==>
      ValuesRun(f, us + vs)
  {
    hide Fold, ValuesRun;
    BestRuns(f, us);
    BestRuns(f, vs);
    NonNullsAppend(us, vs);
    hide NonNulls;
    if lead.None? {
      assert us + vs == vs;
    } else if Best(f, us).None? || Best(f, vs).None? {
      NoBest(f, us, vs);
    } else {
      BestsDecide(f, us, vs);
      assert Best(f, us).value in us + vs;
    }
  }

  ghost predicate PartsRun(gr: GroupBy, a: Agg, parts: seq<seq<Row>>, k: string)
  {
    forall w :: 0 <= w < |parts| ==> ValuesRun(a.func, Args(a, gr.schema, Group(gr.Text, k, parts[w])))
  }

  // Leading by a value is inherited by fewer workers.
  lemma LedEarlier(gr: GroupBy, a: Agg, k: string, front: seq<seq<Row>>, last: seq<Row>)
    requires Led(gr, a, k, front + [last]) && IsGroup(gr, k)
    ensures Led(gr, a, k, front)
  {
    hide Args, Group, GroupsOf, Concat, Leading, HasValue;
    var us := Group(gr.Text, k, Concat(front));
    PartsSnoc(gr, [], front, last, k);
    GroupAppend(gr.Text, Concat(front), last, k);
    LeadHasValue(a, gr.schema, Group(gr.Text, k, Concat(front + [last])), us);
    LeadingRows(gr, front, k);
    NoValues(a, gr.schema);
  }

  // What is needed of the last worker's cell, given the ones before.
  lemma LastCellRuns(gr: GroupBy, a: Agg, m: AvgMapping, worker: seq<Agg>, front: seq<seq<Row>>, last: seq<Row>,
                     k: string)
    requires Places(a, m, worker) && (forall b :: b in worker ==> b.func != Avg) && IsGroup(gr, k)
    requires ValuesRun(a.func, Args(a, gr.schema, Group(gr.Text, k, Concat(front))))
    requires ValuesRun(a.func, Args(a, gr.schema, Group(gr.Text, k, last)))
    ensures ValuesRun(a.func, Args(a, gr.schema, Group(gr.Text, k, Concat(front + [last])))) ==>
      LastMerges(gr, a, m, worker, front, last, k)
    ensures Led(gr, a, k, front + [last]) && LastMerges(gr, a, m, worker, front, last, k) ==>
      ValuesRun(a.func, Args(a, gr.schema, Group(gr.Text, k, Concat(front + [last]))))
  {
    hide Fold, ValuesRun, Agree, Carries, AggRow, HashAggregate, Args, GroupsOf, Group, MergeFold, PartialText, Concat,
         Partials, Leading, HasValue, StepMerges, CellsOf, Fits;
    var g := |gr.group_by|;
    var before, group := Group(gr.Text, k, Concat(front)), Group(gr.Text, k, last);
    var us, vs := Args(a, gr.schema, before), Args(a, gr.schema, group);
    PartsSnoc(gr, worker, front, last, k);
    GroupAppend(gr.Text, Concat(front), last, k);
    ArgsAppend(a, gr.schema, before, group);
    if k !in GroupsOf(gr, last) {
      NotSent(gr, last, k);
      assert before + group == before;
    } else {
      SentRow(gr, worker, last, k);
      var row := AggRow(gr, worker, k, last);
      if a.func in {Min, Max} {
        ValuesRunFit(a.func, us);
        GroupMerges(gr, a, m, worker, front, k);
        CellsSent(a, m, worker, gr.schema, g, row, group);
        LeadingRows(gr, front, k);
        LeadFacts(gr, a, front, k);
        BestMerges(a.func, m.idx, g, MergeFold(a.func, m, g, Group(PartialText(g), k, Partials(gr, worker, front))),
                   us, LeadArgs(a, gr.schema, Leading(gr, k, front)), row, vs);
      } else {
        ValuesRunParts(a.func, us, vs);
        NumbersMerge(a, m, worker, gr.schema, g, row, group,
                     MergeFold(a.func, m, g, Group(PartialText(g), k, Partials(gr, worker, front))));
      }
    }
  }

  lemma LeadFacts(gr: GroupBy, a: Agg, front: seq<seq<Row>>, k: string)
    requires IsGroup(gr, k)
    ensures var lead := Leading(gr, k, front); var us := Args(a, gr.schema, Group(gr.Text, k, Concat(front)));
      if lead.None? then us == [] else HasValue(Args(a, gr.schema, lead.value)) ==> HasValue(us)
  {
    hide GroupsOf, Group, Concat, Leading, HasValue, ArgOf;
    LeadingRows(gr, front, k);
    if Leading(gr, k, front).Some? {
      LeadHasValue(a, gr.schema, Group(gr.Text, k, Concat(front)), Leading(gr, k, front).value);
    }
  }

  lemma ArgsAppend(a: Agg, schema: Schema, x: seq<Row>, y: seq<Row>)
    ensures Args(a, schema, x + y) == Args(a, schema, x) + Args(a, schema, y)
  {
  }

  // Counts and sums are numbers.
  lemma NumbersMerge(a: Agg, m: AvgMapping, worker: seq<Agg>, schema: Schema, g: nat, row: Row, group: seq<Row>,
                     acc: MergeAcc)
    requires Places(a, m, worker) && Carries(row, g, worker, schema, group) && a.func !in {Min, Max}
    ensures StepMerges(a.func, m, g, acc, row)
  {
    hide Fold, Args;
  }

  // Merging a group throws on no worker's cell, and no worker throws on it,
  // exactly when one node does not.
  lemma {:induction false} CellsRunIff(gr: GroupBy, a: Agg, m: AvgMapping, worker: seq<Agg>, parts: seq<seq<Row>>,
                                       k: string)
    requires Places(a, m, worker) && (forall b :: b in worker ==> b.func != Avg) && IsGroup(gr, k)
    ensures ValuesRun(a.func, Args(a, gr.schema, Group(gr.Text, k, Concat(parts)))) ==>
      CellsMerge(gr, a, m, worker, parts, k) && PartsRun(gr, a, parts, k)
    ensures Led(gr, a, k, parts) && CellsMerge(gr, a, m, worker, parts, k) && PartsRun(gr, a, parts, k) ==>
      ValuesRun(a.func, Args(a, gr.schema, Group(gr.Text, k, Concat(parts))))
  {
    if parts == [] {
      assert Args(a, gr.schema, Group(gr.Text, k, Concat([]))) == [];
    } else {
      hide Led, ValuesRun, Args, Group, Concat, LastMerges, Places;
      var front, last := parts[..|parts| - 1], parts[|parts| - 1];
      assert parts == front + [last];
      if Led(gr, a, k, parts) {
        LedEarlier(gr, a, k, front, last);
      }
      CellsRunIff(gr, a, m, worker, front, k);
      PartsSnoc(gr, worker, front, last, k);
      GroupAppend(gr.Text, Concat(front), last, k);
      var us, vs := Args(a, gr.schema, Group(gr.Text, k, Concat(front))), Args(a, gr.schema, Group(gr.Text, k, last));
      ArgsAppend(a, gr.schema, Group(gr.Text, k, Concat(front)), Group(gr.Text, k, last));
      ValuesRunParts(a.func, us, vs);
      PartsRunSnoc(gr, a, front, last, k);
      if ValuesRun(a.func, us) && ValuesRun(a.func, vs) {
        LastCellRuns(gr, a, m, worker, front, last, k);
      }
    }
  }

  lemma PartsRunSnoc(gr: GroupBy, a: Agg, front: seq<seq<Row>>, last: seq<Row>, k: string)
    ensures PartsRun(gr, a, front + [last], k)
      <==> PartsRun(gr, a, front, k) && ValuesRun(a.func, Args(a, gr.schema, Group(gr.Text, k, last)))
  {
    hide ValuesRun, Args, Group;
    var parts := front + [last];
    assert parts[|front|] == last && forall w :: 0 <= w < |front| ==> parts[w] == front[w];
  }

  // ---- Workers' columns against the query's aggregates ----

  lemma DerivedRuns(a: Agg, b: Agg, schema: Schema, row: Row)
    requires Derived(b, a)
    ensures ArgRuns(a, schema, row) ==> ArgRuns(b, schema, row)
    ensures a.func != Avg || b.func == Sum ==> (ArgRuns(a, schema, row) <==> ArgRuns(b, schema, row))
  {
  }

  lemma SplitRowEvaluates(gr: GroupBy, aggs: seq<Agg>, split: AvgSplit, row: Row)
    requires Splits(aggs, split)
    ensures RowEvaluates(gr, aggs, row) <==> RowEvaluates(gr, split.worker_aggregates, row)
  {
    hide KeyRuns, ArgRuns;
    var worker := split.worker_aggregates;
    if RowEvaluates(gr, aggs, row) {
      forall j | 0 <= j < |worker| ensures ArgRuns(worker[j], gr.schema, row) {
        assert worker[j] in worker;
        var i :| 0 <= i < |aggs| && Derived(worker[j], aggs[i]);
        DerivedRuns(aggs[i], worker[j], gr.schema, row);
      }
    }
    if RowEvaluates(gr, worker, row) {
      forall i | 0 <= i < |aggs| ensures ArgRuns(aggs[i], gr.schema, row) {
        var m := split.mapping[i];
        assert Places(aggs[i], m, worker);
        var j := if m.Halves? then m.sum_idx else m.idx;
        assert ArgRuns(worker[j], gr.schema, row);
        DerivedRuns(aggs[i], worker[j], gr.schema, row);
      }
    }
  }

  lemma DerivedValues(a: Agg, b: Agg, schema: Schema, group: seq<Row>)
    requires Derived(b, a)
    ensures ValuesRun(a.func, Args(a, schema, group)) ==> ValuesRun(b.func, Args(b, schema, group))
    ensures a.func != Avg || b.func == Sum ==>
      (ValuesRun(a.func, Args(a, schema, group)) <==> ValuesRun(b.func, Args(b, schema, group)))
  {
    assert a.func == Avg && b.func == Sum ==> Args(a, schema, group) == Args(b, schema, group);
  }

  lemma SplitGroupRuns(gr: GroupBy, aggs: seq<Agg>, split: AvgSplit, rows: seq<Row>, k: string)
    requires Splits(aggs, split)
    ensures GroupRuns(gr, aggs, rows, k) <==> GroupRuns(gr, split.worker_aggregates, rows, k)
  {
    hide ValuesRun, Args, Group;
    var worker, group := split.worker_aggregates, Group(gr.Text, k, rows);
    if GroupRuns(gr, aggs, rows, k) {
      forall j | 0 <= j < |worker| ensures ValuesRun(worker[j].func, Args(worker[j], gr.schema, group)) {
        assert worker[j] in worker;
        var i :| 0 <= i < |aggs| && Derived(worker[j], aggs[i]);
        DerivedValues(aggs[i], worker[j], gr.schema, group);
      }
    }
    if GroupRuns(gr, worker, rows, k) {
      forall i | 0 <= i < |aggs| ensures ValuesRun(aggs[i].func, Args(aggs[i], gr.schema, group)) {
        var m := split.mapping[i];
        assert Places(aggs[i], m, worker);
        var j := if m.Halves? then m.sum_idx else m.idx;
        assert ValuesRun(worker[j].func, Args(worker[j], gr.schema, group));
        DerivedValues(aggs[i], worker[j], gr.schema, group);
      }
    }
  }

  // A worker throws on its columns exactly when it would on the aggregates.
  lemma SplitRuns(gr: GroupBy, aggs: seq<Agg>, split: AvgSplit, rows: seq<Row>)
    requires Splits(aggs, split)
    ensures Aggregable(gr, split.worker_aggregates, rows) <==> AllRun(gr, aggs, rows)
  {
    hide Aggregable, RowEvaluates, GroupRuns, Splits;
    AggregableIff(gr, split.worker_aggregates, rows);
    forall r ensures RowEvaluates(gr, aggs, r) <==> RowEvaluates(gr, split.worker_aggregates, r) {
      SplitRowEvaluates(gr, aggs, split, r);
    }
    forall k ensures GroupRuns(gr, aggs, rows, k) <==> GroupRuns(gr, split.worker_aggregates, rows, k) {
      SplitGroupRuns(gr, aggs, split, rows, k);
    }
  }

  // ---- All groups on all workers ----

  // Every group is led, also those that do not occur.
  lemma LedEverywhere(gr: GroupBy, aggs: seq<Agg>, parts: seq<seq<Row>>, k: string, i: nat)
    requires AllLed(gr, aggs, parts) && i < |aggs|
    ensures Led(gr, aggs[i], k, parts)
  {
    hide Leading, Concat;
    if k !in GroupsOf(gr, Concat(parts)) {
      NoGroup(gr.Text, Concat(parts), k);
      if gr.group_by == [] {
        OtherTextsEmpty(gr, Concat(parts), k);
      }
      NoValues(aggs[i], gr.schema);
    }
  }

  lemma OtherTextsEmpty(gr: GroupBy, rows: seq<Row>, k: string)
    requires gr.group_by == [] && k != ""
    ensures Group(gr.Text, k, rows) == []
  {
    forall r | r in rows ensures gr.Text(r) != k {
      assert gr.Key(r) == [];
    }
    NonePass(InGroup(gr.Text, k), rows);
  }

  ghost predicate EachRuns(gr: GroupBy, aggs: seq<Agg>, parts: seq<seq<Row>>)
  {
    forall w :: 0 <= w < |parts| ==> AllRun(gr, aggs, parts[w])
  }

  lemma EachRunsIff(gr: GroupBy, aggs: seq<Agg>, parts: seq<seq<Row>>)
    ensures EachRuns(gr, aggs, parts)
       <==> (forall r :: r in Concat(parts) ==> RowEvaluates(gr, aggs, r))
            && forall k, w :: 0 <= w < |parts| ==> GroupRuns(gr, aggs, parts[w], k)
  {
    hide RowEvaluates, GroupRuns, Concat;
    ConcatMembers(parts);
    if EachRuns(gr, aggs, parts) {
      forall r | r in Concat(parts) ensures RowEvaluates(gr, aggs, r) {
        var w :| 0 <= w < |parts| && r in parts[w];
        assert AllRun(gr, aggs, parts[w]);
      }
      forall k, w | 0 <= w < |parts| ensures GroupRuns(gr, aggs, parts[w], k) {
        assert AllRun(gr, aggs, parts[w]);
      }
    }
  }

  lemma GroupsRunIff(gr: GroupBy, aggs: seq<Agg>, split: AvgSplit, parts: seq<seq<Row>>, k: string)
    requires Splits(aggs, split) && (forall b :: b in split.worker_aggregates ==> b.func != Avg)
      && AllLed(gr, aggs, parts) && IsGroup(gr, k)
    ensures GroupRuns(gr, aggs, Concat(parts), k)
       <==> (forall i :: 0 <= i < |aggs| ==>
             CellsMerge(gr, aggs[i], split.mapping[i], split.worker_aggregates, parts, k))
            && forall w :: 0 <= w < |parts| ==> GroupRuns(gr, aggs, parts[w], k)
  {
    hide ValuesRun, Args, Group, Concat, CellsMerge, AllLed, Led;
    forall i | 0 <= i < |aggs|
      ensures ValuesRun(aggs[i].func, Args(aggs[i], gr.schema, Group(gr.Text, k, Concat(parts)))) <==>
        && CellsMerge(gr, aggs[i], split.mapping[i], split.worker_aggregates, parts, k)
        && PartsRun(gr, aggs[i], parts, k)
    {
      LedEverywhere(gr, aggs, parts, k, i);
      CellsRunIff(gr, aggs[i], split.mapping[i], split.worker_aggregates, parts, k);
    }
    assert (forall i :: 0 <= i < |aggs| ==> PartsRun(gr, aggs[i], parts, k))
      <==> forall w :: 0 <= w < |parts| ==> GroupRuns(gr, aggs, parts[w], k);
  }

  lemma NoSuchGroupRuns(gr: GroupBy, aggs: seq<Agg>, rows: seq<Row>, k: string)
    requires !IsGroup(gr, k)
    ensures GroupRuns(gr, aggs, rows, k)
  {
    hide ValuesRun, Args;
    OtherTextsEmpty(gr, rows, k);
    NothingRuns(gr, aggs, k);
    assert Group(gr.Text, k, []) == [];
  }

  // No worker throws and the merge does not throw exactly when one node,
  // aggregating all the rows, does not.
  lemma MergeRunsIff(gr: GroupBy, aggs: seq<Agg>, split: AvgSplit, parts: seq<seq<Row>>)
    requires Splits(aggs, split) && (forall b :: b in split.worker_aggregates ==> b.func != Avg)
      && AllLed(gr, aggs, parts)
    ensures (forall w :: 0 <= w < |parts| ==> Aggregable(gr, split.worker_aggregates, parts[w]))
            && Mergeable(|gr.group_by|, aggs, split.mapping, Partials(gr, split.worker_aggregates, parts))
       <==> Aggregable(gr, aggs, Concat(parts))
  {
    hide Aggregable, RowEvaluates, GroupRuns, Splits, AllLed, Mergeable, Partials, CellsMerge, Concat;
    MappingSize(aggs, split);
    AggregableIff(gr, aggs, Concat(parts));
    MergeableIff(gr, aggs, split, parts);
    forall w | 0 <= w < |parts|
      ensures Aggregable(gr, split.worker_aggregates, parts[w]) <==> AllRun(gr, aggs, parts[w]) {
      SplitRuns(gr, aggs, split, parts[w]);
    }
    EachGroupDecides(gr, aggs, split, parts);
  }

  // What the workers send never makes the merge throw if one node does not.
  lemma SentMergeable(gr: GroupBy, aggs: seq<Agg>, split: AvgSplit, parts: seq<seq<Row>>)
    requires Splits(aggs, split) && (forall b :: b in split.worker_aggregates ==> b.func != Avg)
    requires Aggregable(gr, aggs, Concat(parts))
    ensures Mergeable(|gr.group_by|, aggs, split.mapping, Partials(gr, split.worker_aggregates, parts))
  {
    hide Aggregable, RowEvaluates, Mergeable, Partials, CellsMerge, Concat, Args, Group, ValuesRun;
    AggregableIff(gr, aggs, Concat(parts));
    MergeableIff(gr, aggs, split, parts);
    forall k, i | IsGroup(gr, k) && 0 <= i < |aggs|
      ensures CellsMerge(gr, aggs[i], split.mapping[i], split.worker_aggregates, parts, k)
    {
      assert GroupRuns(gr, aggs, Concat(parts), k);
      CellsRunIff(gr, aggs[i], split.mapping[i], split.worker_aggregates, parts, k);
    }
  }

  lemma EachGroupDecides(gr: GroupBy, aggs: seq<Agg>, split: AvgSplit, parts: seq<seq<Row>>)
    requires Splits(aggs, split) && (forall b :: b in split.worker_aggregates ==> b.func != Avg)
      && AllLed(gr, aggs, parts)
    ensures EachRuns(gr, aggs, parts) && AllCellsMerge(gr, aggs, split, parts) <==> AllRun(gr, aggs, Concat(parts))
  {
    hide RowEvaluates, GroupRuns, Splits, AllLed, CellsMerge, Concat;
    MappingSize(aggs, split);
    EachRunsIff(gr, aggs, parts);
    if EachRuns(gr, aggs, parts) && AllCellsMerge(gr, aggs, split, parts) {
      forall k ensures GroupRuns(gr, aggs, Concat(parts), k) {
        if IsGroup(gr, k) {
          GroupsRunIff(gr, aggs, split, parts, k);
        } else {
          NoSuchGroupRuns(gr, aggs, Concat(parts), k);
        }
      }
    }
    if AllRun(gr, aggs, Concat(parts)) {
      forall k, w | 0 <= w < |parts| ensures GroupRuns(gr, aggs, parts[w], k) {
        assert GroupRuns(gr, aggs, Concat(parts), k);
        if IsGroup(gr, k) {
          GroupsRunIff(gr, aggs, split, parts, k);
        } else {
          NoSuchGroupRuns(gr, aggs, parts[w], k);
        }
      }
      forall k, i | IsGroup(gr, k) && 0 <= i < |aggs|
        ensures CellsMerge(gr, aggs[i], split.mapping[i], split.worker_aggregates, parts, k)
      {
        assert GroupRuns(gr, aggs, Concat(parts), k);
        GroupsRunIff(gr, aggs, split, parts, k);
      }
    }
  }

  // ---- Without a merge ----

  lemma {:induction false} ApartGroup(gr: GroupBy, parts: seq<seq<Row>>, k: string, w: nat)
    requires Apart(gr, parts) && w < |parts| && k in Texts(gr.Text, parts[w])
    ensures Group(gr.Text, k, Concat(parts)) == Group(gr.Text, k, parts[w])
  {
    hide Texts, Group;
    var front, last := parts[..|parts| - 1], parts[|parts| - 1];
    GroupAppend(gr.Text, Concat(front), last, k);
    NoGroup(gr.Text, last, k);
    NoGroup(gr.Text, Concat(front), k);
    if w == |parts| - 1 {
      ElsewhereEmpty(gr, front, k);
      assert [] + Group(gr.Text, k, last) == Group(gr.Text, k, last);
    } else {
      assert front[w] == parts[w] && Apart(gr, front);
      ApartGroup(gr, front, k, w);
      assert Group(gr.Text, k, Concat(front)) + [] == Group(gr.Text, k, Concat(front));
    }
  }

  lemma {:induction false} ElsewhereEmpty(gr: GroupBy, parts: seq<seq<Row>>, k: string)
    requires forall w :: 0 <= w < |parts| ==> k !in Texts(gr.Text, parts[w])
    ensures Group(gr.Text, k, Concat(parts)) == []
  {
    if parts == [] {
      NoneOfNothing(gr, k);
    } else {
      hide Texts, Group;
      var front, last := parts[..|parts| - 1], parts[|parts| - 1];
      ElsewhereEmpty(gr, front, k);
      GroupAppend(gr.Text, Concat(front), last, k);
      NoGroup(gr.Text, last, k);
    }
  }

  lemma ApartGroupRuns(gr: GroupBy, aggs: seq<Agg>, parts: seq<seq<Row>>, k: string)
    requires Apart(gr, parts)
    ensures GroupRuns(gr, aggs, Concat(parts), k) <==> forall w :: 0 <= w < |parts| ==> GroupRuns(gr, aggs, parts[w], k)
  {
    hide ValuesRun, Args, Group, Concat, Texts, Apart;
    NothingRuns(gr, aggs, k);
    NoneOfNothing(gr, k);
    forall w | 0 <= w < |parts| ensures k !in Texts(gr.Text, parts[w]) ==> GroupRuns(gr, aggs, parts[w], k) {
      NoGroup(gr.Text, parts[w], k);
    }
    if w :| 0 <= w < |parts| && k in Texts(gr.Text, parts[w]) {
      ApartGroup(gr, parts, k, w);
      forall v | 0 <= v < |parts| && v != w ensures k !in Texts(gr.Text, parts[v]) { ApartTexts(gr, parts, k, v, w); }
    } else {
      ElsewhereEmpty(gr, parts, k);
    }
  }

  lemma ApartTexts(gr: GroupBy, parts: seq<seq<Row>>, k: string, v: nat, w: nat)
    requires Apart(gr, parts) && v < |parts| && w < |parts| && v != w && k in Texts(gr.Text, parts[w])
    ensures k !in Texts(gr.Text, parts[v])
  {
    hide Texts;
  }

  // When no group is on two workers, no worker throws exactly when one node
  // does not.
  lemma ConcatenationRunsIff(gr: GroupBy, aggs: seq<Agg>, parts: seq<seq<Row>>)
    requires Apart(gr, parts)
    ensures (forall w :: 0 <= w < |parts| ==> Aggregable(gr, aggs, parts[w])) <==> Aggregable(gr, aggs, Concat(parts))
  {
    hide Aggregable, RowEvaluates, GroupRuns, Apart, Concat;
    AggregableIff(gr, aggs, Concat(parts));
    EachRunsIff(gr, aggs, parts);
    forall w | 0 <= w < |parts| ensures Aggregable(gr, aggs, parts[w]) <==> AllRun(gr, aggs, parts[w]) {
      AggregableIff(gr, aggs, parts[w]);
    }
    if EachRuns(gr, aggs, parts) {
      forall k ensures GroupRuns(gr, aggs, Concat(parts), k) { ApartGroupRuns(gr, aggs, parts, k); }
    }
    if AllRun(gr, aggs, Concat(parts)) {
      forall k, w | 0 <= w < |parts| ensures GroupRuns(gr, aggs, parts[w], k) {
        assert GroupRuns(gr, aggs, Concat(parts), k);
        ApartGroupRuns(gr, aggs, parts, k);
      }
    }
  }
}
