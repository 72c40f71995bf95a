// AVG splitting and merge_partial_aggregates (distributed/coordinator.cpp).
module PartialAggregation {
  import opened Wrappers
  import opened Ast
  import opened Values
  import opened Bags
  import opened Relational
  import opened Grouping
  import opened Aggregation

  datatype AvgMapping = Direct(idx: nat) | Halves(sum_idx: nat, count_idx: nat)

  datatype AvgSplit = AvgSplit(worker_aggregates: seq<Agg>, mapping: seq<AvgMapping>)

  // Where the parts of an aggregate are among the worker's columns.
  ghost predicate Places(a: Agg, m: AvgMapping, worker: seq<Agg>)
  {
    if a.func == Avg then
      && m.Halves? && m.sum_idx < |worker| && m.count_idx < |worker|
      && worker[m.sum_idx] == Agg(Sum, a.arg) && worker[m.count_idx] == Agg(Count, a.arg)
    else m.Direct? && m.idx < |worker| && worker[m.idx] == a
  }

  // A column workers compute for an aggregate.
  ghost predicate Derived(b: Agg, a: Agg)
  {
    if a.func == Avg then b == Agg(Sum, a.arg) || b == Agg(Count, a.arg) else b == a
  }

  ghost predicate Splits(original: seq<Agg>, split: AvgSplit)
  {
    && |split.mapping| == |original|
    && (forall i :: 0 <= i < |original| ==> Places(original[i], split.mapping[i], split.worker_aggregates))
    && forall b :: b in split.worker_aggregates ==> exists i :: 0 <= i < |original| && Derived(b, original[i])
  }

  method SplitAvg(original: seq<Agg>) returns (split: AvgSplit)
    ensures Splits(original, split)
    ensures forall a :: a in split.worker_aggregates ==> a.func != Avg
  {
    var worker: seq<Agg>, mapping: seq<AvgMapping> := [], [];
    for n := 0 to |original|
      invariant |mapping| == n && forall i :: 0 <= i < n ==> Places(original[i], mapping[i], worker)
      invariant forall a :: a in worker ==> a.func != Avg
      invariant forall b :: b in worker ==> exists i :: 0 <= i < n && Derived(b, original[i])
    {
      var a := original[n];
      assert Derived(Agg(if a.func == Avg then Sum else a.func, a.arg), a)
        && (a.func == Avg ==> Derived(Agg(Count, a.arg), a));
      if a.func == Avg {
        mapping := mapping + [Halves(|worker|, |worker| + 1)];
        worker := worker + [Agg(Sum, a.arg)] + [Agg(Count, a.arg)];
      } else {
        mapping := mapping + [Direct(|worker|)];
        worker := worker + [a];
      }
    }
    split := AvgSplit(worker, mapping);
  }

  // ---- The merge ----

  datatype MergeAcc = MergeAcc(sum: real, count: real, min: Option<Literal>, max: Option<Literal>)

  const NOTHING := MergeAcc(0.0, 0.0, None, None)

  function Cell(row: Row, i: nat): Literal
  {
    if i < |row| then row[i] else Null
  }

  // One partial row added; f and m describe the aggregate, g the key's width.
  function MergeStep(f: Func, m: AvgMapping, g: nat, acc: MergeAcc, row: Row): MergeAcc
  {
    match m
    case Halves(s, c) => acc.(sum := acc.sum + Number(Cell(row, g + s)), count := acc.count + Number(Cell(row, g + c)))
    case Direct(i) =>
      var v := Cell(row, g + i);
      match f
      case Sum => acc.(sum := acc.sum + Number(v))
      case Count => acc.(count := acc.count + Number(v))
      case Min => if acc.min.None? || Less(v, acc.min.value) then acc.(min := Some(v)) else acc
      case Max => if acc.max.None? || Less(acc.max.value, v) then acc.(max := Some(v)) else acc
      case Avg => acc
  }

  function MergeFold(f: Func, m: AvgMapping, g: nat, rows: seq<Row>): MergeAcc
  {
    if rows == [] then NOTHING else MergeStep(f, m, g, MergeFold(f, m, g, rows[..|rows| - 1]), rows[|rows| - 1])
  }

  function MergeFinal(f: Func, acc: MergeAcc): Literal
  {
    match f
    case Sum => Float(acc.sum)
    case Count => Integer(acc.count.Floor)
    case Avg => Float(if acc.count > 0.0 then acc.sum / acc.count else 0.0)
    case Min => OrNull(acc.min)
    case Max => OrNull(acc.max)
  }

  function KeyPart(g: nat, row: Row): Row
  {
    if g <= |row| then row[..g] else row
  }

  function PartialText(g: nat): Row -> string
  {
    row => KeyText(KeyPart(g, row))
  }

  function MergeAccs(g: nat, aggs: seq<Agg>, mapping: seq<AvgMapping>, group: seq<Row>): (accs: seq<MergeAcc>)
    requires |mapping| == |aggs|
    ensures |accs| == |aggs|
  {
    seq(|aggs|, i requires 0 <= i < |aggs| => MergeFold(aggs[i].func, mapping[i], g, group))
  }

  function MergeRow(g: nat, aggs: seq<Agg>, mapping: seq<AvgMapping>, k: string, rows: seq<Row>): Row
    requires |mapping| == |aggs|
  {
    var group := Group(PartialText(g), k, rows);
    var accs := MergeAccs(g, aggs, mapping, group);
    (if group == [] then [] else KeyPart(g, group[0]))
    + seq(|aggs|, i requires 0 <= i < |aggs| => MergeFinal(aggs[i].func, accs[i]))
  }

  function MergeRows(g: nat, aggs: seq<Agg>, mapping: seq<AvgMapping>, rows: seq<Row>): seq<Row>
    requires |mapping| == |aggs|
  {
    var keys := Keys(PartialText(g), rows);
    seq(|keys|, i requires 0 <= i < |keys| => MergeRow(g, aggs, mapping, keys[i], rows))
  }

  predicate StepMerges(f: Func, m: AvgMapping, g: nat, acc: MergeAcc, row: Row)
  {
    match m
    case Halves(s, c) => IsNumeric(Cell(row, g + s)) && IsNumeric(Cell(row, g + c))
    case Direct(i) =>
      match f
      case Min => acc.min.None? || LiteralLess(Cell(row, g + i), acc.min.value).Some?
      case Max => acc.max.None? || LiteralLess(acc.max.value, Cell(row, g + i)).Some?
      case Avg => true
      case _ => IsNumeric(Cell(row, g + i))
  }

  // Adding a partial row after the ones before it does not throw.
  predicate RowMerges(g: nat, aggs: seq<Agg>, mapping: seq<AvgMapping>, before: seq<Row>, row: Row)
    requires |mapping| == |aggs|
  {
    var accs := MergeAccs(g, aggs, mapping, Group(PartialText(g), PartialText(g)(row), before));
    forall i :: 0 <= i < |aggs| ==> StepMerges(aggs[i].func, mapping[i], g, accs[i], row)
  }

  predicate Mergeable(g: nat, aggs: seq<Agg>, mapping: seq<AvgMapping>, rows: seq<Row>)
    requires |mapping| == |aggs|
  {
    forall n :: 0 <= n < |rows| ==> RowMerges(g, aggs, mapping, rows[..n], rows[n])
  }

  datatype MergeState = MergeState(group_key: Row, accs: seq<MergeAcc>)

  ghost predicate Merging(st: MergeState, g: nat, aggs: seq<Agg>, mapping: seq<AvgMapping>, group: seq<Row>)
    requires |mapping| == |aggs|
  {
    group != [] && st.group_key == KeyPart(g, group[0]) && st.accs == MergeAccs(g, aggs, mapping, group)
  }

  ghost predicate MergingAll(groups: map<string, MergeState>, g: nat, aggs: seq<Agg>, mapping: seq<AvgMapping>,
                             rows: seq<Row>)
    requires |mapping| == |aggs|
  {
    && (forall k :: k in groups <==> k in Texts(PartialText(g), rows))
    && forall k :: k in groups ==> Merging(groups[k], g, aggs, mapping, Group(PartialText(g), k, rows))
  }

  lemma MergingMore(groups: map<string, MergeState>, g: nat, aggs: seq<Agg>, mapping: seq<AvgMapping>,
                    rows: seq<Row>, row: Row, st: MergeState)
    requires |mapping| == |aggs| && MergingAll(groups, g, aggs, mapping, rows)
    requires Merging(st, g, aggs, mapping, Group(PartialText(g), PartialText(g)(row), rows) + [row])
    ensures MergingAll(groups[PartialText(g)(row) := st], g, aggs, mapping, rows + [row])
  {
    hide Merging, PartialText, Group;
    var text := PartialText(g);
    var groups' := groups[text(row) := st];
    GroupSnoc(text, rows, row, text(row));
    forall k | k in groups' ensures Merging(groups'[k], g, aggs, mapping, Group(text, k, rows + [row])) {
      GroupSnoc(text, rows, row, k);
      assert Group(text, k, rows) + [] == Group(text, k, rows);
    }
  }

  // The accumulators of a group after one more partial row.
  method MergeInto(g: nat, aggs: seq<Agg>, mapping: seq<AvgMapping>, accs: seq<MergeAcc>, ghost group: seq<Row>,
                   row: Row)
    returns (r: Option<seq<MergeAcc>>)
    requires |mapping| == |aggs| && accs == MergeAccs(g, aggs, mapping, group)
    ensures r.Some? <==> forall i :: 0 <= i < |aggs| ==> StepMerges(aggs[i].func, mapping[i], g, accs[i], row)
    ensures r.Some? ==> r.value == MergeAccs(g, aggs, mapping, group + [row])
  {
    hide StepMerges, MergeStep, MergeFold;
    var done: seq<MergeAcc> := [];
    for i := 0 to |aggs|
      invariant forall j :: 0 <= j < i ==> StepMerges(aggs[j].func, mapping[j], g, accs[j], row)
      invariant |done| == i && done == MergeAccs(g, aggs, mapping, group + [row])[..i]
    {
      if !StepMerges(aggs[i].func, mapping[i], g, accs[i], row) {
        return None;
      }
      MergeFoldSnoc(aggs[i].func, mapping[i], g, group, row);
      done := done + [MergeStep(aggs[i].func, mapping[i], g, accs[i], row)];
    }
    r := Some(done);
  }

  method MergeStateFor(groups: map<string, MergeState>, g: nat, aggs: seq<Agg>, mapping: seq<AvgMapping>,
                       ghost rows: seq<Row>, row: Row)
    returns (st: MergeState)
    requires |mapping| == |aggs| && MergingAll(groups, g, aggs, mapping, rows)
    ensures st.group_key == KeyPart(g, (Group(PartialText(g), PartialText(g)(row), rows) + [row])[0])
    ensures st.accs == MergeAccs(g, aggs, mapping, Group(PartialText(g), PartialText(g)(row), rows))
  {
    var key_str := PartialText(g)(row);
    NoGroup(PartialText(g), rows, key_str);
    if key_str in groups {
      st := groups[key_str];
    } else {
      assert Group(PartialText(g), key_str, rows) == [];
      st := MergeState(KeyPart(g, row), seq(|aggs|, i => NOTHING));
      assert st.accs == MergeAccs(g, aggs, mapping, []);
    }
  }

  method MergeAbsorb(groups: map<string, MergeState>, order: seq<string>, g: nat, aggs: seq<Agg>,
                     mapping: seq<AvgMapping>, ghost before: seq<Row>, row: Row)
    returns (r: Option<(map<string, MergeState>, seq<string>)>)
    requires |mapping| == |aggs| && MergingAll(groups, g, aggs, mapping, before)
      && order == Keys(PartialText(g), before)
    ensures r.Some? <==> RowMerges(g, aggs, mapping, before, row)
    ensures r.Some? ==>
      MergingAll(r.value.0, g, aggs, mapping, before + [row]) && r.value.1 == Keys(PartialText(g), before + [row])
  {
    hide MergeAccs, StepMerges, Keys, KeyPart, PartialText;
    var key_str := PartialText(g)(row);
    var st := MergeStateFor(groups, g, aggs, mapping, before, row);
    var accs := MergeInto(g, aggs, mapping, st.accs, Group(PartialText(g), key_str, before), row);
    if accs.None? {
      return None;
    }
    KeysSnoc(PartialText(g), before, row);
    MergingMore(groups, g, aggs, mapping, before, row, MergeState(st.group_key, accs.value));
    r := Some((groups[key_str := MergeState(st.group_key, accs.value)],
               if key_str in groups then order else order + [key_str]));
  }

  function MergeOut(st: MergeState, aggs: seq<Agg>): Row
  {
    st.group_key
    + seq(|aggs|, i requires 0 <= i < |aggs| => if i < |st.accs| then MergeFinal(aggs[i].func, st.accs[i]) else Null)
  }

  lemma MergeEmitted(groups: map<string, MergeState>, g: nat, aggs: seq<Agg>, mapping: seq<AvgMapping>, k: string,
                     rows: seq<Row>)
    requires |mapping| == |aggs| && MergingAll(groups, g, aggs, mapping, rows) && k in Keys(PartialText(g), rows)
    ensures k in groups && MergeRow(g, aggs, mapping, k, rows) == MergeOut(groups[k], aggs)
  {
    hide FirstSeen, MergeAccs, MergeFinal, MergeRow, MergeOut, PartialText, Group;
    MergedOut(groups[k], g, aggs, mapping, k, rows);
  }

  lemma MergedOut(st: MergeState, g: nat, aggs: seq<Agg>, mapping: seq<AvgMapping>, k: string, rows: seq<Row>)
    requires |mapping| == |aggs| && Merging(st, g, aggs, mapping, Group(PartialText(g), k, rows))
    ensures MergeRow(g, aggs, mapping, k, rows) == MergeOut(st, aggs)
  {
    hide MergeAccs, MergeFinal, PartialText, Group, KeyPart;
    var accs := MergeAccs(g, aggs, mapping, Group(PartialText(g), k, rows));
    var finals := seq(|aggs|, i requires 0 <= i < |aggs| => MergeFinal(aggs[i].func, accs[i]));
    assert MergeRow(g, aggs, mapping, k, rows) == st.group_key + finals;
    assert MergeOut(st, aggs) == st.group_key + finals;
  }

  // merge_partial_aggregates
  method MergePartialAggregates(worker_rows: seq<seq<Row>>, group_by_count: nat, aggs: seq<Agg>, split: AvgSplit)
    returns (result: Result<seq<Row>>)
    requires Splits(aggs, split)
    ensures result.Ok? <==> Mergeable(group_by_count, aggs, split.mapping, Concat(worker_rows))
    ensures result.Ok? ==> result.value == MergeRows(group_by_count, aggs, split.mapping, Concat(worker_rows))
  {
    hide MergingAll, RowMerges, Keys, PartialText, MergeRow;
    var g, mapping := group_by_count, split.mapping;
    var groups: map<string, MergeState>, order: seq<string> := map[], [];
    NothingMerging(g, aggs, mapping);
    ghost var seen: seq<Row> := [];
    for w := 0 to |worker_rows|
      invariant seen == Concat(worker_rows[..w])
      invariant MergingAll(groups, g, aggs, mapping, seen) && order == Keys(PartialText(g), seen)
      invariant forall m :: 0 <= m < |seen| ==> RowMerges(g, aggs, mapping, seen[..m], seen[m])
    {
      var wr := worker_rows[w];
      MoreRows(worker_rows, w);
      for n := 0 to |wr|
        invariant seen == Concat(worker_rows[..w]) + wr[..n]
        invariant MergingAll(groups, g, aggs, mapping, seen) && order == Keys(PartialText(g), seen)
        invariant forall m :: 0 <= m < |seen| ==> RowMerges(g, aggs, mapping, seen[..m], seen[m])
      {
        RowOfAll(worker_rows, w, n);
        var r := MergeAbsorb(groups, order, g, aggs, mapping, seen, wr[n]);
        if r.None? {
          return Err("execution: cannot merge this partial row");
        }
        MergesMore(g, aggs, mapping, seen, wr[n]);
        groups, order, seen := r.value.0, r.value.1, seen + [wr[n]];
      }
    }
    assert worker_rows[..|worker_rows|] == worker_rows;
    var out: seq<Row> := [];
    for n := 0 to |order|
      invariant |out| == n && forall m :: 0 <= m < n ==> out[m] == MergeRow(g, aggs, mapping, order[m], seen)
    {
      MergeEmitted(groups, g, aggs, mapping, order[n], seen);
      out := out + [MergeOut(groups[order[n]], aggs)];
    }
    result := Ok(out);
  }

  lemma NothingMerging(g: nat, aggs: seq<Agg>, mapping: seq<AvgMapping>)
    requires |mapping| == |aggs|
    ensures MergingAll(map[], g, aggs, mapping, []) && Keys(PartialText(g), []) == []
  {
    assert Texts(PartialText(g), []) == [];
  }

  lemma MergesMore(g: nat, aggs: seq<Agg>, mapping: seq<AvgMapping>, seen: seq<Row>, row: Row)
    requires |mapping| == |aggs| && RowMerges(g, aggs, mapping, seen, row)
    requires forall m :: 0 <= m < |seen| ==> RowMerges(g, aggs, mapping, seen[..m], seen[m])
    ensures forall m :: 0 <= m < |seen + [row]| ==> RowMerges(g, aggs, mapping, (seen + [row])[..m], (seen + [row])[m])
  {
    hide RowMerges;
    forall m | 0 <= m < |seen + [row]| ensures RowMerges(g, aggs, mapping, (seen + [row])[..m], (seen + [row])[m]) {
      if m < |seen| {
        assert (seen + [row])[..m] == seen[..m];
      } else {
        assert (seen + [row])[..m] == seen;
      }
    }
  }

  lemma MoreRows(parts: seq<seq<Row>>, w: nat)
    requires w < |parts|
    ensures Concat(parts[..w + 1]) == Concat(parts[..w]) + parts[w] && parts[w][..|parts[w]|] == parts[w]
  {
    assert parts[..w + 1][..w] == parts[..w];
  }

  // Where the rows of one part are among all the rows.
  lemma {:induction false} ConcatFrom(parts: seq<seq<Row>>, w: nat)
    requires w <= |parts|
    ensures Concat(parts[..w]) <= Concat(parts)
  {
    if w < |parts| {
      assert parts[..|parts| - 1][..w] == parts[..w];
      ConcatFrom(parts[..|parts| - 1], w);
    } else {
      assert parts[..w] == parts;
    }
  }

  lemma RowOfAll(parts: seq<seq<Row>>, w: nat, n: nat)
    requires w < |parts| && n < |parts[w]|
    ensures |Concat(parts[..w])| + n < |Concat(parts)| && Concat(parts)[|Concat(parts[..w])| + n] == parts[w][n]
    ensures Concat(parts)[..|Concat(parts[..w])| + n] == Concat(parts[..w]) + parts[w][..n]
    ensures parts[w][..n + 1] == parts[w][..n] + [parts[w][n]]
  {
    MoreRows(parts, w);
    ConcatFrom(parts, w + 1);
    var before := Concat(parts[..w]);
    assert Concat(parts)[..|before + parts[w]|] == before + parts[w];
    assert Concat(parts)[|before| + n] == (before + parts[w])[|before| + n];
    assert Concat(parts)[..|before| + n] == (before + parts[w])[..|before| + n] == before + parts[w][..n];
  }

  // ---- What each worker sends ----

  function Partials(gr: GroupBy, worker: seq<Agg>, parts: seq<seq<Row>>): seq<Row>
  {
    if parts == [] then []
    else Partials(gr, worker, parts[..|parts| - 1]) + HashAggregate(gr, worker, parts[|parts| - 1])
  }

  // The groups HashAggregate has a row for.
  function GroupsOf(gr: GroupBy, rows: seq<Row>): seq<string>
  {
    if gr.group_by == [] then [""] else Keys(gr.Text, rows)
  }

  // The group's rows in the first part that sends a row for it.
  ghost function Leading(gr: GroupBy, k: string, parts: seq<seq<Row>>): Option<seq<Row>>
  {
    if parts == [] then None
    else
      var before, last := Leading(gr, k, parts[..|parts| - 1]), parts[|parts| - 1];
      if before.Some? then before else if k in GroupsOf(gr, last) then Some(Group(gr.Text, k, last)) else None
  }

  predicate HasValue(vs: seq<Literal>)
  {
    exists v :: v in vs && !v.Null?
  }

  // MIN and MAX of a group: a NULL from the first worker that sends the group
  // is never replaced, so it must mean that the group has no value at all.
  ghost predicate Led(gr: GroupBy, a: Agg, k: string, parts: seq<seq<Row>>)
  {
    a.func in {Min, Max} && HasValue(Args(a, gr.schema, Group(gr.Text, k, Concat(parts)))) ==>
      Leading(gr, k, parts).Some? && HasValue(Args(a, gr.schema, Leading(gr, k, parts).value))
  }

  ghost predicate AllLed(gr: GroupBy, aggs: seq<Agg>, parts: seq<seq<Row>>)
  {
    forall k, i :: k in GroupsOf(gr, Concat(parts)) && 0 <= i < |aggs| ==> Led(gr, aggs[i], k, parts)
  }

  // AVG without GROUP BY over no rows is NULL on one node and 0.0 merged.
  ghost predicate EmptyAverage(gr: GroupBy, aggs: seq<Agg>, rows: seq<Row>)
  {
    gr.group_by == [] && rows == [] && exists i :: 0 <= i < |aggs| && aggs[i].func == Avg
  }

  // ---- The merged accumulator of one group against the whole group's ----

  ghost function Kept(lead: Option<seq<Literal>>, best: Option<Literal>): Option<Literal>
  {
    if lead.None? then None else if HasValue(lead.value) then best else Some(Null)
  }

  ghost predicate Agree(f: Func, m: MergeAcc, acc: Acc, lead: Option<seq<Literal>>)
  {
    && (f in {Sum, Avg} ==> m.sum == acc.sum)
    && (f in {Count, Avg} ==> m.count == acc.count as real)
    && (f == Min ==> m.min == Kept(lead, acc.min))
    && (f == Max ==> m.max == Kept(lead, acc.max))
  }

  lemma BestExists(f: Func, vs: seq<Literal>)
    requires Fits(f, vs)
    ensures f == Min ==> (Fold(f, vs).min.Some? <==> HasValue(vs))
    ensures f == Max ==> (Fold(f, vs).max.Some? <==> HasValue(vs))
  {
    hide Fold, Fits;
    FoldMeaning(f, vs);
  }

  // The partial row holds the worker's results after the key.
  ghost predicate Carries(row: Row, g: nat, worker: seq<Agg>, schema: Schema, group: seq<Row>)
  {
    forall i :: 0 <= i < |worker| ==>
      Cell(row, g + i) == Final(worker[i].func, Fold(worker[i].func, Args(worker[i], schema, group)))
  }

  lemma {:induction false} SameSums(vs: seq<Literal>)
    ensures Fold(Sum, vs) == Fold(Avg, vs) && Fold(Count, vs).count == Fold(Avg, vs).count
  {
    if vs != [] {
      SameSums(vs[..|vs| - 1]);
    }
  }

  ghost function LeadArgs(a: Agg, schema: Schema, lead: Option<seq<Row>>): Option<seq<Literal>>
  {
    if lead.Some? then Some(Args(a, schema, lead.value)) else None
  }

  // The cells a worker sends for the values vs.
  ghost predicate CellsOf(f: Func, m: AvgMapping, g: nat, row: Row, vs: seq<Literal>)
  {
    match m
    case Halves(s, c) =>
      f == Avg && Cell(row, g + s) == Float(Fold(Avg, vs).sum) && Cell(row, g + c) == Integer(Fold(Avg, vs).count)
    case Direct(i) => f != Avg && Cell(row, g + i) == Final(f, Fold(f, vs))
  }

  lemma CellsSent(a: Agg, m: AvgMapping, worker: seq<Agg>, schema: Schema, g: nat, row: Row, group: seq<Row>)
    requires Places(a, m, worker) && Carries(row, g, worker, schema, group)
    requires a.func == Avg && a.arg == Wildcard ==> group == []
    ensures CellsOf(a.func, m, g, row, Args(a, schema, group))
  {
    hide Fold, ArgOf;
    if a.func == Avg {
      SameSums(Args(a, schema, group));
      SameArgs(a, schema, group);
    }
  }

  lemma StepAgrees(f: Func, m: AvgMapping, g: nat, acc: MergeAcc, us: seq<Literal>, lead: Option<seq<Literal>>,
                   row: Row, vs: seq<Literal>)
    requires CellsOf(f, m, g, row, vs) && Fits(f, us + vs) && Agree(f, acc, Fold(f, us), lead)
    requires if lead.None? then us == [] else HasValue(lead.value) ==> HasValue(us)
    ensures Agree(f, MergeStep(f, m, g, acc, row), Fold(f, us + vs), if lead.None? then Some(vs) else lead)
  {
    hide Fold, Fits, HasValue;
    assert us == [] ==> Fold(f, us) == ZERO by { NothingFolded(f); }
    FitsParts(f, us, vs);
    FoldAppend(f, us, vs);
    BestExists(f, us);
    BestExists(f, vs);
  }

  lemma NothingFolded(f: Func)
    ensures Fold(f, []) == ZERO
  {
  }

  // One more worker's row for the group.
  lemma MergeStepAgrees(a: Agg, m: AvgMapping, worker: seq<Agg>, schema: Schema, g: nat,
                        acc: MergeAcc, before: seq<Row>, lead: Option<seq<Row>>, row: Row, group: seq<Row>)
    requires Places(a, m, worker) && Carries(row, g, worker, schema, group)
    requires a.func == Avg && a.arg == Wildcard ==> group == []
    requires Fits(a.func, Args(a, schema, before + group))
    requires if lead.None? then before == [] else forall r :: r in lead.value ==> r in before
    requires Agree(a.func, acc, Fold(a.func, Args(a, schema, before)), LeadArgs(a, schema, lead))
    ensures Agree(a.func, MergeStep(a.func, m, g, acc, row), Fold(a.func, Args(a, schema, before + group)),
                  LeadArgs(a, schema, if lead.None? then Some(group) else lead))
  {
    hide Fold, Fits, HasValue, ArgOf, Places, Carries, Agree, CellsOf, MergeStep;
    var us, vs := Args(a, schema, before), Args(a, schema, group);
    assert Args(a, schema, before + group) == us + vs;
    CellsSent(a, m, worker, schema, g, row, group);
    if lead.Some? {
      LeadHasValue(a, schema, before, lead.value);
    }
    StepAgrees(a.func, m, g, acc, us, LeadArgs(a, schema, lead), row, vs);
  }

  lemma EmptyFold(a: Agg, schema: Schema)
    ensures Fold(a.func, Args(a, schema, [])) == ZERO
  {
  }

  lemma SameArgs(a: Agg, schema: Schema, group: seq<Row>)
    requires a.func == Avg && (a.arg == Wildcard ==> group == [])
    ensures Args(Agg(Sum, a.arg), schema, group) == Args(a, schema, group) == Args(Agg(Count, a.arg), schema, group)
  {
  }

  lemma LeadHasValue(a: Agg, schema: Schema, before: seq<Row>, lead: seq<Row>)
    requires forall r :: r in lead ==> r in before
    ensures HasValue(Args(a, schema, lead)) ==> HasValue(Args(a, schema, before))
  {
    if HasValue(Args(a, schema, lead)) {
      var i :| 0 <= i < |lead| && !Args(a, schema, lead)[i].Null?;
      assert lead[i] in before;
      var j :| 0 <= j < |before| && before[j] == lead[i];
      assert Args(a, schema, before)[j] == Args(a, schema, lead)[i];
    }
  }

  // ---- The rows one worker sends ----

  lemma GroupKey(gr: GroupBy, rows: seq<Row>, k: string)
    ensures k in Keys(gr.Text, rows) ==> Group(gr.Text, k, rows) != [] && gr.Text(Group(gr.Text, k, rows)[0]) == k
  {
    NoGroup(gr.Text, rows, k);
    FilterMembers(InGroup(gr.Text, k), rows);
    if Group(gr.Text, k, rows) != [] {
      assert Group(gr.Text, k, rows)[0] in Group(gr.Text, k, rows);
    }
  }

  lemma SentRow(gr: GroupBy, worker: seq<Agg>, rows: seq<Row>, k: string)
    requires k in GroupsOf(gr, rows)
    ensures var row := AggRow(gr, worker, k, rows);
      PartialText(|gr.group_by|)(row) == k && Carries(row, |gr.group_by|, worker, gr.schema, Group(gr.Text, k, rows))
    ensures Group(gr.Text, k, rows) != [] ==>
      KeyPart(|gr.group_by|, AggRow(gr, worker, k, rows)) == gr.Key(Group(gr.Text, k, rows)[0])
  {
    hide FirstSeen, Fold, Results, Carries;
    GroupKey(gr, rows, k);
    var group := Group(gr.Text, k, rows);
    hide Group;
    var key := if group == [] then [] else gr.Key(group[0]);
    assert AggRow(gr, worker, k, rows) == key + Results(worker, gr.schema, group);
    assert |key| == |gr.group_by|;
    assert KeyText(key) == k by {
      if gr.group_by == [] {
        assert key == [] && k == "";
      }
    }
    ResultsCarry(key, worker, gr.schema, group);
    KeyFirst(key, Results(worker, gr.schema, group));
  }

  lemma ResultsCarry(key: Row, worker: seq<Agg>, schema: Schema, group: seq<Row>)
    ensures Carries(key + Results(worker, schema, group), |key|, worker, schema, group)
  {
    hide Fold, Final, Args;
  }

  lemma KeyFirst(key: Row, rest: Row)
    ensures KeyPart(|key|, key + rest) == key
  {
  }

  // HashAggregate gives one row per group, even where there is no GROUP BY.
  lemma SentRows(gr: GroupBy, aggs: seq<Agg>, rows: seq<Row>)
    requires !EmptyAverage(gr, aggs, rows)
    ensures HashAggregate(gr, aggs, rows)
         == seq(|GroupsOf(gr, rows)|, i
                requires 0 <= i < |GroupsOf(gr, rows)| => AggRow(gr, aggs, GroupsOf(gr, rows)[i], rows))
  {
    hide AggRow;
    if gr.group_by == [] {
      GlobalKeys(gr, rows);
      if rows == [] {
        GlobalEmpty(gr, aggs);
      }
    }
  }

  lemma {:induction false} GlobalKeys(gr: GroupBy, rows: seq<Row>)
    requires gr.group_by == []
    ensures rows != [] ==> Keys(gr.Text, rows) == [""]
    ensures Group(gr.Text, "", rows) == rows
  {
    forall row ensures gr.Text(row) == "" {
      assert gr.Key(row) == [];
    }
    AllPass(InGroup(gr.Text, ""), rows);
    if rows != [] {
      var front, last := rows[..|rows| - 1], rows[|rows| - 1];
      assert rows == front + [last];
      KeysSnoc(gr.Text, front, last);
      GlobalKeys(gr, front);
      assert front != [] ==> "" in Keys(gr.Text, front);
      assert Texts(gr.Text, []) == [];
    }
  }

  lemma GlobalEmpty(gr: GroupBy, aggs: seq<Agg>)
    requires gr.group_by == [] && forall i :: 0 <= i < |aggs| ==> aggs[i].func != Avg
    ensures HashAggregate(gr, aggs, []) == [AggRow(gr, aggs, "", [])]
  {
    forall i | 0 <= i < |aggs| ensures EmptyResult(aggs[i].func) == Results(aggs, gr.schema, [])[i] {
      EmptyFold(aggs[i], gr.schema);
    }
    assert Group(gr.Text, "", []) == [];
    assert HashAggregate(gr, aggs, [])[0] == Results(aggs, gr.schema, []);
    assert AggRow(gr, aggs, "", []) == Results(aggs, gr.schema, []);
  }

  lemma SentTexts(gr: GroupBy, worker: seq<Agg>, rows: seq<Row>)
    requires forall a :: a in worker ==> a.func != Avg
    ensures Texts(PartialText(|gr.group_by|), HashAggregate(gr, worker, rows)) == GroupsOf(gr, rows)
  {
    hide AggRow, FirstSeen;
    SentRows(gr, worker, rows);
    forall i | 0 <= i < |GroupsOf(gr, rows)|
      ensures PartialText(|gr.group_by|)(AggRow(gr, worker, GroupsOf(gr, rows)[i], rows)) == GroupsOf(gr, rows)[i]
    {
      SentRow(gr, worker, rows, GroupsOf(gr, rows)[i]);
    }
  }

  lemma GroupsDistinct(gr: GroupBy, rows: seq<Row>)
    ensures NoRepeats(GroupsOf(gr, rows))
  {
    FirstSeenDistinct(Texts(gr.Text, rows));
  }

  lemma SentGroup(gr: GroupBy, worker: seq<Agg>, rows: seq<Row>, k: string)
    requires forall a :: a in worker ==> a.func != Avg
    ensures Group(PartialText(|gr.group_by|), k, HashAggregate(gr, worker, rows))
         == if k in GroupsOf(gr, rows) then [AggRow(gr, worker, k, rows)] else []
  {
    hide AggRow, GroupsOf;
    var sent, text := HashAggregate(gr, worker, rows), PartialText(|gr.group_by|);
    SentRows(gr, worker, rows);
    SentTexts(gr, worker, rows);
    GroupsDistinct(gr, rows);
    NoGroup(text, sent, k);
    if k in GroupsOf(gr, rows) {
      var i :| 0 <= i < |GroupsOf(gr, rows)| && GroupsOf(gr, rows)[i] == k;
      GroupOfOne(text, sent, i);
      assert text(sent[i]) == Texts(text, sent)[i];
    }
  }

  // ---- All the workers ----

  lemma {:induction false} MergedKeys(gr: GroupBy, worker: seq<Agg>, parts: seq<seq<Row>>)
    requires forall a :: a in worker ==> a.func != Avg
    ensures Keys(PartialText(|gr.group_by|), Partials(gr, worker, parts))
         == if parts == [] then [] else GroupsOf(gr, Concat(parts))
  {
    hide HashAggregate, PartialText;
    var text := PartialText(|gr.group_by|);
    if parts == [] {
      assert Texts(text, []) == [];
    } else {
      var front, last := parts[..|parts| - 1], parts[|parts| - 1];
      MergedKeys(gr, worker, front);
      SentTexts(gr, worker, last);
      var sent, before := Partials(gr, worker, front), Concat(front);
      GroupAppend(text, sent, HashAggregate(gr, worker, last), "");
      GroupAppend(gr.Text, before, last, "");
      if gr.group_by == [] {
        OnlyOneText(Texts(text, sent), GroupsOf(gr, last));
      } else {
        if front == [] {
          assert Texts(text, sent) == [] == Texts(gr.Text, before);
        }
        FirstSeenCongruence(Texts(text, sent), Texts(gr.Text, before), Keys(gr.Text, last));
        FirstSeenSummary(Texts(gr.Text, before), Texts(gr.Text, last));
      }
    }
  }

  lemma OnlyOneText(a: seq<string>, b: seq<string>)
    requires FirstSeen(a) == [] || FirstSeen(a) == [""]
    requires b == [""]
    ensures FirstSeen(a + b) == [""]
  {
    hide FirstSeen;
    FirstSeenAppend(a, b);
    OneText();
    assert "" in a <==> "" in FirstSeen(a);
    assert Filter(New(a), [""]) == if "" in a then [] else [""];
  }

  lemma OneText()
    ensures FirstSeen([""]) == [""]
  {
    assert [""][..0] == [];
  }

  lemma FitsSubset(f: Func, a: Agg, schema: Schema, all: seq<Row>, some: seq<Row>)
    requires Fits(f, Args(a, schema, all)) && forall r :: r in some ==> r in all
    ensures Fits(f, Args(a, schema, some))
  {
    forall v | v in Args(a, schema, some) ensures v in Args(a, schema, all) {
      var i :| 0 <= i < |some| && Args(a, schema, some)[i] == v;
      assert some[i] in all;
      var j :| 0 <= j < |all| && all[j] == some[i];
      assert Args(a, schema, all)[j] == v;
    }
  }

  ghost predicate GroupMerged(gr: GroupBy, a: Agg, m: AvgMapping, worker: seq<Agg>, parts: seq<seq<Row>>, k: string)
  {
    Agree(a.func,
          MergeFold(a.func, m, |gr.group_by|, Group(PartialText(|gr.group_by|), k, Partials(gr, worker, parts))),
          Fold(a.func, Args(a, gr.schema, Group(gr.Text, k, Concat(parts)))),
          LeadArgs(a, gr.schema, Leading(gr, k, parts)))
  }

  lemma {:induction false} LeadingRows(gr: GroupBy, parts: seq<seq<Row>>, k: string)
    requires gr.group_by == [] ==> k == ""
    ensures Leading(gr, k, parts).None? ==> Group(gr.Text, k, Concat(parts)) == []
    ensures Leading(gr, k, parts).Some? ==>
      forall r :: r in Leading(gr, k, parts).value ==> r in Group(gr.Text, k, Concat(parts))
  {
    if parts != [] {
      var front, last := parts[..|parts| - 1], parts[|parts| - 1];
      LeadingRows(gr, front, k);
      GroupAppend(gr.Text, Concat(front), last, k);
      NoGroup(gr.Text, last, k);
    }
  }

  lemma MergeFoldSnoc(f: Func, m: AvgMapping, g: nat, rows: seq<Row>, row: Row)
    ensures MergeFold(f, m, g, rows + [row]) == MergeStep(f, m, g, MergeFold(f, m, g, rows), row)
  {
    assert (rows + [row])[..|rows + [row]| - 1] == rows;
  }

  // Merging the partial rows of a group accumulates the whole group.
  lemma {:induction false} GroupMerges(gr: GroupBy, a: Agg, m: AvgMapping, worker: seq<Agg>, parts: seq<seq<Row>>,
                                       k: string)
    requires Places(a, m, worker) && forall b :: b in worker ==> b.func != Avg
    requires a.func == Avg && a.arg == Wildcard ==> Concat(parts) == []
    requires Fits(a.func, Args(a, gr.schema, Group(gr.Text, k, Concat(parts))))
    requires gr.group_by == [] ==> k == ""
    ensures GroupMerged(gr, a, m, worker, parts, k)
  {
    if parts == [] {
      NothingMerged(gr, a, m, worker, k);
    } else {
      hide *;
      var front, last := parts[..|parts| - 1], parts[|parts| - 1];
      assert parts == front + [last];
      PartsSnoc(gr, worker, front, last, k);
      GroupAppend(gr.Text, Concat(front), last, k);
      FitsSubset(a.func, a, gr.schema, Group(gr.Text, k, Concat(parts)), Group(gr.Text, k, Concat(front)));
      GroupMerges(gr, a, m, worker, front, k);
      GroupMergesLast(gr, a, m, worker, front, last, k);
    }
  }

  lemma NothingMerged(gr: GroupBy, a: Agg, m: AvgMapping, worker: seq<Agg>, k: string)
    ensures GroupMerged(gr, a, m, worker, [], k)
  {
    EmptyFold(a, gr.schema);
    assert Group(PartialText(|gr.group_by|), k, []) == [] && Group(gr.Text, k, []) == [];
  }

  lemma PartsSnoc(gr: GroupBy, worker: seq<Agg>, front: seq<seq<Row>>, last: seq<Row>, k: string)
    ensures Concat(front + [last]) == Concat(front) + last
    ensures Partials(gr, worker, front + [last]) == Partials(gr, worker, front) + HashAggregate(gr, worker, last)
    ensures Leading(gr, k, front + [last]) ==
      if Leading(gr, k, front).Some? then Leading(gr, k, front)
      else if k in GroupsOf(gr, last) then Some(Group(gr.Text, k, last)) else None
  {
    assert (front + [last])[..|front + [last]| - 1] == front;
  }

  // The group's rows and the partial rows for it, with one more part.
  lemma GroupsGrow(gr: GroupBy, worker: seq<Agg>, front: seq<seq<Row>>, last: seq<Row>, k: string)
    requires forall b :: b in worker ==> b.func != Avg
    requires gr.group_by == [] ==> k == ""
    ensures Group(gr.Text, k, Concat(front + [last])) == Group(gr.Text, k, Concat(front)) + Group(gr.Text, k, last)
    ensures Group(PartialText(|gr.group_by|), k, Partials(gr, worker, front + [last]))
         == Group(PartialText(|gr.group_by|), k, Partials(gr, worker, front))
            + (if k in GroupsOf(gr, last) then [AggRow(gr, worker, k, last)] else [])
    ensures k !in GroupsOf(gr, last) ==> Group(gr.Text, k, last) == []
  {
    hide Group, HashAggregate, AggRow, GroupsOf;
    PartsSnoc(gr, worker, front, last, k);
    GroupAppend(gr.Text, Concat(front), last, k);
    GroupAppend(PartialText(|gr.group_by|), Partials(gr, worker, front), HashAggregate(gr, worker, last), k);
    SentGroup(gr, worker, last, k);
    if k !in GroupsOf(gr, last) {
      NotSent(gr, last, k);
    }
  }

  lemma GroupMergesLast(gr: GroupBy, a: Agg, m: AvgMapping, worker: seq<Agg>, front: seq<seq<Row>>, last: seq<Row>,
                        k: string)
    requires Places(a, m, worker) && forall b :: b in worker ==> b.func != Avg
    requires a.func == Avg && a.arg == Wildcard ==> last == []
    requires Fits(a.func, Args(a, gr.schema, Group(gr.Text, k, Concat(front + [last]))))
    requires gr.group_by == [] ==> k == ""
    requires GroupMerged(gr, a, m, worker, front, k)
    ensures GroupMerged(gr, a, m, worker, front + [last], k)
  {
    hide Fold, Fits, Agree, Carries, AggRow, HashAggregate, MergeStep, Args, GroupsOf, Group, MergeFold, PartialText,
         Places, Concat, Partials, Leading;
    var g, text := |gr.group_by|, PartialText(|gr.group_by|);
    var before, group := Group(gr.Text, k, Concat(front)), Group(gr.Text, k, last);
    var sent := Group(text, k, Partials(gr, worker, front));
    PartsSnoc(gr, worker, front, last, k);
    GroupsGrow(gr, worker, front, last, k);
    LeadingRows(gr, front, k);
    if k in GroupsOf(gr, last) {
      var row := AggRow(gr, worker, k, last);
      SentRow(gr, worker, last, k);
      if last == [] {
        NoneOfNothing(gr, k);
      }
      MergeFoldSnoc(a.func, m, g, sent, row);
      MergeStepAgrees(a, m, worker, gr.schema, g, MergeFold(a.func, m, g, sent), before, Leading(gr, k, front), row,
                      group);
    } else {
      assert before + [] == before && sent + [] == sent;
    }
  }

  lemma NoneOfNothing(gr: GroupBy, k: string)
    ensures Group(gr.Text, k, []) == []
  {
  }

  lemma NotSent(gr: GroupBy, rows: seq<Row>, k: string)
    requires k !in GroupsOf(gr, rows) && (gr.group_by == [] ==> k == "")
    ensures Group(gr.Text, k, rows) == []
  {
    NoGroup(gr.Text, rows, k);
  }

  // ---- The merged result of one aggregate of one group ----

  lemma MergedCell(gr: GroupBy, a: Agg, m: AvgMapping, worker: seq<Agg>, parts: seq<seq<Row>>, k: string)
    requires Places(a, m, worker) && forall b :: b in worker ==> b.func != Avg
    requires a.func == Avg && a.arg == Wildcard ==> Concat(parts) == []
    requires Fits(a.func, Args(a, gr.schema, Group(gr.Text, k, Concat(parts))))
    requires gr.group_by == [] ==> k == ""
    ensures MergeFinal(a.func,
                       MergeFold(a.func, m, |gr.group_by|,
                                 Group(PartialText(|gr.group_by|), k, Partials(gr, worker, parts))))
         == Final(a.func, Fold(a.func, Args(a, gr.schema, Group(gr.Text, k, Concat(parts)))))
       <==> Led(gr, a, k, parts)
  {
    hide Fold, Fits, Args, GroupsOf, Group, MergeFold, Places, PartialText, HasValue, Concat, Partials, Leading;
    var vs := Args(a, gr.schema, Group(gr.Text, k, Concat(parts)));
    GroupMerges(gr, a, m, worker, parts, k);
    LeadingRows(gr, parts, k);
    FoldHolds(a.func, vs);
    BestExists(a.func, vs);
    if Leading(gr, k, parts).Some? {
      LeadHasValue(a, gr.schema, Group(gr.Text, k, Concat(parts)), Leading(gr, k, parts).value);
    } else {
      NoValues(a, gr.schema);
    }
  }

  lemma NoValues(a: Agg, schema: Schema)
    ensures !HasValue(Args(a, schema, []))
  {
  }

  // The key of a merged group is the key of the group's first row.
  lemma {:induction false} MergedKey(gr: GroupBy, worker: seq<Agg>, parts: seq<seq<Row>>, k: string)
    requires forall b :: b in worker ==> b.func != Avg
    requires gr.group_by != []
    ensures var sent, group :=
      Group(PartialText(|gr.group_by|), k, Partials(gr, worker, parts)), Group(gr.Text, k, Concat(parts));
      (sent == [] <==> group == []) && (sent != [] ==> KeyPart(|gr.group_by|, sent[0]) == gr.Key(group[0]))
  {
    if parts == [] {
      assert Group(PartialText(|gr.group_by|), k, []) == [] && Group(gr.Text, k, []) == [];
    } else {
      hide Group, HashAggregate, AggRow, Concat, Partials, KeyPart, PartialText;
      var front, last := parts[..|parts| - 1], parts[|parts| - 1];
      assert parts == front + [last];
      MergedKey(gr, worker, front, k);
      GroupsGrow(gr, worker, front, last, k);
      if k in GroupsOf(gr, last) {
        GroupKey(gr, last, k);
        SentRow(gr, worker, last, k);
      }
    }
  }

  lemma MergedKeyPart(gr: GroupBy, worker: seq<Agg>, parts: seq<seq<Row>>, k: string)
    requires forall b :: b in worker ==> b.func != Avg
    ensures var sent, group :=
      Group(PartialText(|gr.group_by|), k, Partials(gr, worker, parts)), Group(gr.Text, k, Concat(parts));
      (if sent == [] then [] else KeyPart(|gr.group_by|, sent[0])) == (if group == [] then [] else gr.Key(group[0]))
  {
    hide Group, PartialText, Partials, Concat;
    if gr.group_by != [] {
      MergedKey(gr, worker, parts, k);
    }
  }

  // AVG has an argument, and MIN and MAX meet values of one kind in a group.
  ghost predicate Sound(gr: GroupBy, aggs: seq<Agg>, rows: seq<Row>)
  {
    forall i :: 0 <= i < |aggs| ==>
      && (aggs[i].func == Avg && aggs[i].arg == Wildcard ==> rows == [])
      && forall k :: Fits(aggs[i].func, Args(aggs[i], gr.schema, Group(gr.Text, k, rows)))
  }

  lemma ValuesRunFit(f: Func, vs: seq<Literal>)
    requires ValuesRun(f, vs)
    ensures Fits(f, vs)
  {
    if f in {Min, Max} && |NonNulls(vs)| <= 1 {
      FilterMembers((v: Literal) => !v.Null?, vs);
      forall v, w | v in vs && w in vs && !v.Null? && !w.Null? ensures v == w {
        assert v in NonNulls(vs) && w in NonNulls(vs);
      }
    }
  }

  // What does not throw is sound.
  lemma RunsSound(gr: GroupBy, aggs: seq<Agg>, rows: seq<Row>)
    requires AllRun(gr, aggs, rows)
    ensures Sound(gr, aggs, rows)
  {
    hide Args, ValuesRun, Fits;
    forall i | 0 <= i < |aggs|
      ensures aggs[i].func == Avg && aggs[i].arg == Wildcard ==> rows == []
      ensures forall k :: Fits(aggs[i].func, Args(aggs[i], gr.schema, Group(gr.Text, k, rows)))
    {
      if rows != [] {
        assert rows[0] in rows;
        assert RowEvaluates(gr, aggs, rows[0]) && ArgRuns(aggs[i], gr.schema, rows[0]);
      }
      forall k ensures Fits(aggs[i].func, Args(aggs[i], gr.schema, Group(gr.Text, k, rows))) {
        assert GroupRuns(gr, aggs, rows, k);
        ValuesRunFit(aggs[i].func, Args(aggs[i], gr.schema, Group(gr.Text, k, rows)));
      }
    }
  }

  lemma AppendEqual<T>(a: seq<T>, b: seq<T>, a': seq<T>, b': seq<T>)
    requires a == a' && |b| == |b'|
    ensures a + b == a' + b' <==> forall i :: 0 <= i < |b| ==> b[i] == b'[i]
  {
    if a + b == a' + b' {
      assert b == (a + b)[|a|..] && b' == (a' + b')[|a|..];
    }
  }

  lemma MergedRow(gr: GroupBy, aggs: seq<Agg>, split: AvgSplit, parts: seq<seq<Row>>, k: string)
    requires Splits(aggs, split) && forall b :: b in split.worker_aggregates ==> b.func != Avg
    requires Sound(gr, aggs, Concat(parts)) && (gr.group_by == [] ==> k == "")
    ensures var merged := MergeRow(|gr.group_by|, aggs, split.mapping, k, Partials(gr, split.worker_aggregates, parts));
      merged == AggRow(gr, aggs, k, Concat(parts)) <==> forall i :: 0 <= i < |aggs| ==> Led(gr, aggs[i], k, parts)
  {
    hide Group, PartialText, Partials, Concat, Fits, Fold, Args, MergeFold, Final, MergeFinal, Led, KeyPart, Places;
    var worker := split.worker_aggregates;
    var sent, group := Group(PartialText(|gr.group_by|), k, Partials(gr, worker, parts)),
      Group(gr.Text, k, Concat(parts));
    MergedKeyPart(gr, worker, parts, k);
    var cells :=
      seq(|aggs|, i
          requires 0 <= i < |aggs| => MergeFinal(aggs[i].func, MergeAccs(|gr.group_by|, aggs, split.mapping, sent)[i]));
    forall i | 0 <= i < |aggs| ensures cells[i] == Results(aggs, gr.schema, group)[i] <==> Led(gr, aggs[i], k, parts) {
      MergedCell(gr, aggs[i], split.mapping[i], worker, parts, k);
    }
    AppendEqual(if sent == [] then [] else KeyPart(|gr.group_by|, sent[0]), cells,
                if group == [] then [] else gr.Key(group[0]), Results(aggs, gr.schema, group));
  }

  // Merging what the workers send is aggregating all the rows at once,
  // exactly when every group is led by a value it has and no average is
  // taken of nothing.
  lemma MergeIsAggregate(gr: GroupBy, aggs: seq<Agg>, split: AvgSplit, parts: seq<seq<Row>>)
    requires Splits(aggs, split) && forall b :: b in split.worker_aggregates ==> b.func != Avg
    requires Sound(gr, aggs, Concat(parts)) && parts != []
    ensures var merged := MergeRows(|gr.group_by|, aggs, split.mapping, Partials(gr, split.worker_aggregates, parts));
      merged == HashAggregate(gr, aggs, Concat(parts)) <==>
      AllLed(gr, aggs, parts) && !EmptyAverage(gr, aggs, Concat(parts))
  {
    hide Group, PartialText, Partials, Concat, MergeRow, AggRow, Led, Splits, Sound, FirstSeen, HashAggregate, GroupsOf;
    MappingSize(aggs, split);
    var rows, keys := Concat(parts), GroupsOf(gr, Concat(parts));
    var merged := MergeRows(|gr.group_by|, aggs, split.mapping, Partials(gr, split.worker_aggregates, parts));
    MergedKeys(gr, split.worker_aggregates, parts);
    forall k | k in keys
      ensures
        var merged := MergeRow(|gr.group_by|, aggs, split.mapping, k, Partials(gr, split.worker_aggregates, parts));
        merged == AggRow(gr, aggs, k, rows) <==> forall i :: 0 <= i < |aggs| ==> Led(gr, aggs[i], k, parts)
    {
      OnlyEmptyText(gr, rows, k);
      MergedRow(gr, aggs, split, parts, k);
    }
    if EmptyAverage(gr, aggs, rows) {
      AverageOfNothing(gr, aggs, split, parts);
    } else {
      SentRows(gr, aggs, rows);
      assert |merged| == |keys| == |HashAggregate(gr, aggs, rows)|;
      if AllLed(gr, aggs, parts) {
        forall n | 0 <= n < |keys| ensures merged[n] == HashAggregate(gr, aggs, rows)[n] {
          assert keys[n] in keys;
        }
      }
      if merged == HashAggregate(gr, aggs, rows) {
        forall k, i | k in keys && 0 <= i < |aggs| ensures Led(gr, aggs[i], k, parts) {
          var n :| 0 <= n < |keys| && keys[n] == k;
          assert merged[n] == HashAggregate(gr, aggs, rows)[n];
        }
      }
    }
  }

  lemma MappingSize(aggs: seq<Agg>, split: AvgSplit)
    requires Splits(aggs, split)
    ensures |split.mapping| == |aggs|
  {
  }

  lemma OnlyEmptyText(gr: GroupBy, rows: seq<Row>, k: string)
    requires k in GroupsOf(gr, rows)
    ensures gr.group_by == [] ==> k == ""
  {
  }

  lemma AverageOfNothing(gr: GroupBy, aggs: seq<Agg>, split: AvgSplit, parts: seq<seq<Row>>)
    requires Splits(aggs, split) && EmptyAverage(gr, aggs, Concat(parts))
    ensures MergeRows(|gr.group_by|, aggs, split.mapping, Partials(gr, split.worker_aggregates, parts))
      != HashAggregate(gr, aggs, Concat(parts))
  {
    hide Group, PartialText, Partials, Concat, MergeFold, Places, FirstSeen;
    var i :| 0 <= i < |aggs| && aggs[i].func == Avg;
    var merged, whole := MergeRows(|gr.group_by|, aggs, split.mapping, Partials(gr, split.worker_aggregates, parts)),
      HashAggregate(gr, aggs, Concat(parts));
    assert whole[0][i] == Null;
    if |merged| > 0 {
      var row := merged[0];
      assert |row| >= |aggs| && row[|row| - |aggs| + i].Float?;
    }
  }
}
