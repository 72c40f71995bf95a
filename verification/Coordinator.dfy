// The coordinator (distributed/coordinator.cpp).
module Coordinator {
  import opened Wrappers
  import opened Ast
  import opened Values
  import opened Evaluation
  import opened Bags
  import opened Relational
  import opened Execution
  import opened Grouping
  import opened Aggregation
  import opened PartialAggregation
  import opened CoLocation
  import opened Partition
  import opened Exchange
  import opened WorkerPlans
  import opened MergeRuns
  import NF = NormalForm
  import P = Plans

  // The data, the catalog's tables with their columns, the number of workers
  // and the text hash (fnv1a64) of the shuffle.
  datatype Cluster = Cluster(full: Database, names: seq<string>, catalog: map<string, seq<string>>, workers: nat,
                             hash: string -> nat) {
    function Part(w: nat): Database
    {
      PartOf(full, names, w, workers)
    }

    // hash_partition_of
    function Target(v: Literal): nat
    {
      if workers == 0 then 0 else hash(LiteralText(v)) % workers
    }

    // The relation's table is stored, cataloged and wholly partitioned.
    predicate Serves(p: P.PhysicalPlan)
      requires SingleRelation(p)
    {
      var name := TableName(p);
      && name in full && name in names && Partitioned(full[name], workers)
      && PlainNames(full[name].columns)
    }

    predicate Catalogued(p: P.PhysicalPlan)
      requires SingleRelation(p)
    {
      var name := TableName(p);
      name in full && name in catalog && catalog[name] == full[name].columns
    }

    // schema_for_relation
    function CatalogSchema(p: P.PhysicalPlan): Schema
      requires SingleRelation(p)
    {
      if TableName(p) in catalog then Qualify(QualifierOf(p), catalog[TableName(p)]) else []
    }
  }

  datatype Response = Response(columns: seq<string>, rows: seq<Row>)

  // What running a plan gives: Err when building or draining it throws.
  function Answer(plan: WorkerPlan, db: Database, ext: ExternalRowSets): Result<Response>
  {
    if WorkerRuns(plan, db, ext) then Ok(Response(Names(WorkerSchema(plan, db)), WorkerRows(plan, db, ext)))
    else Err("execution error")
  }

  datatype AggregateSpec = AggregateSpec(group_by: seq<Expr>, aggregates: seq<Agg>)

  // What one node makes of the rows of the core.
  function AggregateOf(spec: Option<AggregateSpec>, schema: Schema, rows: seq<Row>): seq<Row>
  {
    if spec.None? then rows else HashAggregate(GroupBy(spec.value.group_by, schema), spec.value.aggregates, rows)
  }

  predicate SpecRuns(spec: Option<AggregateSpec>, schema: Schema, rows: seq<Row>)
  {
    spec.Some? ==> Aggregable(GroupBy(spec.value.group_by, schema), spec.value.aggregates, rows)
  }

  // One node: Err exactly when the core or the aggregate throws.
  function SingleNode(core: P.PhysicalPlan, spec: Option<AggregateSpec>, db: Database): Result<seq<Row>>
  {
    if PlanRuns(core, db) && SpecRuns(spec, PlanSchema(core, db), PlanRows(core, db))
    then Ok(AggregateOf(spec, PlanSchema(core, db), PlanRows(core, db)))
    else Err("execution error")
  }

  // The run throws exactly when one node does, and otherwise gives the same
  // rows up to their order.
  ghost predicate Faithful(c: Cluster, core: P.PhysicalPlan, spec: Option<AggregateSpec>, result: Result<seq<Row>>)
  {
    var one := SingleNode(core, spec, c.full);
    (result.Ok? <==> one.Ok?) && (one.Ok? ==> multiset(result.value) == multiset(one.value))
  }

  // What the aggregate needs of the rows, and of where they are: no order of
  // rows shows, and with a merge no NULL leads a group that has a value and no
  // average is of nothing; without one no group is on two workers.
  ghost predicate Spread(spec: Option<AggregateSpec>, schema: Schema, rows: seq<Row>, parts: seq<seq<Row>>,
                         skip_merge: bool)
  {
    spec.Some? ==>
      var gr, aggs := GroupBy(spec.value.group_by, schema), spec.value.aggregates;
      && Determined(gr, aggs, rows)
      && if skip_merge then gr.group_by != [] && Apart(gr, parts)
        else AllLed(gr, aggs, parts) && !EmptyAverage(gr, aggs, rows)
  }

  // ---- When merged aggregates are the aggregate of all rows ----

  // The workers' partial aggregates merge into what one node computes of rows
  // that are the workers' rows in any order; something throws exactly when
  // one node does.
  lemma MergedAnswer(spec: AggregateSpec, schema: Schema, split: AvgSplit, parts: seq<seq<Row>>, rows: seq<Row>)
    requires Splits(spec.aggregates, split) && (forall a :: a in split.worker_aggregates ==> a.func != Avg)
      && parts != []
    requires multiset(Concat(parts)) == multiset(rows) && Spread(Some(spec), schema, rows, parts, false)
    ensures var gr := GroupBy(spec.group_by, schema);
      var sent := Partials(gr, split.worker_aggregates, parts);
      && ((forall w :: 0 <= w < |parts| ==> Aggregable(gr, split.worker_aggregates, parts[w]))
          && Mergeable(|spec.group_by|, spec.aggregates, split.mapping, sent)
          <==> Aggregable(gr, spec.aggregates, rows))
      && (Aggregable(gr, spec.aggregates, rows) ==>
            multiset(MergeRows(|spec.group_by|, spec.aggregates, split.mapping, sent))
              == multiset(HashAggregate(gr, spec.aggregates, rows)))
  {
    hide HashAggregate, MergeRows, Partials, Concat, Sound, OrderFree, Determined, AllLed, Aggregable, AllRun,
         Mergeable;
    var gr, aggs := GroupBy(spec.group_by, schema), spec.aggregates;
    MergeRunsIff(gr, aggs, split, parts);
    AggregablePermutes(gr, aggs, Concat(parts), rows);
    if Aggregable(gr, aggs, rows) {
      AggregableIff(gr, aggs, rows);
      AggregableIff(gr, aggs, Concat(parts));
      RunsOrderFree(gr, aggs, rows);
      RunsSound(gr, aggs, Concat(parts));
      assert |Concat(parts)| == |multiset(Concat(parts))| == |multiset(rows)| == |rows|;
      MergeIsAggregate(gr, aggs, split, parts);
      AggregatePermutes(gr, aggs, rows, Concat(parts));
    }
  }

  // The same without a merge.
  lemma SkippedAnswer(spec: AggregateSpec, schema: Schema, parts: seq<seq<Row>>, rows: seq<Row>)
    requires multiset(Concat(parts)) == multiset(rows) && Spread(Some(spec), schema, rows, parts, true)
    ensures var gr := GroupBy(spec.group_by, schema);
      && ((forall w :: 0 <= w < |parts| ==> Aggregable(gr, spec.aggregates, parts[w]))
          <==> Aggregable(gr, spec.aggregates, rows))
      && (Aggregable(gr, spec.aggregates, rows) ==>
            multiset(Partials(gr, spec.aggregates, parts)) == multiset(HashAggregate(gr, spec.aggregates, rows)))
  {
    hide HashAggregate, Partials, Concat, OrderFree, Determined, Aggregable, AllRun, Apart;
    var gr, aggs := GroupBy(spec.group_by, schema), spec.aggregates;
    ConcatenationRunsIff(gr, aggs, parts);
    AggregablePermutes(gr, aggs, Concat(parts), rows);
    if Aggregable(gr, aggs, rows) {
      AggregableIff(gr, aggs, rows);
      RunsOrderFree(gr, aggs, rows);
      ConcatenationIsAggregate(gr, aggs, parts);
      AggregatePermutes(gr, aggs, rows, Concat(parts));
    }
  }

  // ---- What the workers answer ----

  // The rows of the first |exts| workers, each given its own external rows.
  function Sent(c: Cluster, plan: WorkerPlan, exts: seq<ExternalRowSets>): seq<seq<Row>>
  {
    seq(|exts|, w requires 0 <= w < |exts| => WorkerRows(plan, c.Part(w), exts[w]))
  }

  ghost predicate SentRuns(c: Cluster, plan: WorkerPlan, exts: seq<ExternalRowSets>)
  {
    forall w :: 0 <= w < |exts| ==> WorkerRuns(plan, c.Part(w), exts[w])
  }

  // No rows are shipped.
  function NoExternal(c: Cluster): seq<ExternalRowSets>
  {
    seq(c.workers, w => map[])
  }

  // Aggregating on the workers is aggregating what they would have sent.
  lemma {:induction false} AggregateSent(c: Cluster, group_by: seq<Expr>, aggs: seq<Agg>, input: WorkerPlan,
                                         exts: seq<ExternalRowSets>, schema: Schema)
    requires forall w :: 0 <= w < |exts| ==> WorkerSchema(input, c.Part(w)) == schema
    ensures Concat(Sent(c, Aggregated(group_by, aggs, input), exts))
      == Partials(GroupBy(group_by, schema), aggs, Sent(c, input, exts))
  {
    hide HashAggregate, WorkerSchema, Sent, WorkerRows;
    var plan := Aggregated(group_by, aggs, input);
    SentBy(c, plan, exts);
    SentBy(c, input, exts);
    if exts != [] {
      var n := |exts| - 1;
      AggregateSent(c, group_by, aggs, input, exts[..n], schema);
      SentPrefix(c, plan, exts, n);
      SentPrefix(c, input, exts, n);
      AggregatedRows(group_by, aggs, input, c.Part(n), exts[n]);
    }
  }

  lemma AggregatedRows(group_by: seq<Expr>, aggs: seq<Agg>, input: WorkerPlan, db: Database, ext: ExternalRowSets)
    ensures WorkerRows(Aggregated(group_by, aggs, input), db, ext)
         == HashAggregate(GroupBy(group_by, WorkerSchema(input, db)), aggs, WorkerRows(input, db, ext))
  {
  }

  lemma AggregateSentRuns(c: Cluster, group_by: seq<Expr>, aggs: seq<Agg>, input: WorkerPlan,
                          exts: seq<ExternalRowSets>, schema: Schema)
    requires forall w :: 0 <= w < |exts| ==> WorkerSchema(input, c.Part(w)) == schema
    ensures SentRuns(c, Aggregated(group_by, aggs, input), exts)
       <==> SentRuns(c, input, exts) && forall w :: 0 <= w < |exts| ==>
         Aggregable(GroupBy(group_by, schema), aggs, Sent(c, input, exts)[w])
  {
    hide Aggregable, WorkerSchema, WorkerRows;
    forall w | 0 <= w < |exts|
      ensures WorkerRuns(Aggregated(group_by, aggs, input), c.Part(w), exts[w]) <==>
        && WorkerRuns(input, c.Part(w), exts[w])
        && Aggregable(GroupBy(group_by, schema), aggs, Sent(c, input, exts)[w])
    {
    }
  }

  lemma SentPrefix(c: Cluster, plan: WorkerPlan, exts: seq<ExternalRowSets>, n: nat)
    requires n <= |exts|
    ensures Sent(c, plan, exts)[..n] == Sent(c, plan, exts[..n])
  {
    hide WorkerRows;
  }

  method AppendAll(parts: seq<seq<Row>>) returns (merged: seq<Row>)
    ensures merged == Concat(parts)
  {
    merged := [];
    for w := 0 to |parts|
      invariant merged == Concat(parts[..w])
    {
      assert parts[..w + 1][..w] == parts[..w];
      merged := merged + parts[w];
    }
    assert parts[..|parts|] == parts;
  }

  // Rows pushed to the bucket of their target.
  method Scatter(buckets: seq<seq<Row>>, rows: seq<Row>, key: nat, c: Cluster, ghost done: seq<Row>)
    returns (r: seq<seq<Row>>)
    requires c.workers > 0 && buckets == ByTarget(KeyTarget(c, key), c.workers, done)
    ensures r == ByTarget(KeyTarget(c, key), c.workers, done + rows)
  {
    r := buckets;
    assert done + rows[..0] == done;
    for n := 0 to |rows|
      invariant r == ByTarget(KeyTarget(c, key), c.workers, done + rows[..n])
    {
      assert done + rows[..n + 1] == (done + rows[..n]) + [rows[n]];
      ByTargetSnoc(KeyTarget(c, key), c.workers, done + rows[..n], rows[n]);
      var target := c.Target(Cell(rows[n], key));
      r := r[target := r[target] + [rows[n]]];
    }
    assert rows[..|rows|] == rows;
  }

  function KeyTarget(c: Cluster, key: nat): Row -> nat
  {
    (row: Row) => c.Target(Cell(row, key))
  }

  lemma ByTargetSnoc(target: Row -> nat, n: nat, rows: seq<Row>, row: Row)
    requires target(row) < n
    ensures ByTarget(target, n, rows + [row])
      == ByTarget(target, n, rows)[target(row) := ByTarget(target, n, rows)[target(row)] + [row]]
  {
    var before, after := ByTarget(target, n, rows), ByTarget(target, n, rows + [row]);
    forall t | 0 <= t < n ensures after[t] == before[target(row) := before[target(row)] + [row]][t] {
      FilterAppend(At(target, t), rows, [row]);
      assert Filter(At(target, t), [row]) == if target(row) == t then [row] else [];
      assert before[t] + [] == before[t];
    }
  }

  lemma NothingScattered(target: Row -> nat, n: nat)
    ensures ByTarget(target, n, Concat([])) == seq(n, t => [])
  {
  }

  lemma SentBy(c: Cluster, plan: WorkerPlan, exts: seq<ExternalRowSets>)
    ensures |Sent(c, plan, exts)| == |exts|
    ensures forall w :: 0 <= w < |exts| ==> Sent(c, plan, exts)[w] == WorkerRows(plan, c.Part(w), exts[w])
  {
  }

  // The workers whose calls went unanswered, call by call.
  function Unanswered(calls: seq<(nat, bool)>): seq<nat>
  {
    if calls == [] then []
    else
      var (w, answered) := calls[|calls| - 1];
      Unanswered(calls[..|calls| - 1]) + if answered then [] else [w]
  }

  // What a strategy makes of the workers' answers to one plan: their rows in
  // worker order, merged if they are partial aggregates.
  ghost predicate Assembled(c: Cluster, input: WorkerPlan, exts: seq<ExternalRowSets>, spec: Option<AggregateSpec>,
                            skip_merge: bool, result: Result<seq<Row>>)
  {
    if spec.None? then
      && (result.Ok? <==> SentRuns(c, input, exts))
      && (result.Ok? ==> result.value == Concat(Sent(c, input, exts)))
    else if skip_merge then
      var plan := Aggregated(spec.value.group_by, spec.value.aggregates, input);
      && (result.Ok? <==> SentRuns(c, plan, exts))
      && (result.Ok? ==> result.value == Concat(Sent(c, plan, exts)))
    else exists split :: MergedBy(c, input, exts, spec.value, split, result)
  }

  ghost predicate MergedBy(c: Cluster, input: WorkerPlan, exts: seq<ExternalRowSets>, spec: AggregateSpec,
                           split: AvgSplit, result: Result<seq<Row>>)
  {
    && Splits(spec.aggregates, split) && (forall a :: a in split.worker_aggregates ==> a.func != Avg)
    && var plan := Aggregated(spec.group_by, split.worker_aggregates, input);
       var sent := Concat(Sent(c, plan, exts));
       && (result.Ok? <==> SentRuns(c, plan, exts) && Mergeable(|spec.group_by|, spec.aggregates, split.mapping, sent))
       && (result.Ok? ==> result.value == MergeRows(|spec.group_by|, spec.aggregates, split.mapping, sent))
  }

  // What each strategy is, whatever the data: which plan goes to the workers
  // with which rows, and what is made of their answers.
  ghost predicate SingleRan(c: Cluster, core: P.PhysicalPlan, spec: Option<AggregateSpec>, result: Result<seq<Row>>)
  {
    Assembled(c, Relation(core), NoExternal(c), spec, false, result)
  }

  function LastNames(c: Cluster, p: P.PhysicalPlan): seq<string>
  {
    if c.workers == 0 then [] else Names(WorkerSchema(Relation(p), c.Part(c.workers - 1)))
  }

  ghost predicate BroadcastRan(c: Cluster, join: P.PhysicalPlan, broadcast_left: bool, spec: Option<AggregateSpec>,
                               result: Result<seq<Row>>)
    requires join.Join?
  {
    var small := if broadcast_left then join.left else join.right;
    if !SentRuns(c, Relation(small), NoExternal(c)) then result.Err?
    else
      var sent, columns := Concat(Sent(c, Relation(small), NoExternal(c))), LastNames(c, small);
      Assembled(c,
                if broadcast_left
                then Joined(join.algorithm, join.condition, ExternalRows(columns, 0), Relation(join.right))
                else Joined(join.algorithm, join.condition, Relation(join.left), ExternalRows(columns, 0)),
                seq(c.workers, w => map[0 := sent]), spec, false, result)
  }

  ghost predicate ShuffleRan(c: Cluster, join: P.PhysicalPlan, spec: Option<AggregateSpec>, result: Result<seq<Row>>)
    requires join.Join? && SingleRelation(join.left) && SingleRelation(join.right)
  {
    var keys, none := ShuffleKeys(c, join), NoExternal(c);
    if keys.None? || !SentRuns(c, Relation(join.left), none) || !SentRuns(c, Relation(join.right), none) then
      result.Err?
    else
      var ls := ByTarget(KeyTarget(c, keys.value.0), c.workers, Concat(Sent(c, Relation(join.left), none)));
      var rs := ByTarget(KeyTarget(c, keys.value.1), c.workers, Concat(Sent(c, Relation(join.right), none)));
      Assembled(c, Joined(join.algorithm, join.condition, ExternalRows(LastNames(c, join.left), 0),
                          ExternalRows(LastNames(c, join.right), 1)),
                Buckets(c.workers, ls, rs), spec, SkipsMerge(c, join, spec), result)
  }

  // The rows each worker of a shuffle is handed.
  function Buckets(n: nat, ls: seq<seq<Row>>, rs: seq<seq<Row>>): seq<ExternalRowSets>
  {
    seq(n, t requires 0 <= t => if t < |ls| && t < |rs| then map[0 := ls[t], 1 := rs[t]] else map[])
  }

  lemma ShuffleFailed(c: Cluster, join: P.PhysicalPlan, spec: Option<AggregateSpec>, result: Result<seq<Row>>)
    requires join.Join? && SingleRelation(join.left) && SingleRelation(join.right) && result.Err?
    requires ShuffleKeys(c, join).None? || !SentRuns(c, Relation(join.left), NoExternal(c))
      || !SentRuns(c, Relation(join.right), NoExternal(c))
    ensures ShuffleRan(c, join, spec, result)
  {
    hide ShuffleKeys, SentRuns, Assembled;
  }

  lemma ShuffleDone(c: Cluster, join: P.PhysicalPlan, spec: Option<AggregateSpec>, ls: seq<seq<Row>>, rs: seq<seq<Row>>,
                    left_columns: seq<string>, right_columns: seq<string>, exts: seq<ExternalRowSets>,
                    result: Result<seq<Row>>)
    requires join.Join? && SingleRelation(join.left) && SingleRelation(join.right) && ShuffleKeys(c, join).Some?
    requires SentRuns(c, Relation(join.left), NoExternal(c)) && SentRuns(c, Relation(join.right), NoExternal(c))
    requires var keys := ShuffleKeys(c, join).value;
      && ls == ByTarget(KeyTarget(c, keys.0), c.workers, Concat(Sent(c, Relation(join.left), NoExternal(c))))
      && rs == ByTarget(KeyTarget(c, keys.1), c.workers, Concat(Sent(c, Relation(join.right), NoExternal(c))))
    requires left_columns == LastNames(c, join.left) && right_columns == LastNames(c, join.right)
    requires exts == Buckets(c.workers, ls, rs)
    requires Assembled(c, Joined(join.algorithm, join.condition, ExternalRows(left_columns, 0),
                                 ExternalRows(right_columns, 1)), exts, spec, SkipsMerge(c, join, spec), result)
    ensures ShuffleRan(c, join, spec, result)
  {
    hide ShuffleKeys, SentRuns, Assembled, ByTarget, KeyTarget, Concat, Sent, LastNames, SkipsMerge;
  }

  // How a query was run.
  datatype Strategy = OnWorkers | Broadcast(left: bool) | Shuffle | Locally

  predicate TwoRelations(core: P.PhysicalPlan)
  {
    core.Join? && SingleRelation(core.left) && SingleRelation(core.right)
  }

  predicate Small(p: P.PhysicalPlan)
  {
    p.estimated_rows <= BROADCAST_ELIGIBLE
  }

  // Two relations are broadcast when that is wanted and a side is small, the
  // small side or the smaller of two small ones; otherwise they are shuffled.
  // One relation runs where its rows are, anything else on the coordinator.
  predicate Chosen(core: P.PhysicalPlan, wants_broadcast: bool, strategy: Strategy)
  {
    match strategy
    case OnWorkers => SingleRelation(core) && !core.Join?
    case Broadcast(left) =>
      && TwoRelations(core) && wants_broadcast
      && Small(if left then core.left else core.right)
      && (Small(core.left) && Small(core.right) ==>
            (left <==> core.left.estimated_rows <= core.right.estimated_rows))
    case Shuffle => TwoRelations(core) && !(wants_broadcast && (Small(core.left) || Small(core.right)))
    case Locally => !SingleRelation(core) && !TwoRelations(core)
  }

  // What the strategy taken needs of the data and the plan.
  ghost predicate Served(c: Cluster, core: P.PhysicalPlan, spec: Option<AggregateSpec>, strategy: Strategy)
  {
    match strategy
    case OnWorkers => SingleRelation(core) && SingleServes(c, core, spec)
    case Broadcast(left) => TwoRelations(core) && BroadcastServes(c, core, left, spec)
    case Shuffle => TwoRelations(core) && ShuffleServes(c, core, spec)
    case Locally => true
  }

  ghost predicate Ran(c: Cluster, core: P.PhysicalPlan, spec: Option<AggregateSpec>, strategy: Strategy,
                      result: Result<seq<Row>>)
  {
    match strategy
    case OnWorkers => SingleRan(c, core, spec, result)
    case Broadcast(left) => TwoRelations(core) && BroadcastRan(c, core, left, spec, result)
    case Shuffle => TwoRelations(core) && ShuffleRan(c, core, spec, result)
    case Locally => result == SingleNode(core, spec, c.full)
  }

  class RecoveryContext {
    const cluster: Cluster
    var recovered_workers: seq<nat>
    ghost var calls: seq<(nat, bool)>  // which worker was called, and whether it answered

    constructor (c: Cluster)
      ensures cluster == c && recovered_workers == [] && Recorded()
    {
      cluster := c;
      recovered_workers, calls := [], [];
    }

    // The workers recorded are those whose calls went unanswered, in order.
    ghost predicate Recorded()
      reads this
    {
      recovered_workers == Unanswered(calls)
    }

    // The call reaches the worker or it does not; a worker that throws
    // answers with an error status, which counts as no answer.
    method CallWorkerExecute(w: nat, plan: WorkerPlan, ext: ExternalRowSets) returns (resp: Option<Response>)
      modifies this`calls
      ensures resp.Some? ==> Answer(plan, cluster.Part(w), ext) == Ok(resp.value)
      ensures calls == old(calls) + [(w, resp.Some?)]
    {
      var reachable: bool := *;
      var answer := Answer(plan, cluster.Part(w), ext);
      resp := if reachable && answer.Ok? then Some(answer.value) else None;
      calls := calls + [(w, resp.Some?)];
    }

    // Whether or not the worker answers, the response is the worker's, and it
    // is an error exactly when the plan throws on the worker's part.  The worker
    // is recorded exactly when its call went unanswered.
    method CallWorkerOrRecover(w: nat, plan: WorkerPlan, ext: ExternalRowSets) returns (resp: Result<Response>)
      requires WellFormed(cluster.full)
      modifies this`recovered_workers, this`calls
      ensures resp == Answer(plan, cluster.Part(w), ext)
      ensures |calls| == |old(calls)| + 1 && calls[..|old(calls)|] == old(calls) && calls[|old(calls)|].0 == w
      ensures recovered_workers == old(recovered_workers) + if calls[|old(calls)|].1 then [] else [w]
      ensures old(Recorded()) ==> Recorded()
    {
      var r := CallWorkerExecute(w, plan, ext);
      if r.Some? {
        return Ok(r.value);
      }
      recovered_workers := recovered_workers + [w];
      var part := FilterDatabaseToPartition(cluster.full, cluster.names, w, cluster.workers);
      resp := Answer(plan, part, ext);
    }

    // Calls only ever append, and only of workers that exist; what is recorded
    // stays the record of the unanswered ones.
    twostate predicate OnlyRecovered()
      reads this
    {
      && old(recovered_workers) <= recovered_workers && old(calls) <= calls && (old(Recorded()) ==> Recorded())
      && forall i :: |old(recovered_workers)| <= i < |recovered_workers| ==> recovered_workers[i] < cluster.workers
    }

    // Every worker's rows and the last worker's columns; Err exactly when the
    // plan throws on some worker.
    method AskAll(plan: WorkerPlan, exts: seq<ExternalRowSets>) returns (r: Result<(seq<seq<Row>>, seq<string>)>)
      requires WellFormed(cluster.full) && |exts| == cluster.workers
      modifies this`recovered_workers, this`calls
      ensures OnlyRecovered() && (r.Ok? <==> SentRuns(cluster, plan, exts))
      ensures r.Ok? ==> r.value.0 == Sent(cluster, plan, exts)
      ensures r.Ok? && cluster.workers > 0 ==> r.value.1 == Names(WorkerSchema(plan, cluster.Part(cluster.workers - 1)))
      ensures r.Ok? && cluster.workers == 0 ==> r.value.1 == []
    {
      hide WorkerRows, WorkerSchema, WorkerRuns, Recorded;
      var per_worker_rows: seq<seq<Row>>, columns: seq<string> := [], [];
      for w := 0 to |exts|
        invariant per_worker_rows == Sent(cluster, plan, exts[..w]) && OnlyRecovered()
        invariant forall v :: 0 <= v < w ==> WorkerRuns(plan, cluster.Part(v), exts[v])
        invariant columns == if w == 0 then [] else Names(WorkerSchema(plan, cluster.Part(w - 1)))
      {
        var resp := CallWorkerOrRecover(w, plan, exts[w]);
        if resp.Err? {
          return Err(resp.error);
        }
        per_worker_rows := per_worker_rows + [resp.value.rows];
        columns := resp.value.columns;
        assert exts[..w + 1][..w] == exts[..w];
      }
      assert exts[..|exts|] == exts;
      r := Ok((per_worker_rows, columns));
    }

    // Ask all workers for their share, aggregated if there is an aggregate,
    // and put the answers together.
    method Collect(input: WorkerPlan, exts: seq<ExternalRowSets>, spec: Option<AggregateSpec>, skip_merge: bool,
                   ghost schema: Schema, ghost rows: seq<Row>, ghost runs: bool)
      returns (result: Result<seq<Row>>)
      requires WellFormed(cluster.full) && |exts| == cluster.workers
      modifies this`recovered_workers, this`calls
      ensures OnlyRecovered() && Assembled(cluster, input, exts, spec, skip_merge, result)
      ensures (&& Gathered(cluster, input, exts, schema, rows, runs)
               && Spread(spec, schema, rows, Sent(cluster, input, exts), skip_merge)) ==>
        && (result.Ok? <==> runs && SpecRuns(spec, schema, rows))
        && (result.Ok? ==> multiset(result.value) == multiset(AggregateOf(spec, schema, rows)))
    {
      hide HashAggregate, WorkerSchema, MergeRows, Mergeable, Sent, SentRuns, Spread, Aggregable, Gathered;
      ghost var good := Gathered(cluster, input, exts, schema, rows, runs)
        && Spread(spec, schema, rows, Sent(cluster, input, exts), skip_merge);
      if spec.None? {
        var parts := AskAll(input, exts);
        if good {
          Plainly(cluster, input, exts, schema, rows, runs);
        }
        if parts.Err? {
          return Err(parts.error);
        }
        var merged := AppendAll(parts.value.0);
        result := Ok(merged);
      } else if skip_merge {
        var parts := AskAll(Aggregated(spec.value.group_by, spec.value.aggregates, input), exts);
        if good {
          Skipped(cluster, input, exts, spec.value, schema, rows, runs);
        }
        if parts.Err? {
          return Err(parts.error);
        }
        var merged := AppendAll(parts.value.0);
        result := Ok(merged);
      } else {
        var split := SplitAvg(spec.value.aggregates);
        var parts := AskAll(Aggregated(spec.value.group_by, split.worker_aggregates, input), exts);
        if good {
          Merged(cluster, input, exts, spec.value, split, schema, rows, runs);
        }
        if parts.Err? {
          result := Err(parts.error);
          assert MergedBy(cluster, input, exts, spec.value, split, result);
          return;
        }
        result := MergePartialAggregates(parts.value.0, |spec.value.group_by|, spec.value.aggregates, split);
        assert MergedBy(cluster, input, exts, spec.value, split, result);
      }
    }

    // run_distributed_single
    method RunDistributedSingle(core: P.PhysicalPlan, spec: Option<AggregateSpec>) returns (result: Result<seq<Row>>)
      requires WellFormed(cluster.full) && SingleRelation(core)
      modifies this`recovered_workers, this`calls
      ensures OnlyRecovered() && SingleRan(cluster, core, spec, result)
      ensures SingleServes(cluster, core, spec) ==> Faithful(cluster, core, spec, result)
    {
      hide Spread, PlanSchema, PlanRows, PlanRuns, HashAggregate, WellFormed, Aggregable, Sent, SentRuns;
      var exts := NoExternal(cluster);
      if SingleServes(cluster, core, spec) {
        RelationSent(cluster, core, exts);
      }
      result :=
        Collect(Relation(core), exts, spec, false, PlanSchema(core, cluster.full), PlanRows(core, cluster.full),
                PlanRuns(core, cluster.full));
    }

    // run_broadcast_join
    method RunBroadcastJoin(join: P.PhysicalPlan, broadcast_left: bool, spec: Option<AggregateSpec>)
      returns (result: Result<seq<Row>>)
      requires WellFormed(cluster.full) && join.Join? && SingleRelation(join.left) && SingleRelation(join.right)
      modifies this`recovered_workers, this`calls
      ensures OnlyRecovered() && BroadcastRan(cluster, join, broadcast_left, spec, result)
      ensures BroadcastServes(cluster, join, broadcast_left, spec) ==> Faithful(cluster, join, spec, result)
    {
      hide Spread, PlanSchema, PlanRows, PlanRuns, HashAggregate, WellFormed, WorkerSchema, WorkerRows, Gathered, Sent,
           SentRuns, Aggregable, BroadcastParts, AggregateOf, Recorded, Assembled;
      var small := if broadcast_left then join.left else join.right;
      var none := NoExternal(cluster);
      var first := AskAll(Relation(small), none);
      if BroadcastServes(cluster, join, broadcast_left, spec) {
        RelationSent(cluster, small, none);
        PairsRunPlan(join, cluster.full);
      }
      if first.Err? {
        return Err(first.error);
      }
      var columns := first.value.1;
      var broadcast_rows := AppendAll(first.value.0);
      var worker_join :=
        if broadcast_left then Joined(join.algorithm, join.condition, ExternalRows(columns, 0), Relation(join.right))
        else Joined(join.algorithm, join.condition, Relation(join.left), ExternalRows(columns, 0));
      var exts := seq(cluster.workers, w => map[0 := broadcast_rows]);
      assert columns == LastNames(cluster, small);
      if BroadcastServes(cluster, join, broadcast_left, spec) {
        if broadcast_left {
          BroadcastLeftGathers(cluster, join, columns, broadcast_rows, exts);
        } else {
          BroadcastRightGathers(cluster, join, columns, broadcast_rows, exts);
        }
      }
      result :=
        Collect(worker_join, exts, spec, false, PlanSchema(join, cluster.full), PlanRows(join, cluster.full),
                PlanRuns(join, cluster.full));
    }

    // Both sides' rows of one worker, the left side first.
    method AskBoth(w: nat, left: WorkerPlan, right: WorkerPlan) returns (r: Result<(Response, Response)>)
      requires WellFormed(cluster.full) && w < cluster.workers
      modifies this`recovered_workers, this`calls
      ensures OnlyRecovered()
      ensures r.Ok? <==> Answer(left, cluster.Part(w), map[]).Ok? && Answer(right, cluster.Part(w), map[]).Ok?
      ensures r.Ok? ==> Answer(left, cluster.Part(w), map[]) == Ok(r.value.0)
                        && Answer(right, cluster.Part(w), map[]) == Ok(r.value.1)
    {
      hide Answer, WellFormed, Recorded;
      var left_resp := CallWorkerOrRecover(w, left, map[]);
      if left_resp.Err? {
        return Err(left_resp.error);
      }
      var right_resp := CallWorkerOrRecover(w, right, map[]);
      if right_resp.Err? {
        return Err(right_resp.error);
      }
      r := Ok((left_resp.value, right_resp.value));
    }

    // The first phase of run_shuffle_join: every worker's rows, by target.
    method GatherByTarget(left: P.PhysicalPlan, right: P.PhysicalPlan, left_key: nat, right_key: nat)
      returns (r: Result<(seq<seq<Row>>, seq<seq<Row>>, seq<string>, seq<string>)>)
      requires WellFormed(cluster.full) && cluster.workers > 0
      modifies this`recovered_workers, this`calls
      ensures OnlyRecovered()
      ensures r.Ok? <==>
        && SentRuns(cluster, Relation(left), NoExternal(cluster))
        && SentRuns(cluster, Relation(right), NoExternal(cluster))
      ensures r.Ok? ==>
        var sent_left := Concat(Sent(cluster, Relation(left), NoExternal(cluster)));
        var sent_right := Concat(Sent(cluster, Relation(right), NoExternal(cluster)));
        && r.value.0 == ByTarget(KeyTarget(cluster, left_key), cluster.workers, sent_left)
        && r.value.1 == ByTarget(KeyTarget(cluster, right_key), cluster.workers, sent_right)
        && |r.value.0| == cluster.workers == |r.value.1|
        && r.value.2 == Names(WorkerSchema(Relation(left), cluster.Part(cluster.workers - 1)))
        && r.value.3 == Names(WorkerSchema(Relation(right), cluster.Part(cluster.workers - 1)))
    {
      hide PlanRows, PlanSchema, KeyTarget, Names, ByTarget, Concat, Sent, PlanRuns, WorkerRuns, WorkerRows,
           WorkerSchema, WellFormed, Recorded;
      var n := cluster.workers;
      ghost var none := NoExternal(cluster);
      ghost var ls, rs := Sent(cluster, Relation(left), none), Sent(cluster, Relation(right), none);
      var left_by_target: seq<seq<Row>>, right_by_target: seq<seq<Row>> := seq(n, t => []), seq(n, t => []);
      var left_columns: seq<string>, right_columns: seq<string> := [], [];
      NothingScattered(KeyTarget(cluster, left_key), n);
      NothingScattered(KeyTarget(cluster, right_key), n);
      SentBy(cluster, Relation(left), none);
      SentBy(cluster, Relation(right), none);
      assert ls[..0] == [] && rs[..0] == [];
      for i := 0 to n
        invariant left_by_target == ByTarget(KeyTarget(cluster, left_key), n, Concat(ls[..i])) && OnlyRecovered()
        invariant right_by_target == ByTarget(KeyTarget(cluster, right_key), n, Concat(rs[..i]))
        invariant forall v :: 0 <= v < i ==>
          WorkerRuns(Relation(left), cluster.Part(v), none[v]) && WorkerRuns(Relation(right), cluster.Part(v), none[v])
        invariant i > 0 ==> left_columns == Names(WorkerSchema(Relation(left), cluster.Part(i - 1)))
        invariant i > 0 ==> right_columns == Names(WorkerSchema(Relation(right), cluster.Part(i - 1)))
      {
        var both := AskBoth(i, Relation(left), Relation(right));
        if both.Err? {
          return Err(both.error);
        }
        var (left_resp, right_resp) := both.value;
        left_columns, right_columns := left_resp.columns, right_resp.columns;
        left_by_target := Scatter(left_by_target, left_resp.rows, left_key, cluster, Concat(ls[..i]));
        right_by_target := Scatter(right_by_target, right_resp.rows, right_key, cluster, Concat(rs[..i]));
        MoreRows(ls, i);
        MoreRows(rs, i);
      }
      assert ls[..n] == ls && rs[..n] == rs;
      ByTargetSizes(KeyTarget(cluster, left_key), KeyTarget(cluster, right_key), n, Concat(ls), Concat(rs));
      r := Ok((left_by_target, right_by_target, left_columns, right_columns));
    }

    // run_shuffle_join
    method RunShuffleJoin(join: P.PhysicalPlan, spec: Option<AggregateSpec>) returns (result: Result<seq<Row>>)
      requires WellFormed(cluster.full) && join.Join? && SingleRelation(join.left) && SingleRelation(join.right)
        && cluster.workers > 0
      modifies this`recovered_workers, this`calls
      ensures OnlyRecovered() && ShuffleRan(cluster, join, spec, result)
      ensures ShuffleKeys(cluster, join).None? ==> result.Err?
      ensures ShuffleServes(cluster, join, spec) ==> Faithful(cluster, join, spec, result)
    {
      hide Spread, PlanSchema, PlanRows, PlanRuns, HashAggregate, WellFormed, WorkerSchema, WorkerRows, HashKeys,
           Shuffles, KeyExprs, SkipsMerge, Gathered, Sent, SentRuns, ByTarget, KeyTarget, Concat, Names, Aggregable,
           ShuffleParts, PlainKeys, Determined, AggregateOf, Recorded, Assembled,
           ShuffleRan;
      var keys := ShuffleKeys(cluster, join);
      if ShuffleServes(cluster, join, spec) {
        ShufflesHaveKeys(cluster, join, spec);
        ShufflesServe(cluster, join, spec);
        RelationSent(cluster, join.left, NoExternal(cluster));
        RelationSent(cluster, join.right, NoExternal(cluster));
        PairsRunPlan(join, cluster.full);
      }
      if keys.None? {
        result := Err("distributed: join condition isn't a simple column-to-column equality across both sides");
        ShuffleFailed(cluster, join, spec, result);
        return;
      }
      var gathered := GatherByTarget(join.left, join.right, keys.value.0, keys.value.1);
      if gathered.Err? {
        result := Err(gathered.error);
        ShuffleFailed(cluster, join, spec, result);
        return;
      }
      var (ls, rs, left_columns, right_columns) := gathered.value;
      var worker_join :=
        Joined(join.algorithm, join.condition, ExternalRows(left_columns, 0), ExternalRows(right_columns, 1));
      var exts := Buckets(cluster.workers, ls, rs);
      var skip_merge := SkipsMerge(cluster, join, spec);
      if ShuffleServes(cluster, join, spec) {
        ShuffleGathers(cluster, join, spec, ls, rs, left_columns, right_columns, exts);
      }
      result :=
        Collect(worker_join, exts, spec, skip_merge, PlanSchema(join, cluster.full), PlanRows(join, cluster.full),
                PlanRuns(join, cluster.full));
      ShuffleDone(cluster, join, spec, ls, rs, left_columns, right_columns, exts, result);
    }

    // run_distributed_query, from the unwrapped plan to the merged rows: the
    // HAVING, Project, Sort and Limit that finish() then applies to them are
    // not part of it.  Whether a broadcast is wanted is the bandit's or the
    // environment's say.
    method RunDistributedQuery(core: P.PhysicalPlan, spec: Option<AggregateSpec>, wants_broadcast: bool)
      returns (result: Result<seq<Row>>, strategy: Strategy)
      requires WellFormed(cluster.full)
      modifies this`recovered_workers, this`calls
      ensures OnlyRecovered()
      ensures cluster.workers == 0 ==> result.Err?
      ensures cluster.workers > 0 ==>
        Chosen(core, wants_broadcast, strategy) && Ran(cluster, core, spec, strategy, result)
      ensures cluster.workers > 0 && strategy == Shuffle && ShuffleKeys(cluster, core).None? ==> result.Err?
      ensures cluster.workers > 0 && Served(cluster, core, spec, strategy) ==> Faithful(cluster, core, spec, result)
      ensures Distributes(cluster, core, spec) ==> Faithful(cluster, core, spec, result)
    {
      hide PlanSchema, PlanRows, PlanRuns, HashAggregate, WellFormed, SingleServes, BroadcastServes, ShuffleServes,
           ShuffleKeys, Aggregable, SingleRan, BroadcastRan, ShuffleRan, Faithful, SingleNode;
      strategy := Locally;
      if cluster.workers == 0 {
        return Err("distributed: no workers configured"), strategy;
      }
      LocalIsFaithful(cluster, core, spec);
      if core.Join? {
        if !SingleRelation(core.left) || !SingleRelation(core.right) {
          result := SingleNode(core, spec, cluster.full);
          return;
        }
        var left_est, right_est := core.left.estimated_rows, core.right.estimated_rows;
        var can_broadcast_left, can_broadcast_right := left_est <= BROADCAST_ELIGIBLE, right_est <= BROADCAST_ELIGIBLE;
        if (can_broadcast_left || can_broadcast_right) && wants_broadcast {
          var prefer_left := can_broadcast_left && (!can_broadcast_right || left_est <= right_est);
          strategy := Broadcast(prefer_left);
          result := RunBroadcastJoin(core, prefer_left, spec);
        } else {
          strategy := Shuffle;
          result := RunShuffleJoin(core, spec);
        }
      } else if SingleRelation(core) {
        strategy := OnWorkers;
        result := RunDistributedSingle(core, spec);
      } else {
        result := SingleNode(core, spec, cluster.full);
      }
    }
  }

  lemma LocalIsFaithful(c: Cluster, core: P.PhysicalPlan, spec: Option<AggregateSpec>)
    ensures Faithful(c, core, spec, SingleNode(core, spec, c.full))
  {
    hide SingleNode;
  }

  // The workers' inputs are together the rows of one node, under one schema,
  // and throw on some worker exactly when they do on one node.
  ghost predicate Gathered(c: Cluster, input: WorkerPlan, exts: seq<ExternalRowSets>, schema: Schema, rows: seq<Row>,
                           runs: bool)
  {
    && c.workers > 0 && |exts| == c.workers
    && (forall w :: 0 <= w < |exts| ==> WorkerSchema(input, c.Part(w)) == schema)
    && multiset(Concat(Sent(c, input, exts))) == multiset(rows)
    && (SentRuns(c, input, exts) <==> runs)
  }

  lemma Plainly(c: Cluster, input: WorkerPlan, exts: seq<ExternalRowSets>, schema: Schema, rows: seq<Row>, runs: bool)
    requires Gathered(c, input, exts, schema, rows, runs)
    ensures (SentRuns(c, input, exts) <==> runs) && multiset(Concat(Sent(c, input, exts))) == multiset(rows)
  {
  }

  lemma Skipped(c: Cluster, input: WorkerPlan, exts: seq<ExternalRowSets>, spec: AggregateSpec, schema: Schema,
                rows: seq<Row>, runs: bool)
    requires Gathered(c, input, exts, schema, rows, runs)
      && Spread(Some(spec), schema, rows, Sent(c, input, exts), true)
    ensures var plan := Aggregated(spec.group_by, spec.aggregates, input);
      && (SentRuns(c, plan, exts) <==> runs && SpecRuns(Some(spec), schema, rows))
      && (SpecRuns(Some(spec), schema, rows) ==>
          multiset(Concat(Sent(c, plan, exts))) == multiset(AggregateOf(Some(spec), schema, rows)))
  {
    hide HashAggregate, Sent, SentRuns, WorkerSchema, Spread, Concat, Aggregable, Partials;
    SentBy(c, input, exts);
    AggregateSent(c, spec.group_by, spec.aggregates, input, exts, schema);
    AggregateSentRuns(c, spec.group_by, spec.aggregates, input, exts, schema);
    SkippedAnswer(spec, schema, Sent(c, input, exts), rows);
  }

  lemma Merged(c: Cluster, input: WorkerPlan, exts: seq<ExternalRowSets>, spec: AggregateSpec, split: AvgSplit,
               schema: Schema, rows: seq<Row>, runs: bool)
    requires Gathered(c, input, exts, schema, rows, runs)
      && Spread(Some(spec), schema, rows, Sent(c, input, exts), false)
    requires Splits(spec.aggregates, split) && forall a :: a in split.worker_aggregates ==> a.func != Avg
    ensures var plan := Aggregated(spec.group_by, split.worker_aggregates, input);
      var sent := Concat(Sent(c, plan, exts));
      && (SentRuns(c, plan, exts) && Mergeable(|spec.group_by|, spec.aggregates, split.mapping, sent)
          <==> runs && SpecRuns(Some(spec), schema, rows))
      && (SpecRuns(Some(spec), schema, rows) ==>
            multiset(MergeRows(|spec.group_by|, spec.aggregates, split.mapping, sent))
              == multiset(AggregateOf(Some(spec), schema, rows)))
  {
    hide HashAggregate, Sent, SentRuns, WorkerSchema, Spread, Concat, Aggregable, Partials, Mergeable, MergeRows,
         Splits;
    MappingSize(spec.aggregates, split);
    SentBy(c, input, exts);
    AggregateSent(c, spec.group_by, split.worker_aggregates, input, exts, schema);
    AggregateSentRuns(c, spec.group_by, split.worker_aggregates, input, exts, schema);
    MergedAnswer(spec, schema, split, Sent(c, input, exts), rows);
  }

  // ---- Single relations ----

  ghost predicate SingleServes(c: Cluster, core: P.PhysicalPlan, spec: Option<AggregateSpec>)
    requires SingleRelation(core)
  {
    && c.workers > 0 && c.Serves(core)
    && Spread(spec, PlanSchema(core, c.full), PlanRows(core, c.full), Sent(c, Relation(core), NoExternal(c)), false)
  }

  // The workers' parts of a relation are together the relation.
  lemma RelationSent(c: Cluster, p: P.PhysicalPlan, exts: seq<ExternalRowSets>)
    requires SingleRelation(p) && c.workers > 0 && c.Serves(p) && |exts| == c.workers
    ensures Gathered(c, Relation(p), exts, PlanSchema(p, c.full), PlanRows(p, c.full), PlanRuns(p, c.full))
    ensures SentRuns(c, Relation(p), exts) <==> PlanRuns(p, c.full)
    ensures Sent(c, Relation(p), exts) == Sent(c, Relation(p), NoExternal(c))
    ensures multiset(Concat(Sent(c, Relation(p), exts))) == multiset(PlanRows(p, c.full))
    ensures forall w :: 0 <= w < c.workers ==> WorkerSchema(Relation(p), c.Part(w)) == PlanSchema(p, c.full)
  {
    hide PlanRows, PlanSchema, PlanRuns, RelationKeeps, OwnedRows, Filter, Partitioned, Concat;
    RelationRunsOnParts(p, c.full, c.names, c.workers);
    assert forall w :: 0 <= w < |exts| ==>
      (WorkerRuns(Relation(p), c.Part(w), exts[w]) <==> PlanRuns(p, PartOf(c.full, c.names, w, c.workers)));
    var keep, t := RelationKeeps(p, PlanSchema(p, c.full)), c.full[TableName(p)];
    forall w | 0 <= w < c.workers
      ensures Sent(c, Relation(p), exts)[w] == KeptParts(t, keep, c.workers, c.workers)[w]
      ensures WorkerSchema(Relation(p), c.Part(w)) == PlanSchema(p, c.full)
    {
      RelationOnPart(p, c.full, c.names, w, c.workers);
    }
    assert Sent(c, Relation(p), exts) == KeptParts(t, keep, c.workers, c.workers);
    PartsTogether(t, keep, c.workers);
    RelationRows(p, c.full);
  }

  // The names a relation's columns travel under parse back to its schema.
  lemma RelationNames(c: Cluster, p: P.PhysicalPlan)
    requires SingleRelation(p) && c.workers > 0 && c.Serves(p)
    ensures forall w :: 0 <= w < c.workers ==>
      Parsed(Names(WorkerSchema(Relation(p), c.Part(w)))) == PlanSchema(p, c.full)
  {
    hide PlanSchema, Parsed, Names, Partitioned;
    RelationRows(p, c.full);
    SchemaRoundTrip(QualifierOf(p), c.full[TableName(p)].columns);
    forall w | 0 <= w < c.workers ensures WorkerSchema(Relation(p), c.Part(w)) == PlanSchema(p, c.full) {
      RelationOnPart(p, c.full, c.names, w, c.workers);
    }
  }

  // ---- Broadcast ----

  // What each worker joins when one side is broadcast.
  ghost function BroadcastParts(c: Cluster, join: P.PhysicalPlan, broadcast_left: bool): seq<seq<Row>>
    requires join.Join?
  {
    var keep :=
      JoinKeeps(join.algorithm, join.condition, PlanSchema(join.left, c.full), PlanSchema(join.right, c.full));
    var ls, rs := Sent(c, Relation(join.left), NoExternal(c)), Sent(c, Relation(join.right), NoExternal(c));
    if broadcast_left then JoinParts(seq(c.workers, w => Concat(ls)), rs, keep)
    else JoinParts(ls, seq(c.workers, w => Concat(rs)), keep)
  }

  ghost predicate BroadcastServes(c: Cluster, join: P.PhysicalPlan, broadcast_left: bool, spec: Option<AggregateSpec>)
    requires join.Join? && SingleRelation(join.left) && SingleRelation(join.right)
  {
    && c.workers > 0 && c.Serves(join.left) && c.Serves(join.right)
    && Spread(spec, PlanSchema(join, c.full), PlanRows(join, c.full), BroadcastParts(c, join, broadcast_left), false)
  }

  // The pairs the workers see are together the pairs of one node.
  ghost predicate PairsCover(ls: seq<seq<Row>>, rs: seq<seq<Row>>, L: seq<Row>, R: seq<Row>)
    requires |ls| == |rs|
  {
    && (forall l, r :: l in L && r in R ==> exists w :: 0 <= w < |ls| && l in ls[w] && r in rs[w])
    && forall w, l, r :: 0 <= w < |ls| && l in ls[w] && r in rs[w] ==> l in L && r in R
  }

  lemma PairsTogether(algorithm: P.JoinAlgorithm, e: Expr, left: Schema, right: Schema, ls: seq<seq<Row>>,
                      rs: seq<seq<Row>>, L: seq<Row>, R: seq<Row>)
    requires |ls| == |rs| > 0 && PairsCover(ls, rs, L, R)
    ensures (forall w :: 0 <= w < |ls| ==> PairsRun(algorithm, e, left, right, ls[w], rs[w]))
      <==> PairsRun(algorithm, e, left, right, L, R)
  {
    hide GivesBoolean, FlatLook, HashKeys;
    if forall w :: 0 <= w < |ls| ==> PairsRun(algorithm, e, left, right, ls[w], rs[w]) {
      assert PairsRun(algorithm, e, left, right, ls[0], rs[0]);
      forall l, r | l in L && r in R && algorithm != P.HashJoin ensures GivesBoolean(e, FlatLook(left + right, l + r)) {
        var w :| 0 <= w < |ls| && l in ls[w] && r in rs[w];
        assert PairsRun(algorithm, e, left, right, ls[w], rs[w]);
      }
    }
  }

  // The join of a worker: its two inputs joined as the plan says.
  lemma JoinedSent(c: Cluster, plan: WorkerPlan, exts: seq<ExternalRowSets>, left: Schema, right: Schema,
                   ls: seq<seq<Row>>, rs: seq<seq<Row>>)
    requires plan.Joined? && |exts| == |ls| == |rs|
    requires forall w :: 0 <= w < |exts| ==>
      WorkerSchema(plan.left, c.Part(w)) == left && WorkerSchema(plan.right, c.Part(w)) == right
    requires forall w :: 0 <= w < |exts| ==>
      WorkerRows(plan.left, c.Part(w), exts[w]) == ls[w] && WorkerRows(plan.right, c.Part(w), exts[w]) == rs[w]
    ensures Sent(c, plan, exts) == JoinParts(ls, rs, JoinKeeps(plan.algorithm, plan.condition, left, right))
    ensures forall w :: 0 <= w < |exts| ==> WorkerSchema(plan, c.Part(w)) == left + right
  {
    hide JoinRows, JoinKeeps;
    var parts := JoinParts(ls, rs, JoinKeeps(plan.algorithm, plan.condition, left, right));
    forall w | 0 <= w < |exts| ensures Sent(c, plan, exts)[w] == parts[w] {
    }
  }

  lemma JoinedRuns(c: Cluster, plan: WorkerPlan, exts: seq<ExternalRowSets>, left: Schema, right: Schema,
                   ls: seq<seq<Row>>, rs: seq<seq<Row>>)
    requires plan.Joined? && |exts| == |ls| == |rs|
    requires forall w :: 0 <= w < |exts| ==>
      WorkerSchema(plan.left, c.Part(w)) == left && WorkerSchema(plan.right, c.Part(w)) == right
    requires forall w :: 0 <= w < |exts| ==>
      WorkerRows(plan.left, c.Part(w), exts[w]) == ls[w] && WorkerRows(plan.right, c.Part(w), exts[w]) == rs[w]
    ensures SentRuns(c, plan, exts)
       <==> SentRuns(c, plan.left, exts) && SentRuns(c, plan.right, exts)
            && forall w :: 0 <= w < |exts| ==> PairsRun(plan.algorithm, plan.condition, left, right, ls[w], rs[w])
  {
    hide PairsRun, WorkerSchema, WorkerRows;
    forall w | 0 <= w < |exts|
      ensures WorkerRuns(plan, c.Part(w), exts[w])
         <==> WorkerRuns(plan.left, c.Part(w), exts[w]) && WorkerRuns(plan.right, c.Part(w), exts[w])
              && PairsRun(plan.algorithm, plan.condition, left, right, ls[w], rs[w])
    {
    }
  }

  // Workers whose inputs are those of one node, in parts.
  lemma JoinGathers(c: Cluster, join: P.PhysicalPlan, plan: WorkerPlan, exts: seq<ExternalRowSets>, ls: seq<seq<Row>>,
                    rs: seq<seq<Row>>)
    requires join.Join? && plan.Joined? && plan.algorithm == join.algorithm && plan.condition == join.condition
    requires |exts| == |ls| == |rs| == c.workers > 0
    requires forall w :: 0 <= w < |exts| ==>
      WorkerSchema(plan.left, c.Part(w)) == PlanSchema(join.left, c.full)
        && WorkerSchema(plan.right, c.Part(w)) == PlanSchema(join.right, c.full)
    requires forall w :: 0 <= w < |exts| ==>
      WorkerRows(plan.left, c.Part(w), exts[w]) == ls[w] && WorkerRows(plan.right, c.Part(w), exts[w]) == rs[w]
    requires SentRuns(c, plan.left, exts) <==> PlanRuns(join.left, c.full)
    requires SentRuns(c, plan.right, exts) <==> PlanRuns(join.right, c.full)
    requires PairsCover(ls, rs, PlanRows(join.left, c.full), PlanRows(join.right, c.full))
    requires multiset(Concat(JoinParts(ls, rs,
                                       JoinKeeps(join.algorithm, join.condition, PlanSchema(join.left, c.full),
                                                 PlanSchema(join.right, c.full)))))
          == multiset(PlanRows(join, c.full))
    ensures Gathered(c, plan, exts, PlanSchema(join, c.full), PlanRows(join, c.full), PlanRuns(join, c.full))
    ensures Sent(c, plan, exts)
         == JoinParts(ls, rs,
                      JoinKeeps(join.algorithm, join.condition, PlanSchema(join.left, c.full),
                                PlanSchema(join.right, c.full)))
  {
    hide PlanRows, JoinKeeps, Concat, PlanRuns, PairsRun, SentRuns, WorkerSchema, WorkerRows, Sent, JoinParts,
         PairsCover;
    var left, right := PlanSchema(join.left, c.full), PlanSchema(join.right, c.full);
    JoinedSent(c, plan, exts, left, right, ls, rs);
    JoinedRuns(c, plan, exts, left, right, ls, rs);
    PairsTogether(join.algorithm, join.condition, left, right, ls, rs, PlanRows(join.left, c.full),
                  PlanRows(join.right, c.full));
    PairsRunPlan(join, c.full);
  }

  lemma LeftPairs(same: seq<Row>, all: seq<seq<Row>>, rs: seq<seq<Row>>, L: seq<Row>, R: seq<Row>)
    requires |all| == |rs| && (forall w :: 0 <= w < |all| ==> all[w] == same)
    requires multiset(same) == multiset(L) && multiset(Concat(rs)) == multiset(R)
    ensures PairsCover(all, rs, L, R)
  {
    SameElements(same, L);
    SameElements(Concat(rs), R);
    ConcatMembers(rs);
    forall l, r | l in L && r in R ensures exists w :: 0 <= w < |rs| && l in all[w] && r in rs[w] {
      var w :| 0 <= w < |rs| && r in rs[w];
      assert l in all[w];
    }
  }

  lemma RightPairs(same: seq<Row>, all: seq<seq<Row>>, ls: seq<seq<Row>>, L: seq<Row>, R: seq<Row>)
    requires |all| == |ls| && (forall w :: 0 <= w < |all| ==> all[w] == same)
    requires multiset(same) == multiset(R) && multiset(Concat(ls)) == multiset(L)
    ensures PairsCover(ls, all, L, R)
  {
    SameElements(same, R);
    SameElements(Concat(ls), L);
    ConcatMembers(ls);
    forall l, r | l in L && r in R ensures exists w :: 0 <= w < |ls| && l in ls[w] && r in all[w] {
      var w :| 0 <= w < |ls| && l in ls[w];
      assert r in all[w];
    }
  }

  // A relation's own rows on each worker, and a broadcast one's.
  lemma RelationInput(c: Cluster, p: P.PhysicalPlan, exts: seq<ExternalRowSets>)
    requires SingleRelation(p) && c.workers > 0 && c.Serves(p) && |exts| == c.workers
    ensures forall w :: 0 <= w < |exts| ==>
      WorkerSchema(Relation(p), c.Part(w)) == PlanSchema(p, c.full)
      && WorkerRows(Relation(p), c.Part(w), exts[w]) == Sent(c, Relation(p), NoExternal(c))[w]
    ensures |Sent(c, Relation(p), NoExternal(c))| == c.workers
    ensures multiset(Concat(Sent(c, Relation(p), NoExternal(c)))) == multiset(PlanRows(p, c.full))
    ensures SentRuns(c, Relation(p), exts) <==> PlanRuns(p, c.full)
  {
    hide PlanRows, PlanSchema, PlanRuns, Concat, WorkerSchema, WorkerRows, Sent, SentRuns;
    RelationSent(c, p, exts);
    SentBy(c, Relation(p), exts);
    SentBy(c, Relation(p), NoExternal(c));
  }

  lemma BroadcastInput(c: Cluster, p: P.PhysicalPlan, columns: seq<string>, sent: seq<Row>, exts: seq<ExternalRowSets>)
    requires SingleRelation(p) && c.workers > 0 && c.Serves(p) && |exts| == c.workers && PlanRuns(p, c.full)
    requires forall w :: 0 <= w < |exts| ==> exts[w] == map[0 := sent]
    requires columns == Names(WorkerSchema(Relation(p), c.Part(c.workers - 1)))
    ensures forall w :: 0 <= w < |exts| ==>
      WorkerSchema(ExternalRows(columns, 0), c.Part(w)) == PlanSchema(p, c.full)
        && WorkerRows(ExternalRows(columns, 0), c.Part(w), exts[w]) == sent
    ensures SentRuns(c, ExternalRows(columns, 0), exts) <==> PlanRuns(p, c.full)
  {
    hide PlanRows, PlanSchema, PlanRuns, Names, Partitioned, PlainNames, WorkerSchema, WorkerRows, SentRuns;
    ShippedInput(c, p, columns, 0, seq(c.workers, w => sent), exts);
  }

  lemma BroadcastLeftGathers(c: Cluster, join: P.PhysicalPlan, columns: seq<string>, sent: seq<Row>,
                             exts: seq<ExternalRowSets>)
    requires WellFormed(c.full) && join.Join? && SingleRelation(join.left) && SingleRelation(join.right)
    requires c.workers > 0 && c.Serves(join.left) && c.Serves(join.right) && |exts| == c.workers
    requires forall w :: 0 <= w < |exts| ==> exts[w] == map[0 := sent]
    requires columns == Names(WorkerSchema(Relation(join.left), c.Part(c.workers - 1)))
    requires sent == Concat(Sent(c, Relation(join.left), NoExternal(c))) && PlanRuns(join.left, c.full)
    ensures var plan := Joined(join.algorithm, join.condition, ExternalRows(columns, 0), Relation(join.right));
      && Gathered(c, plan, exts, PlanSchema(join, c.full), PlanRows(join, c.full), PlanRuns(join, c.full))
      && Sent(c, plan, exts) == BroadcastParts(c, join, true)
  {
    hide PlanRows, PlanSchema, JoinKeeps, Concat, WellFormed, PlanRuns, SentRuns, WorkerSchema, WorkerRows, Sent, Names,
         Gathered, JoinParts, PairsCover;
    var db, rs := c.full, Sent(c, Relation(join.right), NoExternal(c));
    var same := seq(c.workers, w => sent);
    var keep := JoinKeeps(join.algorithm, join.condition, PlanSchema(join.left, db), PlanSchema(join.right, db));
    RelationInput(c, join.left, NoExternal(c));
    RelationInput(c, join.right, exts);
    BroadcastInput(c, join.left, columns, sent, exts);
    PlanWidth(join.left, db);
    PairsFromPlan(join, db);
    BroadcastLeft(same, rs, PlanRows(join.left, db), PlanRows(join.right, db), sent, keep, |PlanSchema(join.left, db)|);
    LeftPairs(sent, same, rs, PlanRows(join.left, db), PlanRows(join.right, db));
    JoinGathers(c, join, Joined(join.algorithm, join.condition, ExternalRows(columns, 0), Relation(join.right)), exts,
                same, rs);
  }

  lemma PairsFromPlan(join: P.PhysicalPlan, db: Database)
    requires join.Join?
    ensures multiset(PlanRows(join, db))
         == multiset(JoinRows(PlanRows(join.left, db), PlanRows(join.right, db),
                              JoinKeeps(join.algorithm, join.condition, PlanSchema(join.left, db),
                                        PlanSchema(join.right, db))))
  {
    hide *;
    JoinKeepsPlan(join, db);
  }

  lemma BroadcastRightGathers(c: Cluster, join: P.PhysicalPlan, columns: seq<string>, sent: seq<Row>,
                              exts: seq<ExternalRowSets>)
    requires WellFormed(c.full) && join.Join? && SingleRelation(join.left) && SingleRelation(join.right)
    requires c.workers > 0 && c.Serves(join.left) && c.Serves(join.right) && |exts| == c.workers
    requires forall w :: 0 <= w < |exts| ==> exts[w] == map[0 := sent]
    requires columns == Names(WorkerSchema(Relation(join.right), c.Part(c.workers - 1)))
    requires sent == Concat(Sent(c, Relation(join.right), NoExternal(c))) && PlanRuns(join.right, c.full)
    ensures var plan := Joined(join.algorithm, join.condition, Relation(join.left), ExternalRows(columns, 0));
      && Gathered(c, plan, exts, PlanSchema(join, c.full), PlanRows(join, c.full), PlanRuns(join, c.full))
      && Sent(c, plan, exts) == BroadcastParts(c, join, false)
  {
    hide PlanRows, PlanSchema, JoinKeeps, Concat, WellFormed, PlanRuns, SentRuns, WorkerSchema, WorkerRows, Sent, Names,
         Gathered, JoinParts, PairsCover;
    var db, ls := c.full, Sent(c, Relation(join.left), NoExternal(c));
    var same := seq(c.workers, w => sent);
    var keep := JoinKeeps(join.algorithm, join.condition, PlanSchema(join.left, db), PlanSchema(join.right, db));
    RelationInput(c, join.right, NoExternal(c));
    RelationInput(c, join.left, exts);
    BroadcastInput(c, join.right, columns, sent, exts);
    PlanWidth(join.left, db);
    PairsFromPlan(join, db);
    BroadcastRight(ls, same, PlanRows(join.left, db), PlanRows(join.right, db), sent, keep,
                   |PlanSchema(join.left, db)|);
    RightPairs(sent, same, ls, PlanRows(join.left, db), PlanRows(join.right, db));
    JoinGathers(c, join, Joined(join.algorithm, join.condition, Relation(join.left), ExternalRows(columns, 0)), exts,
                ls, same);
  }

  // ---- Shuffle ----

  // The key columns' positions, from the catalog's column order.
  function ShuffleKeys(c: Cluster, join: P.PhysicalPlan): Option<(nat, nat)>
    requires join.Join? && SingleRelation(join.left) && SingleRelation(join.right)
  {
    HashKeys(join.condition, c.CatalogSchema(join.left), c.CatalogSchema(join.right))
  }

  // The left and the right key of an equality whose keys resolve.
  function KeyExprs(e: Expr, left: Schema, right: Schema): (Expr, Expr)
    requires HashKeys(e, left, right).Some?
  {
    if Resolve(left, e.left.table, e.left.column).Some? && Resolve(right, e.right.table, e.right.column).Some?
    then (e.left, e.right) else (e.right, e.left)
  }

  // The GROUP BY has one of the key columns.
  predicate SkipsMerge(c: Cluster, join: P.PhysicalPlan, spec: Option<AggregateSpec>)
    requires join.Join? && SingleRelation(join.left) && SingleRelation(join.right) && ShuffleKeys(c, join).Some?
  {
    var keys := KeyExprs(join.condition, c.CatalogSchema(join.left), c.CatalogSchema(join.right));
    spec.Some? && (keys.0 in spec.value.group_by || keys.1 in spec.value.group_by)
  }

  // A column of the relation, as the catalog has it.
  predicate ColumnOf(c: Cluster, e: Expr, p: P.PhysicalPlan)
    requires SingleRelation(p)
  {
    e.Column? && Resolve(c.CatalogSchema(p), e.table, e.column).Some?
  }

  // There are shuffle keys exactly when the condition equates a column of
  // either relation with one of the other.
  lemma ShuffleKeysFound(c: Cluster, join: P.PhysicalPlan)
    requires join.Join? && SingleRelation(join.left) && SingleRelation(join.right)
    ensures var e := join.condition;
      ShuffleKeys(c, join).Some? <==>
      && e.BinaryOp? && e.binary_op == Eq
      && (|| (ColumnOf(c, e.left, join.left) && ColumnOf(c, e.right, join.right))
          || (ColumnOf(c, e.right, join.left) && ColumnOf(c, e.left, join.right)))
  {
    hide Resolve;
  }

  // The merge is skipped exactly when a side of the equality is grouped by.
  lemma MergeSkipped(c: Cluster, join: P.PhysicalPlan, spec: Option<AggregateSpec>)
    requires join.Join? && SingleRelation(join.left) && SingleRelation(join.right) && ShuffleKeys(c, join).Some?
    ensures SkipsMerge(c, join, spec) <==>
      spec.Some? && (join.condition.left in spec.value.group_by || join.condition.right in spec.value.group_by)
  {
    hide Resolve;
  }

  // In the joined row each key names the column of its own side.
  ghost predicate OwnSides(e: Expr, left: Schema, right: Schema)
    requires HashKeys(e, left, right).Some?
  {
    var keys, at := KeyExprs(e, left, right), HashKeys(e, left, right).value;
    && Resolve(left + right, keys.0.table, keys.0.column) == Some(at.0)
    && Resolve(left + right, keys.1.table, keys.1.column) == Some(|left| + at.1)
  }

  // Equal keys have one text: no Integer meets an equal Float.
  ghost predicate EqualKeysOneText(l: seq<Row>, r: seq<Row>, i: nat, j: nat)
  {
    forall a, b :: a in l && b in r && LiteralEqual(Cell(a, i), Cell(b, j)) ==>
      LiteralText(Cell(a, i)) == LiteralText(Cell(b, j))
  }

  // So it is when Integer keys only ever meet Integer keys.
  lemma OneNumberKind(l: seq<Row>, r: seq<Row>, i: nat, j: nat)
    requires forall a, b :: a in l && b in r ==> (Cell(a, i).Integer? <==> Cell(b, j).Integer?)
    ensures EqualKeysOneText(l, r, i, j)
  {
    hide LiteralText, LiteralEqual, Cell;
    forall a, b | a in l && b in r && LiteralEqual(Cell(a, i), Cell(b, j))
      ensures LiteralText(Cell(a, i)) == LiteralText(Cell(b, j))
    {
      EqualityDecidesText(Cell(a, i), Cell(b, j));
    }
  }

  // What the shuffle needs of the data and the join.
  ghost predicate Shuffles(c: Cluster, join: P.PhysicalPlan, spec: Option<AggregateSpec>)
    requires join.Join? && SingleRelation(join.left) && SingleRelation(join.right)
  {
    && c.Serves(join.left) && c.Serves(join.right) && c.Catalogued(join.left) && c.Catalogued(join.right)
    && ShuffleKeys(c, join).Some?
    && (join.algorithm != P.HashJoin || SkipsMerge(c, join, spec) ==>
          OwnSides(join.condition, c.CatalogSchema(join.left), c.CatalogSchema(join.right)))
    && (join.algorithm != P.HashJoin ==>
          EqualKeysOneText(PlanRows(join.left, c.full), PlanRows(join.right, c.full), ShuffleKeys(c, join).value.0,
                           ShuffleKeys(c, join).value.1))
  }

  // What each worker joins after the shuffle.
  ghost function ShuffleParts(c: Cluster, join: P.PhysicalPlan): seq<seq<Row>>
    requires join.Join? && SingleRelation(join.left) && SingleRelation(join.right) && ShuffleKeys(c, join).Some?
      && c.workers > 0
  {
    var keep :=
      JoinKeeps(join.algorithm, join.condition, PlanSchema(join.left, c.full), PlanSchema(join.right, c.full));
    var at := ShuffleKeys(c, join).value;
    JoinParts(ByTarget(KeyTarget(c, at.0), c.workers, Concat(Sent(c, Relation(join.left), NoExternal(c)))),
              ByTarget(KeyTarget(c, at.1), c.workers, Concat(Sent(c, Relation(join.right), NoExternal(c)))), keep)
  }

  // Grouping by a shuffle key skips the merge; then no key text may hold the
  // separator.
  ghost predicate ShuffleServes(c: Cluster, join: P.PhysicalPlan, spec: Option<AggregateSpec>)
    requires join.Join? && SingleRelation(join.left) && SingleRelation(join.right)
  {
    && c.workers > 0 && Shuffles(c, join, spec)
    && if SkipsMerge(c, join, spec) then
         var gr := GroupBy(spec.value.group_by, PlanSchema(join, c.full));
         && Determined(gr, spec.value.aggregates, PlanRows(join, c.full))
         && forall r :: r in PlanRows(join, c.full) ==> PlainKeys(gr.Key(r))
       else Spread(spec, PlanSchema(join, c.full), PlanRows(join, c.full), ShuffleParts(c, join), false)
  }

  const BROADCAST_ELIGIBLE := 5000

  // What distribution needs of the data and the plan, whatever the strategy.
  ghost predicate Distributes(c: Cluster, core: P.PhysicalPlan, spec: Option<AggregateSpec>)
  {
    && c.workers > 0
    && (SingleRelation(core) ==> SingleServes(c, core, spec))
    && (core.Join? && SingleRelation(core.left) && SingleRelation(core.right) ==>
          ShuffleServes(c, core, spec) && BroadcastServes(c, core, true, spec) && BroadcastServes(c, core, false, spec))
  }

  lemma ShufflesServe(c: Cluster, join: P.PhysicalPlan, spec: Option<AggregateSpec>)
    requires join.Join? && SingleRelation(join.left) && SingleRelation(join.right) && Shuffles(c, join, spec)
    ensures c.Serves(join.left) && c.Serves(join.right)
  {
  }

  lemma ShufflesHaveKeys(c: Cluster, join: P.PhysicalPlan, spec: Option<AggregateSpec>)
    requires join.Join? && SingleRelation(join.left) && SingleRelation(join.right) && Shuffles(c, join, spec)
    ensures ShuffleKeys(c, join).Some?
  {
  }

  // Qualified keys of differently named relations are on their own sides.
  lemma DistinctQualifiers(e: Expr, left: Schema, right: Schema, l: string, r: string, lc: seq<string>, rc: seq<string>)
    requires left == Qualify(l, lc) && right == Qualify(r, rc) && l != r && HashKeys(e, left, right).Some?
    requires e.left.table.Some? && e.right.table.Some?
    ensures OwnSides(e, left, right)
  {
    hide ResolveQualified;
    NF.ResolveInLeaf(l, lc, e.left.table.value, e.left.column);
    NF.ResolveInLeaf(l, lc, e.right.table.value, e.right.column);
    NF.ResolveInLeaf(r, rc, e.left.table.value, e.left.column);
    NF.ResolveInLeaf(r, rc, e.right.table.value, e.right.column);
    NF.ResolveAppend(left, right, e.left.table.value, e.left.column);
    NF.ResolveAppend(left, right, e.right.table.value, e.right.column);
  }

  // So an equality of qualified columns of two differently named relations
  // shuffles whenever equal keys have one text.
  lemma QualifiedKeysShuffle(c: Cluster, join: P.PhysicalPlan, spec: Option<AggregateSpec>)
    requires join.Join? && SingleRelation(join.left) && SingleRelation(join.right)
    requires c.Serves(join.left) && c.Serves(join.right) && c.Catalogued(join.left) && c.Catalogued(join.right)
    requires ShuffleKeys(c, join).Some? && join.condition.left.table.Some? && join.condition.right.table.Some?
    requires QualifierOf(join.left) != QualifierOf(join.right)
    requires EqualKeysOneText(PlanRows(join.left, c.full), PlanRows(join.right, c.full), ShuffleKeys(c, join).value.0,
                              ShuffleKeys(c, join).value.1)
    ensures Shuffles(c, join, spec)
  {
    hide OwnSides, EqualKeysOneText, HashKeys, PlanRows;
    DistinctQualifiers(join.condition, c.CatalogSchema(join.left), c.CatalogSchema(join.right), QualifierOf(join.left),
                       QualifierOf(join.right), c.catalog[TableName(join.left)], c.catalog[TableName(join.right)]);
  }

  // A pair of rows a join keeps has keys of one text.
  lemma KeptKeys(algorithm: P.JoinAlgorithm, e: Expr, left: Schema, right: Schema, a: Row, b: Row)
    requires HashKeys(e, left, right).Some? && |a| == |left| && |b| == |right|
    requires JoinKeeps(algorithm, e, left, right)(a + b)
    requires algorithm != P.HashJoin ==>
      var at := HashKeys(e, left, right).value;
      OwnSides(e, left, right)
        && (LiteralEqual(Cell(a, at.0), Cell(b, at.1)) ==> LiteralText(Cell(a, at.0)) == LiteralText(Cell(b, at.1)))
    ensures LiteralText(Cell(a, HashKeys(e, left, right).value.0))
      == LiteralText(Cell(b, HashKeys(e, left, right).value.1))
  {
    hide LiteralText, LiteralEqual, ResolveQualified, ResolveUnique;
    var at := HashKeys(e, left, right).value;
    assert (a + b)[at.0] == a[at.0] && (a + b)[|left| + at.1] == b[at.1];
    if algorithm != P.HashJoin {
      KeysEvaluate(e, left, right, a, b);
      EqualitySymmetric(a[at.0], b[at.1]);
    }
  }

  // The two sides of the condition are the two keys.
  lemma KeysEvaluate(e: Expr, left: Schema, right: Schema, a: Row, b: Row)
    requires HashKeys(e, left, right).Some? && |a| == |left| && |b| == |right| && OwnSides(e, left, right)
    ensures var at, look := HashKeys(e, left, right).value, FlatLook(left + right, a + b);
      var x, y := Evaluate(e.left, look), Evaluate(e.right, look);
      (x == Some(a[at.0]) && y == Some(b[at.1])) || (x == Some(b[at.1]) && y == Some(a[at.0]))
  {
    hide LiteralText, LiteralEqual, ResolveQualified, ResolveUnique;
    var at, look := HashKeys(e, left, right).value, FlatLook(left + right, a + b);
    assert (a + b)[at.0] == a[at.0] && (a + b)[|left| + at.1] == b[at.1];
    assert Evaluate(e.left, look) == look(e.left.table, e.left.column)
      && Evaluate(e.right, look) == look(e.right.table, e.right.column);
  }

  // An equality of two columns never throws.
  lemma ShuffledJoinRuns(algorithm: P.JoinAlgorithm, e: Expr, left: Schema, right: Schema, L: seq<Row>, R: seq<Row>)
    requires HashKeys(e, left, right).Some? && Wide(L, |left|) && Wide(R, |right|)
      && (algorithm != P.HashJoin ==> OwnSides(e, left, right))
    ensures PairsRun(algorithm, e, left, right, L, R)
  {
    hide HashKeys, OwnSides, FlatLook, LiteralEqual;
    if algorithm != P.HashJoin {
      forall l, r | l in L && r in R ensures GivesBoolean(e, FlatLook(left + right, l + r)) {
        KeysEvaluate(e, left, right, l, r);
        KeysAreEquality(e, left, right);
      }
    }
  }

  lemma KeysAreEquality(e: Expr, left: Schema, right: Schema)
    requires HashKeys(e, left, right).Some?
    ensures e.BinaryOp? && e.binary_op == Eq
  {
  }

  // Matching rows are sent to the same worker.
  lemma KeysMeet(c: Cluster, join: P.PhysicalPlan, spec: Option<AggregateSpec>, l: seq<Row>, r: seq<Row>)
    requires WellFormed(c.full) && join.Join? && SingleRelation(join.left) && SingleRelation(join.right)
      && Shuffles(c, join, spec)
    requires multiset(l) == multiset(PlanRows(join.left, c.full))
      && multiset(r) == multiset(PlanRows(join.right, c.full))
    ensures var keys := ShuffleKeys(c, join).value;
      Meet(l, r,
           JoinKeeps(join.algorithm, join.condition, PlanSchema(join.left, c.full), PlanSchema(join.right, c.full)),
           KeyTarget(c, keys.0), KeyTarget(c, keys.1))
  {
    hide PlanRows, JoinKeeps, WellFormed, LiteralText, LiteralEqual, Partitioned, OwnSides, HashKeys, Resolve;
    var left, right := PlanSchema(join.left, c.full), PlanSchema(join.right, c.full);
    CatalogIsStored(c, join.left);
    CatalogIsStored(c, join.right);
    PlanWidth(join.left, c.full);
    PlanWidth(join.right, c.full);
    SameElements(l, PlanRows(join.left, c.full));
    SameElements(r, PlanRows(join.right, c.full));
    forall a, b | a in l && b in r && JoinKeeps(join.algorithm, join.condition, left, right)(a + b)
      ensures KeyTarget(c, ShuffleKeys(c, join).value.0)(a) == KeyTarget(c, ShuffleKeys(c, join).value.1)(b)
    {
      KeptKeys(join.algorithm, join.condition, left, right, a, b);
    }
  }

  lemma CatalogIsStored(c: Cluster, p: P.PhysicalPlan)
    requires SingleRelation(p) && c.Catalogued(p)
    ensures c.CatalogSchema(p) == PlanSchema(p, c.full)
  {
    RelationRows(p, c.full);
  }

  lemma PlacedRow(c: Cluster, e: Expr, left: Schema, right: Schema, a: Row, b: Row, key: Expr, t: nat)
    requires HashKeys(e, left, right).Some? && OwnSides(e, left, right) && |a| == |left| && |b| == |right|
      && c.workers > 0
    requires key == KeyExprs(e, left, right).0 || key == KeyExprs(e, left, right).1
    requires KeyTarget(c, HashKeys(e, left, right).value.0)(a) == t == KeyTarget(c, HashKeys(e, left, right).value.1)(b)
    ensures c.hash(LiteralText(ValueOf(key, left + right, a + b))) % c.workers == t
  {
    hide LiteralText, ResolveQualified, ResolveUnique;
    var at := HashKeys(e, left, right).value;
    assert (a + b)[at.0] == a[at.0] && (a + b)[|left| + at.1] == b[at.1];
    var look := FlatLook(left + right, a + b);
    assert Evaluate(key, look) == look(key.table, key.column);
  }

  // The rows at a worker are there by the text of either key.
  lemma PlacedByKey(c: Cluster, algorithm: P.JoinAlgorithm, e: Expr, left: Schema, right: Schema, l: seq<Row>,
                    r: seq<Row>, key: Expr)
    requires HashKeys(e, left, right).Some? && OwnSides(e, left, right) && Wide(l, |left|) && c.workers > 0
    requires key == KeyExprs(e, left, right).0 || key == KeyExprs(e, left, right).1
    requires Wide(r, |right|)
    ensures var at := HashKeys(e, left, right).value;
      PlacedBy(JoinParts(ByTarget(KeyTarget(c, at.0), c.workers, l), ByTarget(KeyTarget(c, at.1), c.workers, r),
                         JoinKeeps(algorithm, e, left, right)),
               text => c.hash(text) % c.workers, key, left + right)
  {
    hide LiteralText, JoinKeeps, JoinRows, HashKeys, OwnSides, KeyTarget, ValueOf, KeyExprs;
    var at := HashKeys(e, left, right).value;
    var keep := JoinKeeps(algorithm, e, left, right);
    var lp, rp := ByTarget(KeyTarget(c, at.0), c.workers, l), ByTarget(KeyTarget(c, at.1), c.workers, r);
    var home := text => c.hash(text) % c.workers;
    forall t, x | 0 <= t < c.workers && x in JoinParts(lp, rp, keep)[t]
      ensures home(LiteralText(ValueOf(key, left + right, x))) == t
    {
      JoinMembers(lp[t], rp[t], keep);
      var a, b :| a in lp[t] && b in rp[t] && x == a + b;
      FilterMembers(At(KeyTarget(c, at.0), t), l);
      FilterMembers(At(KeyTarget(c, at.1), t), r);
      PlacedRow(c, e, left, right, a, b, key, t);
    }
  }

  // The state after the first phase.
  ghost predicate Scattered(c: Cluster, join: P.PhysicalPlan, ls: seq<seq<Row>>, rs: seq<seq<Row>>,
                            left_columns: seq<string>, right_columns: seq<string>, exts: seq<ExternalRowSets>)
    requires join.Join? && SingleRelation(join.left) && SingleRelation(join.right) && ShuffleKeys(c, join).Some?
      && c.workers > 0
  {
    && ls == ByTarget(KeyTarget(c, ShuffleKeys(c, join).value.0), c.workers,
                      Concat(Sent(c, Relation(join.left), NoExternal(c))))
    && rs == ByTarget(KeyTarget(c, ShuffleKeys(c, join).value.1), c.workers,
                      Concat(Sent(c, Relation(join.right), NoExternal(c))))
    && left_columns == Names(WorkerSchema(Relation(join.left), c.Part(c.workers - 1)))
    && right_columns == Names(WorkerSchema(Relation(join.right), c.Part(c.workers - 1)))
    && |exts| == c.workers && |ls| == c.workers && |rs| == c.workers
    && forall t :: 0 <= t < c.workers ==> exts[t] == map[0 := ls[t], 1 := rs[t]]
  }

  // What each worker joins in the second phase.
  lemma ShuffledJoin(c: Cluster, join: P.PhysicalPlan, ls: seq<seq<Row>>, rs: seq<seq<Row>>,
                     left_columns: seq<string>, right_columns: seq<string>, exts: seq<ExternalRowSets>)
    requires join.Join? && SingleRelation(join.left) && SingleRelation(join.right) && ShuffleKeys(c, join).Some?
      && c.workers > 0
    requires Scattered(c, join, ls, rs, left_columns, right_columns, exts) && c.Serves(join.left)
      && c.Serves(join.right)
    ensures var plan :=
      Joined(join.algorithm, join.condition, ExternalRows(left_columns, 0), ExternalRows(right_columns, 1));
      var left, right := PlanSchema(join.left, c.full), PlanSchema(join.right, c.full);
      && (forall w :: 0 <= w < c.workers ==> WorkerSchema(plan, c.Part(w)) == PlanSchema(join, c.full))
      && Sent(c, plan, exts) == ShuffleParts(c, join)
      && (SentRuns(c, plan, exts)
          <==> forall w :: 0 <= w < c.workers ==> PairsRun(join.algorithm, join.condition, left, right, ls[w], rs[w]))
  {
    hide PlanRows, Names, Partitioned, JoinKeeps, JoinRows, Concat, ByTarget, KeyTarget, ShuffleKeys, PairsRun,
         SentRuns, WorkerRows, WorkerSchema, Sent;
    var plan := Joined(join.algorithm, join.condition, ExternalRows(left_columns, 0), ExternalRows(right_columns, 1));
    var left, right := PlanSchema(join.left, c.full), PlanSchema(join.right, c.full);
    ShippedInput(c, join.left, left_columns, 0, ls, exts);
    ShippedInput(c, join.right, right_columns, 1, rs, exts);
    JoinedSent(c, plan, exts, left, right, ls, rs);
    JoinedRuns(c, plan, exts, left, right, ls, rs);
  }

  // Rows shipped to each worker under a relation's columns.
  lemma ShippedInput(c: Cluster, p: P.PhysicalPlan, columns: seq<string>, slot: nat, parts: seq<seq<Row>>,
                     exts: seq<ExternalRowSets>)
    requires SingleRelation(p) && c.workers > 0 && c.Serves(p) && |exts| == c.workers == |parts|
    requires forall w :: 0 <= w < |exts| ==> slot in exts[w] && exts[w][slot] == parts[w]
    requires columns == Names(WorkerSchema(Relation(p), c.Part(c.workers - 1)))
    ensures forall w :: 0 <= w < |exts| ==>
      WorkerSchema(ExternalRows(columns, slot), c.Part(w)) == PlanSchema(p, c.full)
      && WorkerRows(ExternalRows(columns, slot), c.Part(w), exts[w]) == parts[w]
    ensures SentRuns(c, ExternalRows(columns, slot), exts)
  {
    hide PlanRows, PlanSchema, PlanRuns, Parsed, Names, Partitioned, PlainNames;
    RelationNames(c, p);
  }

  lemma TargetsWide(target: Row -> nat, n: nat, rows: seq<Row>, width: nat)
    requires Wide(rows, width)
    ensures |ByTarget(target, n, rows)| == n && forall t :: 0 <= t < n ==> Wide(ByTarget(target, n, rows)[t], width)
  {
    ByTargetWide(target, n, rows, width);
  }

  lemma ShuffleGathers(c: Cluster, join: P.PhysicalPlan, spec: Option<AggregateSpec>, ls: seq<seq<Row>>,
                       rs: seq<seq<Row>>, left_columns: seq<string>, right_columns: seq<string>,
                       exts: seq<ExternalRowSets>)
    requires WellFormed(c.full) && join.Join? && SingleRelation(join.left) && SingleRelation(join.right)
    requires ShuffleServes(c, join, spec) && Scattered(c, join, ls, rs, left_columns, right_columns, exts)
    requires PlanRuns(join.left, c.full) && PlanRuns(join.right, c.full)
    ensures var plan :=
      Joined(join.algorithm, join.condition, ExternalRows(left_columns, 0), ExternalRows(right_columns, 1));
      && Gathered(c, plan, exts, PlanSchema(join, c.full), PlanRows(join, c.full), PlanRuns(join, c.full))
      && Spread(spec, PlanSchema(join, c.full), PlanRows(join, c.full), Sent(c, plan, exts), SkipsMerge(c, join, spec))
  {
    hide PlanRows, Partitioned, JoinKeeps, JoinRows, Concat, ByTarget, HashKeys, WorkerSchema, Sent, WellFormed,
         PlanRuns, PairsRun, SentRuns, OwnSides, KeyExprs, PlanSchema, Apart, JoinParts, Names, WorkerRows, Determined,
         AllLed, PlainKeys, EqualKeysOneText;
    var none := NoExternal(c);
    var l, r := Concat(Sent(c, Relation(join.left), none)), Concat(Sent(c, Relation(join.right), none));
    var left, right := PlanSchema(join.left, c.full), PlanSchema(join.right, c.full);
    var L, R := PlanRows(join.left, c.full), PlanRows(join.right, c.full);
    var keep, at := JoinKeeps(join.algorithm, join.condition, left, right), ShuffleKeys(c, join).value;
    ShuffledJoin(c, join, ls, rs, left_columns, right_columns, exts);
    RelationSent(c, join.left, none);
    RelationSent(c, join.right, none);
    PlanWidth(join.left, c.full);
    PlanWidth(join.right, c.full);
    SameElements(l, L);
    SameElements(r, R);
    KeysMeet(c, join, spec, l, r);
    ShuffleExact(l, r, keep, KeyTarget(c, at.0), KeyTarget(c, at.1), c.workers, |left|);
    JoinPermutes(l, r, L, R, keep, |left|);
    JoinKeepsPlan(join, c.full);
    CatalogIsStored(c, join.left);
    CatalogIsStored(c, join.right);
    TargetsWide(KeyTarget(c, at.0), c.workers, l, |left|);
    TargetsWide(KeyTarget(c, at.1), c.workers, r, |right|);
    PairsRunPlan(join, c.full);
    ShuffledJoinRuns(join.algorithm, join.condition, left, right, L, R);
    forall w | 0 <= w < c.workers ensures PairsRun(join.algorithm, join.condition, left, right, ls[w], rs[w]) {
      ShuffledJoinRuns(join.algorithm, join.condition, left, right, ls[w], rs[w]);
    }
    if SkipsMerge(c, join, spec) {
      ShuffleApart(c, join, spec.value, left, right, l, r, JoinParts(ls, rs, keep));
    }
  }

  lemma ShuffleApart(c: Cluster, join: P.PhysicalPlan, spec: AggregateSpec, left: Schema, right: Schema, l: seq<Row>,
                     r: seq<Row>, parts: seq<seq<Row>>)
    requires join.Join? && SingleRelation(join.left) && SingleRelation(join.right) && c.workers > 0
      && HashKeys(join.condition, left, right).Some?
    requires left == PlanSchema(join.left, c.full) && right == PlanSchema(join.right, c.full)
    requires Wide(l, |left|) && Wide(r, |right|) && OwnSides(join.condition, left, right)
    requires KeyExprs(join.condition, left, right).0 in spec.group_by
      || KeyExprs(join.condition, left, right).1 in spec.group_by
    requires var at := HashKeys(join.condition, left, right).value;
      parts == JoinParts(ByTarget(KeyTarget(c, at.0), c.workers, l), ByTarget(KeyTarget(c, at.1), c.workers, r),
                         JoinKeeps(join.algorithm, join.condition, left, right))
    requires multiset(Concat(parts)) == multiset(PlanRows(join, c.full))
    requires forall x :: x in PlanRows(join, c.full) ==>
      PlainKeys(GroupBy(spec.group_by, PlanSchema(join, c.full)).Key(x))
    ensures spec.group_by != [] && Apart(GroupBy(spec.group_by, PlanSchema(join, c.full)), parts)
  {
    hide PlanRows, JoinKeeps, JoinRows, Concat, ByTarget, HashKeys, OwnSides, KeyExprs, Apart, JoinParts, PlainKeys,
         PlacedBy;
    var gr := GroupBy(spec.group_by, PlanSchema(join, c.full));
    var key := if KeyExprs(join.condition, left, right).0 in spec.group_by then KeyExprs(join.condition, left, right).0
               else KeyExprs(join.condition, left, right).1;
    PlacedByKey(c, join.algorithm, join.condition, left, right, l, r, key);
    SameElements(Concat(parts), PlanRows(join, c.full));
    ConcatMembers(parts);
    forall t, x | 0 <= t < |parts| && x in parts[t] ensures PlainKeys(gr.Key(x)) {
      assert x in Concat(parts);
    }
    GroupedByHome(gr, parts, text => c.hash(text) % c.workers, key);
  }
}
