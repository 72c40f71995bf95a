// Plans as workers run them: a base relation, rows shipped by the
// coordinator, a join of two of these, an aggregate on top
// (execution/executor_builder.cpp, distributed/worker_service.cpp).
module WorkerPlans {
  import opened Wrappers
  import opened Ast
  import opened Values
  import opened Evaluation
  import opened Bags
  import opened Relational
  import opened Execution
  import opened Aggregation
  import opened Partition
  import Grouping
  import P = Plans

  datatype WorkerPlan =
    | Relation(plan: P.PhysicalPlan)
    | ExternalRows(columns: seq<string>, slot: nat)
    | Joined(algorithm: P.JoinAlgorithm, condition: Expr, left: WorkerPlan, right: WorkerPlan)
    | Aggregated(group_by: seq<Expr>, aggregates: seq<Agg>, input: WorkerPlan)

  type ExternalRowSets = map<nat, seq<Row>>

  // ---- Column names on the wire ----

  function QualifiedName(e: Entry): string
  {
    if e.table.Some? then e.table.value + "." + e.column else e.column
  }

  // std::string::rfind('.')
  function LastDot(s: string): (i: Option<nat>)
    ensures i.Some? ==> i.value < |s|
  {
    if s == [] then None
    else if s[|s| - 1] == '.' then Some(|s| - 1)
    else LastDot(s[..|s| - 1])
  }

  function ParseName(s: string): Entry
  {
    var dot := LastDot(s);
    if dot.None? then Entry(None, s) else Entry(Some(s[..dot.value]), s[dot.value + 1..])
  }

  lemma {:induction false} LastDotBefore(prefix: string, column: string)
    requires '.' !in column
    ensures LastDot(prefix + "." + column) == Some(|prefix|)
  {
    var s := prefix + "." + column;
    if column == [] {
      assert s[|s| - 1] == '.';
    } else {
      assert s[..|s| - 1] == prefix + "." + column[..|column| - 1];
      assert s[|s| - 1] == column[|column| - 1];
      LastDotBefore(prefix, column[..|column| - 1]);
    }
  }

  lemma {:induction false} NothingAfterLastDot(s: string)
    ensures LastDot(s).Some? ==> '.' !in s[LastDot(s).value + 1..]
    ensures LastDot(s).None? ==> '.' !in s
  {
    if s != [] && s[|s| - 1] != '.' {
      var front := s[..|s| - 1];
      NothingAfterLastDot(front);
      assert s == front + [s[|s| - 1]];
      if LastDot(s).Some? {
        assert s[LastDot(s).value + 1..] == front[LastDot(s).value + 1..] + [s[|s| - 1]];
      }
    }
  }

  // A qualified column survives the wire exactly when its own name has no dot.
  lemma NameRoundTrip(e: Entry)
    requires e.table.Some?
    ensures ParseName(QualifiedName(e)) == e <==> '.' !in e.column
  {
    var s := e.table.value + "." + e.column;
    if '.' !in e.column {
      LastDotBefore(e.table.value, e.column);
      assert s[..|e.table.value|] == e.table.value && s[|e.table.value| + 1..] == e.column;
    } else {
      NothingAfterLastDot(s);
    }
  }

  // A column without a qualifier survives exactly when it has no dot either.
  lemma BareNameRoundTrip(e: Entry)
    requires e.table.None?
    ensures ParseName(QualifiedName(e)) == e <==> '.' !in e.column
  {
    NothingAfterLastDot(e.column);
    if LastDot(e.column).Some? {
      LastDotIsDot(e.column);
    }
  }

  lemma {:induction false} LastDotIsDot(s: string)
    requires LastDot(s).Some?
    ensures s[LastDot(s).value] == '.'
  {
    if s[|s| - 1] != '.' {
      LastDotIsDot(s[..|s| - 1]);
    }
  }

  function Names(schema: Schema): seq<string>
  {
    seq(|schema|, i requires 0 <= i < |schema| => QualifiedName(schema[i]))
  }

  function Parsed(names: seq<string>): Schema
  {
    seq(|names|, i requires 0 <= i < |names| => ParseName(names[i]))
  }

  predicate PlainNames(columns: seq<string>)
  {
    forall c :: c in columns ==> '.' !in c
  }

  lemma SchemaRoundTrip(qualifier: string, columns: seq<string>)
    requires PlainNames(columns)
    ensures Parsed(Names(Qualify(qualifier, columns))) == Qualify(qualifier, columns)
  {
    hide ParseName, QualifiedName;
    var schema := Qualify(qualifier, columns);
    forall i | 0 <= i < |schema| ensures ParseName(QualifiedName(schema[i])) == schema[i] {
      assert columns[i] in columns;
      NameRoundTrip(schema[i]);
    }
  }

  // ---- Running ----

  // The names of aggregate columns are not modelled.
  function WorkerSchema(p: WorkerPlan, db: Database): Schema
  {
    match p
    case Relation(plan) => PlanSchema(plan, db)
    case ExternalRows(columns, _) => Parsed(columns)
    case Joined(_, _, left, right) => WorkerSchema(left, db) + WorkerSchema(right, db)
    case Aggregated(_, _, _) => []
  }

  // The pairs of rows a join keeps.
  function JoinKeeps(algorithm: P.JoinAlgorithm, e: Expr, left: Schema, right: Schema): Row -> bool
  {
    if algorithm != P.HashJoin then Keeps(e, left + right)
    else
      var keys := HashKeys(e, left, right);
      if keys.None? then (row: Row) => false else SameText(keys.value.0, |left| + keys.value.1)
  }

  function WorkerRows(p: WorkerPlan, db: Database, ext: ExternalRowSets): seq<Row>
  {
    match p
    case Relation(plan) => PlanRows(plan, db)
    case ExternalRows(_, slot) => if slot in ext then ext[slot] else []
    case Joined(algorithm, e, left, right) =>
      JoinRows(WorkerRows(left, db, ext), WorkerRows(right, db, ext),
               JoinKeeps(algorithm, e, WorkerSchema(left, db), WorkerSchema(right, db)))
    case Aggregated(group_by, aggregates, input) =>
      HashAggregate(GroupBy(group_by, WorkerSchema(input, db)), aggregates, WorkerRows(input, db, ext))
  }

  // Building and draining the worker's executors does not throw.
  predicate WorkerRuns(p: WorkerPlan, db: Database, ext: ExternalRowSets)
  {
    match p
    case Relation(plan) => PlanRuns(plan, db)
    case ExternalRows(_, slot) => slot in ext
    case Joined(algorithm, e, left, right) =>
      && WorkerRuns(left, db, ext) && WorkerRuns(right, db, ext)
      && PairsRun(algorithm, e, WorkerSchema(left, db), WorkerSchema(right, db), WorkerRows(left, db, ext),
                  WorkerRows(right, db, ext))
    case Aggregated(group_by, aggregates, input) =>
      && WorkerRuns(input, db, ext)
      && Aggregable(GroupBy(group_by, WorkerSchema(input, db)), aggregates, WorkerRows(input, db, ext))
  }

  // A hash join refuses its condition when it is built; a nested loop throws
  // on the first pair that gives no boolean.
  predicate PairsRun(algorithm: P.JoinAlgorithm, e: Expr, left: Schema, right: Schema, L: seq<Row>, R: seq<Row>)
  {
    if algorithm == P.HashJoin then HashKeys(e, left, right).Some?
    else forall l, r :: l in L && r in R ==> GivesBoolean(e, FlatLook(left + right, l + r))
  }

  lemma PairsRunPlan(p: P.PhysicalPlan, db: Database)
    requires p.Join?
    ensures PlanRuns(p, db)
       <==> PlanRuns(p.left, db) && PlanRuns(p.right, db)
            && PairsRun(p.algorithm, p.condition, PlanSchema(p.left, db), PlanSchema(p.right, db), PlanRows(p.left, db),
                        PlanRows(p.right, db))
  {
    hide GivesBoolean, FlatLook, HashKeys;
  }

  // The join a worker runs is the join of the plan.
  lemma JoinKeepsPlan(p: P.PhysicalPlan, db: Database)
    requires p.Join?
    ensures PlanRows(p, db)
         == JoinRows(PlanRows(p.left, db), PlanRows(p.right, db),
                     JoinKeeps(p.algorithm, p.condition, PlanSchema(p.left, db), PlanSchema(p.right, db)))
  {
    if p.algorithm == P.HashJoin && HashKeys(p.condition, PlanSchema(p.left, db), PlanSchema(p.right, db)).None? {
      NothingKept(PlanRows(p.left, db), PlanRows(p.right, db));
    }
  }

  lemma {:induction false} NothingKept(left: seq<Row>, right: seq<Row>)
    ensures JoinRows(left, right, (row: Row) => false) == []
  {
    var none := (row: Row) => false;
    if left != [] {
      NonePass(none, Prefixed(left[0], right));
      NothingKept(left[1..], right);
    }
  }

  // ---- Single relations ----

  predicate SingleRelation(p: P.PhysicalPlan)
  {
    match p
    case SeqScan(_, _, _, _) => true
    case IndexScan(_, _, _, _, _, _) => true
    case Filter(_, input, _, _) => SingleRelation(input)
    case Join(_, _, _, _, _, _) => false
  }

  // unwrap_filter
  function Unfiltered(p: P.PhysicalPlan): (q: P.PhysicalPlan)
    ensures !q.Filter?
    ensures SingleRelation(p) ==> q.SeqScan? || q.IndexScan?
  {
    if p.Filter? then Unfiltered(p.input) else p
  }

  function TableName(p: P.PhysicalPlan): string
    requires SingleRelation(p)
  {
    Unfiltered(p).table_name
  }

  function QualifierOf(p: P.PhysicalPlan): string
    requires SingleRelation(p)
  {
    Name(Unfiltered(p).table_name, Unfiltered(p).alias)
  }

  function RelationKeeps(p: P.PhysicalPlan, schema: Schema): Row -> bool
    requires SingleRelation(p)
  {
    match p
    case SeqScan(_, _, _, _) => (row: Row) => true
    case IndexScan(_, _, column, probe, _, _) => Matches(Resolve(schema, None, column), probe)
    case Filter(e, input, _, _) => (row: Row) => RelationKeeps(input, schema)(row) && Keeps(e, schema)(row)
  }

  // A single relation is its table filtered row by row.
  lemma {:induction false} RelationRows(p: P.PhysicalPlan, db: Database)
    requires SingleRelation(p)
    ensures PlanSchema(p, db) == Qualify(QualifierOf(p), TableOf(db, TableName(p)).columns)
    ensures PlanRows(p, db) == Bags.Filter(RelationKeeps(p, PlanSchema(p, db)), TableOf(db, TableName(p)).rows)
  {
    match p
    case SeqScan(table, alias, _, _) => AllPass(RelationKeeps(p, PlanSchema(p, db)), TableOf(db, table).rows);
    case IndexScan(_, _, _, _, _, _) =>
    case Filter(e, input, _, _) =>
      RelationRows(input, db);
      FilterTwice(RelationKeeps(input, PlanSchema(p, db)), Keeps(e, PlanSchema(p, db)),
                  RelationKeeps(p, PlanSchema(p, db)), TableOf(db, TableName(p)).rows);
  }

  // The index column of the scan resolves.
  predicate RelationResolves(p: P.PhysicalPlan, schema: Schema)
    requires SingleRelation(p)
  {
    match p
    case SeqScan(_, _, _, _) => true
    case IndexScan(_, _, column, _, _, _) => Resolve(schema, None, column).Some?
    case Filter(_, input, _, _) => RelationResolves(input, schema)
  }

  // No filter throws on the row, as far as the row gets.
  predicate RelationRowRuns(p: P.PhysicalPlan, schema: Schema, row: Row)
    requires SingleRelation(p)
  {
    p.Filter? ==>
      && RelationRowRuns(p.input, schema, row)
      && (RelationKeeps(p.input, schema)(row) ==> GivesBoolean(p.pred, FlatLook(schema, row)))
  }

  // A single relation throws or not row by row.
  lemma {:induction false} RelationRuns(p: P.PhysicalPlan, db: Database)
    requires SingleRelation(p)
    ensures PlanRuns(p, db)
       <==> TableName(p) in db && RelationResolves(p, PlanSchema(p, db))
            && forall r :: r in TableOf(db, TableName(p)).rows ==> RelationRowRuns(p, PlanSchema(p, db), r)
  {
    hide Resolve, GivesBoolean, FlatLook;
    if p.Filter? {
      RelationRuns(p.input, db);
      RelationRows(p.input, db);
      var schema, rows := PlanSchema(p, db), TableOf(db, TableName(p)).rows;
      FilterMembers(RelationKeeps(p.input, schema), rows);
      assert forall r :: r in PlanRows(p.input, db) <==> r in rows && RelationKeeps(p.input, schema)(r);
    }
  }

  // Workers that together own every row throw exactly when one node does.
  lemma RelationRunsOnParts(p: P.PhysicalPlan, full: Database, names: seq<string>, n: nat)
    requires SingleRelation(p) && TableName(p) in full && TableName(p) in names && n > 0
      && Partitioned(full[TableName(p)], n)
    ensures (forall w :: 0 <= w < n ==> PlanRuns(p, PartOf(full, names, w, n))) <==> PlanRuns(p, full)
  {
    hide PlanRuns, PlanSchema, RelationRowRuns, RelationResolves, OwnedRows, Partitioned;
    var t, schema := full[TableName(p)], PlanSchema(p, full);
    RelationRuns(p, full);
    OwnedTogether(t, n);
    forall w | 0 <= w < n
      ensures PlanRuns(p, PartOf(full, names, w, n))
         <==> RelationResolves(p, schema) && forall r :: r in OwnedRows(t, w, n) ==> RelationRowRuns(p, schema, r)
    {
      RelationRuns(p, PartOf(full, names, w, n));
      RelationOnPart(p, full, names, w, n);
    }
    if forall w :: 0 <= w < n ==> PlanRuns(p, PartOf(full, names, w, n)) {
      assert PlanRuns(p, PartOf(full, names, 0, n));
      forall r | r in t.rows ensures RelationRowRuns(p, schema, r) {
        var w :| 0 <= w < n && r in OwnedRows(t, w, n);
        assert PlanRuns(p, PartOf(full, names, w, n));
      }
    }
    if PlanRuns(p, full) {
      forall w | 0 <= w < n ensures PlanRuns(p, PartOf(full, names, w, n)) {
        forall r | r in OwnedRows(t, w, n) ensures RelationRowRuns(p, schema, r) { assert r in t.rows; }
      }
    }
  }

  lemma OwnedTogether(t: Table, n: nat)
    requires n > 0 && Partitioned(t, n)
    ensures forall r :: r in t.rows <==> exists w :: 0 <= w < n && r in OwnedRows(t, w, n)
  {
    hide OwnedRows, Partitioned;
    var all := (row: Row) => true;
    var parts := KeptParts(t, all, n, n);
    PartsTogether(t, all, n);
    AllPass(all, t.rows);
    forall w | 0 <= w < n ensures parts[w] == OwnedRows(t, w, n) { AllPass(all, OwnedRows(t, w, n)); }
    ConcatMembers(parts);
    SameElements(Concat(parts), t.rows);
    forall r ensures r in t.rows <==> exists w :: 0 <= w < n && r in OwnedRows(t, w, n) {
      if w :| 0 <= w < n && r in OwnedRows(t, w, n) {
        assert r in parts[w];
      }
      if r in t.rows {
        assert r in Concat(parts);
        var w :| 0 <= w < |parts| && r in parts[w];
        assert r in OwnedRows(t, w, n);
      }
    }
  }

  // What a worker makes of a relation it owns part of.
  lemma RelationOnPart(p: P.PhysicalPlan, full: Database, names: seq<string>, w: nat, n: nat)
    requires SingleRelation(p) && TableName(p) in full && TableName(p) in names
    ensures PlanSchema(p, PartOf(full, names, w, n)) == PlanSchema(p, full)
    ensures PlanRows(p, PartOf(full, names, w, n))
         == Bags.Filter(RelationKeeps(p, PlanSchema(p, full)), OwnedRows(full[TableName(p)], w, n))
  {
    hide PlanRows, PlanSchema, RelationKeeps, OwnedRows, Bags.Filter;
    RelationRows(p, full);
    RelationRows(p, PartOf(full, names, w, n));
  }
}
