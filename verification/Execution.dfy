// Running physical plans (execution/executor_builder.cpp over the executors of
// execution/operators.cpp, drained).
module Execution {
  import opened Wrappers
  import opened Ast
  import opened Values
  import opened Evaluation
  import opened Bags
  import opened Relational
  import opened NormalForm
  import P = Plans

  function PlanSchema(p: P.PhysicalPlan, db: Database): Schema
  {
    match p
    case SeqScan(table, alias, _, _) => Qualify(Name(table, alias), TableOf(db, table).columns)
    case IndexScan(table, alias, _, _, _, _) => Qualify(Name(table, alias), TableOf(db, table).columns)
    case Filter(_, input, _, _) => PlanSchema(input, db)
    case Join(_, _, left, right, _, _) => PlanSchema(left, db) + PlanSchema(right, db)
  }

  // The constructor of HashJoinExec: which side each key column resolves on.
  // None when it refuses the condition.
  function HashKeys(e: Expr, left: Schema, right: Schema): Option<(nat, nat)>
  {
    if !e.BinaryOp? || e.binary_op != Eq || !e.left.Column? || !e.right.Column? then None
    else
      var al, ar := Resolve(left, e.left.table, e.left.column), Resolve(right, e.left.table, e.left.column);
      var bl, br := Resolve(left, e.right.table, e.right.column), Resolve(right, e.right.table, e.right.column);
      if al.Some? && br.Some? then Some((al.value, br.value))
      else if ar.Some? && bl.Some? then Some((bl.value, ar.value))
      else None
  }

  // Rows joined by the text of their keys; i and j are positions in the row
  // of the join.
  function SameText(i: nat, j: nat): Row -> bool
  {
    row => i < |row| && j < |row| && LiteralText(row[i]) == LiteralText(row[j])
  }

  function HashRows(e: Expr, left: Schema, right: Schema, L: seq<Row>, R: seq<Row>): seq<Row>
  {
    var keys := HashKeys(e, left, right);
    if keys.None? then [] else JoinRows(L, R, SameText(keys.value.0, |left| + keys.value.1))
  }

  function Matches(column: Option<nat>, probe: Literal): Row -> bool
  {
    row => column.Some? && column.value < |row| && LiteralEqual(row[column.value], probe)
  }

  function PlanRows(p: P.PhysicalPlan, db: Database): seq<Row>
  {
    match p
    case SeqScan(table, _, _, _) => TableOf(db, table).rows
    case IndexScan(table, _, column, probe, _, _) =>
      Filter(Matches(Resolve(PlanSchema(p, db), None, column), probe), TableOf(db, table).rows)
    case Filter(e, input, _, _) => Filter(Keeps(e, PlanSchema(input, db)), PlanRows(input, db))
    case Join(algorithm, e, left, right, _, _) =>
      if algorithm == P.HashJoin then
        HashRows(e, PlanSchema(left, db), PlanSchema(right, db), PlanRows(left, db), PlanRows(right, db))
      else
        JoinRows(PlanRows(left, db), PlanRows(right, db), Keeps(e, PlanSchema(left, db) + PlanSchema(right, db)))
  }

  // The execution does not throw.
  predicate PlanRuns(p: P.PhysicalPlan, db: Database)
  {
    match p
    case SeqScan(table, _, _, _) => table in db
    case IndexScan(table, _, column, _, _, _) => table in db && Resolve(PlanSchema(p, db), None, column).Some?
    case Filter(e, input, _, _) =>
      && PlanRuns(input, db)
      && forall r :: r in PlanRows(input, db) ==> GivesBoolean(e, FlatLook(PlanSchema(input, db), r))
    case Join(algorithm, e, left, right, _, _) =>
      && PlanRuns(left, db) && PlanRuns(right, db)
      && if algorithm == P.HashJoin then HashKeys(e, PlanSchema(left, db), PlanSchema(right, db)).Some?
         else forall l, r :: l in PlanRows(left, db) && r in PlanRows(right, db) ==>
                GivesBoolean(e, FlatLook(PlanSchema(left, db) + PlanSchema(right, db), l + r))
  }

  // What draining the plan may give: the order inside a bucket of a hash
  // join's multimap is not fixed, so neither is the order of its rows.
  ghost predicate Yields(p: P.PhysicalPlan, db: Database, out: seq<Row>)
  {
    match p
    case SeqScan(_, _, _, _) => out == PlanRows(p, db)
    case IndexScan(_, _, _, _, _, _) => out == PlanRows(p, db)
    case Filter(e, input, _, _) =>
      exists rows :: Yields(input, db, rows) && out == Filter(Keeps(e, PlanSchema(input, db)), rows)
    case Join(algorithm, e, left, right, _, _) =>
      exists L, R :: Yields(left, db, L) && Yields(right, db, R) && JoinYields(p, db, L, R, out)
  }

  ghost predicate JoinYields(p: P.PhysicalPlan, db: Database, L: seq<Row>, R: seq<Row>, out: seq<Row>)
    requires p.Join?
  {
    if p.algorithm == P.HashJoin then
      multiset(out) == multiset(HashRows(p.condition, PlanSchema(p.left, db), PlanSchema(p.right, db), L, R))
    else out == JoinRows(L, R, Keeps(p.condition, PlanSchema(p.left, db) + PlanSchema(p.right, db)))
  }

  lemma {:induction false} PlanWidth(p: P.PhysicalPlan, db: Database)
    requires WellFormed(db)
    ensures Wide(PlanRows(p, db), |PlanSchema(p, db)|)
  {
    match p
    case SeqScan(_, _, _, _) => StoredWidth(db, p.table_name);
    case IndexScan(table, _, column, probe, _, _) =>
      StoredWidth(db, table);
      FilterMembers(Matches(Resolve(PlanSchema(p, db), None, column), probe), TableOf(db, table).rows);
    case Filter(e, input, _, _) =>
      PlanWidth(input, db);
      FilterMembers(Keeps(e, PlanSchema(input, db)), PlanRows(input, db));
    case Join(algorithm, e, left, right, _, _) =>
      PlanWidth(left, db);
      PlanWidth(right, db);
      JoinWide(p, db);
  }

  lemma JoinWide(p: P.PhysicalPlan, db: Database)
    requires p.Join? && Wide(PlanRows(p.left, db), |PlanSchema(p.left, db)|)
      && Wide(PlanRows(p.right, db), |PlanSchema(p.right, db)|)
    ensures Wide(PlanRows(p, db), |PlanSchema(p, db)|)
  {
    hide Keeps, SameText, HashKeys, JoinRows;
    var left, right := PlanSchema(p.left, db), PlanSchema(p.right, db);
    var keys := HashKeys(p.condition, left, right);
    PairsWide(PlanRows(p.left, db), PlanRows(p.right, db), Keeps(p.condition, left + right), |left|, |right|);
    if keys.Some? {
      PairsWide(PlanRows(p.left, db), PlanRows(p.right, db), SameText(keys.value.0, |left| + keys.value.1), |left|,
                |right|);
    }
  }

  lemma PairsWide(L: seq<Row>, R: seq<Row>, keep: Row -> bool, a: nat, b: nat)
    requires Wide(L, a) && Wide(R, b)
    ensures Wide(JoinRows(L, R, keep), a + b)
  {
    hide JoinRows;
    JoinMembers(L, R, keep);
    forall x | x in JoinRows(L, R, keep) ensures |x| == a + b {
      var l, r :| l in L && r in R && x == l + r;
    }
  }

  lemma StoredWidth(db: Database, table: string)
    requires WellFormed(db)
    ensures Wide(TableOf(db, table).rows, |TableOf(db, table).columns|)
  {
    forall r | r in TableOf(db, table).rows ensures |r| == |TableOf(db, table).columns| {
      var k :| 0 <= k < |TableOf(db, table).rows| && TableOf(db, table).rows[k] == r;
    }
  }

  // The build order is one of the orders.
  lemma {:induction false} BuildOrderYielded(p: P.PhysicalPlan, db: Database)
    ensures Yields(p, db, PlanRows(p, db))
  {
    match p
    case SeqScan(_, _, _, _) =>
    case IndexScan(_, _, _, _, _, _) =>
    case Filter(_, input, _, _) => BuildOrderYielded(input, db);
    case Join(_, _, left, right, _, _) =>
      BuildOrderYielded(left, db);
      BuildOrderYielded(right, db);
      assert JoinYields(p, db, PlanRows(left, db), PlanRows(right, db), PlanRows(p, db));
  }

  // Whatever the order inside buckets, the bag of rows is the same.
  lemma {:induction false} YieldsBag(p: P.PhysicalPlan, db: Database, out: seq<Row>)
    requires WellFormed(db) && Yields(p, db, out)
    ensures multiset(out) == multiset(PlanRows(p, db))
  {
    match p
    case SeqScan(_, _, _, _) =>
    case IndexScan(_, _, _, _, _, _) =>
    case Filter(e, input, _, _) =>
      var rows :| Yields(input, db, rows) && out == Filter(Keeps(e, PlanSchema(input, db)), rows);
      YieldsBag(input, db, rows);
      FilterPermutes(Keeps(e, PlanSchema(input, db)), rows, PlanRows(input, db));
    case Join(algorithm, e, left, right, _, _) =>
      var L, R :| Yields(left, db, L) && Yields(right, db, R) && JoinYields(p, db, L, R, out);
      YieldsBag(left, db, L);
      YieldsBag(right, db, R);
      JoinBag(p, db, L, R, out);
  }

  lemma JoinBag(p: P.PhysicalPlan, db: Database, L: seq<Row>, R: seq<Row>, out: seq<Row>)
    requires p.Join? && WellFormed(db) && JoinYields(p, db, L, R, out)
    requires multiset(L) == multiset(PlanRows(p.left, db)) && multiset(R) == multiset(PlanRows(p.right, db))
    ensures multiset(out) == multiset(PlanRows(p, db))
  {
    hide Keeps, SameText, HashRows, JoinRows, WellFormed;
    var left, right := PlanSchema(p.left, db), PlanSchema(p.right, db);
    var l, r := PlanRows(p.left, db), PlanRows(p.right, db);
    PlanWidth(p.left, db);
    SameElements(L, l);
    assert Wide(L, |left|);
    JoinPermutes(L, R, l, r, Keeps(p.condition, left + right), |left|);
    HashPermutes(p.condition, left, right, L, R, l, r);
  }

  lemma HashPermutes(e: Expr, left: Schema, right: Schema, l: seq<Row>, r: seq<Row>, l': seq<Row>, r': seq<Row>)
    requires multiset(l) == multiset(l') && multiset(r) == multiset(r') && Wide(l, |left|)
    ensures multiset(HashRows(e, left, right, l, r)) == multiset(HashRows(e, left, right, l', r'))
  {
    hide Keeps, SameText, HashKeys, JoinRows;
    var keys := HashKeys(e, left, right);
    if keys.Some? {
      JoinPermutes(l, r, l', r', SameText(keys.value.0, |left| + keys.value.1), |left|);
    }
  }

  lemma FilterPermutes(keep: Row -> bool, a: seq<Row>, b: seq<Row>)
    requires multiset(a) == multiset(b)
    ensures multiset(Filter(keep, a)) == multiset(Filter(keep, b))
  {
    forall x ensures multiset(Filter(keep, a))[x] == multiset(Filter(keep, b))[x] {
      FilterCount(keep, a, x);
      FilterCount(keep, b, x);
    }
  }

  ghost predicate DistinctColumns(db: Database)
  {
    forall name, i, j :: name in db && 0 <= i < j < |db[name].columns| ==> db[name].columns[i] != db[name].columns[j]
  }

  // column = literal, either way round.
  predicate EqualityOn(e: Expr, alias: string, column: string, v: Literal)
  {
    e.BinaryOp? && e.binary_op == Eq
    && ((e.left == Column(Some(alias), column) && e.right == Lit(v))
        || (e.right == Column(Some(alias), column) && e.left == Lit(v)))
  }

  // One key column on each side.
  ghost predicate Crosses(e: Expr, left: seq<Leaf>, right: seq<Leaf>)
  {
    && e.BinaryOp? && e.binary_op == Eq && e.left.Column? && e.right.Column?
    && e.left.table.Some? && e.right.table.Some?
    && ((e.left.table.value in Aliases(left) && e.right.table.value in Aliases(right))
        || (e.left.table.value in Aliases(right) && e.right.table.value in Aliases(left)))
  }

  // The physical plan has the shape of the logical one, with algorithms chosen.
  ghost predicate Implements(p: P.PhysicalPlan, q: LogicalPlan)
  {
    match p
    case SeqScan(table, alias, _, _) => q == Scan(table, alias)
    case IndexScan(table, alias, column, v, _, _) =>
      q.Select? && q.input == Scan(table, alias) && EqualityOn(q.pred, Name(table, alias), column, v)
    case Filter(e, input, _, _) => q.Select? && q.pred == e && Implements(input, q.input)
    case Join(algorithm, e, left, right, _, _) =>
      && q.Join? && q.condition == e && Implements(left, q.left) && Implements(right, q.right)
      && (algorithm == P.HashJoin ==> Crosses(e, Leaves(q.left), Leaves(q.right)))
  }

  ghost predicate Exists(c: Expr, sc: Scope, db: Database)
  {
    && c.Column? && c.table.Some? && c.table.value in sc
    && PositionOf(TableOf(db, sc[c.table.value]).columns, c.column).Some?
  }

  // An equality between columns compares existing columns on whose stored
  // values text and value comparison agree.
  ghost predicate Comparable(e: Expr, sc: Scope, db: Database)
  {
    e.BinaryOp? && e.binary_op == Eq && e.left.Column? && e.right.Column? ==>
      && Exists(e.left, sc, db) && Exists(e.right, sc, db)
      && forall t :: DrawnFor(e, sc, db, t) ==> SameKind(e, ScopeLook(sc, db, t))
  }

  ghost predicate SameKind(e: Expr, look: Lookup)
    requires e.BinaryOp?
  {
    var a, b := Evaluate(e.left, look), Evaluate(e.right, look);
    a.Some? && b.Some? && TextAgrees(a.value, b.value)
  }

  lemma {:induction false} ImplementsSchema(p: P.PhysicalPlan, q: LogicalPlan, w: World)
    requires Implements(p, q)
    ensures JoinTree(q) && PlanSchema(p, w.db) == SchemaOf(q, w)
  {
    match p
    case SeqScan(_, _, _, _) =>
    case IndexScan(_, _, _, _, _, _) =>
    case Filter(_, input, _, _) => ImplementsSchema(input, q.input, w);
    case Join(_, _, left, right, _, _) =>
      ImplementsSchema(left, q.left, w);
      ImplementsSchema(right, q.right, w);
  }

  lemma {:induction false} PositionOfDistinct(columns: seq<string>, alias: string, column: string)
    requires forall i, j :: 0 <= i < j < |columns| ==> columns[i] != columns[j]
    ensures ResolveUnique(Qualify(alias, columns), column) == PositionOf(columns, column)
  {
    var schema := Qualify(alias, columns);
    FirstNamedIsPosition(columns, alias, column);
    var i := FirstNamed(schema, column);
    var positions := set j | 0 <= j < |schema| && schema[j].column == column;
    if i < |schema| && schema[i].column == column {
      assert positions == {i};
    } else {
      assert positions == {};
    }
  }

  lemma {:induction false} FirstNamedIsPosition(columns: seq<string>, alias: string, column: string)
    ensures var i := FirstNamed(Qualify(alias, columns), column);
      PositionOf(columns, column) == if i < |columns| then Some(i) else None
    ensures FirstNamed(Qualify(alias, columns), column) < |columns| ==>
      columns[FirstNamed(Qualify(alias, columns), column)] == column
  {
    if columns != [] {
      assert Qualify(alias, columns)[1..] == Qualify(alias, columns[1..]);
      FirstNamedIsPosition(columns[1..], alias, column);
    }
  }

  lemma EqualitySymmetric(a: Literal, b: Literal)
    ensures LiteralEqual(a, b) == LiteralEqual(b, a)
  {
  }

  // An index scan keeps the rows its equality holds of.
  lemma IndexScanKeeps(e: Expr, alias: string, columns: seq<string>, column: string, v: Literal, row: Row)
    requires EqualityOn(e, alias, column, v) && |row| == |columns|
    requires forall i, j :: 0 <= i < j < |columns| ==> columns[i] != columns[j]
    ensures Matches(Resolve(Qualify(alias, columns), None, column), v)(row)
      == Holds(e, FlatLook(Qualify(alias, columns), row))
  {
    hide Qualify, ResolveUnique, PositionOf, FlatLook;
    PositionOfDistinct(columns, alias, column);
    LookInLeaf(alias, columns, row, column);
    var i, look := PositionOf(columns, column), FlatLook(Qualify(alias, columns), row);
    assert Evaluate(Column(Some(alias), column), look) == look(Some(alias), column);
    assert Evaluate(Lit(v), look) == Some(v);
    if i.Some? {
      EqualitySymmetric(row[i.value], v);
    }
  }

  lemma {:induction false} ResolveExisting(leaves: seq<Leaf>, sc: Scope, db: Database, alias: string, column: string)
    requires Binds(sc, leaves) && alias in Aliases(leaves) && PositionOf(TableOf(db, sc[alias]).columns, column).Some?
    ensures ResolveQualified(LeafSchema(leaves, db), alias, column).Some?
  {
    hide PositionOf, ResolveQualified;
    var columns := TableOf(db, leaves[0].table).columns;
    ResolveInLeaf(leaves[0].alias, columns, alias, column);
    ResolveAppend(Qualify(leaves[0].alias, columns), LeafSchema(leaves[1..], db), alias, column);
    if leaves[0].alias != alias {
      TailOf(leaves);
      ResolveExisting(leaves[1..], sc, db, alias, column);
    }
  }

  // A key column of the left (right) input is found in that input only, and
  // the joined row has its value at the corresponding position.
  lemma LeftKey(left: LogicalPlan, right: LogicalPlan, sc: Scope, w: World, l: Row, r: Row, c: Expr)
    requires JoinTree(left) && JoinTree(right) && Distinct(Leaves(left) + Leaves(right))
    requires Binds(sc, Leaves(left)) && Exists(c, sc, w.db) && c.table.value in Aliases(Leaves(left))
    ensures Resolve(SchemaOf(left, w), c.table, c.column).Some? && Resolve(SchemaOf(right, w), c.table, c.column).None?
    ensures |l| == |SchemaOf(left, w)| ==>
      Evaluate(c, FlatLook(SchemaOf(left, w) + SchemaOf(right, w), l + r))
      == Some((l + r)[Resolve(SchemaOf(left, w), c.table, c.column).value])
  {
    hide ResolveQualified, Distinct, Binds, SchemaOf, LeafSchema, PositionOf, Aliases, TableOf;
    SchemaIsLeafSchema(left, w);
    SchemaIsLeafSchema(right, w);
    DistinctHalves(Leaves(left), Leaves(right));
    ResolveExisting(Leaves(left), sc, w.db, c.table.value, c.column);
    ResolveElsewhere(Leaves(right), w.db, c.table.value, c.column);
    if |l| == |SchemaOf(left, w)| {
      LookPastPrefix(SchemaOf(left, w), SchemaOf(right, w), l, r, c.table.value, c.column);
    }
  }

  lemma RightKey(left: LogicalPlan, right: LogicalPlan, sc: Scope, w: World, l: Row, r: Row, c: Expr)
    requires JoinTree(left) && JoinTree(right) && Distinct(Leaves(left) + Leaves(right))
    requires Binds(sc, Leaves(right)) && Exists(c, sc, w.db) && c.table.value in Aliases(Leaves(right))
    ensures Resolve(SchemaOf(right, w), c.table, c.column).Some? && Resolve(SchemaOf(left, w), c.table, c.column).None?
    ensures |l| == |SchemaOf(left, w)| && |r| == |SchemaOf(right, w)| ==>
      Evaluate(c, FlatLook(SchemaOf(left, w) + SchemaOf(right, w), l + r))
      == Some((l + r)[|SchemaOf(left, w)| + Resolve(SchemaOf(right, w), c.table, c.column).value])
  {
    hide ResolveQualified, Distinct, Binds, SchemaOf, LeafSchema, PositionOf, Aliases, TableOf;
    SchemaIsLeafSchema(left, w);
    SchemaIsLeafSchema(right, w);
    DistinctHalves(Leaves(left), Leaves(right));
    ResolveExisting(Leaves(right), sc, w.db, c.table.value, c.column);
    ResolveElsewhere(Leaves(left), w.db, c.table.value, c.column);
    if |l| == |SchemaOf(left, w)| {
      LookPastPrefix(SchemaOf(left, w), SchemaOf(right, w), l, r, c.table.value, c.column);
    }
  }

  // Row and schema widths agree in a join tree.
  lemma RowsFit(p: LogicalPlan, w: World)
    requires JoinTree(p) && WellFormed(w.db)
    ensures forall r :: r in RowsOf(p, w) ==> |r| == |SchemaOf(p, w)|
  {
    RowWidths(p, w);
    SchemaIsLeafSchema(p, w);
    SchemaWidth(Leaves(p), w.db);
  }

  // The two keys of a joined row are of one kind.
  lemma KeysCompare(e: Expr, left: LogicalPlan, right: LogicalPlan, sc: Scope, w: World, l: Row, r: Row)
    requires JoinTree(left) && JoinTree(right) && Distinct(Leaves(left) + Leaves(right)) && WellFormed(w.db)
    requires Binds(sc, Leaves(left) + Leaves(right)) && Crosses(e, Leaves(left), Leaves(right))
      && Comparable(e, sc, w.db)
    requires l in RowsOf(left, w) && r in RowsOf(right, w)
    ensures SameKind(e, FlatLook(SchemaOf(left, w) + SchemaOf(right, w), l + r))
  {
    hide FlatLook, ScopeLook, RowsOf, SchemaOf, Aliases, Distinct, Binds, WellFormed, Flatten;
    DistinctHalves(Leaves(left), Leaves(right));
    var tl := RowsAreDrawn(left, w, l);
    var tr := RowsAreDrawn(right, w, r);
    Merged(Leaves(left), Leaves(right), w.db, tl, tr);
    AssignedKeysCompare(e, left, right, sc, w, tl + tr);
  }

  lemma AliasesDrawn(leaves: seq<Leaf>, sc: Scope, db: Database, t: Assignment)
    requires Binds(sc, leaves) && Drawn(leaves, db, t)
    ensures forall alias :: alias in Aliases(leaves) ==>
      alias in sc && alias in t && t[alias] in TableOf(db, sc[alias]).rows
  {
    forall alias | alias in Aliases(leaves)
      ensures alias in sc && alias in t && t[alias] in TableOf(db, sc[alias]).rows
    {
      var i :| 0 <= i < |leaves| && leaves[i].alias == alias;
    }
  }

  lemma AssignedKeysCompare(e: Expr, left: LogicalPlan, right: LogicalPlan, sc: Scope, w: World, t: Assignment)
    requires JoinTree(left) && JoinTree(right) && Distinct(Leaves(left) + Leaves(right)) && WellFormed(w.db)
    requires Binds(sc, Leaves(left) + Leaves(right)) && Crosses(e, Leaves(left), Leaves(right))
      && Comparable(e, sc, w.db)
    requires Drawn(Leaves(left) + Leaves(right), w.db, t)
    ensures SameKind(e, FlatLook(SchemaOf(left, w) + SchemaOf(right, w), Flatten(Leaves(left) + Leaves(right), t)))
  {
    hide FlatLook, ScopeLook, RowsOf;
    var leaves, join := Leaves(left) + Leaves(right), LogicalPlan.Join(e, left, right);
    AliasesAppend(Leaves(left), Leaves(right));
    assert ColumnsOf(e.left) == {(e.left.table, e.left.column)}
      && ColumnsOf(e.right) == {(e.right.table, e.right.column)};
    assert Qualified(e.left, Aliases(leaves)) && Qualified(e.right, Aliases(leaves));
    ConditionOnAssignment(e.left, join, sc, w, t);
    ConditionOnAssignment(e.right, join, sc, w, t);
    AliasesDrawn(leaves, sc, w.db, t);
    hide Drawn, Binds, Distinct, JoinTree;
    assert DrawnFor(e, sc, w.db, t);
  }

  lemma TextIsEquality(e: Expr, look: Lookup, row: Row, i: nat, j: nat)
    requires e.BinaryOp? && e.binary_op == Eq && SameKind(e, look) && i < |row| && j < |row|
    requires Evaluate(e.left, look) == Some(row[i]) && Evaluate(e.right, look) == Some(row[j])
    ensures SameText(i, j)(row) == SameText(j, i)(row) == Holds(e, look)
  {
    TextDecidesEquality(row[i], row[j]);
  }

  // On rows whose keys compare, hashing by text keeps exactly the rows the
  // equality holds of.
  lemma HashKeeps(e: Expr, left: LogicalPlan, right: LogicalPlan, sc: Scope, w: World, l: Row, r: Row)
    requires JoinTree(left) && JoinTree(right) && Distinct(Leaves(left) + Leaves(right)) && WellFormed(w.db)
    requires Binds(sc, Leaves(left) + Leaves(right)) && Crosses(e, Leaves(left), Leaves(right))
      && Comparable(e, sc, w.db)
    requires l in RowsOf(left, w) && r in RowsOf(right, w)
    ensures HashKeys(e, SchemaOf(left, w), SchemaOf(right, w)).Some?
    ensures var keys := HashKeys(e, SchemaOf(left, w), SchemaOf(right, w)).value;
      SameText(keys.0, |SchemaOf(left, w)| + keys.1)(l + r)
      == Holds(e, FlatLook(SchemaOf(left, w) + SchemaOf(right, w), l + r))
  {
    hide FlatLook, Resolve, RowsOf, SchemaOf, Evaluate, SameText, Holds, SameKind, Aliases, Distinct, Binds;
    RowsFit(left, w);
    RowsFit(right, w);
    KeysCompare(e, left, right, sc, w, l, r);
    BindsHalves(Leaves(left), Leaves(right), sc);
    var sl, sr := SchemaOf(left, w), SchemaOf(right, w);
    var look := FlatLook(sl + sr, l + r);
    if e.left.table.value in Aliases(Leaves(left)) && e.right.table.value in Aliases(Leaves(right)) {
      LeftKey(left, right, sc, w, l, r, e.left);
      RightKey(left, right, sc, w, l, r, e.right);
      TextIsEquality(e, look, l + r, Resolve(sl, e.left.table, e.left.column).value,
                     |sl| + Resolve(sr, e.right.table, e.right.column).value);
    } else {
      LeftKey(left, right, sc, w, l, r, e.right);
      RightKey(left, right, sc, w, l, r, e.left);
      TextIsEquality(e, look, l + r, |sl| + Resolve(sr, e.left.table, e.left.column).value,
                     Resolve(sl, e.right.table, e.right.column).value);
    }
  }

  lemma BindsHalves(a: seq<Leaf>, b: seq<Leaf>, sc: Scope)
    requires Binds(sc, a + b)
    ensures Binds(sc, a) && Binds(sc, b)
  {
    assert forall i :: 0 <= i < |a| ==> a[i] == (a + b)[i];
    assert forall i :: 0 <= i < |b| ==> b[i] == (a + b)[|a| + i];
  }

  lemma HashKeysFound(e: Expr, left: LogicalPlan, right: LogicalPlan, sc: Scope, w: World)
    requires JoinTree(left) && JoinTree(right) && Distinct(Leaves(left) + Leaves(right))
    requires Binds(sc, Leaves(left) + Leaves(right)) && Crosses(e, Leaves(left), Leaves(right))
      && Comparable(e, sc, w.db)
    ensures HashKeys(e, SchemaOf(left, w), SchemaOf(right, w)).Some?
  {
    BindsHalves(Leaves(left), Leaves(right), sc);
    if e.left.table.value in Aliases(Leaves(left)) && e.right.table.value in Aliases(Leaves(right)) {
      LeftKey(left, right, sc, w, [], [], e.left);
      RightKey(left, right, sc, w, [], [], e.right);
    } else {
      LeftKey(left, right, sc, w, [], [], e.right);
      RightKey(left, right, sc, w, [], [], e.left);
    }
  }

  // Conditions of the tree that a hash join may be chosen for compare.
  ghost predicate AllComparable(conditions: seq<Expr>, sc: Scope, db: Database)
  {
    forall i :: 0 <= i < |conditions| ==> Comparable(conditions[i], sc, db)
  }

  // Whatever algorithms were chosen, the physical plan produces the rows of
  // the logical tree it implements, in the same order.
  lemma {:induction false} ImplementsRows(p: P.PhysicalPlan, q: LogicalPlan, sc: Scope, w: World)
    requires Implements(p, q) && JoinTree(q) && Distinct(Leaves(q)) && Binds(sc, Leaves(q))
    requires WellFormed(w.db) && DistinctColumns(w.db) && AllComparable(Conditions(q), sc, w.db)
    ensures PlanRows(p, w.db) == RowsOf(q, w)
  {
    match p
    case SeqScan(_, _, _, _) =>
    case IndexScan(table, alias, column, v, _, _) => IndexScanRows(p, q, w);
    case Filter(_, input, _, _) =>
      assert forall i :: 0 <= i < |Conditions(q.input)| ==> Conditions(q.input)[i] == Conditions(q)[i + 1];
      ImplementsRows(input, q.input, sc, w);
      ImplementsSchema(input, q.input, w);
    case Join(algorithm, e, left, right, _, _) =>
      JoinConditionsComparable(q, sc, w.db);
      DistinctHalves(Leaves(q.left), Leaves(q.right));
      BindsHalves(Leaves(q.left), Leaves(q.right), sc);
      ImplementsRows(left, q.left, sc, w);
      ImplementsRows(right, q.right, sc, w);
      ImplementsSchema(left, q.left, w);
      ImplementsSchema(right, q.right, w);
      if algorithm == P.HashJoin {
        HashJoinRows(q, sc, w);
      }
  }

  lemma JoinConditionsComparable(q: LogicalPlan, sc: Scope, db: Database)
    requires q.Join? && AllComparable(Conditions(q), sc, db)
    ensures Comparable(q.condition, sc, db)
    ensures AllComparable(Conditions(q.left), sc, db) && AllComparable(Conditions(q.right), sc, db)
  {
    hide Comparable;
    assert Conditions(q)[0] == q.condition;
    assert Conditions(q) == [q.condition] + Conditions(q.left) + Conditions(q.right);
    assert forall i :: 0 <= i < |Conditions(q.left)| ==> Conditions(q.left)[i] == Conditions(q)[i + 1];
    assert forall i :: 0 <= i < |Conditions(q.right)| ==>
      Conditions(q.right)[i] == Conditions(q)[i + 1 + |Conditions(q.left)|];
  }

  lemma IndexScanRows(p: P.PhysicalPlan, q: LogicalPlan, w: World)
    requires p.IndexScan? && Implements(p, q) && WellFormed(w.db) && DistinctColumns(w.db)
    ensures PlanRows(p, w.db) == RowsOf(q, w)
  {
    var schema, rows := PlanSchema(p, w.db), TableOf(w.db, p.table_name).rows;
    forall row | row in rows
      ensures Matches(Resolve(schema, None, p.index_column), p.probe)(row) == Keeps(q.pred, schema)(row)
    {
      IndexScanKeeps(q.pred, Name(p.table_name, p.alias), TableOf(w.db, p.table_name).columns, p.index_column, p.probe,
                     row);
    }
    FilterCongruence(Matches(Resolve(schema, None, p.index_column), p.probe), Keeps(q.pred, schema), rows);
  }

  lemma HashJoinRows(q: LogicalPlan, sc: Scope, w: World)
    requires q.Join? && JoinTree(q) && Distinct(Leaves(q)) && Binds(sc, Leaves(q)) && WellFormed(w.db)
    requires Crosses(q.condition, Leaves(q.left), Leaves(q.right)) && Comparable(q.condition, sc, w.db)
    ensures HashRows(q.condition, SchemaOf(q.left, w), SchemaOf(q.right, w), RowsOf(q.left, w), RowsOf(q.right, w))
      == RowsOf(q, w)
  {
    hide Crosses, Comparable, FlatLook, HashKeys, SchemaOf, Holds, SameText, Distinct, Binds, WellFormed, JoinRows;
    HashKeysFound(q.condition, q.left, q.right, sc, w);
    var sl, sr := SchemaOf(q.left, w), SchemaOf(q.right, w);
    var keys := HashKeys(q.condition, sl, sr).value;
    forall l, r | l in RowsOf(q.left, w) && r in RowsOf(q.right, w)
      ensures SameText(keys.0, |sl| + keys.1)(l + r) == Keeps(q.condition, sl + sr)(l + r)
    {
      HashKeeps(q.condition, q.left, q.right, sc, w, l, r);
    }
    JoinCongruence(RowsOf(q.left, w), RowsOf(q.right, w), SameText(keys.0, |sl| + keys.1), Keeps(q.condition, sl + sr));
  }

  ghost predicate ColumnsExist(e: Expr, sc: Scope, db: Database)
  {
    forall q :: q in ColumnsOf(e) ==> Exists(Column(q.0, q.1), sc, db)
  }

  // ... and it throws on no database on which the logical tree does not.
  lemma {:induction false} ImplementsRuns(p: P.PhysicalPlan, q: LogicalPlan, sc: Scope, w: World)
    requires Implements(p, q) && JoinTree(q) && Distinct(Leaves(q)) && Binds(sc, Leaves(q)) && Runs(q, w)
    requires WellFormed(w.db) && DistinctColumns(w.db) && AllComparable(Conditions(q), sc, w.db)
    requires forall i :: 0 <= i < |Conditions(q)| ==> ColumnsExist(Conditions(q)[i], sc, w.db)
    ensures PlanRuns(p, w.db)
  {
    hide Comparable, ColumnsExist, PlanRows, RowsOf, GivesBoolean, FlatLook, Crosses;
    match p
    case SeqScan(_, _, _, _) =>
    case IndexScan(_, _, _, _, _, _) => IndexScanRuns(p, q, sc, w);
    case Filter(_, input, _, _) =>
      assert forall i :: 0 <= i < |Conditions(q.input)| ==> Conditions(q.input)[i] == Conditions(q)[i + 1];
      ImplementsRuns(input, q.input, sc, w);
      ImplementsRows(input, q.input, sc, w);
      ImplementsSchema(input, q.input, w);
    case Join(algorithm, e, left, right, _, _) =>
      JoinConditionsComparable(q, sc, w.db);
      JoinColumnsExist(q, sc, w.db);
      DistinctHalves(Leaves(q.left), Leaves(q.right));
      BindsHalves(Leaves(q.left), Leaves(q.right), sc);
      ImplementsRuns(left, q.left, sc, w);
      ImplementsRuns(right, q.right, sc, w);
      JoinRuns(p, q, sc, w);
  }

  lemma JoinColumnsExist(q: LogicalPlan, sc: Scope, db: Database)
    requires q.Join? && forall i :: 0 <= i < |Conditions(q)| ==> ColumnsExist(Conditions(q)[i], sc, db)
    ensures forall i :: 0 <= i < |Conditions(q.left)| ==> ColumnsExist(Conditions(q.left)[i], sc, db)
    ensures forall i :: 0 <= i < |Conditions(q.right)| ==> ColumnsExist(Conditions(q.right)[i], sc, db)
  {
    hide ColumnsExist;
    assert forall i :: 0 <= i < |Conditions(q.left)| ==> Conditions(q.left)[i] == Conditions(q)[i + 1];
    assert forall i :: 0 <= i < |Conditions(q.right)| ==>
      Conditions(q.right)[i] == Conditions(q)[i + 1 + |Conditions(q.left)|];
  }

  lemma JoinRuns(p: P.PhysicalPlan, q: LogicalPlan, sc: Scope, w: World)
    requires p.Join? && Implements(p, q) && JoinTree(q) && Distinct(Leaves(q)) && Binds(sc, Leaves(q)) && Runs(q, w)
    requires WellFormed(w.db) && DistinctColumns(w.db) && AllComparable(Conditions(q), sc, w.db)
    requires PlanRuns(p.left, w.db) && PlanRuns(p.right, w.db)
    ensures PlanRuns(p, w.db)
  {
    hide Comparable, PlanRows, RowsOf, GivesBoolean, FlatLook, Crosses, HashKeys, Distinct, Binds, WellFormed,
         DistinctColumns;
    JoinConditionsComparable(q, sc, w.db);
    DistinctHalves(Leaves(q.left), Leaves(q.right));
    BindsHalves(Leaves(q.left), Leaves(q.right), sc);
    ImplementsRows(p.left, q.left, sc, w);
    ImplementsRows(p.right, q.right, sc, w);
    ImplementsSchema(p.left, q.left, w);
    ImplementsSchema(p.right, q.right, w);
    if p.algorithm == P.HashJoin {
      HashKeysFound(q.condition, q.left, q.right, sc, w);
    }
  }

  lemma IndexScanRuns(p: P.PhysicalPlan, q: LogicalPlan, sc: Scope, w: World)
    requires p.IndexScan? && Implements(p, q) && Binds(sc, Leaves(q)) && Runs(q, w) && DistinctColumns(w.db)
    requires forall i :: 0 <= i < |Conditions(q)| ==> ColumnsExist(Conditions(q)[i], sc, w.db)
    ensures PlanRuns(p, w.db)
  {
    var alias, columns := Name(p.table_name, p.alias), TableOf(w.db, p.table_name).columns;
    assert Conditions(q)[0] == q.pred;
    assert ColumnsExist(q.pred, sc, w.db);
    var c := if q.pred.left.Column? then q.pred.left else q.pred.right;
    assert (c.table, c.column) in ColumnsOf(c);
    assert (c.table, c.column) in ColumnsOf(q.pred);
    assert Leaves(q.input) == [Leaf(p.table_name, alias)];
    assert Leaves(q) == Leaves(q.input);
    assert Leaves(q)[0] == Leaf(p.table_name, alias);
    PositionOfDistinct(columns, alias, p.index_column);
  }
}
