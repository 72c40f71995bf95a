// Plans over stored tables and the rows they produce: logical/logical_plan.hpp,
// execution/row_schema.cpp and the pull iterators of execution/operators.cpp,
// drained.
module Relational {
  import opened Wrappers
  import opened Ast
  import opened Values
  import opened Evaluation
  import opened Bags

  datatype Table = Table(columns: seq<string>, rows: seq<Row>)

  type Database = map<string, Table>

  datatype AggregateExpr = AggregateExpr(func: string, arg: Expr, alias: Option<string>)

  // The operators that sit above the joins of a query.
  datatype UpperOp =
    | Aggregate(group_by: seq<Expr>, aggregates: seq<AggregateExpr>)
    | Project(expressions: seq<(Expr, Option<string>)>)
    | Sort(order_by: seq<(Expr, bool)>)
    | Limit(count: nat)

  datatype LogicalPlan =
    | Scan(table_name: string, alias: Option<string>)
    | Select(pred: Expr, input: LogicalPlan)
    | Join(condition: Expr, left: LogicalPlan, right: LogicalPlan)
    | Above(op: UpperOp, input: LogicalPlan)

  datatype Entry = Entry(table: Option<string>, column: string)

  type Schema = seq<Entry>

  // Stored tables, and any meaning whatever for the upper operators.
  datatype World = World(
    db: Database,
    upper_schema: (UpperOp, Schema) -> Schema,
    upper_rows: (UpperOp, Schema, seq<Row>) -> seq<Row>)

  function TableOf(db: Database, name: string): Table
  {
    if name in db then db[name] else Table([], [])
  }

  ghost predicate WellFormed(db: Database)
  {
    forall name, i :: name in db && 0 <= i < |db[name].rows| ==> |db[name].rows[i]| == |db[name].columns|
  }

  // RowSchema::resolve
  function Resolve(schema: Schema, table: Option<string>, column: string): (i: Option<nat>)
    ensures i.Some? ==> i.value < |schema| && schema[i.value].column == column
  {
    if table.Some? then ResolveQualified(schema, table.value, column) else ResolveUnique(schema, column)
  }

  predicate Answers(e: Entry, table: string, column: string)
  {
    e.column == column && (if e.table.Some? then e.table.value else "") == table
  }

  function ResolveQualified(schema: Schema, table: string, column: string): (i: Option<nat>)
    ensures i.Some? ==> i.value < |schema| && Answers(schema[i.value], table, column)
  {
    if schema == [] then None
    else if Answers(schema[0], table, column) then Some(0)
    else
      var i := ResolveQualified(schema[1..], table, column);
      if i.Some? then Some(i.value + 1) else None
  }

  // Unqualified names resolve only when exactly one column bears them.
  function ResolveUnique(schema: Schema, column: string): (i: Option<nat>)
    ensures i.Some? ==> i.value < |schema| && schema[i.value].column == column
  {
    var positions := set j | 0 <= j < |schema| && schema[j].column == column;
    if |positions| == 1 then Some(FirstNamed(schema, column)) else None
  }

  function FirstNamed(schema: Schema, column: string): (i: nat)
    ensures (exists j :: 0 <= j < |schema| && schema[j].column == column) ==> i < |schema| && schema[i].column == column
    ensures i <= |schema| && forall j :: 0 <= j < i ==> schema[j].column != column
  {
    if schema == [] || schema[0].column == column then 0 else
    var i := FirstNamed(schema[1..], column);
    assert forall j :: 0 < j < |schema| ==> schema[j] == schema[1..][j - 1];
    i + 1
  }

  function FlatLook(schema: Schema, row: Row): Lookup
  {
    (t, c) => var i := Resolve(schema, t, c); if i.Some? && i.value < |row| then Some(row[i.value]) else None
  }

  function Qualify(qualifier: string, columns: seq<string>): Schema
  {
    seq(|columns|, i requires 0 <= i < |columns| => Entry(Some(qualifier), columns[i]))
  }

  function Name(table_name: string, alias: Option<string>): string
  {
    if alias.Some? then alias.value else table_name
  }

  function SchemaOf(p: LogicalPlan, w: World): Schema
  {
    match p
    case Scan(table, alias) => Qualify(Name(table, alias), TableOf(w.db, table).columns)
    case Select(_, input) => SchemaOf(input, w)
    case Join(_, left, right) => SchemaOf(left, w) + SchemaOf(right, w)
    case Above(op, input) => w.upper_schema(op, SchemaOf(input, w))
  }

  function Prefixed(l: Row, right: seq<Row>): seq<Row>
  {
    if right == [] then [] else [l + right[0]] + Prefixed(l, right[1..])
  }

  // The rows of a join in left-major order.
  function JoinRows(left: seq<Row>, right: seq<Row>, keep: Row -> bool): seq<Row>
  {
    if left == [] then [] else Filter(keep, Prefixed(left[0], right)) + JoinRows(left[1..], right, keep)
  }

  function Keeps(e: Expr, schema: Schema): Row -> bool
  {
    row => Holds(e, FlatLook(schema, row))
  }

  // The rows an execution that does not throw produces, in order.
  function RowsOf(p: LogicalPlan, w: World): seq<Row>
  {
    match p
    case Scan(table, _) => TableOf(w.db, table).rows
    case Select(e, input) => Filter(Keeps(e, SchemaOf(input, w)), RowsOf(input, w))
    case Join(e, left, right) =>
      JoinRows(RowsOf(left, w), RowsOf(right, w), Keeps(e, SchemaOf(left, w) + SchemaOf(right, w)))
    case Above(op, input) => w.upper_rows(op, SchemaOf(input, w), RowsOf(input, w))
  }

  // Every table exists and every condition evaluated on the way is a boolean:
  // the execution does not throw below the upper operators.
  ghost predicate Runs(p: LogicalPlan, w: World)
  {
    match p
    case Scan(table, _) => table in w.db
    case Select(e, input) =>
      && Runs(input, w)
      && forall r :: r in RowsOf(input, w) ==> GivesBoolean(e, FlatLook(SchemaOf(input, w), r))
    case Join(e, left, right) =>
      && Runs(left, w) && Runs(right, w)
      && forall l, r :: l in RowsOf(left, w) && r in RowsOf(right, w) ==>
           GivesBoolean(e, FlatLook(SchemaOf(left, w) + SchemaOf(right, w), l + r))
    case Above(_, input) => Runs(input, w)
  }

  lemma {:induction false} PrefixedCount(l: Row, right: seq<Row>, x: Row)
    requires |x| >= |l|
    ensures multiset(Prefixed(l, right))[x] == if x[..|l|] == l then multiset(right)[x[|l|..]] else 0
  {
    if right != [] {
      PrefixedCount(l, right[1..], x);
      var head := l + right[0];
      assert right == [right[0]] + right[1..];
      assert head == x <==> x[..|l|] == l && right[0] == x[|l|..] by {
        assert x == x[..|l|] + x[|l|..];
        assert head[..|l|] == l && head[|l|..] == right[0];
      }
      assert multiset(Prefixed(l, right)) == multiset{head} + multiset(Prefixed(l, right[1..]));
    }
  }

  // A joined row occurs once for every way of picking its two halves.
  lemma {:induction false} JoinCount(left: seq<Row>, right: seq<Row>, keep: Row -> bool, width: nat, x: Row)
    requires (forall l :: l in left ==> |l| == width) && |x| >= width
    ensures multiset(JoinRows(left, right, keep))[x]
         == if keep(x) then multiset(left)[x[..width]] * multiset(right)[x[width..]] else 0
  {
    hide Filter, Prefixed;
    if left == [] {
    } else {
      JoinCount(left[1..], right, keep, width, x);
      FilterCount(keep, Prefixed(left[0], right), x);
      PrefixedCount(left[0], right, x);
      HeadCount(left, x[..width]);
      CountAppend(Filter(keep, Prefixed(left[0], right)), JoinRows(left[1..], right, keep), x);
      Distribute(if left[0] == x[..width] then 1 else 0, multiset(left[1..])[x[..width]], multiset(right)[x[width..]]);
    }
  }

  lemma Distribute(a: nat, b: nat, c: nat)
    ensures (a + b) * c == a * c + b * c
  {
  }

  lemma CountAppend<T>(a: seq<T>, b: seq<T>, x: T)
    ensures multiset(a + b)[x] == multiset(a)[x] + multiset(b)[x]
  {
    assert multiset(a + b) == multiset(a) + multiset(b);
  }

  lemma HeadCount<T>(s: seq<T>, x: T)
    requires s != []
    ensures multiset(s)[x] == (if s[0] == x then 1 else 0) + multiset(s[1..])[x]
  {
    assert s == [s[0]] + s[1..];
  }

  lemma {:induction false} PrefixedMembers(l: Row, right: seq<Row>)
    ensures forall x :: x in Prefixed(l, right) <==> exists r :: r in right && x == l + r
  {
    if right != [] {
      PrefixedMembers(l, right[1..]);
      assert right == [right[0]] + right[1..];
    }
  }

  lemma {:induction false} JoinMembers(left: seq<Row>, right: seq<Row>, keep: Row -> bool)
    ensures forall x ::
      x in JoinRows(left, right, keep) <==> keep(x) && exists l, r :: l in left && r in right && x == l + r
  {
    if left != [] {
      JoinMembers(left[1..], right, keep);
      PrefixedMembers(left[0], right);
      FilterMembers(keep, Prefixed(left[0], right));
      assert left == [left[0]] + left[1..];
      forall x
        ensures x in JoinRows(left, right, keep) <==> keep(x) && exists l, r :: l in left && r in right && x == l + r
      {
        if l, r :| l in left && r in right && x == l + r {
          if l == left[0] {
            assert x in Prefixed(left[0], right);
          }
        }
      }
    }
  }

  lemma {:induction false} JoinCongruence(left: seq<Row>, right: seq<Row>, p: Row -> bool, q: Row -> bool)
    requires forall l, r :: l in left && r in right ==> p(l + r) == q(l + r)
    ensures JoinRows(left, right, p) == JoinRows(left, right, q)
  {
    if left != [] {
      PrefixedMembers(left[0], right);
      FilterCongruence(p, q, Prefixed(left[0], right));
      JoinCongruence(left[1..], right, p, q);
    }
  }

  lemma {:induction false} FilterPrefixed(l: Row, right: seq<Row>, p: Row -> bool, whole: Row -> bool)
    requires forall r :: r in right ==> whole(l + r) == p(r)
    ensures Prefixed(l, Filter(p, right)) == Filter(whole, Prefixed(l, right))
  {
    if right != [] {
      FilterPrefixed(l, right[1..], p, whole);
      FilterStep(p, right);
      FilterStep(whole, Prefixed(l, right));
      assert Prefixed(l, right)[1..] == Prefixed(l, right[1..]);
    }
  }

  // ---- Joining in another order ----

  ghost predicate Wide(rows: seq<Row>, width: nat)
  {
    forall r :: r in rows ==> |r| == width
  }

  lemma {:induction false} JoinWidth(left: seq<Row>, right: seq<Row>, keep: Row -> bool, width: nat, x: Row)
    requires Wide(left, width) && |x| < width
    ensures multiset(JoinRows(left, right, keep))[x] == 0
  {
    hide JoinRows;
    JoinMembers(left, right, keep);
    forall l, r | l in left && r in right ensures x != l + r {
      assert |l + r| >= width;
    }
    assert x !in JoinRows(left, right, keep);
  }

  // Joining the same rows in another order.
  lemma JoinPermutes(l: seq<Row>, r: seq<Row>, l': seq<Row>, r': seq<Row>, keep: Row -> bool, width: nat)
    requires multiset(l) == multiset(l') && multiset(r) == multiset(r') && Wide(l, width)
    ensures multiset(JoinRows(l, r, keep)) == multiset(JoinRows(l', r', keep))
  {
    forall x | x in l' ensures |x| == width { assert x in multiset(l'); assert x in l; }
    forall x ensures multiset(JoinRows(l, r, keep))[x] == multiset(JoinRows(l', r', keep))[x] {
      if |x| < width {
        JoinWidth(l, r, keep, width, x);
        JoinWidth(l', r', keep, width, x);
      } else {
        JoinCount(l, r, keep, width, x);
        JoinCount(l', r', keep, width, x);
      }
    }
  }
}
