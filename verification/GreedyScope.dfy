// What greedy reordering does with a condition over three tables
// (logical/optimizer.cpp:287-360): it may be put on a pair that lacks one.
module GreedyScope {
  import opened Wrappers
  import opened Ast
  import opened Values
  import opened Evaluation
  import opened Bags
  import opened Relational
  import opened NormalForm
  import opened Pushdown
  import opened Reorder

  // The condition of a join has all its tables in the pair joined.
  predicate InPair(join: LogicalPlan)
    requires join.Join?
  {
    Tables(join.condition) <= ScanAliases(join.left) + ScanAliases(join.right)
  }

  ghost predicate AllTrees(ps: seq<LogicalPlan>)
  {
    forall i :: 0 <= i < |ps| ==> JoinTree(ps[i])
  }

  ghost predicate AllScoped(ps: seq<LogicalPlan>)
  {
    forall i :: 0 <= i < |ps| ==> Scoped(ps[i])
  }

  ghost predicate AllJoins(taken: seq<LogicalPlan>)
  {
    forall i :: 0 <= i < |taken| ==> taken[i].Join?
  }

  ghost predicate AllInPair(taken: seq<LogicalPlan>)
    requires AllJoins(taken)
  {
    forall i :: 0 <= i < |taken| ==> InPair(taken[i])
  }

  lemma QualifiedIff(c: Expr, left: LogicalPlan, right: LogicalPlan)
    requires QualifiedTables(c)
    ensures Qualified(c, Aliases(Leaves(left) + Leaves(right))) <==> InPair(Join(c, left, right))
  {
    ScanAliasesAreAliases(left);
    ScanAliasesAreAliases(right);
    AliasesAppend(Leaves(left), Leaves(right));
    TablesAreColumns(c);
    if InPair(Join(c, left, right)) {
      forall q | q in ColumnsOf(c) ensures q.0.Some? && q.0.value in Aliases(Leaves(left) + Leaves(right)) {
        assert (Some(q.0.value), q.1) in ColumnsOf(c);
      }
    }
  }

  lemma MergedScope(ps: seq<LogicalPlan>, i: nat, j: nat, c: Expr)
    requires i < j < |ps| && AllTrees(ps) && QualifiedTables(c)
    ensures AllTrees(Merge(ps, i, j, c))
    ensures AllScoped(Merge(ps, i, j, c)) <==> AllScoped(ps) && InPair(Join(c, ps[i], ps[j]))
  {
    hide Merge, InPair, QualifiedTables, Leaves, Aliases;
    MergeIndices(ps, i, j, c);
    QualifiedIff(c, ps[i], ps[j]);
    var ps' := Merge(ps, i, j, c);
    if AllScoped(ps') {
      assert Scoped(ps'[|ps| - 2]);
      forall k | 0 <= k < |ps| ensures Scoped(ps[k]) {
        if k != i && k != j {
          assert Scoped(ps'[Unskip(k, i, j)]);
        }
      }
    }
  }

  lemma RemainQualified(rem: seq<Expr>, k: Option<nat>)
    requires AllQualified(rem)
    ensures AllQualified(Remaining(rem, k)) && QualifiedTables(Condition(rem, k))
  {
    assert ColumnsOf(TRUE) == {};
  }

  lemma TakenJoins(ps: seq<LogicalPlan>, rem: seq<Expr>, catalog: Catalog, i: nat, j: nat, k: Option<nat>,
                   plan: LogicalPlan, taken: seq<LogicalPlan>)
    requires Round(ps, rem, catalog, i, j, k, plan, taken)
    ensures i < j < |ps| && taken != [] && taken[0] == Join(Condition(rem, k), ps[i], ps[j])
    ensures Greedy(Merge(ps, i, j, Condition(rem, k)), Remaining(rem, k), catalog, plan, taken[1..])
    ensures |Merge(ps, i, j, Condition(rem, k))| == |ps| - 1 && |ps| > 1
    ensures taken == [taken[0]] + taken[1..]
  {
    hide Merge;
  }

  // Every condition of a greedily reordered nest is in scope exactly when
  // each condition taken has all its tables in the pair it joins.
  lemma {:induction false} ScopedIffInPair(ps: seq<LogicalPlan>, rem: seq<Expr>, catalog: Catalog, plan: LogicalPlan,
                                           taken: seq<LogicalPlan>)
    requires Greedy(ps, rem, catalog, plan, taken) && AllTrees(ps) && AllQualified(rem)
    ensures AllJoins(taken) && JoinTree(plan)
    ensures Scoped(plan) <==> AllScoped(ps) && AllInPair(taken)
    decreases |ps|
  {
    if |ps| <= 1 {
      assert ps == [plan] && ps[0] == plan;
    } else {
      hide Round, Merge, InPair, Scoped, Remaining, Condition, AllQualified, JoinTree;
      var i, j, k :| Round(ps, rem, catalog, i, j, k, plan, taken);
      TakenJoins(ps, rem, catalog, i, j, k, plan, taken);
      var c := Condition(rem, k);
      RemainQualified(rem, k);
      MergedScope(ps, i, j, c);
      ScopedIffInPair(Merge(ps, i, j, c), Remaining(rem, k), catalog, plan, taken[1..]);
      FirstAndRest(taken);
    }
  }

  lemma FirstAndRest(taken: seq<LogicalPlan>)
    requires taken != [] && taken[0].Join? && AllJoins(taken[1..])
    ensures AllJoins(taken) && (AllInPair(taken) <==> InPair(taken[0]) && AllInPair(taken[1..]))
  {
    hide InPair;
    assert taken == [taken[0]] + taken[1..];
  }

  // A plan that runs ran every join on the way to it.
  lemma {:induction false} TakenRun(ps: seq<LogicalPlan>, rem: seq<Expr>, catalog: Catalog, plan: LogicalPlan,
                                    taken: seq<LogicalPlan>, w: World)
    requires Greedy(ps, rem, catalog, plan, taken) && Runs(plan, w)
    ensures forall i :: 0 <= i < |ps| ==> Runs(ps[i], w)
    ensures forall t :: t in taken ==> Runs(t, w)
    decreases |ps|
  {
    if |ps| <= 1 {
      assert ps == [plan];
    } else {
      hide Round, Merge, Remaining, Condition;
      var i, j, k :| Round(ps, rem, catalog, i, j, k, plan, taken);
      TakenJoins(ps, rem, catalog, i, j, k, plan, taken);
      var c := Condition(rem, k);
      MergeIndices(ps, i, j, c);
      var ps' := Merge(ps, i, j, c);
      TakenRun(ps', Remaining(rem, k), catalog, plan, taken[1..], w);
      assert Runs(ps'[|ps| - 2], w);
      forall n | 0 <= n < |ps| ensures Runs(ps[n], w) {
        if n != i && n != j {
          assert Runs(ps'[Unskip(n, i, j)], w);
        }
      }
    }
  }

  // An expression with a column nobody supplies has no value.
  lemma {:induction false} MissingColumn(e: Expr, look: Lookup, q: (Option<string>, string))
    requires q in ColumnsOf(e) && look(q.0, q.1).None?
    ensures Evaluate(e, look).None?
  {
    match e
    case UnaryOp(_, x) => MissingColumn(x, look, q);
    case BinaryOp(l, _, r) =>
      if q in ColumnsOf(l) {
        MissingColumn(l, look, q);
      } else {
        MissingColumn(r, look, q);
      }
    case _ =>
  }

  // A condition out of the scope of its pair throws on the first pair of rows.
  lemma OutOfPairThrows(join: LogicalPlan, w: World)
    requires join.Join? && JoinTree(join) && QualifiedTables(join.condition) && !InPair(join)
    requires RowsOf(join.left, w) != [] && RowsOf(join.right, w) != []
    ensures !Runs(join, w)
  {
    var c := join.condition;
    var t :| t in Tables(c) && t !in ScanAliases(join.left) + ScanAliases(join.right);
    TablesAreColumns(c);
    var column :| (Some(t), column) in ColumnsOf(c);
    var l, r := RowsOf(join.left, w)[0], RowsOf(join.right, w)[0];
    var schema := SchemaOf(join, w);
    NotInSchema(join, w, t, column);
    MissingColumn(c, FlatLook(schema, l + r), (Some(t), column));
    assert l in RowsOf(join.left, w) && r in RowsOf(join.right, w);
    assert !GivesBoolean(c, FlatLook(schema, l + r));
  }

  lemma NotInSchema(join: LogicalPlan, w: World, t: string, column: string)
    requires join.Join? && JoinTree(join) && t !in ScanAliases(join.left) + ScanAliases(join.right)
    ensures Resolve(SchemaOf(join, w), Some(t), column).None?
  {
    SchemaIsLeafSchema(join, w);
    ScanAliasesAreAliases(join);
    ResolveElsewhere(Leaves(join), w.db, t, column);
  }

  // ---- An input ----

  const A := Scan("a", None)
  const B := Scan("b", None)
  const C := Scan("c", None)
  const ON_TWO := BinaryOp(Column(Some("a"), "x"), Eq, Column(Some("b"), "x"))
  const SUM := BinaryOp(Column(Some("a"), "x"), Add, Column(Some("b"), "y"))
  const ON_THREE := BinaryOp(Column(Some("c"), "z"), Eq, SUM)
  const NEST := Join(ON_THREE, Join(ON_TWO, A, B), C)

  ghost predicate OneRowEach(w: World)
  {
    w.db == map["a" := Table(["x"], [[Integer(1)]]), "b" := Table(["x", "y"], [[Integer(1), Integer(1)]]),
                "c" := Table(["z"], [[Integer(2)]])]
  }

  lemma ThreeTables()
    ensures Tables(ON_THREE) == {"a", "b", "c"}
    ensures ScanAliases(A) == {"a"} && ScanAliases(B) == {"b"} && ScanAliases(C) == {"c"}
  {
    assert Tables(SUM) == {"a", "b"};
  }

  lemma NestParts()
    ensures Operands(NEST) == [A, B, C] && JoinConditions(NEST) == [ON_THREE, ON_TWO]
  {
    assert Operands(Join(ON_TWO, A, B)) == [A, B];
    assert JoinConditions(Join(ON_TWO, A, B)) == [ON_TWO];
  }

  // The first round puts the condition over three tables on two of them.
  lemma FirstRound(catalog: Catalog, i: nat, j: nat, k: Option<nat>)
    requires Chosen([A, B, C], [ON_THREE, ON_TWO], catalog, i, j, k)
    ensures i < j < 3 && k == Some(0) && !InPair(Join(ON_THREE, [A, B, C][i], [A, B, C][j]))
  {
    hide Tables, ScanAliases, JoinEstimate, RowEstimate;
    ThreeTables();
    var ps, rem := [A, B, C], [ON_THREE, ON_TWO];
    forall x, y | 0 <= x < y < 3 ensures Links(rem[0], ps[x], ps[y]) {
      var a :| a in ScanAliases(ps[x]);
      var b :| b in ScanAliases(ps[y]);
      assert a in Tables(ON_THREE) * ScanAliases(ps[x]) && b in Tables(ON_THREE) * ScanAliases(ps[y]);
    }
    assert Linkable(rem, ps[0], ps[1]);
    assert "a" in Tables(ON_THREE) && "b" in Tables(ON_THREE) && "c" in Tables(ON_THREE);
  }

  lemma NestRuns(w: World)
    requires OneRowEach(w)
    ensures Runs(NEST, w)
  {
    hide FlatLook, Holds;
    var two := Join(ON_TWO, A, B);
    var schema := SchemaOf(NEST, w);
    assert SchemaOf(two, w) == Qualify("a", ["x"]) + Qualify("b", ["x", "y"]);
    assert SchemaOf(C, w) == Qualify("c", ["z"]) && schema == SchemaOf(two, w) + SchemaOf(C, w);
    TwoLooks(SchemaOf(two, w), [Integer(1)] + [Integer(1), Integer(1)]);
    JoinMembers(RowsOf(A, w), RowsOf(B, w), Keeps(ON_TWO, SchemaOf(two, w)));
    assert RowsOf(C, w) == [[Integer(2)]];
    assert RowsOf(A, w) == [[Integer(1)]] && RowsOf(B, w) == [[Integer(1), Integer(1)]];
    assert Runs(A, w) && Runs(B, w) && Runs(C, w);
    assert Runs(two, w);
    forall l, r | l in RowsOf(two, w) && r in RowsOf(C, w) ensures GivesBoolean(ON_THREE, FlatLook(schema, l + r)) {
      ThreeLooks(schema, l + r);
    }
  }

  lemma {:induction false} FoundAt(schema: Schema, n: nat, table: string, column: string)
    requires n < |schema| && Answers(schema[n], table, column)
    requires forall m :: 0 <= m < n ==> !Answers(schema[m], table, column)
    ensures ResolveQualified(schema, table, column) == Some(n)
  {
    if n > 0 {
      assert !Answers(schema[0], table, column);
      FoundAt(schema[1..], n - 1, table, column);
    }
  }

  lemma TwoLooks(schema: Schema, row: Row)
    requires schema == Qualify("a", ["x"]) + Qualify("b", ["x", "y"]) && row == [Integer(1), Integer(1), Integer(1)]
    ensures GivesBoolean(ON_TWO, FlatLook(schema, row))
  {
    assert schema == [Entry(Some("a"), "x"), Entry(Some("b"), "x"), Entry(Some("b"), "y")];
    FoundAt(schema, 0, "a", "x");
    FoundAt(schema, 1, "b", "x");
  }

  lemma ThreeLooks(schema: Schema, row: Row)
    requires schema == Qualify("a", ["x"]) + Qualify("b", ["x", "y"]) + Qualify("c", ["z"])
    requires row == [Integer(1), Integer(1), Integer(1), Integer(2)]
    ensures GivesBoolean(ON_THREE, FlatLook(schema, row))
  {
    var look := FlatLook(schema, row);
    assert schema == [Entry(Some("a"), "x"), Entry(Some("b"), "x"), Entry(Some("b"), "y"), Entry(Some("c"), "z")];
    FoundAt(schema, 0, "a", "x");
    FoundAt(schema, 2, "b", "y");
    FoundAt(schema, 3, "c", "z");
    assert look(Some("a"), "x") == Some(Integer(1));
    assert look(Some("b"), "y") == Some(Integer(1));
    assert look(Some("c"), "z") == Some(Integer(2));
  }

  // a JOIN b ON a.x = b.x JOIN c ON c.z = a.x + b.y, one row each: it runs,
  // and whatever the row counts of the catalog, what greedy reordering makes
  // of it throws.
  lemma ThreeTableConditionThrows(catalog: Catalog, q: LogicalPlan, w: World)
    requires OneRowEach(w) && GreedyPlan(Operands(NEST), JoinConditions(NEST), catalog, q)
    ensures Runs(NEST, w) && !Runs(q, w)
  {
    hide *;
    hide Runs, Greedy;
    NestRuns(w);
    NestParts();
    var taken := PlanTaken(catalog, q);
    TakenThrows(taken[0], w);
    if Runs(q, w) {
      TakenRun([A, B, C], [ON_THREE, ON_TWO], catalog, q, taken, w);
    }
  }

  lemma PlanTaken(catalog: Catalog, q: LogicalPlan) returns (taken: seq<LogicalPlan>)
    requires GreedyPlan([A, B, C], [ON_THREE, ON_TWO], catalog, q)
    ensures Greedy([A, B, C], [ON_THREE, ON_TWO], catalog, q, taken) && taken != []
    ensures exists i, j :: 0 <= i < j < 3 && taken[0] == Join(ON_THREE, [A, B, C][i], [A, B, C][j]) && !InPair(taken[0])
  {
    hide InPair;
    taken :| Greedy([A, B, C], [ON_THREE, ON_TWO], catalog, q, taken);
    var i, j, k := FirstOf([A, B, C], [ON_THREE, ON_TWO], catalog, q, taken);
    FirstRound(catalog, i, j, k);
  }

  lemma FirstOf(ps: seq<LogicalPlan>, rem: seq<Expr>, catalog: Catalog, plan: LogicalPlan, taken: seq<LogicalPlan>)
    returns (i: nat, j: nat, k: Option<nat>)
    requires |ps| > 1 && Greedy(ps, rem, catalog, plan, taken)
    ensures Chosen(ps, rem, catalog, i, j, k) && taken != [] && i < j < |ps|
    ensures taken[0] == Join(Condition(rem, k), ps[i], ps[j])
  {
    hide Merge, Remaining, Condition;
    i, j, k :| Round(ps, rem, catalog, i, j, k, plan, taken);
  }

  lemma TakenThrows(join: LogicalPlan, w: World)
    requires OneRowEach(w)
    requires exists i, j :: 0 <= i < j < 3 && join == Join(ON_THREE, [A, B, C][i], [A, B, C][j]) && !InPair(join)
    ensures !Runs(join, w)
  {
    hide InPair, Runs;
    assert QualifiedTables(ON_THREE);
    assert RowsOf(A, w) != [] && RowsOf(B, w) != [] && RowsOf(C, w) != [];
    OutOfPairThrows(join, w);
  }

  // ---- Another: the small tables first ----

  const ON_Y := BinaryOp(Column(Some("b"), "y"), Eq, Column(Some("c"), "z"))

  // A thousand rows, ten and ten: b and c are joined first.
  function Sizes(): Catalog
  {
    table => if table == "a" then Some(1000) else Some(10)
  }

  lemma Estimates(join: Expr)
    ensures RowEstimate(A, Sizes()) == 1000 && RowEstimate(B, Sizes()) == 10 && RowEstimate(C, Sizes()) == 10
    ensures RowEstimate(Select(join, A), Sizes()) == 100 && RowEstimate(Select(join, B), Sizes()) == 1
    ensures RowEstimate(Join(join, A, B), Sizes()) == 1000 && RowEstimate(Join(join, B, C), Sizes()) == 10
    ensures RowEstimate(Scan("t", None), table => None) == 1000
  {
  }

  lemma SmallTables()
    ensures Tables(ON_TWO) == {"a", "b"} && Tables(ON_Y) == {"b", "c"}
  {
    ThreeTables();
  }

  lemma SmallPairFirst(i: nat, j: nat, k: Option<nat>)
    requires Chosen([A, B, C], [ON_TWO, ON_Y], Sizes(), i, j, k)
    ensures i == 1 && j == 2 && k == Some(1)
  {
    hide Tables, ScanAliases, RowEstimate;
    ThreeTables();
    SmallTables();
    Estimates(ON_TWO);
    var ps, rem := [A, B, C], [ON_TWO, ON_Y];
    assert "b" in Tables(ON_Y) * ScanAliases(B) && "c" in Tables(ON_Y) * ScanAliases(C);
    assert Links(rem[1], ps[1], ps[2]);
    assert Linkable(rem, ps[1], ps[2]);
    assert Tables(ON_TWO) * ScanAliases(C) == {} && Tables(ON_Y) * ScanAliases(A) == {};
  }

  lemma SmallTablesJoinFirst(q: LogicalPlan, taken: seq<LogicalPlan>)
    requires Greedy([A, B, C], [ON_TWO, ON_Y], Sizes(), q, taken)
    ensures taken != [] && taken[0] == Join(ON_Y, B, C)
  {
    var i, j, k := FirstOf([A, B, C], [ON_TWO, ON_Y], Sizes(), q, taken);
    SmallPairFirst(i, j, k);
  }
}
