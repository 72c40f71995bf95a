// When moving filters below a join changes whether a plan throws
// (logical/optimizer.cpp, rule 1): a moved conjunct is evaluated on every row
// of its side, and rows it drops are not seen by the others.
module PushdownThrows {
  import opened Wrappers
  import opened Ast
  import opened Values
  import opened Evaluation
  import opened Bags
  import opened Relational
  import opened NormalForm
  import opened Pushdown

  // Filters one after the other: each sees the rows the earlier ones keep.
  predicate Cascade(filters: seq<Expr>, look: Lookup)
  {
    filters == [] || (GivesBoolean(filters[0], look) && (Holds(filters[0], look) ==> Cascade(filters[1..], look)))
  }

  ghost predicate CascadesOn(filters: seq<Expr>, schema: Schema, rows: seq<Row>)
  {
    forall r :: r in rows ==> Cascade(filters, FlatLook(schema, r))
  }

  lemma {:induction false} CascadeAppend(a: seq<Expr>, b: seq<Expr>, look: Lookup)
    ensures Cascade(a + b, look) <==>
      Cascade(a, look) && ((forall c :: c in a ==> Holds(c, look)) ==> Cascade(b, look))
  {
    hide Holds, GivesBoolean;
    if a == [] {
      assert a + b == b;
    } else {
      CascadeAppend(a[1..], b, look);
      assert (a + b)[0] == a[0] && (a + b)[1..] == a[1..] + b && a == [a[0]] + a[1..];
    }
  }

  // A conjunction that gives a boolean throws at none of its conjuncts.
  lemma {:induction false} BooleanCascades(e: Expr, look: Lookup)
    requires GivesBoolean(e, look)
    ensures Cascade(SplitAnd(e), look)
  {
    if e.BinaryOp? && e.binary_op == And {
      BooleanCascades(e.left, look);
      HoldsSplit(e.left, look);
      if Holds(e.left, look) {
        BooleanCascades(e.right, look);
      }
      CascadeAppend(SplitAnd(e.left), SplitAnd(e.right), look);
    } else {
      assert SplitAnd(e) == [e];
    }
  }

  // Filters that hold may be left out.
  lemma {:induction false} CascadeOfSome(keep: Expr -> bool, filters: seq<Expr>, look: Lookup)
    requires Cascade(filters, look) && forall c :: c in filters && !keep(c) ==> Holds(c, look)
    ensures Cascade(Filter(keep, filters), look)
  {
    hide Holds, GivesBoolean;
    if filters != [] {
      FilterStep(keep, filters);
      if Holds(filters[0], look) {
        CascadeOfSome(keep, filters[1..], look);
      }
    }
  }

  lemma {:induction false} WrapRuns(p: LogicalPlan, filters: seq<Expr>, w: World)
    ensures Runs(WrapFilters(p, filters), w) <==> Runs(p, w) && CascadesOn(filters, SchemaOf(p, w), RowsOf(p, w))
    decreases |filters|
  {
    hide Holds, GivesBoolean, FlatLook;
    if filters != [] {
      var k := Keeps(filters[0], SchemaOf(p, w));
      WrapRuns(Select(filters[0], p), filters[1..], w);
      FilterMembers(k, RowsOf(p, w));
    }
  }

  // The conjuncts of e that go to one side of the join, or stay.
  function Sent(e: Expr, join: LogicalPlan, side: Side): seq<Expr>
    requires join.Join?
  {
    match side
    case ToLeft => Filter(c => SideOf(c, join.left, join.right) == ToLeft, SplitAnd(e))
    case ToRight => Filter(c => SideOf(c, join.left, join.right) == ToRight, SplitAnd(e))
    case Stays => Filter(c => SideOf(c, join.left, join.right) == Stays, SplitAnd(e))
  }

  // c has a column of one of the tables of p.
  ghost predicate Mentions(c: Expr, p: LogicalPlan)
  {
    exists table, column :: (Some(table), column) in ColumnsOf(c) && table in Aliases(Leaves(p))
  }

  // A conjunct goes to the one side it mentions, and stays if it mentions both
  // sides or neither.
  lemma SentWhereMentioned(e: Expr, join: LogicalPlan, c: Expr)
    requires join.Join?
    ensures c in Sent(e, join, ToLeft) <==> c in SplitAnd(e) && Mentions(c, join.left) && !Mentions(c, join.right)
    ensures c in Sent(e, join, ToRight) <==> c in SplitAnd(e) && !Mentions(c, join.left) && Mentions(c, join.right)
    ensures c in Sent(e, join, Stays) <==> c in SplitAnd(e) && (Mentions(c, join.left) <==> Mentions(c, join.right))
  {
    FilterMembers(c => SideOf(c, join.left, join.right) == ToLeft, SplitAnd(e));
    FilterMembers(c => SideOf(c, join.left, join.right) == ToRight, SplitAnd(e));
    FilterMembers(c => SideOf(c, join.left, join.right) == Stays, SplitAnd(e));
    MentionsIs(c, join.left);
    MentionsIs(c, join.right);
  }

  lemma MentionsIs(c: Expr, p: LogicalPlan)
    ensures Mentions(c, p) <==> Tables(c) * ScanAliases(p) != {}
  {
    TablesAreColumns(c);
    ScanAliasesAreAliases(p);
    if Tables(c) * ScanAliases(p) != {} {
      var t :| t in Tables(c) * ScanAliases(p);
      var column :| (Some(t), column) in ColumnsOf(c);
    }
    if Mentions(c, p) {
      var table, column :| (Some(table), column) in ColumnsOf(c) && table in Aliases(Leaves(p));
      assert table in Tables(c) * ScanAliases(p);
    }
  }

  // Above a plan that is rewritten to a join, the conjuncts of a filter go to
  // the filters below, on either side, and above that join.
  lemma FilterIsSplit(e: Expr, input: LogicalPlan)
    requires PushPredicates(input).Join?
    ensures var join := PushPredicates(input);
      PushPredicates(Select(e, input)) == WrapFilters(Inner(e, join), Sent(e, join, Stays))
  {
    DistributeIs(e, PushPredicates(input));
  }

  // The join over the filters that went down.
  function Inner(e: Expr, join: LogicalPlan): LogicalPlan
    requires join.Join?
  {
    Join(join.condition, WrapFilters(join.left, Sent(e, join, ToLeft)), WrapFilters(join.right, Sent(e, join, ToRight)))
  }

  lemma DistributeIs(e: Expr, join: LogicalPlan)
    requires join.Join?
    ensures Pushdown.Distribute(e, join) == WrapFilters(Inner(e, join), Sent(e, join, Stays))
  {
  }

  // The rewritten filter throws on none of: the filters sent to a side, on
  // every row of that side; the join condition, on the pairs they leave; the
  // filters that stay, on the joined rows that are left.
  lemma DistributeRuns(e: Expr, join: LogicalPlan, w: World)
    requires join.Join?
    ensures var L, R, inner := RowsOf(join.left, w), RowsOf(join.right, w), Inner(e, join);
      var ls, rs, schema := SchemaOf(join.left, w), SchemaOf(join.right, w), SchemaOf(join, w);
      var lefts, rights := Sent(e, join, ToLeft), Sent(e, join, ToRight);
      Runs(Pushdown.Distribute(e, join), w) <==>
      && Runs(join.left, w) && CascadesOn(lefts, ls, L)
      && Runs(join.right, w) && CascadesOn(rights, rs, R)
      && (forall l, r :: l in L && r in R && AllKeep(lefts, ls)(l) && AllKeep(rights, rs)(r)
            ==> GivesBoolean(join.condition, FlatLook(schema, l + r)))
      && CascadesOn(Sent(e, join, Stays), schema, RowsOf(inner, w))
  {
    hide CascadesOn, AllKeep, GivesBoolean, FlatLook, Sent;
    var inner, lefts, rights := Inner(e, join), Sent(e, join, ToLeft), Sent(e, join, ToRight);
    DistributeIs(e, join);
    WrapRuns(join.left, lefts, w);
    WrapRuns(join.right, rights, w);
    WrapRuns(inner, Sent(e, join, Stays), w);
    WrapRows(join.left, lefts, w);
    WrapRows(join.right, rights, w);
    FilterMembers(AllKeep(lefts, SchemaOf(join.left, w)), RowsOf(join.left, w));
    FilterMembers(AllKeep(rights, SchemaOf(join.right, w)), RowsOf(join.right, w));
  }

  // Where the filter over the join does not throw, the rewritten plan throws
  // exactly when some filter sent to a side throws on a row of that side.
  lemma SentFiltersThrow(e: Expr, join: LogicalPlan, w: World)
    requires join.Join? && JoinTree(join) && Scoped(join) && Distinct(Leaves(join)) && WellFormed(w.db)
    requires Qualified(e, Aliases(Leaves(join))) && Runs(Select(e, join), w)
    ensures Runs(Pushdown.Distribute(e, join), w) <==>
      && CascadesOn(Sent(e, join, ToLeft), SchemaOf(join.left, w), RowsOf(join.left, w))
      && CascadesOn(Sent(e, join, ToRight), SchemaOf(join.right, w), RowsOf(join.right, w))
  {
    hide CascadesOn, AllKeep, GivesBoolean, FlatLook, Sent, Holds, JoinRows, Qualified, Scoped;
    DistributeRuns(e, join, w);
    StayingCascades(e, join, w);
  }

  // On a row that passed every filter sent down, what is left throws nothing
  // the whole filter would not.
  lemma StayingCascades(e: Expr, join: LogicalPlan, w: World)
    requires join.Join? && JoinTree(join) && Scoped(join) && Distinct(Leaves(join)) && WellFormed(w.db)
    requires Qualified(e, Aliases(Leaves(join))) && Runs(Select(e, join), w)
    ensures CascadesOn(Sent(e, join, Stays), SchemaOf(join, w), RowsOf(Inner(e, join), w))
  {
    hide AllKeep, GivesBoolean, FlatLook, Holds, Qualified, Scoped, Cascade, SideOf;
    var left, right, schema := join.left, join.right, SchemaOf(join, w);
    var lefts, rights := Sent(e, join, ToLeft), Sent(e, join, ToRight);
    var keep := Keeps(join.condition, schema);
    SentConjuncts(e, left, right);
    SideConditions(lefts, left, right, w);
    SideConditions(rights, left, right, w);
    WrapRows(left, lefts, w);
    WrapRows(right, rights, w);
    FilterMembers(AllKeep(lefts, SchemaOf(left, w)), RowsOf(left, w));
    FilterMembers(AllKeep(rights, SchemaOf(right, w)), RowsOf(right, w));
    JoinMembers(RowsOf(WrapFilters(left, lefts), w), RowsOf(WrapFilters(right, rights), w), keep);
    JoinMembers(RowsOf(left, w), RowsOf(right, w), keep);
    forall x | x in RowsOf(Inner(e, join), w) ensures Cascade(Sent(e, join, Stays), FlatLook(schema, x)) {
      var l, r :| l in RowsOf(WrapFilters(left, lefts), w) && r in RowsOf(WrapFilters(right, rights), w) && x == l + r;
      assert x in RowsOf(join, w);
      RestCascades(e, join, schema, x);
    }
  }

  lemma RestCascades(e: Expr, join: LogicalPlan, schema: Schema, row: Row)
    requires join.Join? && GivesBoolean(e, FlatLook(schema, row))
    requires AllKeep(Sent(e, join, ToLeft), schema)(row) && AllKeep(Sent(e, join, ToRight), schema)(row)
    ensures Cascade(Sent(e, join, Stays), FlatLook(schema, row))
  {
    hide AllKeep, GivesBoolean, FlatLook, Holds, Cascade, SideOf;
    BooleanCascades(e, FlatLook(schema, row));
    SentHold(e, join, schema, row);
    CascadeOfSome(c => SideOf(c, join.left, join.right) == Stays, SplitAnd(e), FlatLook(schema, row));
  }

  lemma SentHold(e: Expr, join: LogicalPlan, schema: Schema, row: Row)
    requires join.Join? && AllKeep(Sent(e, join, ToLeft), schema)(row) && AllKeep(Sent(e, join, ToRight), schema)(row)
    ensures forall c :: c in SplitAnd(e) && SideOf(c, join.left, join.right) != Stays ==>
      Holds(c, FlatLook(schema, row))
  {
    hide Holds, SideOf;
    FilterMembers(c => SideOf(c, join.left, join.right) == ToLeft, SplitAnd(e));
    FilterMembers(c => SideOf(c, join.left, join.right) == ToRight, SplitAnd(e));
  }

  // ---- Inputs ----

  const A_X := Column(Some("a"), "x")
  const NUMBER := Lit(Integer(1))
  const NONE_LEFT := BinaryOp(A_X, Eq, Lit(Integer(2)))
  const PRODUCT := Join(Lit(Boolean(true)), Scan("a", None), Scan("b", None))

  lemma Sides()
    ensures SideOf(A_X, PRODUCT.left, PRODUCT.right) == ToLeft
    ensures SideOf(NONE_LEFT, PRODUCT.left, PRODUCT.right) == ToLeft
    ensures SideOf(NUMBER, PRODUCT.left, PRODUCT.right) == Stays
  {
    assert "a" in Tables(A_X) * ScanAliases(PRODUCT.left);
    assert "a" in Tables(NONE_LEFT) * ScanAliases(PRODUCT.left);
    assert ScanAliases(PRODUCT.right) == {"b"} && "a" != "b";
    assert Tables(NUMBER) == {};
  }

  lemma FilterOne(keep: Expr -> bool, e: Expr)
    ensures Filter(keep, [e]) == if keep(e) then [e] else []
  {
    assert [e][1..] == [];
  }

  lemma LooksUpX(w: World, row: Row)
    requires "a" in w.db && w.db["a"].columns == ["x"] && |row| == 1
    ensures FlatLook(SchemaOf(PRODUCT.left, w), row)(Some("a"), "x") == Some(row[0])
  {
    var schema := SchemaOf(PRODUCT.left, w);
    assert schema == [Entry(Some("a"), "x")];
  }

  // A filter that is a number, over a join without rows: only the rewritten
  // plan throws.
  lemma PushingThrows(w: World)
    requires w.db == map["a" := Table(["x"], [[Integer(1)]]), "b" := Table(["y"], [])]
    ensures Runs(Select(A_X, PRODUCT), w) && !Runs(PushPredicates(Select(A_X, PRODUCT)), w)
  {
    hide SideOf, GivesBoolean, FlatLook;
    Sides();
    assert SplitAnd(A_X) == [A_X];
    FilterOne(c => SideOf(c, PRODUCT.left, PRODUCT.right) == ToLeft, A_X);
    assert Sent(A_X, PRODUCT, ToLeft) == [A_X];
    NotBoolean(w);
    assert [Integer(1)] in RowsOf(PRODUCT.left, w);
    PushedOverProduct(A_X);
    DistributeRuns(A_X, PRODUCT, w);
    NoRows(w);
  }

  lemma NotBoolean(w: World)
    requires "a" in w.db && w.db["a"].columns == ["x"]
    ensures !GivesBoolean(A_X, FlatLook(SchemaOf(PRODUCT.left, w), [Integer(1)]))
  {
    LooksUpX(w, [Integer(1)]);
  }

  lemma NoRows(w: World)
    requires "a" in w.db && "b" in w.db && w.db["b"].rows == []
    ensures Runs(PRODUCT, w) && forall x :: x !in RowsOf(PRODUCT, w)
  {
    var keep := Keeps(PRODUCT.condition, SchemaOf(PRODUCT, w));
    JoinMembers(RowsOf(PRODUCT.left, w), [], keep);
    assert RowsOf(PRODUCT, w) == JoinRows(RowsOf(PRODUCT.left, w), [], keep);
  }

  // A number, and a filter on one side that keeps nothing: only the original
  // plan throws.
  lemma PushingHidesThrow(w: World)
    requires w.db == map["a" := Table(["x"], [[Integer(1)]]), "b" := Table(["y"], [[Integer(1)]])]
    ensures var e := BinaryOp(NUMBER, And, NONE_LEFT);
      !Runs(Select(e, PRODUCT), w) && Runs(PushPredicates(Select(e, PRODUCT)), w)
  {
    hide *;
    var e := BinaryOp(NUMBER, And, NONE_LEFT);
    NothingLeftRuns(e, w);
    NumberOverRow(NONE_LEFT, w);
  }

  lemma NumberOverRow(e: Expr, w: World)
    requires "a" in w.db && w.db["a"].rows == [[Integer(1)]] && "b" in w.db && w.db["b"].rows == [[Integer(1)]]
    ensures !Runs(Select(BinaryOp(NUMBER, And, e), PRODUCT), w)
  {
    hide FlatLook, GivesBoolean;
    OneRow(w);
    NumberThrows(e, FlatLook(SchemaOf(PRODUCT, w), [Integer(1), Integer(1)]));
  }

  lemma NothingLeftRuns(e: Expr, w: World)
    requires w.db == map["a" := Table(["x"], [[Integer(1)]]), "b" := Table(["y"], [[Integer(1)]])]
    requires e == BinaryOp(NUMBER, And, NONE_LEFT)
    ensures Runs(PushPredicates(Select(e, PRODUCT)), w)
  {
    hide *;
    SplitOfTwo();
    SentOfTwo(e, ToLeft);
    SentOfTwo(e, ToRight);
    PushedOverProduct(e);
    RunsWithoutLeft(e, w);
  }

  lemma SplitOfTwo()
    ensures SplitAnd(BinaryOp(NUMBER, And, NONE_LEFT)) == [NUMBER] + [NONE_LEFT]
  {
    assert SplitAnd(NUMBER) == [NUMBER] && SplitAnd(NONE_LEFT) == [NONE_LEFT];
  }

  lemma PushedOverProduct(e: Expr)
    ensures PushPredicates(Select(e, PRODUCT)) == Pushdown.Distribute(e, PRODUCT)
  {
    hide Pushdown.Distribute;
    assert PushPredicates(PRODUCT) == PRODUCT;
  }

  lemma RunsWithoutLeft(e: Expr, w: World)
    requires Sent(e, PRODUCT, ToLeft) == [NONE_LEFT] && Sent(e, PRODUCT, ToRight) == []
    requires "a" in w.db && "b" in w.db && w.db["a"] == Table(["x"], [[Integer(1)]])
    ensures Runs(Pushdown.Distribute(e, PRODUCT), w)
  {
    hide SideOf, FlatLook, GivesBoolean, Holds, Sent, AllKeep, Inner, Filter, WrapFilters, JoinRows, SplitAnd;
    DistributeRuns(e, PRODUCT, w);
    LeftKeepsNothing(w);
    NothingJoined(e, w);
  }

  lemma NothingJoined(e: Expr, w: World)
    requires Sent(e, PRODUCT, ToLeft) == [NONE_LEFT] && "a" in w.db && w.db["a"] == Table(["x"], [[Integer(1)]])
    ensures forall x :: x !in RowsOf(Inner(e, PRODUCT), w)
  {
    hide SideOf, FlatLook, GivesBoolean, Holds, Sent, AllKeep;
    LeftKeepsNothing(w);
    WrapRows(PRODUCT.left, [NONE_LEFT], w);
    FilterMembers(AllKeep([NONE_LEFT], SchemaOf(PRODUCT.left, w)), RowsOf(PRODUCT.left, w));
    var inner := Inner(e, PRODUCT);
    JoinMembers(RowsOf(inner.left, w), RowsOf(inner.right, w), Keeps(inner.condition, SchemaOf(inner, w)));
  }

  lemma SentOfTwo(e: Expr, side: Side)
    requires SplitAnd(e) == [NUMBER] + [NONE_LEFT] && side != Stays
    ensures Sent(e, PRODUCT, side) == if side == ToLeft then [NONE_LEFT] else []
  {
    hide SideOf;
    Sides();
    var keep: Expr -> bool := if side == ToLeft then c => SideOf(c, PRODUCT.left, PRODUCT.right) == ToLeft
                              else c => SideOf(c, PRODUCT.left, PRODUCT.right) == ToRight;
    FilterOne(keep, NONE_LEFT);
    FilterStep(keep, SplitAnd(e));
    assert SplitAnd(e)[1..] == [NONE_LEFT];
  }

  lemma LeftKeepsNothing(w: World)
    requires "a" in w.db && w.db["a"] == Table(["x"], [[Integer(1)]])
    ensures CascadesOn([NONE_LEFT], SchemaOf(PRODUCT.left, w), RowsOf(PRODUCT.left, w))
    ensures !AllKeep([NONE_LEFT], SchemaOf(PRODUCT.left, w))([Integer(1)])
    ensures RowsOf(PRODUCT.left, w) == [[Integer(1)]]
  {
    var look := FlatLook(SchemaOf(PRODUCT.left, w), [Integer(1)]);
    LooksUpX(w, [Integer(1)]);
    assert Evaluate(NONE_LEFT, look) == Some(Boolean(false));
    assert NONE_LEFT in [NONE_LEFT];
  }

  lemma OneRow(w: World)
    requires "a" in w.db && w.db["a"].rows == [[Integer(1)]] && "b" in w.db && w.db["b"].rows == [[Integer(1)]]
    ensures [Integer(1), Integer(1)] in RowsOf(PRODUCT, w)
  {
    JoinMembers([[Integer(1)]], [[Integer(1)]], Keeps(PRODUCT.condition, SchemaOf(PRODUCT, w)));
    assert [Integer(1)] + [Integer(1)] == [Integer(1), Integer(1)];
  }

  lemma NumberThrows(e: Expr, look: Lookup)
    ensures !GivesBoolean(BinaryOp(NUMBER, And, e), look)
  {
    assert Evaluate(NUMBER, look) == Some(Integer(1));
  }
}
