// Rule 1 of logical/optimizer.cpp: filters above a join move to the side they
// mention.
module Pushdown {
  import opened Wrappers
  import opened Ast
  import opened Values
  import opened Evaluation
  import opened Bags
  import opened Relational
  import opened NormalForm

  // visit_tables
  function Tables(e: Expr): set<string>
  {
    match e
    case Column(t, _) => if t.Some? then {t.value} else {}
    case BinaryOp(l, _, r) => Tables(l) + Tables(r)
    case UnaryOp(_, x) => Tables(x)
    case Function(_, args) => set i, t | 0 <= i < |args| && t in Tables(args[i]) :: t
    case _ => {}
  }

  // collect_aliases
  function ScanAliases(p: LogicalPlan): set<string>
  {
    match p
    case Scan(table, alias) => {Name(table, alias)}
    case Join(_, left, right) => ScanAliases(left) + ScanAliases(right)
    case Select(_, input) => ScanAliases(input)
    case Above(_, input) => ScanAliases(input)
  }

  // Stacks filters on a plan, the first one innermost.
  function WrapFilters(p: LogicalPlan, filters: seq<Expr>): LogicalPlan
    decreases |filters|
  {
    if filters == [] then p else WrapFilters(Select(filters[0], p), filters[1..])
  }

  datatype Side = ToLeft | ToRight | Stays

  // Where a conjunct goes: to the one side whose aliases it mentions.
  function SideOf(c: Expr, left: LogicalPlan, right: LogicalPlan): Side
  {
    var onLeft, onRight := Tables(c) * ScanAliases(left) != {}, Tables(c) * ScanAliases(right) != {};
    if onLeft && !onRight then ToLeft else if !onLeft && onRight then ToRight else Stays
  }

  function PushPredicates(p: LogicalPlan): LogicalPlan
  {
    match p
    case Scan(_, _) => p
    case Join(e, left, right) => Join(e, PushPredicates(left), PushPredicates(right))
    case Above(op, input) => Above(op, PushPredicates(input))
    case Select(e, input) =>
      var pushed := PushPredicates(input);
      if !pushed.Join? then Select(e, pushed) else Distribute(e, pushed)
  }

  function Distribute(e: Expr, join: LogicalPlan): LogicalPlan
    requires join.Join?
  {
    var conjuncts := SplitAnd(e);
    var l := Filter(c => SideOf(c, join.left, join.right) == ToLeft, conjuncts);
    var r := Filter(c => SideOf(c, join.left, join.right) == ToRight, conjuncts);
    var rest := Filter(c => SideOf(c, join.left, join.right) == Stays, conjuncts);
    WrapFilters(Join(join.condition, WrapFilters(join.left, l), WrapFilters(join.right, r)), rest)
  }

  // Joins combine trees of scans, filters and joins; in such a tree aliases
  // are distinct and columns are qualified by an alias in scope.
  ghost predicate Valid(p: LogicalPlan)
  {
    if JoinTree(p) then Scoped(p) && Distinct(Leaves(p))
    else (p.Above? && Valid(p.input)) || (p.Select? && Valid(p.input))
  }

  lemma {:induction false} TablesAreColumns(e: Expr)
    ensures forall t :: t in Tables(e) <==> exists c :: (Some(t), c) in ColumnsOf(e)
  {
    match e
    case BinaryOp(l, _, r) =>
      TablesAreColumns(l);
      TablesAreColumns(r);
    case UnaryOp(_, x) => TablesAreColumns(x);
    case Function(_, args) =>
      forall i | 0 <= i < |args|
        ensures forall t :: t in Tables(args[i]) <==> exists c :: (Some(t), c) in ColumnsOf(args[i])
      {
        TablesAreColumns(args[i]);
      }
      TablesOfArguments(e);
    case Column(t, c) => assert (t, c) in ColumnsOf(e);
    case _ =>
  }

  lemma TablesOfArguments(e: Expr)
    requires e.Function?
    requires forall i, t :: 0 <= i < |e.args| ==>
      (t in Tables(e.args[i]) <==> exists c :: (Some(t), c) in ColumnsOf(e.args[i]))
    ensures forall t :: t in Tables(e) <==> exists c :: (Some(t), c) in ColumnsOf(e)
  {
    forall t ensures t in Tables(e) <==> exists c :: (Some(t), c) in ColumnsOf(e) {
      if t in Tables(e) {
        var i :| 0 <= i < |e.args| && t in Tables(e.args[i]);
        var c :| (Some(t), c) in ColumnsOf(e.args[i]);
        assert (Some(t), c) in ColumnsOf(e);
      }
      if c :| (Some(t), c) in ColumnsOf(e) {
        var i :| 0 <= i < |e.args| && (Some(t), c) in ColumnsOf(e.args[i]);
        assert t in Tables(e.args[i]);
      }
    }
  }

  lemma {:induction false} ScanAliasesAreAliases(p: LogicalPlan)
    ensures ScanAliases(p) == Aliases(Leaves(p))
  {
    match p
    case Scan(table, alias) => assert Leaves(p)[0].alias in Aliases(Leaves(p));
    case Join(_, left, right) =>
      ScanAliasesAreAliases(left);
      ScanAliasesAreAliases(right);
      AliasesAppend(Leaves(left), Leaves(right));
    case Select(_, input) => ScanAliasesAreAliases(input);
    case Above(_, input) => ScanAliasesAreAliases(input);
  }

  // A conjunct sent to one side mentions only that side.
  lemma SentIsQualified(c: Expr, left: LogicalPlan, right: LogicalPlan)
    requires Qualified(c, Aliases(Leaves(left) + Leaves(right)))
    ensures SideOf(c, left, right) == ToLeft ==> Qualified(c, Aliases(Leaves(left)))
    ensures SideOf(c, left, right) == ToRight ==> Qualified(c, Aliases(Leaves(right)))
  {
    TablesAreColumns(c);
    ScanAliasesAreAliases(left);
    ScanAliasesAreAliases(right);
    AliasesAppend(Leaves(left), Leaves(right));
    forall q | q in ColumnsOf(c) ensures q.0.Some? && q.0.value in Tables(c) {
      assert (Some(q.0.value), q.1) in ColumnsOf(c);
    }
    if SideOf(c, left, right) == ToLeft {
      assert forall t :: t in Tables(c) && t in ScanAliases(right) ==> t in Tables(c) * ScanAliases(right);
    } else if SideOf(c, left, right) == ToRight {
      assert forall t :: t in Tables(c) && t in ScanAliases(left) ==> t in Tables(c) * ScanAliases(left);
    }
  }

  // ---- Shape ----

  lemma {:induction false} WrapShape(p: LogicalPlan, filters: seq<Expr>)
    requires JoinTree(p) && Scoped(p) && forall c :: c in filters ==> Qualified(c, Aliases(Leaves(p)))
    ensures JoinTree(WrapFilters(p, filters)) && Scoped(WrapFilters(p, filters))
    ensures Leaves(WrapFilters(p, filters)) == Leaves(p)
    decreases |filters|
  {
    if filters != [] {
      WrapShape(Select(filters[0], p), filters[1..]);
    }
  }

  lemma DistributeShape(e: Expr, join: LogicalPlan)
    requires join.Join? && JoinTree(join) && Scoped(join) && Qualified(e, Aliases(Leaves(join)))
    ensures JoinTree(Distribute(e, join)) && Scoped(Distribute(e, join)) && Leaves(Distribute(e, join)) == Leaves(join)
  {
    hide SideOf, Qualified;
    var conjuncts := SplitAnd(e);
    SplitQualified(e, Aliases(Leaves(join)));
    SentConjuncts(e, join.left, join.right);
    FilterMembers(c => SideOf(c, join.left, join.right) == Stays, conjuncts);
    var l := Filter(c => SideOf(c, join.left, join.right) == ToLeft, conjuncts);
    var r := Filter(c => SideOf(c, join.left, join.right) == ToRight, conjuncts);
    var rest := Filter(c => SideOf(c, join.left, join.right) == Stays, conjuncts);
    WrapShape(join.left, l);
    WrapShape(join.right, r);
    WrapShape(Join(join.condition, WrapFilters(join.left, l), WrapFilters(join.right, r)), rest);
  }

  // Pushing keeps the leaves in order and every condition in scope.
  lemma {:induction false} PushShape(p: LogicalPlan)
    requires JoinTree(p) && Scoped(p)
    ensures JoinTree(PushPredicates(p)) && Scoped(PushPredicates(p)) && Leaves(PushPredicates(p)) == Leaves(p)
  {
    match p
    case Scan(_, _) =>
    case Join(_, left, right) =>
      PushShape(left);
      PushShape(right);
    case Select(e, input) =>
      PushShape(input);
      if PushPredicates(input).Join? {
        DistributeShape(e, PushPredicates(input));
      }
  }

  // ---- Rows, in order ----

  // Filtering the left input is filtering the join.
  lemma {:induction false} FilterLeft(left: seq<Row>, right: seq<Row>, keep: Row -> bool, p: Row -> bool,
                                      whole: Row -> bool)
    requires forall l, r :: l in left && r in right ==> whole(l + r) == p(l)
    ensures JoinRows(Filter(p, left), right, keep) == Filter(whole, JoinRows(left, right, keep))
  {
    if left != [] {
      var first, rest := Filter(keep, Prefixed(left[0], right)), JoinRows(left[1..], right, keep);
      FilterLeft(left[1..], right, keep, p, whole);
      assert JoinRows(left, right, keep) == first + rest;
      FilterAppend(whole, first, rest);
      PrefixedMembers(left[0], right);
      FilterMembers(keep, Prefixed(left[0], right));
      FilterStep(p, left);
      if p(left[0]) {
        AllPass(whole, first);
        assert JoinRows(Filter(p, left), right, keep) == first + JoinRows(Filter(p, left[1..]), right, keep);
      } else {
        NonePass(whole, first);
        assert [] + Filter(whole, rest) == Filter(whole, rest);
      }
    }
  }

  // Filtering the right input is filtering the join.
  lemma {:induction false} FilterRight(left: seq<Row>, right: seq<Row>, keep: Row -> bool, p: Row -> bool,
                                       whole: Row -> bool)
    requires forall l, r :: l in left && r in right ==> whole(l + r) == p(r)
    ensures JoinRows(left, Filter(p, right), keep) == Filter(whole, JoinRows(left, right, keep))
  {
    hide Prefixed;
    if left != [] {
      var all, rest := Prefixed(left[0], right), JoinRows(left[1..], right, keep);
      FilterPrefixed(left[0], right, p, whole);
      FiltersCommute(whole, keep, all);
      FilterRight(left[1..], right, keep, p, whole);
      assert JoinRows(left, right, keep) == Filter(keep, all) + rest;
      FilterAppend(whole, Filter(keep, all), rest);
    }
  }

  lemma FiltersCommute<T>(p: T -> bool, q: T -> bool, s: seq<T>)
    ensures Filter(q, Filter(p, s)) == Filter(p, Filter(q, s))
  {
    FilterTwice(p, q, x => p(x) && q(x), s);
    FilterTwice(q, p, x => p(x) && q(x), s);
  }

  ghost function AllKeep(filters: seq<Expr>, schema: Schema): Row -> bool
  {
    row => forall c :: c in filters ==> Holds(c, FlatLook(schema, row))
  }

  lemma {:induction false} WrapRows(p: LogicalPlan, filters: seq<Expr>, w: World)
    ensures SchemaOf(WrapFilters(p, filters), w) == SchemaOf(p, w)
    ensures RowsOf(WrapFilters(p, filters), w) == Filter(AllKeep(filters, SchemaOf(p, w)), RowsOf(p, w))
    decreases |filters|
  {
    hide Holds, FlatLook;
    var schema := SchemaOf(p, w);
    if filters == [] {
      AllPass(AllKeep(filters, schema), RowsOf(p, w));
    } else {
      var k, ks := Keeps(filters[0], schema), AllKeep(filters[1..], schema);
      WrapRows(Select(filters[0], p), filters[1..], w);
      assert filters == [filters[0]] + filters[1..];
      FilterTwice(k, ks, AllKeep(filters, schema), RowsOf(p, w));
    }
  }

  // A condition on one input's columns sees that input alone.
  lemma SeesItsSide(c: Expr, left: LogicalPlan, right: LogicalPlan, l: Row, r: Row, w: World)
    requires JoinTree(left) && JoinTree(right) && Distinct(Leaves(left) + Leaves(right)) && |l| == |SchemaOf(left, w)|
    ensures Qualified(c, Aliases(Leaves(left))) ==>
      Holds(c, FlatLook(SchemaOf(left, w) + SchemaOf(right, w), l + r)) == Holds(c, FlatLook(SchemaOf(left, w), l))
    ensures Qualified(c, Aliases(Leaves(right))) ==>
      Holds(c, FlatLook(SchemaOf(left, w) + SchemaOf(right, w), l + r)) == Holds(c, FlatLook(SchemaOf(right, w), r))
  {
    hide Resolve;
    var sl, sr := SchemaOf(left, w), SchemaOf(right, w);
    SchemaIsLeafSchema(left, w);
    SchemaIsLeafSchema(right, w);
    DistinctHalves(Leaves(left), Leaves(right));
    var both, fl, fr := FlatLook(sl + sr, l + r), FlatLook(sl, l), FlatLook(sr, r);
    if Qualified(c, Aliases(Leaves(left))) {
      forall q | q in ColumnsOf(c) ensures both(q.0, q.1) == fl(q.0, q.1) {
        LookPastPrefix(sl, sr, l, r, q.0.value, q.1);
        ResolveElsewhere(Leaves(right), w.db, q.0.value, q.1);
        LookNowhere(sr, r, q.0.value, q.1);
        LookUnresolved(sl, l, q.0.value, q.1);
      }
      EvaluateFrame(c, both, fl);
    }
    if Qualified(c, Aliases(Leaves(right))) {
      forall q | q in ColumnsOf(c) ensures both(q.0, q.1) == fr(q.0, q.1) {
        LookPastPrefix(sl, sr, l, r, q.0.value, q.1);
        ResolveElsewhere(Leaves(left), w.db, q.0.value, q.1);
      }
      EvaluateFrame(c, both, fr);
    }
  }

  lemma LookUnresolved(schema: Schema, row: Row, alias: string, column: string)
    ensures ResolveQualified(schema, alias, column).None? ==> FlatLook(schema, row)(Some(alias), column) == None
  {
  }

  lemma SideConditions(filters: seq<Expr>, left: LogicalPlan, right: LogicalPlan, w: World)
    requires JoinTree(left) && JoinTree(right) && Distinct(Leaves(left) + Leaves(right)) && WellFormed(w.db)
    ensures (forall c :: c in filters ==> Qualified(c, Aliases(Leaves(left)))) ==>
      forall l, r :: l in RowsOf(left, w) && r in RowsOf(right, w) ==>
        AllKeep(filters, SchemaOf(left, w) + SchemaOf(right, w))(l + r) == AllKeep(filters, SchemaOf(left, w))(l)
    ensures (forall c :: c in filters ==> Qualified(c, Aliases(Leaves(right)))) ==>
      forall l, r :: l in RowsOf(left, w) && r in RowsOf(right, w) ==>
        AllKeep(filters, SchemaOf(left, w) + SchemaOf(right, w))(l + r) == AllKeep(filters, SchemaOf(right, w))(r)
  {
    hide Qualified, RowsOf, AllKeep;
    RowWidths(left, w);
    SchemaIsLeafSchema(left, w);
    SchemaWidth(Leaves(left), w.db);
    forall l, r | l in RowsOf(left, w) && r in RowsOf(right, w)
      ensures (forall c :: c in filters ==> Qualified(c, Aliases(Leaves(left)))) ==>
        AllKeep(filters, SchemaOf(left, w) + SchemaOf(right, w))(l + r) == AllKeep(filters, SchemaOf(left, w))(l)
      ensures (forall c :: c in filters ==> Qualified(c, Aliases(Leaves(right)))) ==>
        AllKeep(filters, SchemaOf(left, w) + SchemaOf(right, w))(l + r) == AllKeep(filters, SchemaOf(right, w))(r)
    {
      SideConditionsAt(filters, left, right, l, r, w);
    }
  }

  lemma SideConditionsAt(filters: seq<Expr>, left: LogicalPlan, right: LogicalPlan, l: Row, r: Row, w: World)
    requires JoinTree(left) && JoinTree(right) && Distinct(Leaves(left) + Leaves(right)) && |l| == |SchemaOf(left, w)|
    ensures (forall c :: c in filters ==> Qualified(c, Aliases(Leaves(left)))) ==>
      AllKeep(filters, SchemaOf(left, w) + SchemaOf(right, w))(l + r) == AllKeep(filters, SchemaOf(left, w))(l)
    ensures (forall c :: c in filters ==> Qualified(c, Aliases(Leaves(right)))) ==>
      AllKeep(filters, SchemaOf(left, w) + SchemaOf(right, w))(l + r) == AllKeep(filters, SchemaOf(right, w))(r)
  {
    hide Holds, FlatLook, Qualified, Aliases, SchemaOf;
    forall c | c in filters
      ensures Qualified(c, Aliases(Leaves(left))) ==>
        Holds(c, FlatLook(SchemaOf(left, w) + SchemaOf(right, w), l + r)) == Holds(c, FlatLook(SchemaOf(left, w), l))
      ensures Qualified(c, Aliases(Leaves(right))) ==>
        Holds(c, FlatLook(SchemaOf(left, w) + SchemaOf(right, w), l + r)) == Holds(c, FlatLook(SchemaOf(right, w), r))
    {
      SeesItsSide(c, left, right, l, r, w);
    }
  }

  // The conjuncts of e, sorted by side, hold together exactly when e does.
  lemma SidesDecide(e: Expr, left: LogicalPlan, right: LogicalPlan, schema: Schema, row: Row)
    ensures Holds(e, FlatLook(schema, row)) <==>
      AllKeep(Filter(c => SideOf(c, left, right) == ToLeft, SplitAnd(e)), schema)(row)
      && AllKeep(Filter(c => SideOf(c, left, right) == ToRight, SplitAnd(e)), schema)(row)
      && AllKeep(Filter(c => SideOf(c, left, right) == Stays, SplitAnd(e)), schema)(row)
  {
    hide Holds, SideOf;
    HoldsSplit(e, FlatLook(schema, row));
    FilterMembers(c => SideOf(c, left, right) == ToLeft, SplitAnd(e));
    FilterMembers(c => SideOf(c, left, right) == ToRight, SplitAnd(e));
    FilterMembers(c => SideOf(c, left, right) == Stays, SplitAnd(e));
  }

  // Distributing a filter over a join keeps every row in its place.
  lemma DistributeRows(e: Expr, join: LogicalPlan, w: World)
    requires join.Join? && JoinTree(join) && Scoped(join) && Distinct(Leaves(join)) && WellFormed(w.db)
    requires Qualified(e, Aliases(Leaves(join)))
    ensures SchemaOf(Distribute(e, join), w) == SchemaOf(join, w)
    ensures RowsOf(Distribute(e, join), w) == RowsOf(Select(e, join), w)
  {
    hide SideOf, Holds, FlatLook, Qualified, JoinRows;
    var left, right := join.left, join.right;
    var l := Filter(c => SideOf(c, left, right) == ToLeft, SplitAnd(e));
    var r := Filter(c => SideOf(c, left, right) == ToRight, SplitAnd(e));
    var rest := Filter(c => SideOf(c, left, right) == Stays, SplitAnd(e));
    SentConjuncts(e, left, right);
    SideConditions(l, left, right, w);
    SideConditions(r, left, right, w);
    WrapRows(left, l, w);
    WrapRows(right, r, w);
    var schema := SchemaOf(join, w);
    var keep, L, R := Keeps(join.condition, schema), RowsOf(left, w), RowsOf(right, w);
    var L', R' := RowsOf(WrapFilters(left, l), w), RowsOf(WrapFilters(right, r), w);
    FilterMembers(AllKeep(r, SchemaOf(right, w)), R);
    FilterLeft(L, R', keep, AllKeep(l, SchemaOf(left, w)), AllKeep(l, schema));
    FilterRight(L, R, keep, AllKeep(r, SchemaOf(right, w)), AllKeep(r, schema));
    var inner := Join(join.condition, WrapFilters(left, l), WrapFilters(right, r));
    assert RowsOf(inner, w) == Filter(AllKeep(l, schema), Filter(AllKeep(r, schema), JoinRows(L, R, keep)));
    WrapRows(inner, rest, w);
    forall x
      ensures Keeps(e, schema)(x) <==> AllKeep(l, schema)(x) && AllKeep(r, schema)(x) && AllKeep(rest, schema)(x) {
      SidesDecide(e, left, right, schema, x);
    }
    ThreeFilters(AllKeep(r, schema), AllKeep(l, schema), AllKeep(rest, schema), Keeps(e, schema), JoinRows(L, R, keep));
  }

  lemma ThreeFilters<T(!new)>(p: T -> bool, q: T -> bool, r: T -> bool, all: T -> bool, s: seq<T>)
    requires forall x :: all(x) == (p(x) && q(x) && r(x))
    ensures Filter(r, Filter(q, Filter(p, s))) == Filter(all, s)
  {
    FilterTwice(p, q, x => p(x) && q(x), s);
    FilterTwice(x => p(x) && q(x), r, all, s);
  }

  lemma SentConjuncts(e: Expr, left: LogicalPlan, right: LogicalPlan)
    requires Qualified(e, Aliases(Leaves(left) + Leaves(right)))
    ensures forall c :: c in Filter(c => SideOf(c, left, right) == ToLeft, SplitAnd(e)) ==>
      Qualified(c, Aliases(Leaves(left)))
    ensures forall c :: c in Filter(c => SideOf(c, left, right) == ToRight, SplitAnd(e)) ==>
      Qualified(c, Aliases(Leaves(right)))
  {
    hide SideOf, Qualified, Aliases;
    SplitQualified(e, Aliases(Leaves(left) + Leaves(right)));
    FilterMembers(c => SideOf(c, left, right) == ToLeft, SplitAnd(e));
    FilterMembers(c => SideOf(c, left, right) == ToRight, SplitAnd(e));
    forall c | c in SplitAnd(e)
      ensures SideOf(c, left, right) == ToLeft ==> Qualified(c, Aliases(Leaves(left)))
      ensures SideOf(c, left, right) == ToRight ==> Qualified(c, Aliases(Leaves(right)))
    {
      SentIsQualified(c, left, right);
    }
  }

  lemma {:induction false} PushedTreeRows(p: LogicalPlan, w: World)
    requires JoinTree(p) && Scoped(p) && Distinct(Leaves(p)) && WellFormed(w.db)
    ensures SchemaOf(PushPredicates(p), w) == SchemaOf(p, w)
    ensures RowsOf(PushPredicates(p), w) == RowsOf(p, w)
  {
    match p
    case Scan(_, _) =>
    case Join(_, left, right) =>
      DistinctHalves(Leaves(left), Leaves(right));
      PushedTreeRows(left, w);
      PushedTreeRows(right, w);
    case Select(e, input) =>
      PushedTreeRows(input, w);
      PushShape(input);
      if PushPredicates(input).Join? {
        DistributeRows(e, PushPredicates(input), w);
      }
  }

  // Predicate pushdown keeps the rows of every plan, in order, on every
  // database and under any meaning of the operators above the joins.
  lemma {:induction false} PushdownPreservesRows(p: LogicalPlan, w: World)
    requires Valid(p) && WellFormed(w.db)
    ensures SchemaOf(PushPredicates(p), w) == SchemaOf(p, w)
    ensures RowsOf(PushPredicates(p), w) == RowsOf(p, w)
  {
    if JoinTree(p) {
      PushedTreeRows(p, w);
    } else if p.Above? {
      PushdownPreservesRows(p.input, w);
    } else {
      PushdownPreservesRows(p.input, w);
      PushedIsJoinOnlyFromTree(p.input);
    }
  }

  lemma {:induction false} PushedIsJoinOnlyFromTree(p: LogicalPlan)
    requires Valid(p) && !JoinTree(p)
    ensures !PushPredicates(p).Join?
  {
    if p.Select? {
      PushedIsJoinOnlyFromTree(p.input);
    }
  }

  // ---- Throwing ----

  lemma {:induction false} SplitIsAtomic(e: Expr)
    ensures forall c :: c in SplitAnd(e) ==> SplitAnd(c) == [c]
  {
    if e.BinaryOp? && e.binary_op == And {
      SplitIsAtomic(e.left);
      SplitIsAtomic(e.right);
    }
  }

  lemma {:induction false} WrapConjuncts(p: LogicalPlan, filters: seq<Expr>, x: Expr)
    requires forall c :: c in filters ==> SplitAnd(c) == [c]
    ensures x in Conjuncts(Conditions(WrapFilters(p, filters))) <==> x in filters || x in Conjuncts(Conditions(p))
    decreases |filters|
  {
    if filters != [] {
      WrapConjuncts(Select(filters[0], p), filters[1..], x);
      ConjunctsOfSelect(Select(filters[0], p));
      assert filters == [filters[0]] + filters[1..];
    }
  }

  lemma DistributeConjuncts(e: Expr, join: LogicalPlan, x: Expr)
    requires join.Join?
    ensures x in Conjuncts(Conditions(Distribute(e, join))) <==> x in SplitAnd(e) || x in Conjuncts(Conditions(join))
  {
    hide SideOf;
    var left, right := join.left, join.right;
    var l := Filter(c => SideOf(c, left, right) == ToLeft, SplitAnd(e));
    var r := Filter(c => SideOf(c, left, right) == ToRight, SplitAnd(e));
    var rest := Filter(c => SideOf(c, left, right) == Stays, SplitAnd(e));
    SplitIsAtomic(e);
    FilterMembers(c => SideOf(c, left, right) == ToLeft, SplitAnd(e));
    FilterMembers(c => SideOf(c, left, right) == ToRight, SplitAnd(e));
    FilterMembers(c => SideOf(c, left, right) == Stays, SplitAnd(e));
    WrapConjuncts(left, l, x);
    WrapConjuncts(right, r, x);
    var inner := Join(join.condition, WrapFilters(left, l), WrapFilters(right, r));
    WrapConjuncts(inner, rest, x);
    ConjunctsOfJoin(inner);
    ConjunctsOfJoin(join);
  }

  // No conjunct is lost and none is invented.
  lemma {:induction false} PushedConjuncts(p: LogicalPlan, x: Expr)
    requires JoinTree(p)
    ensures x in Conjuncts(Conditions(PushPredicates(p))) <==> x in Conjuncts(Conditions(p))
  {
    match p
    case Scan(_, _) =>
    case Join(e, left, right) =>
      PushedConjuncts(left, x);
      PushedConjuncts(right, x);
      ConjunctsOfJoin(p);
      ConjunctsOfJoin(PushPredicates(p));
    case Select(e, input) =>
      PushedConjuncts(input, x);
      ConjunctsOfSelect(p);
      if PushPredicates(input).Join? {
        DistributeConjuncts(e, PushPredicates(input), x);
      } else {
        ConjunctsOfSelect(PushPredicates(p));
      }
  }

  // Every conjunct of the join trees of p is boolean on stored rows.
  ghost predicate BooleanJoins(p: LogicalPlan, db: Database)
  {
    if JoinTree(p) then
      && (forall i :: 0 <= i < |Leaves(p)| ==> Leaves(p)[i].table in db)
      && (forall c :: c in Conjuncts(Conditions(p)) ==> AlwaysBoolean(c, ScopeOf(Leaves(p)), db))
    else if p.Above? then BooleanJoins(p.input, db)
    else p.Select? && BooleanJoins(p.input, db)
  }

  // With boolean conditions, a join tree runs before and after the rewriting,
  // and a plan above one throws after it exactly when it did before.
  lemma {:induction false} PushdownPreservesThrowing(p: LogicalPlan, w: World)
    requires Valid(p) && WellFormed(w.db) && BooleanJoins(p, w.db)
    ensures Runs(PushPredicates(p), w) <==> Runs(p, w)
    ensures JoinTree(p) ==> Runs(p, w)
  {
    if JoinTree(p) {
      PushShape(p);
      ScopeBinds(Leaves(p), Leaves(p));
      forall c | c in Conjuncts(Conditions(PushPredicates(p))) ensures AlwaysBoolean(c, ScopeOf(Leaves(p)), w.db) {
        PushedConjuncts(p, c);
      }
      BooleanTreesRun(p, ScopeOf(Leaves(p)), w);
      BooleanTreesRun(PushPredicates(p), ScopeOf(Leaves(p)), w);
    } else if p.Above? {
      PushdownPreservesThrowing(p.input, w);
    } else {
      PushdownPreservesThrowing(p.input, w);
      PushedIsJoinOnlyFromTree(p.input);
      PushdownPreservesRows(p.input, w);
    }
  }
}
