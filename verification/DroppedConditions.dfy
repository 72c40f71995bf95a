// What becomes of a query whose chosen plan leaves a condition out
// (optimizer/join_enumerator.cpp:61-70: one edge joins two sets of relations).
module DroppedConditions {
  import opened Wrappers
  import opened Ast
  import opened Values
  import opened Evaluation
  import opened Relational
  import opened NormalForm
  import opened Execution
  import opened JoinCandidates
  import opened JoinGraphExtraction
  import opened JoinEnumeration
  import opened JoinMeaning
  import opened Bits
  import opened Indexing
  import opened JoinGraphs
  import opened Estimates
  import Bags
  import PD = Pushdown
  import P = Plans

  ghost predicate AllTrue(conjuncts: seq<Expr>, look: Lookup)
  {
    forall c :: c in conjuncts ==> Holds(c, look)
  }

  // The rows t gives the leaves of p meet the conditions of q.
  ghost predicate Meets(p: LogicalPlan, q: LogicalPlan, w: World, t: Assignment)
  {
    AllTrue(Conjuncts(Conditions(q)), ScopeLook(ScopeOf(Leaves(p)), w.db, t))
  }

  // Every combination of stored rows that meets the conditions of q meets
  // those of p.
  ghost predicate Implied(p: LogicalPlan, q: LogicalPlan, w: World)
  {
    forall t :: Drawn(Leaves(p), w.db, t) && Meets(p, q, w, t) ==> Meets(p, p, w, t)
  }

  lemma {:induction false} ProductPositive(leaves: seq<Leaf>, db: Database, t: Assignment)
    requires forall i :: 0 <= i < |leaves| ==> leaves[i].alias in t
    ensures Product(leaves, db, t) > 0 <==> Drawn(leaves, db, t)
  {
    if leaves != [] {
      var rest := leaves[1..];
      ProductPositive(rest, db, t);
      assert leaves == [leaves[0]] + rest;
      Positive(Stored(leaves[0], db, t), Product(rest, db, t));
      assert Drawn(leaves, db, t) <==> Drawn([leaves[0]], db, t) && Drawn(rest, db, t) by {
        if Drawn(leaves, db, t) {
          forall i | 0 <= i < |rest| ensures rest[i].alias in t && t[rest[i].alias] in TableOf(db, rest[i].table).rows {
            assert rest[i] == leaves[i + 1];
          }
        }
      }
    }
  }

  lemma Positive(a: nat, b: nat)
    ensures a * b > 0 <==> a > 0 && b > 0
  {
  }

  lemma DrawnFits(leaves: seq<Leaf>, db: Database, t: Assignment)
    requires WellFormed(db) && Drawn(leaves, db, t)
    ensures Fits(leaves, db, t)
  {
    forall i | 0 <= i < |leaves| ensures leaves[i].alias in t
      && |t[leaves[i].alias]| == |TableOf(db, leaves[i].table).columns|
    {
      StoredWidth(db, leaves[i].table);
    }
  }

  // With conditions left out, the rows are the same exactly when those that
  // are left imply them on stored rows.
  lemma FewerConditions(p: LogicalPlan, q: LogicalPlan, w: World)
    requires JoinTree(p) && Scoped(p) && JoinTree(q) && Scoped(q) && WellFormed(w.db)
    requires Distinct(Leaves(p)) && multiset(Leaves(p)) == multiset(Leaves(q))
    requires forall c :: c in Conjuncts(Conditions(q)) ==> c in Conjuncts(Conditions(p))
    ensures SameRows(p, q, w) <==> Implied(p, q, w)
  {
    hide RowsOf, Flatten, Conjuncts, Conditions, Leaves, Scoped, Distinct, ScopeOf, Product, Drawn, Fits, Meets,
         WellFormed, ScopeLook;
    DistinctPermutes(Leaves(p), Leaves(q));
    forall t | Fits(Leaves(p), w.db, t) && Fits(Leaves(q), w.db, t)
      ensures multiset(RowsOf(p, w))[Flatten(Leaves(p), t)] == multiset(RowsOf(q, w))[Flatten(Leaves(q), t)] <==>
        (Drawn(Leaves(p), w.db, t) && Meets(p, q, w, t) ==> Meets(p, p, w, t))
    {
      OneCombination(p, q, w, t);
    }
    forall t | Drawn(Leaves(p), w.db, t) ensures Fits(Leaves(p), w.db, t) && Fits(Leaves(q), w.db, t) {
      DrawnFits(Leaves(p), w.db, t);
      FitsPermutes(Leaves(p), Leaves(q), w.db, t);
    }
  }

  lemma FitsPermutes(a: seq<Leaf>, b: seq<Leaf>, db: Database, t: Assignment)
    requires multiset(a) == multiset(b) && Fits(a, db, t)
    ensures Fits(b, db, t)
  {
    Bags.SameElements(a, b);
    forall i | 0 <= i < |b| ensures b[i].alias in t && |t[b[i].alias]| == |TableOf(db, b[i].table).columns| {
      assert b[i] in a;
    }
  }

  lemma OneCombination(p: LogicalPlan, q: LogicalPlan, w: World, t: Assignment)
    requires JoinTree(p) && Scoped(p) && JoinTree(q) && Scoped(q) && WellFormed(w.db)
    requires Distinct(Leaves(p)) && Distinct(Leaves(q)) && multiset(Leaves(p)) == multiset(Leaves(q))
    requires forall c :: c in Conjuncts(Conditions(q)) ==> c in Conjuncts(Conditions(p))
    requires Fits(Leaves(p), w.db, t) && Fits(Leaves(q), w.db, t)
    ensures multiset(RowsOf(p, w))[Flatten(Leaves(p), t)] == multiset(RowsOf(q, w))[Flatten(Leaves(q), t)] <==>
      (Drawn(Leaves(p), w.db, t) && Meets(p, q, w, t) ==> Meets(p, p, w, t))
  {
    hide RowsOf, Flatten, Conjuncts, Conditions, Leaves, Scoped, Distinct, ScopeOf, Product, Drawn, WellFormed,
         ScopeLook, Holds;
    var sc := ScopeOf(Leaves(p));
    ScopeBinds(Leaves(p), Leaves(q));
    TreeMeaning(p, sc, w, t);
    TreeMeaning(q, sc, w, t);
    ConjunctsDecide(Conditions(p), ScopeLook(sc, w.db, t));
    ConjunctsDecide(Conditions(q), ScopeLook(sc, w.db, t));
    ProductPermutes(Leaves(p), Leaves(q), w.db, t);
    ProductPositive(Leaves(p), w.db, t);
  }

  // ---- The chosen plan ----

  // A conjunct that is an edge of the graph and none of the edges used.
  ghost predicate LeftOut(g: JoinGraph, used: seq<nat>, c: Expr)
    requires Within(used, |g.edges|)
  {
    c in EdgeConditions(g.edges) && c !in Used(g, used)
  }

  // The logical tree a plan of all relations stands for: the leaves of the
  // query and its conjuncts, but for the edges left out.
  ghost predicate StandsFor(p: LogicalPlan, q: LogicalPlan, g: JoinGraph, used: seq<nat>)
  {
    && JoinTree(q) && Scoped(q) && multiset(Leaves(p)) == multiset(Leaves(q))
    && Bags.NoRepeats(used) && Within(used, |g.edges|) && |used| + 1 == |g.relations|
    && (forall c :: c in Conjuncts(Conditions(q)) <==> c in Conjuncts(Conditions(p)) && !LeftOut(g, used, c))
    && (forall c :: c in Conditions(q) ==> c in Conjuncts(Conditions(p)))
  }

  // On typed data every plan the search may give runs, and answers the query
  // exactly when, on stored rows, the conditions used imply those left out.
  lemma SearchedPlanAnswersIff(p: LogicalPlan, g: JoinGraph, residual: seq<Expr>, st: Statistics, plan: P.PhysicalPlan,
                               w: World)
    returns (q: LogicalPlan, used: seq<nat>)
    requires JoinTree(p) && Scoped(p) && Distinct(Leaves(p)) && PlainEqualities(p) && Typed(p, w)
    requires Sorted(BaseRelations(p), Conjuncts(Conditions(p)), g, residual)
    requires |g.relations| >= 1 && Searched(g, st, residual, plan)
    ensures StandsFor(p, q, g, used) && PlanRuns(plan, w.db)
    ensures forall out :: Yields(plan, w.db, out) ==> multiset(out) == multiset(RowsOf(q, w))
    ensures SameRows(p, q, w) <==> Implied(p, q, w)
  {
    hide LeftDeep, PlainEqualities, Typed, Implements, Qualified, AllFilters, Conjuncts, RelationIds, Placed, Implied,
         JoinConjuncts, Describes, Sorted, Scoped, Distinct, RowsOf, Yields, SameRows;
    SortedIsPlaced(p, g, residual);
    var best :| LeftDeep(g, st, Pow2(|g.relations|) - 1, best) && plan == Residuals(best, residual);
    var core, order;
    core, order, used := EveryEdgeUsedIffTree(g, st, best);
    q := PD.WrapFilters(core, residual);
    WrappedStandsFor(p, g, residual, best, core, order, used);
    ResidualsImplement(best, residual, core) by { DescribesImplements(g, best, core, order, used); }
    ImplementationYields(p, plan, q, w);
    FewerConditions(p, q, w) by { TypedIsWellFormed(p, w); }
  }

  lemma DescribesImplements(g: JoinGraph, best: P.PhysicalPlan, q: LogicalPlan, order: seq<nat>, used: seq<nat>)
    requires Describes(g, best, q, order, used)
    ensures Implements(best, q)
  {
  }

  lemma TypedIsWellFormed(p: LogicalPlan, w: World)
    requires Typed(p, w)
    ensures WellFormed(w.db)
  {
  }

  lemma WrappedStandsFor(p: LogicalPlan, g: JoinGraph, residual: seq<Expr>, best: P.PhysicalPlan, core: LogicalPlan,
                         order: seq<nat>, used: seq<nat>)
    requires JoinTree(p) && Scoped(p) && Distinct(Leaves(p)) && Placed(g)
    requires Sorted(BaseRelations(p), Conjuncts(Conditions(p)), g, residual)
    requires Describes(g, best, core, order, used) && |order| == |g.relations|
    ensures StandsFor(p, PD.WrapFilters(core, residual), g, used)
  {
    hide Implements, Qualified, AllFilters, Conjuncts, RelationIds, Placed, Scoped, Distinct, Conditions, Sorted, Used,
         EdgeConditions;
    LeavesOfGraph(p, g) by { SortedHasBases(p, g, residual); }
    GatherPermutes(LeavesFor(g.relations), order);
    GatherPermutes(g.relations, order);
    FiltersPermute(Pick(g, order), g.relations);
    assert LeavesFor(Pick(g, order)) == Gather(LeavesFor(g.relations), order);
    DistinctPermutes(Leaves(p), Leaves(core));
    ResidualsQualified(p, core, g, residual);
    PD.WrapShape(core, residual);
    WrapConditions(core, residual);
    KeptConjuncts(p, g, residual, core, used);
  }

  lemma SortedHasBases(p: LogicalPlan, g: JoinGraph, residual: seq<Expr>)
    requires Sorted(BaseRelations(p), Conjuncts(Conditions(p)), g, residual)
    ensures SameBases(g.relations, BaseRelations(p))
  {
  }

  lemma ResidualsQualified(p: LogicalPlan, q: LogicalPlan, g: JoinGraph, residual: seq<Expr>)
    requires JoinTree(p) && Scoped(p) && Aliases(Leaves(p)) == Aliases(Leaves(q))
    requires Sorted(BaseRelations(p), Conjuncts(Conditions(p)), g, residual)
    ensures forall e :: e in residual ==> Qualified(e, Aliases(Leaves(q)))
  {
    hide Qualified, AllFilters, Conjuncts, RelationIds, Scoped;
    ConditionsQualified(p);
    forall e | e in residual ensures Qualified(e, Aliases(Leaves(q))) {
      assert e in multiset(residual);
      assert e in multiset(Conjuncts(Conditions(p)));
    }
  }

  lemma KeptConjuncts(p: LogicalPlan, g: JoinGraph, residual: seq<Expr>, core: LogicalPlan, used: seq<nat>)
    requires Sorted(BaseRelations(p), Conjuncts(Conditions(p)), g, residual) && Within(used, |g.edges|)
    requires multiset(Conditions(core)) == multiset(AllFilters(g.relations)) + multiset(Used(g, used))
    requires multiset(Conditions(PD.WrapFilters(core, residual))) == multiset(residual) + multiset(Conditions(core))
    ensures var q := PD.WrapFilters(core, residual);
      && (forall c :: c in Conjuncts(Conditions(q)) <==> c in Conjuncts(Conditions(p)) && !LeftOut(g, used, c))
      && (forall c :: c in Conditions(q) ==> c in Conjuncts(Conditions(p)))
  {
    hide AllFilters, Conjuncts, RelationIds, Conditions;
    var q, all := PD.WrapFilters(core, residual), Conjuncts(Conditions(p));
    FiltersAreSingle(BaseRelations(p), all, g, residual);
    EdgesAreDouble(BaseRelations(p), all, g, residual);
    ConjunctsAtomic(Conditions(p));
    forall c ensures c in Conditions(q) <==> c in all && !LeftOut(g, used, c) {
      assert c in Conditions(q) <==> c in multiset(Conditions(q));
      assert c in all <==> c in multiset(all);
      assert c in multiset(Used(g, used)) <==> c in Used(g, used);
      assert c in multiset(EdgeConditions(g.edges)) <==> c in EdgeConditions(g.edges);
      assert c in multiset(AllFilters(g.relations)) <==> c in AllFilters(g.relations);
      assert c in multiset(residual) <==> c in residual;
      assert c in Used(g, used) ==> c in EdgeConditions(g.edges);
    }
    AtomicConjuncts(Conditions(q));
  }

  // A physical plan for a tree over the leaves of p and some of its conjuncts.
  lemma ImplementationYields(p: LogicalPlan, plan: P.PhysicalPlan, q: LogicalPlan, w: World)
    requires Distinct(Leaves(p)) && Typed(p, w) && Implements(plan, q) && JoinTree(q) && Scoped(q)
    requires multiset(Leaves(p)) == multiset(Leaves(q))
    requires forall c :: c in Conditions(q) ==> c in Conjuncts(Conditions(p))
    requires forall c :: c in Conjuncts(Conditions(q)) ==> c in Conjuncts(Conditions(p))
    ensures PlanRuns(plan, w.db)
    ensures forall out :: Yields(plan, w.db, out) ==> multiset(out) == multiset(RowsOf(q, w))
  {
    hide Implements, Scoped, Distinct, Conjuncts, Conditions, ScopeOf, Leaves, Comparable, ColumnsExist, AlwaysBoolean,
         WellFormed, DistinctColumns, Binds, Yields, RowsOf, PlanRows;
    DistinctPermutes(Leaves(p), Leaves(q));
    ScopeBinds(Leaves(p), Leaves(q));
    TablesStored(Leaves(p), Leaves(q), w.db);
    var sc := ScopeOf(Leaves(p));
    forall i | 0 <= i < |Conditions(q)|
      ensures Comparable(Conditions(q)[i], sc, w.db) && ColumnsExist(Conditions(q)[i], sc, w.db)
    {
      assert Conditions(q)[i] in Conditions(q);
    }
    ImplementsRows(plan, q, sc, w);
    BooleanTreesRun(q, sc, w);
    ImplementsRuns(plan, q, sc, w);
    forall out | Yields(plan, w.db, out) ensures multiset(out) == multiset(RowsOf(q, w)) { YieldsBag(plan, w.db, out); }
  }

  // ---- An input: three tables in a cycle ----

  function Equal(s: string, x: string, t: string, y: string): Expr
  {
    BinaryOp(Column(Some(s), x), Eq, Column(Some(t), y))
  }

  const AB := Equal("a", "x", "b", "x")
  const BC := Equal("b", "y", "c", "y")
  const CA := Equal("c", "z", "a", "z")
  const CYCLE := LogicalPlan.Join(BinaryOp(BC, And, CA), LogicalPlan.Join(AB, Scan("a", None), Scan("b", None)),
                                  Scan("c", None))

  function Two(x: int, y: int): Row
  {
    [Integer(x), Integer(y)]
  }

  ghost predicate CycleData(w: World)
  {
    w.db == map["a" := Table(["x", "z"], [Two(1, 1), Two(2, 1)]), "b" := Table(["x", "y"], [Two(1, 1)]),
                "c" := Table(["y", "z"], [Two(1, 1), Two(1, 2), Two(2, 1)])]
  }

  lemma CycleParts()
    ensures JoinTree(CYCLE) && Leaves(CYCLE) == [Leaf("a", "a"), Leaf("b", "b"), Leaf("c", "c")]
    ensures Distinct(Leaves(CYCLE)) && Aliases(Leaves(CYCLE)) == {"a", "b", "c"}
    ensures Conjuncts(Conditions(CYCLE)) == [BC, CA, AB]
    ensures BaseRelations(CYCLE) == [Relation("a", None, []), Relation("b", None, []), Relation("c", None, [])]
  {
    var ab := CYCLE.left;
    assert Leaves(ab) == [Leaf("a", "a"), Leaf("b", "b")];
    assert Conditions(ab) == [AB] && Conditions(CYCLE) == [CYCLE.condition, AB];
    assert SplitAnd(CYCLE.condition) == [BC, CA] && Conjuncts([AB]) == [AB];
    assert BaseRelations(ab) == [Relation("a", None, []), Relation("b", None, [])];
    forall x ensures x in Aliases(Leaves(CYCLE)) <==> x in {"a", "b", "c"} {
      if x in {"a", "b", "c"} {
        var i := if x == "a" then 0 else if x == "b" then 1 else 2;
        assert Leaves(CYCLE)[i].alias == x;
      }
    }
  }

  lemma CycleScoped()
    ensures Scoped(CYCLE)
  {
    CycleParts();
    var ab := [Leaf("a", "a"), Leaf("b", "b")];
    assert ab[0].alias in Aliases(ab) && ab[1].alias in Aliases(ab);
    assert Leaves(CYCLE.left) == ab && ColumnsOf(AB) == {(Some("a"), "x"), (Some("b"), "x")};
    assert ColumnsOf(CYCLE.condition) == ColumnsOf(BC) + ColumnsOf(CA);
  }

  // The base relation a name finds.
  function IndexOf(name: string): nat
  {
    if name == "a" then 0 else if name == "b" then 1 else 2
  }

  lemma CycleIds(s: string, x: string, t: string, y: string)
    requires s in {"a", "b", "c"} && t in {"a", "b", "c"} && s != t
    ensures RelationIds(Equal(s, x, t, y), BaseRelations(CYCLE)) == Some({IndexOf(s), IndexOf(t)})
    ensures BetweenTwo(Equal(s, x, t, y), BaseRelations(CYCLE))
  {
    hide BaseRelations, RelationIds;
    CycleParts();
    IdsOf(s, x, t, y, BaseRelations(CYCLE));
    assert {IndexOf(s)} + {IndexOf(t)} == {IndexOf(s), IndexOf(t)};
    assert |{IndexOf(s), IndexOf(t)}| == 2;
  }

  lemma IdsOf(s: string, x: string, t: string, y: string, bases: seq<Relation>)
    requires s in {"a", "b", "c"} && t in {"a", "b", "c"}
    requires bases == [Relation("a", None, []), Relation("b", None, []), Relation("c", None, [])]
    ensures RelationIds(Equal(s, x, t, y), bases) == Some({IndexOf(s)} + {IndexOf(t)})
  {
    forall name | name in {"a", "b", "c"} ensures FindRelation(bases, name) == Some(IndexOf(name)) {
      assert bases[IndexOf(name)].Name() == name;
      var i := FindRelation(bases, name);
      assert bases[i.value].Name() == name;
    }
    assert RelationIds(Column(Some(s), x), bases) == Some({IndexOf(s)});
    assert RelationIds(Column(Some(t), y), bases) == Some({IndexOf(t)});
  }

  lemma CycleJoinConjuncts()
    ensures JoinConjuncts(CYCLE) == [BC, CA, AB] && PlainEqualities(CYCLE)
  {
    hide BetweenTwo, RelationIds, BaseRelations, Conjuncts, Conditions;
    CycleParts();
    CycleIds("b", "y", "c", "y");
    CycleIds("c", "z", "a", "z");
    CycleIds("a", "x", "b", "x");
    Bags.AllPass(e => BetweenTwo(e, BaseRelations(CYCLE)), [BC, CA, AB]);
  }

  // ---- Its data ----

  ghost function CycleScope(): Scope
  {
    ScopeOf(Leaves(CYCLE))
  }

  lemma CycleScopeIs()
    ensures CycleScope() == map["a" := "a", "b" := "b", "c" := "c"]
  {
    hide Leaves, Aliases, Conditions, Conjuncts, BaseRelations, ScopeOf, JoinTree, Distinct;
    CycleParts();
    ScopeBinds(Leaves(CYCLE), Leaves(CYCLE));
    ScopeKeys(Leaves(CYCLE));
    var leaves := Leaves(CYCLE);
    assert leaves[0] == Leaf("a", "a") && leaves[1] == Leaf("b", "b") && leaves[2] == Leaf("c", "c");
    assert CycleScope().Keys == {"a", "b", "c"};
  }

  lemma ScopeKeys(leaves: seq<Leaf>)
    ensures ScopeOf(leaves).Keys == Aliases(leaves)
  {
  }

  // The position of a column in its table.
  function Place(t: string, x: string): (i: nat)
    ensures i < 2
  {
    if t == "c" then (if x == "y" then 0 else 1) else (if x == "x" then 0 else 1)
  }

  predicate IsColumn(t: string, x: string)
  {
    (t == "a" && x in {"x", "z"}) || (t == "b" && x in {"x", "y"}) || (t == "c" && x in {"y", "z"})
  }

  lemma CycleColumns(w: World, t: string, x: string)
    requires CycleData(w) && IsColumn(t, x)
    ensures PositionOf(TableOf(w.db, t).columns, x) == Some(Place(t, x))
  {
    var columns := TableOf(w.db, t).columns;
    assert columns[1..] == [columns[1]];
    assert PositionOf(columns[1..], columns[1]) == Some(0);
  }

  lemma CycleLook(w: World, t: string, x: string, at: Assignment)
    requires CycleData(w) && IsColumn(t, x) && t in at && |at[t]| == 2
    ensures ScopeLook(CycleScope(), w.db, at)(Some(t), x) == Some(at[t][Place(t, x)])
    ensures Exists(Column(Some(t), x), CycleScope(), w.db)
  {
    CycleScopeIs();
    CycleColumns(w, t, x);
  }

  // An equality of two columns, on integers.
  lemma EqualHolds(w: World, s: string, x: string, t: string, y: string, at: Assignment)
    requires CycleData(w) && IsColumn(s, x) && IsColumn(t, y) && s in at && t in at && |at[s]| == 2 == |at[t]|
    requires at[s][Place(s, x)].Integer? && at[t][Place(t, y)].Integer?
    ensures var e, look := Equal(s, x, t, y), ScopeLook(CycleScope(), w.db, at);
      GivesBoolean(e, look) && SameKind(e, look) && (Holds(e, look) <==> at[s][Place(s, x)] == at[t][Place(t, y)])
  {
    hide ScopeLook, PositionOf, CycleScope, CycleData, Exists, IsColumn, Place;
    CycleLook(w, s, x, at);
    CycleLook(w, t, y, at);
    var look := ScopeLook(CycleScope(), w.db, at);
    assert Evaluate(Column(Some(s), x), look) == Some(at[s][Place(s, x)]);
    assert Evaluate(Column(Some(t), y), look) == Some(at[t][Place(t, y)]);
  }

  lemma CycleRows(w: World, t: string)
    requires CycleData(w) && t in {"a", "b", "c"}
    ensures forall r: Row :: r in TableOf(w.db, t).rows ==> |r| == 2 && r[0].Integer? && r[1].Integer?
  {
  }

  lemma EqualTyped(w: World, s: string, x: string, t: string, y: string)
    requires CycleData(w) && IsColumn(s, x) && IsColumn(t, y)
    ensures var e := Equal(s, x, t, y);
      Comparable(e, CycleScope(), w.db) && ColumnsExist(e, CycleScope(), w.db) && AlwaysBoolean(e, CycleScope(), w.db)
  {
    hide ScopeLook, PositionOf, Exists, SameKind, GivesBoolean, Holds, CycleScope, CycleData;
    var e := Equal(s, x, t, y);
    CycleRows(w, s);
    CycleRows(w, t);
    CycleScopeIs();
    assert s in {"a", "b", "c"} && t in {"a", "b", "c"};
    assert ColumnsOf(e) == {(Some(s), x), (Some(t), y)};
    forall at | DrawnFor(e, CycleScope(), w.db, at)
      ensures GivesBoolean(e, ScopeLook(CycleScope(), w.db, at)) && SameKind(e, ScopeLook(CycleScope(), w.db, at))
    {
      assert (Some(s), x) in ColumnsOf(e) && (Some(t), y) in ColumnsOf(e);
      EqualHolds(w, s, x, t, y, at);
    }
    var any: Assignment := map[s := Two(0, 0), t := Two(0, 0)];
    CycleLook(w, s, x, any);
    CycleLook(w, t, y, any);
  }

  lemma CycleTyped(w: World)
    requires CycleData(w)
    ensures Typed(CYCLE, w)
  {
    hide Comparable, ColumnsExist, AlwaysBoolean, Conjuncts, Conditions;
    CycleParts();
    EqualTyped(w, "b", "y", "c", "y");
    EqualTyped(w, "c", "z", "a", "z");
    EqualTyped(w, "a", "x", "b", "x");
  }

  // Stored rows that meet every equality but c.
  function AllBut(c: Expr): Assignment
  {
    map["a" := if c == AB then Two(2, 1) else Two(1, 1), "b" := Two(1, 1),
        "c" := if c == BC then Two(2, 1) else if c == CA then Two(1, 2) else Two(1, 1)]
  }

  lemma AllButMeets(w: World, c: Expr)
    requires CycleData(w) && c in {AB, BC, CA}
    ensures Drawn(Leaves(CYCLE), w.db, AllBut(c))
    ensures forall e :: e in {AB, BC, CA} ==> (Holds(e, ScopeLook(CycleScope(), w.db, AllBut(c))) <==> e != c)
  {
    hide ScopeLook, Holds, GivesBoolean, SameKind, CycleScope, Leaves, CycleData;
    var at := AllBut(c);
    assert AB != BC && BC != CA && AB != CA;
    EqualHolds(w, "b", "y", "c", "y", at);
    EqualHolds(w, "c", "z", "a", "z", at);
    EqualHolds(w, "a", "x", "b", "x", at);
    AllButDrawn(w, c);
  }

  lemma AllButDrawn(w: World, c: Expr)
    requires CycleData(w)
    ensures Drawn(Leaves(CYCLE), w.db, AllBut(c))
  {
    hide Leaves, Conditions, Conjuncts, BaseRelations, JoinTree, Distinct, Aliases;
    CycleParts();
    assert w.db["a"].rows[1] == Two(2, 1) && w.db["a"].rows[0] == Two(1, 1) && w.db["b"].rows[0] == Two(1, 1);
    assert w.db["c"].rows[0] == Two(1, 1) && w.db["c"].rows[1] == Two(1, 2) && w.db["c"].rows[2] == Two(2, 1);
  }

  // Two indices do not use three edges.
  lemma SomeEdgeLeftOut(g: JoinGraph, used: seq<nat>) returns (c: Expr)
    requires Within(used, |g.edges|) && |used| == 2 && multiset(EdgeConditions(g.edges)) == multiset([BC, CA, AB])
    ensures c in {AB, BC, CA} && LeftOut(g, used, c)
  {
    Bags.SameElements(EdgeConditions(g.edges), [BC, CA, AB]);
    assert AB != BC && BC != CA && AB != CA;
    var u, v := Used(g, used)[0], Used(g, used)[1];
    c := if u != BC && v != BC then BC else if u != CA && v != CA then CA else AB;
    assert BC in [BC, CA, AB] && CA in [BC, CA, AB] && AB in [BC, CA, AB];
  }

  lemma CycleSizes(g: JoinGraph, residual: seq<Expr>)
    requires Sorted(BaseRelations(CYCLE), Conjuncts(Conditions(CYCLE)), g, residual)
    ensures |g.relations| == 3 && multiset(EdgeConditions(g.edges)) == multiset([BC, CA, AB])
  {
    hide Sorted, Conjuncts, Conditions, JoinConjuncts;
    CycleParts();
    RelationCount(CYCLE, g, residual);
    EdgesAreJoinConjuncts(CYCLE, g, residual);
    CycleJoinConjuncts();
  }

  // a JOIN b ON a.x = b.x JOIN c ON b.y = c.y AND c.z = a.z: every plan the
  // search may choose runs and gives other rows than the query.
  lemma CycleLosesCondition(g: JoinGraph, residual: seq<Expr>, st: Statistics, plan: P.PhysicalPlan, w: World)
    returns (q: LogicalPlan, used: seq<nat>)
    requires CycleData(w) && Sorted(BaseRelations(CYCLE), Conjuncts(Conditions(CYCLE)), g, residual)
    requires Searched(g, st, residual, plan)
    ensures StandsFor(CYCLE, q, g, used) && PlanRuns(plan, w.db)
    ensures forall out :: Yields(plan, w.db, out) ==> multiset(out) == multiset(RowsOf(q, w))
    ensures !SameRows(CYCLE, q, w)
  {
    hide *;
    CycleParts();
    CycleScoped();
    CycleJoinConjuncts();
    CycleTyped(w);
    CycleSizes(g, residual);
    q, used := SearchedPlanAnswersIff(CYCLE, g, residual, st, plan, w);
    CycleNotImplied(q, g, used, w);
  }

  lemma CycleNotImplied(q: LogicalPlan, g: JoinGraph, used: seq<nat>, w: World)
    requires CycleData(w) && StandsFor(CYCLE, q, g, used)
    requires |g.relations| == 3 && multiset(EdgeConditions(g.edges)) == multiset([BC, CA, AB])
    ensures !Implied(CYCLE, q, w)
  {
    hide Drawn, Holds, ScopeLook, LeftOut, Conjuncts, Conditions, Scoped, CycleData, JoinTree, Leaves, AllBut,
         BaseRelations, Distinct, Aliases, EdgeConditions, ScopeOf;
    var c := SomeEdgeLeftOut(g, used);
    AllButMeets(w, c);
    CycleParts();
    assert CycleScope() == ScopeOf(Leaves(CYCLE));
    assert c in [BC, CA, AB];
    assert forall e :: e in [BC, CA, AB] ==> e in {AB, BC, CA};
    forall e | e in Conjuncts(Conditions(q)) ensures Holds(e, ScopeLook(ScopeOf(Leaves(CYCLE)), w.db, AllBut(c))) {
      assert e != c;
    }
    NotImplied(CYCLE, q, w, AllBut(c), c);
  }

  lemma NotImplied(p: LogicalPlan, q: LogicalPlan, w: World, t: Assignment, c: Expr)
    requires Drawn(Leaves(p), w.db, t) && c in Conjuncts(Conditions(p))
    requires !Holds(c, ScopeLook(ScopeOf(Leaves(p)), w.db, t))
    requires AllTrue(Conjuncts(Conditions(q)), ScopeLook(ScopeOf(Leaves(p)), w.db, t))
    ensures !Implied(p, q, w)
  {
    hide Drawn, Holds, ScopeLook, Conjuncts, Conditions, Leaves, ScopeOf;
  }
}
