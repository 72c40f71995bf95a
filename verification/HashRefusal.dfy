// The join search tries a hash join for every equality, but the executor
// refuses one that does not compare two columns (optimizer/join_enumerator.cpp
// against the constructor of HashJoinExec in execution/operators.cpp).
module HashRefusal {
  import opened Wrappers
  import opened Ast
  import opened Bits
  import opened Indexing
  import opened JoinGraphs
  import opened Estimates
  import opened AccessPaths
  import opened JoinCandidates
  import opened JoinEnumeration
  import opened JoinGraphExtraction
  import opened NormalForm
  import opened Relational
  import opened Execution
  import opened JoinMeaning
  import Bags
  import Costs
  import P = Plans

  predicate IsEquality(e: Expr)
  {
    e.BinaryOp? && e.binary_op == Eq
  }

  predicate ComparesColumns(e: Expr)
  {
    IsEquality(e) && e.left.Column? && e.right.Column?
  }

  // Somewhere in the plan is a hash join by e.
  predicate HashesBy(p: P.PhysicalPlan, e: Expr)
  {
    p.Join? && ((p.algorithm == P.HashJoin && p.condition == e) || HashesBy(p.left, e) || HashesBy(p.right, e))
  }

  // Such a plan throws on every database unless e compares two columns.
  lemma {:induction false} RefusedPlan(p: P.PhysicalPlan, e: Expr, db: Database)
    requires HashesBy(p, e) && !ComparesColumns(e)
    ensures !PlanRuns(p, db)
  {
    hide Resolve;
    if p.algorithm == P.HashJoin && p.condition == e {
      assert HashKeys(e, PlanSchema(p.left, db), PlanSchema(p.right, db)).None?;
    } else if HashesBy(p.left, e) {
      RefusedPlan(p.left, e, db);
    } else {
      RefusedPlan(p.right, e, db);
    }
  }

  // ---- A plan that hashes wherever it can ----

  // The last relation is joined on by a hash join if the edge allows it.
  function HashOn(g: JoinGraph, st: Statistics, mask: nat, r: nat, left: P.PhysicalPlan, e: Expr): (p: P.PhysicalPlan)
    requires r < |g.relations|
    ensures p in Candidates(g, st, Without(mask, r), Pow2(r), left, AccessPath(st, g.relations[r]), e)
    ensures p.Join? && p.left == left && p.condition == e && (IsEquality(e) ==> p.algorithm == P.HashJoin)
  {
    var candidates := Candidates(g, st, Without(mask, r), Pow2(r), left, AccessPath(st, g.relations[r]), e);
    if IsEquality(e) then candidates[2] else candidates[0]
  }

  // The edges a plan of the mask was built with, each once.
  ghost predicate BuiltWith(g: JoinGraph, mask: nat, used: seq<nat>)
    requires g.Valid()
  {
    && Bags.NoRepeats(used) && Within(used, |g.edges|) && |used| + 1 == Popcount(mask)
    && forall k :: k in used ==> Has(mask, g.edges[k].left) && Has(mask, g.edges[k].right)
  }

  ghost predicate HashesAll(g: JoinGraph, p: P.PhysicalPlan, used: seq<nat>)
    requires Within(used, |g.edges|)
  {
    forall k :: k in used && IsEquality(g.edges[k].pred) ==> HashesBy(p, g.edges[k].pred)
  }

  lemma {:induction false} HashingPlan(g: JoinGraph, st: Statistics, mask: nat)
    returns (p: P.PhysicalPlan, used: seq<nat>)
    requires g.Valid() && 0 < mask < Pow2(|g.relations|) && Grown(g.edges, Members(mask, |g.relations|))
    ensures LeftDeep(g, st, mask, p) && BuiltWith(g, mask, used) && HashesAll(g, p, used)
    decreases mask
  {
    hide Pow2, Has, Without, Candidates, AccessPath, FirstEdge, Popcount, BuiltWith, HashesAll;
    var s := Members(mask, |g.relations|);
    PopcountIsSize(mask, |g.relations|);
    if |s| == 1 {
      p, used := OnlyOne(g, st, mask);
    } else {
      var r :| Last(g.edges, s, r) && Grown(g.edges, s - {r});
      MembersWithout(mask, r, |g.relations|);
      EdgeFoundIffTouches(g, Without(mask, r), r);
      SizePositive(mask);
      WithoutNonZero(mask, r);
      var left, u := HashingPlan(g, st, Without(mask, r));
      p, used := OneMoreHashed(g, st, mask, r, left, u);
    }
  }

  lemma OnlyOne(g: JoinGraph, st: Statistics, mask: nat) returns (p: P.PhysicalPlan, used: seq<nat>)
    requires g.Valid() && 0 < mask < Pow2(|g.relations|) && |Members(mask, |g.relations|)| == 1
    ensures LeftDeep(g, st, mask, p) && BuiltWith(g, mask, used) && HashesAll(g, p, used)
  {
    hide Pow2, Has, Without, Candidates, AccessPath, FirstEdge, Popcount;
    var i := NonZeroHasSome(mask);
    BitsBelow(mask, |g.relations|, i);
    PopcountIsSize(mask, |g.relations|);
    OneBit(mask, i);
    p, used := AccessPath(st, g.relations[i]), [];
  }

  lemma OneMoreHashed(g: JoinGraph, st: Statistics, mask: nat, r: nat, left: P.PhysicalPlan, u: seq<nat>)
    returns (p: P.PhysicalPlan, used: seq<nat>)
    requires g.Valid() && r < |g.relations| && Has(mask, r) && 0 < Without(mask, r) < mask
    requires LeftDeep(g, st, Without(mask, r), left) && BuiltWith(g, Without(mask, r), u) && HashesAll(g, left, u)
    requires FirstEdge(g, Without(mask, r), Pow2(r), 0) < |g.edges|
    ensures LeftDeep(g, st, mask, p) && BuiltWith(g, mask, used) && HashesAll(g, p, used)
  {
    hide Pow2, Has, Without, Candidates, AccessPath, FirstEdge, Popcount;
    var k := FirstEdge(g, Without(mask, r), Pow2(r), 0);
    p := HashOn(g, st, mask, r, left, g.edges[k].pred);
    used := u + [k];
    assert Extends(g, st, mask, r, left, p);
    WithoutShrinks(mask, r);
    EdgeEnds(g, Without(mask, r), r, k);
    forall i: nat ensures Has(mask, i) <==> Has(Without(mask, r), i) || i == r { WithoutHas(mask, r, i); }
    WithoutHas(mask, r, r);
    assert k !in u;
    Appended(u, [k]);
  }

  // A connected graph has a plan that hashes by every equality it uses.
  lemma FullHashingPlan(g: JoinGraph, st: Statistics) returns (p: P.PhysicalPlan, used: seq<nat>)
    requires g.Valid() && |g.relations| >= 1 && Connected(g.edges, AllRelations(g))
    ensures LeftDeep(g, st, Pow2(|g.relations|) - 1, p)
    ensures Bags.NoRepeats(used) && Within(used, |g.edges|) && |used| == |g.relations| - 1 && HashesAll(g, p, used)
  {
    hide Pow2, Has, Popcount, LeftDeep, HashesAll;
    var n := |g.relations|;
    ConnectedIffGrown(g.edges, AllRelations(g));
    Pow2Grows(0, n);
    assert Pow2(0) == 1 by { PowerOfNothing(); }
    FullSize(n);
    p, used := HashingPlan(g, st, Pow2(n) - 1);
  }

  lemma PowerOfNothing()
    ensures Pow2(0) == 1
  {
  }

  // ---- When every plan runs ----

  lemma {:induction false} ResidualsRun(best: P.PhysicalPlan, residual: seq<Expr>, db: Database)
    requires PlanRuns(Residuals(best, residual), db)
    ensures PlanRuns(best, db)
    decreases |residual|
  {
    if residual != [] {
      ResidualsRun(Residual(best, residual[0]), residual[1..], db);
    }
  }

  // The edges whose equality the executor would refuse.
  lemma RefusedEdge(p: LogicalPlan, g: JoinGraph, residual: seq<Expr>) returns (k: nat)
    requires Sorted(BaseRelations(p), Conjuncts(Conditions(p)), g, residual) && !PlainEqualities(p)
    ensures k < |g.edges| && IsEquality(g.edges[k].pred) && !ComparesColumns(g.edges[k].pred)
  {
    hide RelationIds, Conjuncts, Conditions, BaseRelations, Sorted;
    var bases := BaseRelations(p);
    var e :| e in Conjuncts(Conditions(p)) && IsEquality(e) && BetweenTwo(e, bases) && !ComparesColumns(e);
    EdgesAreJoinConjuncts(p, g, residual);
    Bags.FilterMembers(e => BetweenTwo(e, bases), Conjuncts(Conditions(p)));
    assert e in JoinConjuncts(p);
    Bags.SameElements(EdgeConditions(g.edges), JoinConjuncts(p));
    k :| 0 <= k < |EdgeConditions(g.edges)| && EdgeConditions(g.edges)[k] == e;
  }

  // On a typed query whose join conjuncts form a tree, every left-deep plan
  // runs exactly when every equality between two relations compares columns.
  lemma EveryPlanRunsIff(p: LogicalPlan, g: JoinGraph, residual: seq<Expr>, st: Statistics, w: World)
    requires JoinTree(p) && Scoped(p) && Distinct(Leaves(p)) && Typed(p, w)
    requires Sorted(BaseRelations(p), Conjuncts(Conditions(p)), g, residual)
    requires |g.relations| >= 1 && Connected(g.edges, AllRelations(g)) && |JoinConjuncts(p)| == |Leaves(p)| - 1
    ensures (forall plan :: LeftDeep(g, st, Pow2(|g.relations|) - 1, plan) ==> PlanRuns(plan, w.db))
      <==> PlainEqualities(p)
  {
    hide LeftDeep, PlanRuns, PlainEqualities, Typed, Connected, Sorted, JoinConjuncts, Scoped, Distinct, Conjuncts,
         HashesBy;
    SortedIsValid(BaseRelations(p), Conjuncts(Conditions(p)), g, residual);
    if PlainEqualities(p) {
      forall plan | LeftDeep(g, st, Pow2(|g.relations|) - 1, plan) ensures PlanRuns(plan, w.db) {
        SearchedPlanAnswers(p, g, residual, st, plan, w);
        ResidualsRun(plan, residual, w.db);
      }
    } else {
      var k := RefusedEdge(p, g, residual);
      RelationCount(p, g, residual);
      EdgesAreJoinConjuncts(p, g, residual);
      var plan, used := FullHashingPlan(g, st);
      Pigeonhole(used, |g.edges|);
      assert k in used;
      RefusedPlan(plan, g.edges[k].pred, w.db);
    }
  }

  // ---- One input: a.x = b.y + 0 over two tables of a thousand rows ----

  const MIXED := BinaryOp(Column(Some("a"), "x"), Eq, BinaryOp(Column(Some("b"), "y"), Add, Lit(Integer(0))))

  function TwoTables(): JoinGraph
  {
    JoinGraph([Relation("a", None, []), Relation("b", None, [])], [JoinEdge(0, 1, MIXED)])
  }

  function Thousands(): Statistics
  {
    Statistics(table => 1000.0, (rows, e, table) => rows, (l, r, e, a, b) => 1000.0, (table, rows) => 10.0,
               table => None)
  }

  lemma ThousandRows(rel: Relation)
    requires rel.local_filters == []
    ensures var p := AccessPath(Thousands(), rel); p.estimated_rows == 1000 && p.Total() == 20.0
  {
    assert Costs.RowsToSize(1000.0) == 1000;
  }

  lemma HashIsCheaper(left: P.PhysicalPlan, right: P.PhysicalPlan, rows: nat)
    requires left.estimated_rows == 1000 == right.estimated_rows && left.Total() == 20.0 == right.Total()
    ensures left.estimated_cost.Plus(right.estimated_cost).Plus(Costs.HashJoinCost(1000, 1000)).Total()
      < NestedLoop(MIXED, left, right, rows).Total()
    ensures left.estimated_cost.Plus(right.estimated_cost).Plus(Costs.HashJoinCost(1000, 1000)).Total()
      < NestedLoop(MIXED, right, left, rows).Total()
  {
    NestedLoopTotal(MIXED, left, right, rows);
    NestedLoopTotal(MIXED, right, left, rows);
    PlusTotal(left.estimated_cost, right.estimated_cost);
    PlusTotal(left.estimated_cost.Plus(right.estimated_cost), Costs.HashJoinCost(1000, 1000));
  }

  // The plans of one relation.
  lemma SingleMask(g: JoinGraph, st: Statistics, i: nat, p: P.PhysicalPlan)
    requires i < |g.relations| && LeftDeep(g, st, Pow2(i), p)
    ensures p == AccessPath(st, g.relations[i])
  {
    hide Has, Without, Candidates, AccessPath, FirstEdge, Popcount, Pow2;
    if j: nat :| j < |g.relations| && Pow2(i) == Pow2(j) && p == AccessPath(st, g.relations[j]) {
      if i != j {
        PowersDiffer(i, j);
      }
    } else {
      var r: nat, left :| Extends(g, st, Pow2(i), r, left, p) && LeftDeep(g, st, Without(Pow2(i), r), left);
      SingletonPopcount(i);
      WithoutOnlyBit(Pow2(i), r);
    }
  }

  lemma Masks()
    ensures Pow2(0) == 1 && Pow2(1) == 2 && Without(3, 0) == 2 && Without(3, 1) == 1 && Has(3, 0) && Has(3, 1)
    ensures forall i: nat :: Pow2(i) != 3
  {
    assert Pow2(1) == 2 * Pow2(0);
    forall i: nat ensures Pow2(i) != 3 {
      if i > 0 { assert Pow2(i) == 2 * Pow2(i - 1); }
    }
    assert Without(3, 0) == 2 && Without(3, 1) == 1;
  }

  // Every plan of the two tables is a candidate for joining them.
  lemma TwoTablePlans(p: P.PhysicalPlan) returns (left: P.PhysicalPlan, right: P.PhysicalPlan, r: nat)
    requires LeftDeep(TwoTables(), Thousands(), 3, p)
    ensures r < 2 && left == AccessPath(Thousands(), TwoTables().relations[1 - r])
      && right == AccessPath(Thousands(), TwoTables().relations[r])
    ensures LeftDeep(TwoTables(), Thousands(), Without(3, r), left)
    ensures forall q :: q in Candidates(TwoTables(), Thousands(), Without(3, r), Pow2(r), left, right, MIXED) ==>
      LeftDeep(TwoTables(), Thousands(), 3, q)
    ensures p in Candidates(TwoTables(), Thousands(), Without(3, r), Pow2(r), left, right, MIXED)
  {
    hide Candidates, AccessPath, Has, Without, Pow2, Thousands, Connects;
    var g, st := TwoTables(), Thousands();
    Masks();
    var j: nat, l :| Extends(g, st, 3, j, l, p) && LeftDeep(g, st, Without(3, j), l);
    SingleMask(g, st, 1 - j, l);
    left, right, r := l, AccessPath(st, g.relations[j]), j;
    assert g.edges[FirstEdge(g, Without(3, j), Pow2(j), 0)].pred == MIXED;
    forall q | q in Candidates(g, st, Without(3, r), Pow2(r), left, right, MIXED) ensures LeftDeep(g, st, 3, q) {
      assert Extends(g, st, 3, r, left, q);
    }
  }

  // The cheapest plan is a hash join, and it throws on every database.
  lemma CheapestPlanRefused(p: P.PhysicalPlan, db: Database)
    requires LeftDeep(TwoTables(), Thousands(), 3, p)
    requires forall q :: LeftDeep(TwoTables(), Thousands(), 3, q) ==> p.Total() <= q.Total()
    ensures !PlanRuns(p, db)
  {
    hide LeftDeep, AccessPath, PlanRuns, Costs.HashJoinCost, NestedLoop;
    var left, right, r := TwoTablePlans(p);
    var g, st := TwoTables(), Thousands();
    ThousandRows(g.relations[0]);
    ThousandRows(g.relations[1]);
    var candidates := Candidates(g, st, Without(3, r), Pow2(r), left, right, MIXED);
    HashIsCheaper(left, right, Costs.RowsToSize(1000.0));
    assert |candidates| == 3 && candidates[2] in candidates;
    assert candidates[2].algorithm == P.HashJoin && candidates[2].Total() < candidates[0].Total()
      && candidates[2].Total() < candidates[1].Total();
    assert p == candidates[0] || p == candidates[1] || p == candidates[2];
    assert HashesBy(p, MIXED);
    RefusedPlan(p, MIXED, db);
  }
}
