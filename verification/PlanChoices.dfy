// What the choices of the planner cost (optimizer/access_path_generator.cpp,
// optimizer/join_enumerator.cpp, physical/cost.cpp), in plain arithmetic.
module PlanChoices {
  import opened Wrappers
  import opened Ast
  import opened Costs
  import opened Plans
  import opened JoinGraphs
  import opened Estimates
  import opened AccessPaths
  import opened JoinCandidates

  // Row estimates round to the nearest size, and to no size below one.
  lemma NearestSize(rows: real)
    ensures rows >= 1.0 ==> rows - 0.5 < RowsToSize(rows) as real <= rows + 0.5
    ensures rows < 1.0 ==> RowsToSize(rows) == 1
  {
  }

  // The rows each filter of a stack reads.
  function ReadBy(st: Statistics, rel: Relation, filters: seq<Expr>, rows: real): seq<nat>
  {
    if filters == [] then []
    else [RowsToSize(rows)] + ReadBy(st, rel, filters[1..], st.filter_rows(rows, filters[0], rel.table_name))
  }

  function Sum(s: seq<nat>): nat
  {
    if s == [] then 0 else s[0] + Sum(s[1..])
  }

  // Every filter of a stack costs 0.01 for each row it reads.
  lemma {:induction false} StackedTotal(st: Statistics, rel: Relation, filters: seq<Expr>, p: PhysicalPlan, rows: real)
    ensures Stacked(st, rel, filters, p, rows).Total() == p.Total() + 0.01 * Sum(ReadBy(st, rel, filters, rows)) as real
    decreases |filters|
  {
    if filters != [] {
      var next := st.filter_rows(rows, filters[0], rel.table_name);
      var cost := p.estimated_cost.Plus(FilterCost(RowsToSize(rows)));
      var q := Filter(filters[0], p, cost, RowsToSize(next));
      StackedTotal(st, rel, filters[1..], q, next);
      assert q.Total() == p.Total() + 0.01 * RowsToSize(rows) as real;
    }
  }

  // A sequential scan reads every page and row; an index scan reads a random
  // page for every row matched.
  lemma PathTotals(st: Statistics, rel: Relation)
    ensures var scan := st.scan_rows(rel.table_name);
      var base := RowsToSize(scan);
      var pages := st.page_count(rel.table_name, base);
      SeqPath(st, rel).Total() == base as real * 0.01 + (if pages < 1.0 then 1.0 else pages)
        + 0.01 * Sum(ReadBy(st, rel, rel.local_filters, scan)) as real
    ensures forall i :: 0 <= i < |rel.local_filters| && ServedByIndex(st, rel, i) ==>
      var matched := st.filter_rows(st.scan_rows(rel.table_name), rel.local_filters[i], rel.table_name);
      IndexPath(st, rel, i).Total() == RowsToSize(matched) as real * 4.015
        + 0.01 * Sum(ReadBy(st, rel, rel.local_filters[..i] + rel.local_filters[i + 1..], matched)) as real
  {
    hide Stacked, Sum, ReadBy, RowsToSize;
    var scan := st.scan_rows(rel.table_name);
    var base := RowsToSize(scan);
    StackedTotal(st, rel, rel.local_filters,
                 SeqScan(rel.table_name, rel.alias, SeqScanCost(base, st.page_count(rel.table_name, base)), base),
                 scan);
    forall i | 0 <= i < |rel.local_filters| && ServedByIndex(st, rel, i)
      ensures var matched := st.filter_rows(scan, rel.local_filters[i], rel.table_name);
        IndexPath(st, rel, i).Total() == RowsToSize(matched) as real * 4.015
          + 0.01 * Sum(ReadBy(st, rel, rel.local_filters[..i] + rel.local_filters[i + 1..], matched)) as real
    {
      var p := rel.local_filters[i];
      var matched := st.filter_rows(scan, p, rel.table_name);
      StackedTotal(st, rel, rel.local_filters[..i] + rel.local_filters[i + 1..],
                   IndexScan(rel.table_name, rel.alias, ColumnSide(p), LiteralSide(p),
                             IndexScanCost(RowsToSize(matched)), RowsToSize(matched)), matched);
    }
  }

  // ---- An input: users WHERE u.id = 7, a thousand rows on 16 pages ----

  const BY_ID := BinaryOp(Column(Some("u"), "id"), Eq, Lit(Integer(7)))
  const USERS := Relation("users", Some("u"), [BY_ID])

  function Users(matched: real): Statistics
  {
    Statistics(table => 1000.0, (rows, e, table) => matched, (l, r, e, a, b) => 1.0, (table, rows) => 16.0,
               table => Some(["id"]))
  }

  lemma UsersTotals(matched: real)
    ensures ServedByIndex(Users(matched), USERS, 0)
    ensures SeqPath(Users(matched), USERS).Total() == 36.0
    ensures IndexPath(Users(matched), USERS, 0).Total() == RowsToSize(matched) as real * 4.015
  {
    var st := Users(matched);
    assert st.HasIndexOn("users", "id");
    assert ReadBy(st, USERS, [BY_ID], 1000.0) == [1000] + ReadBy(st, USERS, [], matched);
    assert USERS.local_filters[..0] + USERS.local_filters[1..] == [];
    assert Sum([1000]) == 1000;
    PathTotals(st, USERS);
  }

  // One row matched: the index wins, 4.015 against 36.
  lemma IndexWins()
    ensures AccessPath(Users(1.0), USERS)
         == IndexScan("users", Some("u"), "id", Integer(7), Cost(0.015, 4.0, 0.0), 1)
  {
    hide SeqPath, IndexPath, AccessPath, Users;
    UsersTotals(1.0);
    AccessPathIsCheaper(Users(1.0), USERS);
    OneUser();
    assert RowsToSize(1.0) == 1;
  }

  lemma OneUser()
    ensures ServedByIndex(Users(1.0), USERS, 0)
    ensures IndexPath(Users(1.0), USERS, 0) == IndexScan("users", Some("u"), "id", Integer(7), Cost(0.015, 4.0, 0.0), 1)
  {
    assert Users(1.0).HasIndexOn("users", "id");
    assert USERS.local_filters[..0] + USERS.local_filters[1..] == [];
    hide SeqPath;
  }

  // A hundred rows matched: it loses, 401.5 against 36.
  lemma IndexLoses()
    ensures AccessPath(Users(100.0), USERS) == SeqPath(Users(100.0), USERS)
    ensures AccessPath(Users(100.0), USERS).Total() == 36.0
  {
    UsersTotals(100.0);
    AccessPathIsCheaper(Users(100.0), USERS);
    assert RowsToSize(100.0) == 100;
  }

  // ---- One join step ----

  function Least(a: nat, b: nat): nat
  {
    if a <= b then a else b
  }

  // A nested loop pays for the inner plan once per outer row.
  function LoopTotal(outer: PhysicalPlan, inner: PhysicalPlan): real
  {
    outer.Total() + outer.estimated_rows as real * inner.Total()
    + outer.estimated_rows as real * inner.estimated_rows as real * 0.0001
  }

  // A hash join pays for both plans, builds on the smaller side and spills
  // what is over a hundred thousand rows.
  function HashTotal(left: PhysicalPlan, right: PhysicalPlan): real
  {
    var build := Least(left.estimated_rows, right.estimated_rows);
    left.Total() + right.Total()
    + build as real * 0.021 + (left.estimated_rows + right.estimated_rows - build) as real * 0.01
    + if build <= 100000 then 0.0 else (build - 100000) as real * 0.05
  }

  // An index nested loop pays for the outer plan, a random page per outer row
  // and the rows it gives.
  function ProbeTotal(outer: PhysicalPlan, rows: nat): real
  {
    outer.Total() + outer.estimated_rows as real * 4.015 + rows as real * 0.01
  }

  lemma HashTotalIs(left: PhysicalPlan, right: PhysicalPlan)
    ensures left.estimated_cost.Plus(right.estimated_cost)
                .Plus(HashJoinCost(left.estimated_rows, right.estimated_rows)).Total() == HashTotal(left, right)
  {
    PlusTotal(left.estimated_cost, right.estimated_cost);
    PlusTotal(left.estimated_cost.Plus(right.estimated_cost), HashJoinCost(left.estimated_rows, right.estimated_rows));
  }

  lemma ProbeTotalIs(outer: PhysicalPlan, rows: nat)
    ensures outer.estimated_cost.Plus(IndexNestedLoopCost(outer.estimated_rows, rows)).Total()
         == ProbeTotal(outer, rows)
  {
    PlusTotal(outer.estimated_cost, IndexNestedLoopCost(outer.estimated_rows, rows));
  }

  lemma LoopTotalIs(e: Expr, outer: PhysicalPlan, inner: PhysicalPlan, rows: nat)
    ensures NestedLoop(e, outer, inner, rows).Total() == LoopTotal(outer, inner)
  {
    NestedLoopTotal(e, outer, inner, rows);
    Scaled(outer.estimated_rows as real * inner.estimated_rows as real);
  }

  lemma Scaled(x: real)
    ensures x * 0.01 * 0.01 == x * 0.0001
  {
  }

  // What may join the two plans by e, and what it costs.
  predicate Tried(st: Statistics, e: Expr, left: PhysicalPlan, right: PhysicalPlan, leftRel: Option<Relation>,
                  rightRel: Option<Relation>, p: PhysicalPlan)
  {
    && p.Join? && p.condition == e
    && p.estimated_rows
         == RowsToSize(st.join_rows(left.estimated_rows as real, right.estimated_rows as real, e, leftRel, rightRel))
    && match p.algorithm
       case NestedLoopJoin =>
         || (p.left == left && p.right == right && p.Total() == LoopTotal(left, right))
         || (p.left == right && p.right == left && p.Total() == LoopTotal(right, left))
       case HashJoin =>
         e.BinaryOp? && e.binary_op == Eq && p.left == left && p.right == right && p.Total() == HashTotal(left, right)
       case IndexNestedLoopJoin =>
         && e.BinaryOp? && e.binary_op == Eq
         && if Probes(st, e, rightRel) then
              p.left == left && p.right == right && p.Total() == ProbeTotal(left, p.estimated_rows)
            else
              && Probes(st, e, leftRel) && p.left == right && p.right == left
              && p.Total() == ProbeTotal(right, p.estimated_rows)
  }

  lemma CandidatesAreTried(g: JoinGraph, st: Statistics, left_mask: nat, right_mask: nat, left: PhysicalPlan,
                           right: PhysicalPlan, e: Expr)
    ensures forall p :: p in Candidates(g, st, left_mask, right_mask, left, right, e) ==>
      Tried(st, e, left, right, OnlyRelation(g, left_mask), OnlyRelation(g, right_mask), p)
  {
    hide LoopTotal, HashTotal, ProbeTotal, HashJoinCost, IndexNestedLoopCost, Probes, OnlyRelation, RowsToSize;
    var leftRel, rightRel := OnlyRelation(g, left_mask), OnlyRelation(g, right_mask);
    var rows :=
      RowsToSize(st.join_rows(left.estimated_rows as real, right.estimated_rows as real, e, leftRel, rightRel));
    LoopTotalIs(e, left, right, rows);
    LoopTotalIs(e, right, left, rows);
    HashTotalIs(left, right);
    ProbeTotalIs(left, rows);
    ProbeTotalIs(right, rows);
  }

  // Nothing that may join the two plans is cheaper than the cheapest candidate.
  lemma NothingCheaper(g: JoinGraph, st: Statistics, left_mask: nat, right_mask: nat, left: PhysicalPlan,
                       right: PhysicalPlan, e: Expr, best: PhysicalPlan, p: PhysicalPlan)
    requires best in Candidates(g, st, left_mask, right_mask, left, right, e)
    requires forall c :: c in Candidates(g, st, left_mask, right_mask, left, right, e) ==> best.Total() <= c.Total()
    requires Tried(st, e, left, right, OnlyRelation(g, left_mask), OnlyRelation(g, right_mask), p)
    ensures best.Total() <= p.Total()
  {
    hide LoopTotal, HashTotal, ProbeTotal, HashJoinCost, IndexNestedLoopCost, Probes, OnlyRelation, RowsToSize,
         NestedLoop;
    var leftRel, rightRel := OnlyRelation(g, left_mask), OnlyRelation(g, right_mask);
    var rows := p.estimated_rows;
    LoopTotalIs(e, left, right, rows);
    LoopTotalIs(e, right, left, rows);
    HashTotalIs(left, right);
    ProbeTotalIs(left, rows);
    ProbeTotalIs(right, rows);
    var candidates := Candidates(g, st, left_mask, right_mask, left, right, e);
    assert candidates[0] in candidates && candidates[1] in candidates;
    if p.algorithm != NestedLoopJoin {
      assert candidates[2] in candidates;
    }
    if p.algorithm == IndexNestedLoopJoin {
      assert candidates[3] in candidates;
    }
  }
}
