// What the planner asks of the catalogs: row estimates and indexes.  The
// estimators are arbitrary functions; nothing below depends on their formulas.
module Estimates {
  import opened Wrappers
  import opened Ast
  import opened JoinGraphs

  datatype Statistics = Statistics(
    scan_rows: string -> real,
    filter_rows: (real, Expr, string) -> real,
    join_rows: (real, real, Expr, Option<Relation>, Option<Relation>) -> real,
    page_count: (string, nat) -> real,
    indexed_columns: string -> Option<seq<string>>)
  {
    predicate HasIndexOn(table: string, column: string)
    {
      var columns := indexed_columns(table);
      columns.Some? && column in columns.value
    }
  }
}

// optimizer/access_path_generator.cpp
module AccessPaths {
  import opened Wrappers
  import opened Ast
  import opened Costs
  import opened Plans
  import opened JoinGraphs
  import opened Estimates

  // Column = Literal in either order, on an indexed column.
  predicate IndexedEquality(st: Statistics, rel: Relation, p: Expr)
  {
    && p.BinaryOp? && p.binary_op == Eq
    && ((p.left.Column? && p.right.Lit?) || (p.right.Column? && p.left.Lit?))
    && st.HasIndexOn(rel.table_name, ColumnSide(p))
  }

  function ColumnSide(p: Expr): string
    requires p.BinaryOp? && ((p.left.Column? && p.right.Lit?) || (p.right.Column? && p.left.Lit?))
  {
    if p.left.Column? then p.left.column else p.right.column
  }

  function LiteralSide(p: Expr): Literal
    requires p.BinaryOp? && ((p.left.Column? && p.right.Lit?) || (p.right.Column? && p.left.Lit?))
  {
    if p.left.Lit? then p.left.literal else p.right.literal
  }

  function Stacked(st: Statistics, rel: Relation, filters: seq<Expr>, p: PhysicalPlan, running: real): PhysicalPlan
    decreases |filters|
  {
    if filters == [] then p
    else
      var rows := st.filter_rows(running, filters[0], rel.table_name);
      var cost := p.estimated_cost.Plus(FilterCost(RowsToSize(running)));
      Stacked(st, rel, filters[1..], Filter(filters[0], p, cost, RowsToSize(rows)), rows)
  }

  function SeqPath(st: Statistics, rel: Relation): PhysicalPlan
  {
    var scan := st.scan_rows(rel.table_name);
    var base := RowsToSize(scan);
    Stacked(st, rel, rel.local_filters,
            SeqScan(rel.table_name, rel.alias, SeqScanCost(base, st.page_count(rel.table_name, base)), base), scan)
  }

  function IndexPath(st: Statistics, rel: Relation, i: nat): PhysicalPlan
    requires i < |rel.local_filters| && IndexedEquality(st, rel, rel.local_filters[i])
  {
    var p := rel.local_filters[i];
    var matched := st.filter_rows(st.scan_rows(rel.table_name), p, rel.table_name);
    Stacked(st, rel, rel.local_filters[..i] + rel.local_filters[i + 1..],
            IndexScan(rel.table_name, rel.alias, ColumnSide(p), LiteralSide(p),
                      IndexScanCost(RowsToSize(matched)), RowsToSize(matched)), matched)
  }

  function FirstIndexed(st: Statistics, rel: Relation, from: nat): (i: nat)
    requires from <= |rel.local_filters|
    ensures from <= i <= |rel.local_filters|
    ensures i < |rel.local_filters| ==> IndexedEquality(st, rel, rel.local_filters[i])
    ensures forall j :: from <= j < i ==> !IndexedEquality(st, rel, rel.local_filters[j])
    decreases |rel.local_filters| - from
  {
    if from == |rel.local_filters| || IndexedEquality(st, rel, rel.local_filters[from]) then from
    else FirstIndexed(st, rel, from + 1)
  }

  function AccessPath(st: Statistics, rel: Relation): PhysicalPlan
  {
    var seqPath := SeqPath(st, rel);
    var i := FirstIndexed(st, rel, 0);
    if i == |rel.local_filters| then seqPath
    else if IndexPath(st, rel, i).Total() < seqPath.Total() then IndexPath(st, rel, i) else seqPath
  }

  // The filter an index may serve: the first equality on an indexed column.
  predicate ServedByIndex(st: Statistics, rel: Relation, i: nat)
  {
    && i < |rel.local_filters| && IndexedEquality(st, rel, rel.local_filters[i])
    && forall j :: 0 <= j < i ==> !IndexedEquality(st, rel, rel.local_filters[j])
  }

  // Sequential and index path are both considered, neither is cheaper than the
  // plan chosen, and the index path is chosen only where it is cheaper.
  predicate CheaperPath(st: Statistics, rel: Relation, best: PhysicalPlan)
  {
    && best.Total() <= SeqPath(st, rel).Total()
    && (forall i :: 0 <= i < |rel.local_filters| && ServedByIndex(st, rel, i) ==>
          && best.Total() <= IndexPath(st, rel, i).Total()
          && best == if best.Total() < SeqPath(st, rel).Total() then IndexPath(st, rel, i) else SeqPath(st, rel))
    && ((forall i :: 0 <= i < |rel.local_filters| ==> !IndexedEquality(st, rel, rel.local_filters[i])) ==>
          best == SeqPath(st, rel))
  }

  lemma AccessPathIsCheaper(st: Statistics, rel: Relation)
    ensures CheaperPath(st, rel, AccessPath(st, rel))
  {
    hide SeqPath, IndexPath, IndexedEquality;
    var i := FirstIndexed(st, rel, 0);
    forall j | 0 <= j < |rel.local_filters| && ServedByIndex(st, rel, j) ensures j == i {
      OneServed(st, rel, i, j);
    }
  }

  lemma OneServed(st: Statistics, rel: Relation, i: nat, j: nat)
    requires ServedByIndex(st, rel, j) && i <= |rel.local_filters|
    requires i < |rel.local_filters| ==> IndexedEquality(st, rel, rel.local_filters[i])
    requires forall k :: 0 <= k < i ==> !IndexedEquality(st, rel, rel.local_filters[k])
    ensures i == j
  {
  }

  method WrapFilters(st: Statistics, rel: Relation, skip: nat, start: PhysicalPlan, rows: real)
    returns (p: PhysicalPlan)
    ensures p == Stacked(st, rel,
      if skip < |rel.local_filters| then rel.local_filters[..skip] + rel.local_filters[skip + 1..]
      else rel.local_filters, start, rows)
  {
    ghost var filters :=
      if skip < |rel.local_filters| then rel.local_filters[..skip] + rel.local_filters[skip + 1..]
      else rel.local_filters;
    p := start;
    var running := rows;
    ghost var done := 0;
    for i := 0 to |rel.local_filters|
      invariant done == if skip < i then i - 1 else i
      invariant Stacked(st, rel, filters, start, rows) == Stacked(st, rel, filters[done..], p, running)
    {
      if i != skip {
        var pred := rel.local_filters[i];
        assert filters[done] == pred;
        var est := st.filter_rows(running, pred, rel.table_name);
        var cost := p.estimated_cost.Plus(FilterCost(RowsToSize(running)));
        p := Filter(pred, p, cost, RowsToSize(est));
        running := est;
        done := done + 1;
      }
    }
    assert filters[done..] == [];
  }

  // best_access_path: the cheaper of a sequential scan and a scan of the first
  // usable index, with every other local filter stacked on top.
  method BestAccessPath(st: Statistics, rel: Relation) returns (best: PhysicalPlan)
    ensures best == AccessPath(st, rel) && CheaperPath(st, rel, best)
  {
    hide CheaperPath, Stacked, SeqScanCost, IndexScanCost, RowsToSize;
    AccessPathIsCheaper(st, rel);
    var scan := st.scan_rows(rel.table_name);
    var base := RowsToSize(scan);
    var seqScan := SeqScan(rel.table_name, rel.alias, SeqScanCost(base, st.page_count(rel.table_name, base)), base);
    best := WrapFilters(st, rel, |rel.local_filters|, seqScan, scan);

    var i := 0;
    while i < |rel.local_filters| && !IndexedEquality(st, rel, rel.local_filters[i])
      invariant 0 <= i <= |rel.local_filters|
      invariant FirstIndexed(st, rel, 0) == FirstIndexed(st, rel, i)
    {
      i := i + 1;
    }
    if i < |rel.local_filters| {
      var p := rel.local_filters[i];
      var matched := st.filter_rows(scan, p, rel.table_name);
      var indexScan := IndexScan(rel.table_name, rel.alias, ColumnSide(p), LiteralSide(p),
                                 IndexScanCost(RowsToSize(matched)), RowsToSize(matched));
      indexScan := WrapFilters(st, rel, i, indexScan, matched);
      if indexScan.Total() < best.Total() {
        best := indexScan;
      }
    }
  }
}

// optimizer/join_enumerator.cpp: the plans the search may build.
module JoinCandidates {
  import opened Wrappers
  import opened Ast
  import opened Bits
  import opened Costs
  import opened Plans
  import opened JoinGraphs
  import opened Estimates
  import opened AccessPaths

  predicate Connects(e: JoinEdge, left_mask: nat, right_mask: nat)
  {
    (Has(left_mask, e.left) && Has(right_mask, e.right)) || (Has(left_mask, e.right) && Has(right_mask, e.left))
  }

  // find_connecting_edge: the first edge between the two sides.
  function FirstEdge(g: JoinGraph, left_mask: nat, right_mask: nat, from: nat): (k: nat)
    requires from <= |g.edges|
    ensures from <= k <= |g.edges|
    ensures k < |g.edges| ==> Connects(g.edges[k], left_mask, right_mask)
    ensures forall j :: from <= j < k ==> !Connects(g.edges[j], left_mask, right_mask)
    decreases |g.edges| - from
  {
    if from == |g.edges| || Connects(g.edges[from], left_mask, right_mask) then from
    else FirstEdge(g, left_mask, right_mask, from + 1)
  }

  // The one relation of a mask of size one; None for larger masks.
  function OnlyRelation(g: JoinGraph, mask: nat): Option<Relation>
  {
    if Popcount(mask) == 1 && LowestBit(mask) < |g.relations| then Some(g.relations[LowestBit(mask)]) else None
  }

  // index_of_only_set_bit
  function LowestBit(mask: nat): (i: nat)
    ensures mask != 0 ==> Has(mask, i)
  {
    if mask == 0 || mask % 2 == 1 then 0 else 1 + LowestBit(mask / 2)
  }

  function ColumnForAlias(p: Expr, alias: string): Option<string>
    requires p.BinaryOp? && p.left.Column? && p.right.Column?
  {
    if p.left.table == Some(alias) then Some(p.left.column)
    else if p.right.table == Some(alias) then Some(p.right.column)
    else None
  }

  predicate Probes(st: Statistics, p: Expr, rel: Option<Relation>)
  {
    && p.BinaryOp? && p.left.Column? && p.right.Column? && rel.Some?
    && var column := ColumnForAlias(p, rel.value.Name());
       column.Some? && st.HasIndexOn(rel.value.table_name, column.value)
  }

  // try_index_nested_loop
  function IndexNestedLoop(st: Statistics, p: Expr, left: PhysicalPlan, right: PhysicalPlan,
                           leftRel: Option<Relation>, rightRel: Option<Relation>, rows: nat): seq<PhysicalPlan>
  {
    if Probes(st, p, rightRel) then
      [Join(IndexNestedLoopJoin, p, left, right,
            left.estimated_cost.Plus(IndexNestedLoopCost(left.estimated_rows, rows)), rows)]
    else if Probes(st, p, leftRel) then
      [Join(IndexNestedLoopJoin, p, right, left,
            right.estimated_cost.Plus(IndexNestedLoopCost(right.estimated_rows, rows)), rows)]
    else []
  }

  function NestedLoop(p: Expr, outer: PhysicalPlan, inner: PhysicalPlan, rows: nat): PhysicalPlan
  {
    var c := outer.estimated_cost;
    Join(NestedLoopJoin, p, outer, inner,
         c.(cpu := c.cpu + outer.estimated_rows as real * inner.Total())
          .Plus(NestedLoopCost(outer.estimated_rows, inner.estimated_rows)), rows)
  }

  // Every algorithm and orientation tried for joining `right` onto `left`.
  function Candidates(g: JoinGraph, st: Statistics, left_mask: nat, right_mask: nat,
                      left: PhysicalPlan, right: PhysicalPlan, p: Expr): (candidates: seq<PhysicalPlan>)
    ensures candidates != []
  {
    var leftRel, rightRel := OnlyRelation(g, left_mask), OnlyRelation(g, right_mask);
    var rows :=
      RowsToSize(st.join_rows(left.estimated_rows as real, right.estimated_rows as real, p, leftRel, rightRel));
    [NestedLoop(p, left, right, rows), NestedLoop(p, right, left, rows)] +
    if p.BinaryOp? && p.binary_op == Eq then
      [Join(HashJoin, p, left, right,
            left.estimated_cost.Plus(right.estimated_cost)
                .Plus(HashJoinCost(left.estimated_rows, right.estimated_rows)), rows)]
      + IndexNestedLoop(st, p, left, right, leftRel, rightRel, rows)
    else []
  }

  // `plan` adds relation r to `left`, a plan of the rest of the mask.
  ghost predicate Extends(g: JoinGraph, st: Statistics, mask: nat, r: nat, left: PhysicalPlan, plan: PhysicalPlan)
  {
    && r < |g.relations| && Has(mask, r) && Without(mask, r) != 0 && Without(mask, r) < mask
    && var k := FirstEdge(g, Without(mask, r), Pow2(r), 0);
       && k < |g.edges|
       && plan in Candidates(g, st, Without(mask, r), Pow2(r), left, AccessPath(st, g.relations[r]), g.edges[k].pred)
  }

  // The left-deep plans of a mask: one connected relation added at a time, by
  // any of the candidate algorithms.
  ghost predicate LeftDeep(g: JoinGraph, st: Statistics, mask: nat, plan: PhysicalPlan)
    decreases mask
  {
    || (exists i: nat :: i < |g.relations| && mask == Pow2(i) && plan == AccessPath(st, g.relations[i]))
    || (exists r: nat, left :: Extends(g, st, mask, r, left, plan) && LeftDeep(g, st, Without(mask, r), left))
  }

  // Only the totals of the inputs matter to the total of a candidate.
  lemma NestedLoopTotal(p: Expr, outer: PhysicalPlan, inner: PhysicalPlan, rows: nat)
    ensures NestedLoop(p, outer, inner, rows).Total()
         == outer.Total() + outer.estimated_rows as real * inner.Total()
            + NestedLoopCost(outer.estimated_rows, inner.estimated_rows).Total()
  {
    hide NestedLoopCost;
  }

  lemma PlusTotal(a: Cost, b: Cost)
    ensures a.Plus(b).Total() == a.Total() + b.Total()
  {
  }

  lemma NestedLoopMonotone(p: Expr, cheap: PhysicalPlan, dear: PhysicalPlan, other: PhysicalPlan, rows: nat)
    requires cheap.estimated_rows == dear.estimated_rows && cheap.Total() <= dear.Total()
    ensures NestedLoop(p, cheap, other, rows).Total() <= NestedLoop(p, dear, other, rows).Total()
    ensures NestedLoop(p, other, cheap, rows).Total() <= NestedLoop(p, other, dear, rows).Total()
  {
    hide NestedLoop, NestedLoopCost;
    NestedLoopTotal(p, cheap, other, rows);
    NestedLoopTotal(p, dear, other, rows);
    NestedLoopTotal(p, other, cheap, rows);
    NestedLoopTotal(p, other, dear, rows);
    TimesMonotone(other.estimated_rows as real, cheap.Total(), dear.Total());
  }

  lemma TimesMonotone(k: real, x: real, y: real)
    requires 0.0 <= k && x <= y
    ensures k * x <= k * y
  {
  }

  // The principle of optimality: with the same row estimate, a cheaper left
  // input makes each candidate cheaper.
  lemma CandidatesMonotone(g: JoinGraph, st: Statistics, left_mask: nat, right_mask: nat,
                           cheap: PhysicalPlan, dear: PhysicalPlan, right: PhysicalPlan, p: Expr, i: nat)
    requires cheap.estimated_rows == dear.estimated_rows && cheap.Total() <= dear.Total()
    requires i < |Candidates(g, st, left_mask, right_mask, dear, right, p)|
    ensures i < |Candidates(g, st, left_mask, right_mask, cheap, right, p)|
    ensures Candidates(g, st, left_mask, right_mask, cheap, right, p)[i].Total()
         <= Candidates(g, st, left_mask, right_mask, dear, right, p)[i].Total()
  {
    var leftRel, rightRel := OnlyRelation(g, left_mask), OnlyRelation(g, right_mask);
    var rows :=
      RowsToSize(st.join_rows(cheap.estimated_rows as real, right.estimated_rows as real, p, leftRel, rightRel));
    hide NestedLoop, NestedLoopCost, HashJoinCost, IndexNestedLoopCost, Probes;
    NestedLoopMonotone(p, cheap, dear, right, rows);
    if i == 2 {
      var h := HashJoinCost(cheap.estimated_rows, right.estimated_rows);
      PlusTotal(cheap.estimated_cost, right.estimated_cost);
      PlusTotal(dear.estimated_cost, right.estimated_cost);
      PlusTotal(cheap.estimated_cost.Plus(right.estimated_cost), h);
      PlusTotal(dear.estimated_cost.Plus(right.estimated_cost), h);
    } else if i == 3 {
      PlusTotal(cheap.estimated_cost, IndexNestedLoopCost(cheap.estimated_rows, rows));
      PlusTotal(dear.estimated_cost, IndexNestedLoopCost(cheap.estimated_rows, rows));
    }
  }
}
