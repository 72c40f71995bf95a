// What the plan chosen by the join search means: which relations, edges and
// filters it uses, and the rows it produces.
module JoinMeaning {
  import opened Wrappers
  import opened Ast
  import opened Bits
  import opened Indexing
  import opened JoinGraphs
  import opened Estimates
  import opened AccessPaths
  import opened JoinCandidates
  import opened JoinEnumeration
  import opened JoinGraphExtraction
  import opened NormalForm
  import opened Relational
  import opened Execution
  import Bags
  import Costs
  import P = Plans
  import PD = Pushdown

  function LeafOf(rel: Relation): Leaf
  {
    Leaf(rel.table_name, rel.Name())
  }

  ghost function Pick(g: JoinGraph, order: seq<nat>): seq<Relation>
    requires Within(order, |g.relations|)
  {
    Gather(g.relations, order)
  }

  ghost function LeavesFor(relations: seq<Relation>): seq<Leaf>
  {
    seq(|relations|, i requires 0 <= i < |relations| => LeafOf(relations[i]))
  }

  ghost function Used(g: JoinGraph, used: seq<nat>): seq<Expr>
    requires Within(used, |g.edges|)
  {
    Gather(EdgeConditions(g.edges), used)
  }

  // Filters mention their own relation, edges their two ends; an equality
  // edge compares a column of each end.
  ghost predicate Placed(g: JoinGraph)
  {
    && g.Valid()
    && (forall i, f :: 0 <= i < |g.relations| && f in g.relations[i].local_filters ==>
        Qualified(f, {g.relations[i].Name()}))
    && (forall k :: 0 <= k < |g.edges| ==> EdgePlaced(g, g.edges[k]))
  }

  ghost predicate EdgePlaced(g: JoinGraph, e: JoinEdge)
    requires e.left < |g.relations| && e.right < |g.relations|
  {
    var a, b := g.relations[e.left].Name(), g.relations[e.right].Name();
    Qualified(e.pred, {a, b})
    && (e.pred.BinaryOp? && e.pred.binary_op == Eq ==>
          && e.pred.left.Column? && e.pred.right.Column?
          && ((e.pred.left.table == Some(a) && e.pred.right.table == Some(b))
              || (e.pred.left.table == Some(b) && e.pred.right.table == Some(a))))
  }

  // ---- One relation ----

  lemma {:induction false} StackedImplements(st: Statistics, rel: Relation, filters: seq<Expr>, p: P.PhysicalPlan,
                                             rows: real, q: LogicalPlan)
    requires Implements(p, q)
    ensures Implements(Stacked(st, rel, filters, p, rows), PD.WrapFilters(q, filters))
    decreases |filters|
  {
    if filters != [] {
      var est := st.filter_rows(rows, filters[0], rel.table_name);
      var cost := p.estimated_cost.Plus(Costs.FilterCost(Costs.RowsToSize(rows)));
      StackedImplements(st, rel, filters[1..], P.Filter(filters[0], p, cost, Costs.RowsToSize(est)), est,
                        Select(filters[0], q));
    }
  }

  lemma {:induction false} WrapConditions(q: LogicalPlan, filters: seq<Expr>)
    ensures multiset(Conditions(PD.WrapFilters(q, filters))) == multiset(filters) + multiset(Conditions(q))
    decreases |filters|
  {
    if filters != [] {
      WrapConditions(Select(filters[0], q), filters[1..]);
      assert filters == [filters[0]] + filters[1..];
    }
  }

  // The access path of a relation scans it once and applies each local filter once.
  lemma AccessPathShape(st: Statistics, rel: Relation) returns (q: LogicalPlan)
    requires forall f :: f in rel.local_filters ==> Qualified(f, {rel.Name()})
    ensures Implements(AccessPath(st, rel), q) && JoinTree(q) && Scoped(q)
    ensures Leaves(q) == [LeafOf(rel)] && multiset(Conditions(q)) == multiset(rel.local_filters)
  {
    var scan, i := Scan(rel.table_name, rel.alias), FirstIndexed(st, rel, 0);
    assert LeafOf(rel) == Leaves(scan)[0];
    assert Aliases(Leaves(scan)) == {rel.Name()} by { assert Leaves(scan)[0].alias == rel.Name(); }
    var filters, start := rel.local_filters, scan;
    if AccessPath(st, rel) == SeqPath(st, rel) {
      var base := Costs.RowsToSize(st.scan_rows(rel.table_name));
      StackedImplements(st, rel, filters,
        P.SeqScan(rel.table_name, rel.alias, Costs.SeqScanCost(base, st.page_count(rel.table_name, base)), base),
        st.scan_rows(rel.table_name), scan);
    } else {
      var f := rel.local_filters[i];
      filters, start := rel.local_filters[..i] + rel.local_filters[i + 1..], Select(f, scan);
      var matched := st.filter_rows(st.scan_rows(rel.table_name), f, rel.table_name);
      QualifiedEquality(f, rel.Name());
      StackedImplements(st, rel, filters,
        P.IndexScan(rel.table_name, rel.alias, ColumnSide(f), LiteralSide(f),
                    Costs.IndexScanCost(Costs.RowsToSize(matched)), Costs.RowsToSize(matched)), matched, start);
      Bags.MultisetSplit(rel.local_filters, i);
    }
    q := PD.WrapFilters(start, filters);
    PD.WrapShape(start, filters);
    WrapConditions(start, filters);
  }

  lemma QualifiedEquality(f: Expr, name: string)
    requires f.BinaryOp? && f.binary_op == Eq && Qualified(f, {name})
    requires (f.left.Column? && f.right.Lit?) || (f.right.Column? && f.left.Lit?)
    ensures EqualityOn(f, name, ColumnSide(f), LiteralSide(f))
  {
    var c := if f.left.Column? then f.left else f.right;
    assert (c.table, c.column) in ColumnsOf(c);
    assert (c.table, c.column) in ColumnsOf(f);
  }

  // ---- A left-deep plan ----

  // p implements the tree q over the relations of `order`, using the edges
  // `used`: one edge fewer than relations, none of them twice.
  ghost predicate Describes(g: JoinGraph, p: P.PhysicalPlan, q: LogicalPlan, order: seq<nat>, used: seq<nat>)
  {
    && Indices(g, order, used)
    && Implements(p, q) && JoinTree(q) && Scoped(q)
    && Leaves(q) == LeavesFor(Pick(g, order))
    && multiset(Conditions(q)) == multiset(AllFilters(Pick(g, order))) + multiset(Used(g, used))
  }

  ghost predicate Indices(g: JoinGraph, order: seq<nat>, used: seq<nat>)
  {
    && Bags.NoRepeats(order) && Bags.NoRepeats(used) && |used| + 1 == |order|
    && Within(order, |g.relations|) && Within(used, |g.edges|)
    && (forall i :: 0 <= i < |used| ==> g.edges[used[i]].left in order && g.edges[used[i]].right in order)
  }

  lemma InScope(g: JoinGraph, order: seq<nat>, i: nat)
    requires Within(order, |g.relations|) && i in order
    ensures g.relations[i].Name() in Aliases(LeavesFor(Pick(g, order)))
  {
    var j :| 0 <= j < |order| && order[j] == i;
    assert LeavesFor(Pick(g, order))[j].alias == g.relations[i].Name();
  }

  lemma PickAppend(g: JoinGraph, a: seq<nat>, b: seq<nat>)
    requires Within(a, |g.relations|) && Within(b, |g.relations|)
    ensures Within(a + b, |g.relations|)
    ensures Pick(g, a + b) == Pick(g, a) + Pick(g, b)
    ensures LeavesFor(Pick(g, a + b)) == LeavesFor(Pick(g, a)) + LeavesFor(Pick(g, b))
    ensures AllFilters(Pick(g, a + b)) == AllFilters(Pick(g, a)) + AllFilters(Pick(g, b))
  {
    assert Pick(g, a + b) == Pick(g, a) + Pick(g, b);
    assert LeavesFor(Pick(g, a + b)) == LeavesFor(Pick(g, a)) + LeavesFor(Pick(g, b));
    FiltersAppend(Pick(g, a), Pick(g, b));
  }

  lemma BaseDescribed(g: JoinGraph, st: Statistics, i: nat) returns (q: LogicalPlan)
    requires Placed(g) && i < |g.relations|
    ensures Describes(g, AccessPath(st, g.relations[i]), q, [i], [])
  {
    q := AccessPathShape(st, g.relations[i]);
    assert Pick(g, [i]) == [g.relations[i]];
    assert AllFilters([g.relations[i]]) == g.relations[i].local_filters + AllFilters([]);
    assert LeavesFor(Pick(g, [i])) == [LeafOf(g.relations[i])];
  }

  // Adding relation r to a described plan, on either side, by edge k.
  lemma JoinDescribed(g: JoinGraph, algorithm: P.JoinAlgorithm, cost: Costs.Cost, rows: nat,
                      p1: P.PhysicalPlan, q1: LogicalPlan, o1: seq<nat>, u1: seq<nat>,
                      p2: P.PhysicalPlan, q2: LogicalPlan, o2: seq<nat>, u2: seq<nat>, k: nat)
    requires Placed(g) && Describes(g, p1, q1, o1, u1) && Describes(g, p2, q2, o2, u2)
    requires (forall i :: i in o1 ==> i !in o2) && (u1 == [] || u2 == [])
    requires k < |g.edges| && k !in u1 && k !in u2
    requires (g.edges[k].left in o1 && g.edges[k].right in o2) || (g.edges[k].left in o2 && g.edges[k].right in o1)
    requires algorithm == P.HashJoin ==> g.edges[k].pred.BinaryOp? && g.edges[k].pred.binary_op == Eq
    ensures Describes(g, P.Join(algorithm, g.edges[k].pred, p1, p2, cost, rows),
                      LogicalPlan.Join(g.edges[k].pred, q1, q2), o1 + o2, u1 + u2 + [k])
  {
    hide Qualified, AllFilters, Scoped, Crosses, Indices, Implements, Conditions, Pick, LeavesFor, Used;
    JoinIndices(g, o1, u1, o2, u2, k);
    PickAppend(g, o1, o2);
    UsedAppend(g, u1, u2, k);
    JoinScoped(g, k, q1, o1, q2, o2);
    JoinIsScoped(g.edges[k].pred, q1, q2);
    JoinConditionBag(g.edges[k].pred, q1, q2);
    JoinImplements(algorithm, g.edges[k].pred, p1, q1, p2, q2, cost, rows);
  }

  lemma JoinImplements(algorithm: P.JoinAlgorithm, e: Expr, p1: P.PhysicalPlan, q1: LogicalPlan,
                       p2: P.PhysicalPlan, q2: LogicalPlan, cost: Costs.Cost, rows: nat)
    requires Implements(p1, q1) && Implements(p2, q2)
    requires algorithm == P.HashJoin ==> Crosses(e, Leaves(q1), Leaves(q2))
    ensures Implements(P.Join(algorithm, e, p1, p2, cost, rows), LogicalPlan.Join(e, q1, q2))
  {
  }

  lemma JoinIndices(g: JoinGraph, o1: seq<nat>, u1: seq<nat>, o2: seq<nat>, u2: seq<nat>, k: nat)
    requires Indices(g, o1, u1) && Indices(g, o2, u2)
    requires (forall i :: i in o1 ==> i !in o2) && (u1 == [] || u2 == [])
    requires k < |g.edges| && k !in u1 && k !in u2
    requires (g.edges[k].left in o1 && g.edges[k].right in o2) || (g.edges[k].left in o2 && g.edges[k].right in o1)
    ensures Indices(g, o1 + o2, u1 + u2 + [k])
    ensures Within(o1, |g.relations|)
    ensures Within(o2, |g.relations|)
    ensures Within(u1, |g.edges|)
    ensures Within(u2, |g.edges|)
  {
    Appended(o1, o2);
    var u := u1 + u2;
    if u1 == [] {
      assert u == u2;
    } else {
      assert u == u1;
    }
    Appended(u, [k]);
    forall i | 0 <= i < |u + [k]|
      ensures (u + [k])[i] < |g.edges| && g.edges[(u + [k])[i]].left in o1 + o2
        && g.edges[(u + [k])[i]].right in o1 + o2
    {
      assert (u + [k])[i] == if i < |u| then u[i] else k;
    }
  }

  lemma Appended(a: seq<nat>, b: seq<nat>)
    requires Bags.NoRepeats(a) && Bags.NoRepeats(b) && forall i :: i in a ==> i !in b
    ensures Bags.NoRepeats(a + b)
  {
    forall i, j | 0 <= i < j < |a + b| ensures (a + b)[i] != (a + b)[j] {
      if i < |a| <= j {
        assert (a + b)[i] in a && (a + b)[j] in b;
      }
    }
  }

  lemma UsedAppend(g: JoinGraph, a: seq<nat>, b: seq<nat>, k: nat)
    requires k < |g.edges|
    requires Within(a, |g.edges|) && Within(b, |g.edges|)
    ensures Within(a + b + [k], |g.edges|)
    ensures multiset(Used(g, a + b + [k])) == multiset(Used(g, a)) + multiset(Used(g, b)) + multiset{g.edges[k].pred}
  {
    assert Used(g, a + b + [k]) == Used(g, a) + Used(g, b) + [g.edges[k].pred];
  }

  lemma JoinIsScoped(e: Expr, q1: LogicalPlan, q2: LogicalPlan)
    requires Scoped(q1) && Scoped(q2) && Qualified(e, Aliases(Leaves(q1) + Leaves(q2)))
    ensures Scoped(LogicalPlan.Join(e, q1, q2))
  {
  }

  lemma JoinConditionBag(e: Expr, q1: LogicalPlan, q2: LogicalPlan)
    ensures multiset(Conditions(LogicalPlan.Join(e, q1, q2)))
      == multiset{e} + multiset(Conditions(q1)) + multiset(Conditions(q2))
  {
    assert Conditions(LogicalPlan.Join(e, q1, q2)) == [e] + Conditions(q1) + Conditions(q2);
  }

  lemma JoinScoped(g: JoinGraph, k: nat, q1: LogicalPlan, o1: seq<nat>, q2: LogicalPlan, o2: seq<nat>)
    requires Placed(g) && k < |g.edges|
    requires Within(o1, |g.relations|)
    requires Within(o2, |g.relations|)
    requires Leaves(q1) == LeavesFor(Pick(g, o1)) && Leaves(q2) == LeavesFor(Pick(g, o2))
    requires (g.edges[k].left in o1 && g.edges[k].right in o2) || (g.edges[k].left in o2 && g.edges[k].right in o1)
    ensures Qualified(g.edges[k].pred, Aliases(Leaves(q1) + Leaves(q2)))
    ensures g.edges[k].pred.BinaryOp? && g.edges[k].pred.binary_op == Eq ==>
      Crosses(g.edges[k].pred, Leaves(q1), Leaves(q2))
  {
    var e := g.edges[k];
    assert EdgePlaced(g, e);
    AliasesAppend(Leaves(q1), Leaves(q2));
    if e.left in o1 && e.right in o2 {
      InScope(g, o1, e.left);
      InScope(g, o2, e.right);
    } else {
      InScope(g, o2, e.left);
      InScope(g, o1, e.right);
    }
  }

  // Every left-deep plan of a mask joins exactly the relations of the mask.
  lemma {:induction false} LeftDeepShape(g: JoinGraph, st: Statistics, mask: nat, p: P.PhysicalPlan)
    returns (q: LogicalPlan, order: seq<nat>, used: seq<nat>)
    requires Placed(g) && mask < Pow2(|g.relations|) && LeftDeep(g, st, mask, p)
    ensures Describes(g, p, q, order, used)
    ensures forall i: nat :: i in order <==> Has(mask, i)
    decreases mask
  {
    hide Pow2, Has, Without, Candidates, AccessPath, FirstEdge, Describes;
    if i: nat :| i < |g.relations| && mask == Pow2(i) && p == AccessPath(st, g.relations[i]) {
      q := BaseDescribed(g, st, i);
      order, used := [i], [];
      forall j: nat ensures j in order <==> Has(mask, j) { SingletonHas(i, j); }
    } else {
      var r: nat, left :| Extends(g, st, mask, r, left, p) && LeftDeep(g, st, Without(mask, r), left);
      var q1, o1, u1 := LeftDeepShape(g, st, Without(mask, r), left);
      q, order, used := ExtensionShape(g, st, mask, r, left, p, q1, o1, u1);
    }
  }

  lemma ExtensionShape(g: JoinGraph, st: Statistics, mask: nat, r: nat, left: P.PhysicalPlan, p: P.PhysicalPlan,
                       q1: LogicalPlan, o1: seq<nat>, u1: seq<nat>)
    returns (q: LogicalPlan, order: seq<nat>, used: seq<nat>)
    requires Placed(g) && Extends(g, st, mask, r, left, p)
    requires Describes(g, left, q1, o1, u1) && forall i: nat :: i in o1 <==> Has(Without(mask, r), i)
    ensures Describes(g, p, q, order, used)
    ensures forall i: nat :: i in order <==> Has(mask, i)
  {
    hide Pow2, Has, Without, AccessPath, FirstEdge, Describes, Candidates, Placed;
    var rest := Without(mask, r);
    var k := FirstEdge(g, rest, Pow2(r), 0);
    var right := AccessPath(st, g.relations[r]);
    var q2 := BaseDescribed(g, st, r);
    EdgeEnds(g, rest, r, k);
    forall i: nat ensures Has(mask, i) <==> i in o1 || i == r { WithoutHas(mask, r, i); }
    assert r !in o1 by { WithoutHas(mask, r, r); }
    EdgeNotUsed(g, left, q1, o1, u1, k, r);
    CandidateShape(g, st, rest, Pow2(r), left, right, g.edges[k].pred, p);
    var algorithm, cost, rows := p.algorithm, p.estimated_cost, p.estimated_rows;
    if p.left == left && p.right == right {
      JoinDescribed(g, algorithm, cost, rows, left, q1, o1, u1, right, q2, [r], [], k);
      q, order, used := LogicalPlan.Join(g.edges[k].pred, q1, q2), o1 + [r], u1 + [] + [k];
    } else {
      JoinDescribed(g, algorithm, cost, rows, right, q2, [r], [], left, q1, o1, u1, k);
      q, order, used := LogicalPlan.Join(g.edges[k].pred, q2, q1), [r] + o1, [] + u1 + [k];
    }
  }

  lemma EdgeNotUsed(g: JoinGraph, p: P.PhysicalPlan, q: LogicalPlan, order: seq<nat>, used: seq<nat>, k: nat, r: nat)
    requires Describes(g, p, q, order, used) && k < |g.edges| && r !in order
    requires g.edges[k].left == r || g.edges[k].right == r
    ensures k !in used
  {
    hide Implements, Scoped, AllFilters;
  }

  // Every candidate joins the two inputs, in some order, by the edge's predicate.
  lemma CandidateShape(g: JoinGraph, st: Statistics, lm: nat, rm: nat, left: P.PhysicalPlan, right: P.PhysicalPlan,
                       e: Expr, p: P.PhysicalPlan)
    requires p in Candidates(g, st, lm, rm, left, right, e)
    ensures p.Join? && p.condition == e
    ensures (p.left == left && p.right == right) || (p.left == right && p.right == left)
    ensures p.algorithm == P.HashJoin ==> e.BinaryOp? && e.binary_op == Eq
  {
    hide OnlyRelation, Probes;
  }

  lemma EdgeEnds(g: JoinGraph, rest: nat, r: nat, k: nat)
    requires k < |g.edges| && Connects(g.edges[k], rest, Pow2(r))
    ensures (Has(rest, g.edges[k].left) && g.edges[k].right == r)
      || (g.edges[k].left == r && Has(rest, g.edges[k].right))
  {
    SingletonHas(r, g.edges[k].left);
    SingletonHas(r, g.edges[k].right);
  }

  // ---- The whole graph ----

  // A plan of all relations uses one edge fewer than there are relations, so
  // it applies every edge exactly when the graph has that many.
  lemma EveryEdgeUsedIffTree(g: JoinGraph, st: Statistics, p: P.PhysicalPlan)
    returns (q: LogicalPlan, order: seq<nat>, used: seq<nat>)
    requires Placed(g) && |g.relations| >= 1 && LeftDeep(g, st, Pow2(|g.relations|) - 1, p)
    ensures Describes(g, p, q, order, used) && |order| == |g.relations|
    ensures (forall k: nat :: k < |g.edges| ==> k in used) <==> |g.edges| == |g.relations| - 1
  {
    hide LeftDeep, Implements, Scoped, AllFilters;
    q, order, used := LeftDeepShape(g, st, Pow2(|g.relations|) - 1, p);
    forall i: nat ensures i in order <==> i < |g.relations| { FullMask(|g.relations|, i); }
    Pigeonhole(order, |g.relations|);
    Pigeonhole(used, |g.edges|);
  }

  lemma {:induction false} FiltersPermute(a: seq<Relation>, b: seq<Relation>)
    requires multiset(a) == multiset(b)
    ensures multiset(AllFilters(a)) == multiset(AllFilters(b))
  {
    if a == [] {
      assert |multiset(b)| == 0;
    } else {
      var i := Bags.PermutationStep(a, b);
      FiltersPermute(a[1..], b[..i] + b[i + 1..]);
      assert b == b[..i] + ([b[i]] + b[i + 1..]);
      FiltersAppend(b[..i], [b[i]] + b[i + 1..]);
      FiltersAppend(b[..i], b[i + 1..]);
      assert ([b[i]] + b[i + 1..])[1..] == b[i + 1..];
    }
  }

  // When the edges form a tree the plan applies each local filter and each
  // edge exactly once, over each relation exactly once.
  lemma TreeUsesEverythingOnce(g: JoinGraph, st: Statistics, p: P.PhysicalPlan) returns (q: LogicalPlan)
    requires Placed(g) && |g.relations| >= 1 && LeftDeep(g, st, Pow2(|g.relations|) - 1, p)
    requires |g.edges| == |g.relations| - 1
    ensures Implements(p, q) && JoinTree(q) && Scoped(q)
    ensures multiset(Leaves(q)) == multiset(LeavesFor(g.relations))
    ensures multiset(Conditions(q)) == multiset(AllFilters(g.relations)) + multiset(EdgeConditions(g.edges))
  {
    hide LeftDeep, Implements, Scoped, AllFilters;
    var order, used;
    q, order, used := EveryEdgeUsedIffTree(g, st, p);
    GatherPermutes(g.relations, order);
    GatherPermutes(EdgeConditions(g.edges), used);
    FiltersPermute(Pick(g, order), g.relations);
    assert LeavesFor(Pick(g, order)) == Gather(LeavesFor(g.relations), order);
    GatherPermutes(LeavesFor(g.relations), order);
  }

  // ---- From a query tree to its join graph ----

  // Equality conjuncts between two relations compare plain columns; the hash
  // join executor refuses any other equality.
  ghost predicate PlainEqualities(p: LogicalPlan)
  {
    forall e :: e in Conjuncts(Conditions(p)) && e.BinaryOp? && e.binary_op == Eq
      && RelationIds(e, BaseRelations(p)).Some? && |RelationIds(e, BaseRelations(p)).value| == 2
      ==> e.left.Column? && e.right.Column?
  }

  lemma {:induction false} ConditionsQualified(p: LogicalPlan)
    requires JoinTree(p) && Scoped(p)
    ensures forall c :: c in Conjuncts(Conditions(p)) ==> Qualified(c, Aliases(Leaves(p)))
  {
    match p
    case Scan(_, _) =>
    case Select(e, input) =>
      ConditionsQualified(input);
      ConjunctsOfSelect(p);
      SplitQualified(e, Aliases(Leaves(p)));
    case Join(e, left, right) =>
      ConditionsQualified(left);
      ConditionsQualified(right);
      ConjunctsOfJoin(p);
      SplitQualified(e, Aliases(Leaves(p)));
      AliasesAppend(Leaves(left), Leaves(right));
  }

  lemma QualifiedByIds(e: Expr, bases: seq<Relation>, names: set<string>)
    requires RelationIds(e, bases).Some? && forall i :: i in RelationIds(e, bases).value ==> bases[i].Name() in names
    ensures Qualified(e, names)
  {
    IdsAreMentioned(e, bases);
    forall q | q in ColumnsOf(e) ensures q.0.Some? && q.0.value in names {
      assert Known(q, bases);
      assert Mentions(e, bases, FindRelation(bases, q.0.value).value);
    }
  }

  lemma PlainEqualityEnds(e: Expr, bases: seq<Relation>, a: nat, b: nat)
    requires e.BinaryOp? && e.left.Column? && e.right.Column? && a != b && RelationIds(e, bases) == Some({a, b})
    ensures (e.left.table == Some(bases[a].Name()) && e.right.table == Some(bases[b].Name()))
         || (e.left.table == Some(bases[b].Name()) && e.right.table == Some(bases[a].Name()))
  {
    var l, r := RelationIds(e.left, bases), RelationIds(e.right, bases);
    var i, j := FindRelation(bases, e.left.table.value).value, FindRelation(bases, e.right.table.value).value;
    assert l == Some({i}) && r == Some({j});
    assert a in {i} + {j} && b in {i} + {j};
  }

  lemma SortedIsPlaced(p: LogicalPlan, g: JoinGraph, residual: seq<Expr>)
    requires Sorted(BaseRelations(p), Conjuncts(Conditions(p)), g, residual) && PlainEqualities(p)
    ensures Placed(g)
  {
    hide AllFilters, RelationIds, Qualified, Conjuncts;
    var bases := BaseRelations(p);
    SortedIsValid(bases, Conjuncts(Conditions(p)), g, residual);
    forall i, f | 0 <= i < |g.relations| && f in g.relations[i].local_filters
      ensures Qualified(f, {g.relations[i].Name()})
    {
      QualifiedByIds(f, bases, {g.relations[i].Name()});
    }
    forall k | 0 <= k < |g.edges| ensures EdgePlaced(g, g.edges[k]) {
      EdgeIsPlaced(p, g, residual, k);
    }
  }

  lemma EdgeIsPlaced(p: LogicalPlan, g: JoinGraph, residual: seq<Expr>, k: nat)
    requires Sorted(BaseRelations(p), Conjuncts(Conditions(p)), g, residual) && PlainEqualities(p) && g.Valid()
      && k < |g.edges|
    ensures EdgePlaced(g, g.edges[k])
  {
    hide AllFilters, RelationIds, Qualified, Conjuncts;
    var bases, e := BaseRelations(p), g.edges[k];
    QualifiedByIds(e.pred, bases, {g.relations[e.left].Name(), g.relations[e.right].Name()});
    assert EdgeConditions(g.edges)[k] == e.pred;
    assert e.pred in multiset(EdgeConditions(g.edges));
    assert e.pred in multiset(Conjuncts(Conditions(p)));
    assert |{e.left, e.right}| == 2;
    if e.pred.BinaryOp? && e.pred.binary_op == Eq {
      PlainEqualityEnds(e.pred, bases, e.left, e.right);
    }
  }

  // Conjuncts that mention exactly two relations: the edges to be.
  ghost function JoinConjuncts(p: LogicalPlan): seq<Expr>
  {
    Bags.Filter(e => BetweenTwo(e, BaseRelations(p)), Conjuncts(Conditions(p)))
  }

  predicate BetweenTwo(e: Expr, bases: seq<Relation>)
  {
    var ids := RelationIds(e, bases);
    ids.Some? && |ids.value| == 2
  }

  lemma EdgesAreJoinConjuncts(p: LogicalPlan, g: JoinGraph, residual: seq<Expr>)
    requires Sorted(BaseRelations(p), Conjuncts(Conditions(p)), g, residual)
    ensures multiset(EdgeConditions(g.edges)) == multiset(JoinConjuncts(p))
    ensures |g.edges| == |JoinConjuncts(p)|
  {
    forall e ensures multiset(EdgeConditions(g.edges))[e] == multiset(JoinConjuncts(p))[e] {
      EdgeOccurrences(p, g, residual, e);
    }
    Bags.BagEquality(multiset(EdgeConditions(g.edges)), multiset(JoinConjuncts(p)));
    assert |multiset(EdgeConditions(g.edges))| == |g.edges|;
    assert |multiset(JoinConjuncts(p))| == |JoinConjuncts(p)|;
  }

  lemma EdgeOccurrences(p: LogicalPlan, g: JoinGraph, residual: seq<Expr>, e: Expr)
    requires Sorted(BaseRelations(p), Conjuncts(Conditions(p)), g, residual)
    ensures multiset(EdgeConditions(g.edges))[e] == multiset(JoinConjuncts(p))[e]
  {
    hide RelationIds, Conjuncts, AllFilters, EdgeConditions;
    var bases := BaseRelations(p);
    Bags.FilterCount(e => BetweenTwo(e, bases), Conjuncts(Conditions(p)), e);
    FiltersAreSingle(bases, Conjuncts(Conditions(p)), g, residual);
    EdgesAreDouble(bases, Conjuncts(Conditions(p)), g, residual);
    assert e in multiset(AllFilters(g.relations)) <==> e in AllFilters(g.relations);
    assert e in multiset(EdgeConditions(g.edges)) <==> e in EdgeConditions(g.edges);
    assert e in multiset(residual) <==> e in residual;
  }

  lemma FiltersAreSingle(bases: seq<Relation>, conjuncts: seq<Expr>, g: JoinGraph, residual: seq<Expr>)
    requires Sorted(bases, conjuncts, g, residual)
    ensures forall e :: e in AllFilters(g.relations) ==> !BetweenTwo(e, bases)
  {
    hide RelationIds, AllFilters, EdgeConditions;
    forall e | e in AllFilters(g.relations) ensures !BetweenTwo(e, bases) {
      var i := FilterOwner(g.relations, e);
      assert |{i}| == 1;
    }
  }

  lemma EdgesAreDouble(bases: seq<Relation>, conjuncts: seq<Expr>, g: JoinGraph, residual: seq<Expr>)
    requires Sorted(bases, conjuncts, g, residual)
    ensures forall e :: e in EdgeConditions(g.edges) ==> BetweenTwo(e, bases)
  {
    hide RelationIds, AllFilters;
    forall e | e in EdgeConditions(g.edges) ensures BetweenTwo(e, bases) {
      var k :| 0 <= k < |g.edges| && EdgeConditions(g.edges)[k] == e;
      assert |{g.edges[k].left, g.edges[k].right}| == 2;
    }
  }

  lemma {:induction false} FilterOwner(relations: seq<Relation>, e: Expr) returns (i: nat)
    requires e in AllFilters(relations)
    ensures i < |relations| && e in relations[i].local_filters
  {
    if e in relations[0].local_filters {
      i := 0;
    } else {
      i := FilterOwner(relations[1..], e);
      i := i + 1;
    }
  }

  // ---- The planner's answer ----

  lemma {:induction false} ConjunctsAtomic(conditions: seq<Expr>)
    ensures forall c :: c in Conjuncts(conditions) ==> SplitAnd(c) == [c]
  {
    if conditions != [] {
      ConjunctsAtomic(conditions[1..]);
      PD.SplitIsAtomic(conditions[0]);
    }
  }

  lemma {:induction false} AtomicConjuncts(conditions: seq<Expr>)
    requires forall c :: c in conditions ==> SplitAnd(c) == [c]
    ensures Conjuncts(conditions) == conditions
  {
    if conditions != [] {
      AtomicConjuncts(conditions[1..]);
      assert conditions == [conditions[0]] + conditions[1..];
    }
  }

  // Whatever rows the plan gives, laid out by the leaves of some tree, are the
  // rows of p.
  ghost predicate SameResult(p: LogicalPlan, plan: P.PhysicalPlan, w: World)
  {
    exists q :: Realises(p, plan, q, w)
  }

  ghost predicate Realises(p: LogicalPlan, plan: P.PhysicalPlan, q: LogicalPlan, w: World)
  {
    && JoinTree(q) && multiset(Leaves(p)) == multiset(Leaves(q)) && SameRows(p, q, w)
    && forall out :: Yields(plan, w.db, out) ==> multiset(out) == multiset(RowsOf(q, w))
  }

  // Tables have distinct columns, every column mentioned exists, and columns
  // compared for equality hold values of one kind.
  ghost predicate Typed(p: LogicalPlan, w: World)
  {
    && WellFormed(w.db) && DistinctColumns(w.db)
    && (forall i :: 0 <= i < |Leaves(p)| ==> Leaves(p)[i].table in w.db)
    && (forall c :: c in Conjuncts(Conditions(p)) ==>
          Comparable(c, ScopeOf(Leaves(p)), w.db) && ColumnsExist(c, ScopeOf(Leaves(p)), w.db)
          && AlwaysBoolean(c, ScopeOf(Leaves(p)), w.db))
  }

  // A tree with the same leaves and, each once, the same conjuncts as p: any
  // physical plan implementing it answers p.
  lemma ImplementationAnswers(p: LogicalPlan, plan: P.PhysicalPlan, q: LogicalPlan, w: World)
    requires JoinTree(p) && Scoped(p) && Distinct(Leaves(p)) && Typed(p, w)
    requires Implements(plan, q) && JoinTree(q) && Scoped(q)
    requires multiset(Leaves(p)) == multiset(Leaves(q)) && multiset(Conditions(q)) == multiset(Conjuncts(Conditions(p)))
    ensures SameResult(p, plan, w) && PlanRuns(plan, w.db)
  {
    hide *;
    DistinctPermutes(Leaves(p), Leaves(q));
    ScopeBinds(Leaves(p), Leaves(q));
    TypedConditions(p, q, w);
    SameConjunctsSameRows(p, q, w);
    var sc := ScopeOf(Leaves(p));
    ImplementsRows(plan, q, sc, w);
    BooleanTreesRun(q, sc, w);
    ImplementsRuns(plan, q, sc, w);
    Realised(p, plan, q, w);
  }

  lemma Realised(p: LogicalPlan, plan: P.PhysicalPlan, q: LogicalPlan, w: World)
    requires JoinTree(q) && multiset(Leaves(p)) == multiset(Leaves(q)) && PlanRows(plan, w.db) == RowsOf(q, w)
      && SameRows(p, q, w)
    requires WellFormed(w.db)
    ensures SameResult(p, plan, w)
  {
    hide SameRows, RowsOf, PlanRows, JoinTree, Yields, WellFormed;
    forall out | Yields(plan, w.db, out) ensures multiset(out) == multiset(RowsOf(q, w)) { YieldsBag(plan, w.db, out); }
    assert Realises(p, plan, q, w);
  }

  // What is typed in p is typed in any tree with the same conjuncts.
  lemma TypedConditions(p: LogicalPlan, q: LogicalPlan, w: World)
    requires Typed(p, w) && multiset(Leaves(p)) == multiset(Leaves(q))
    requires multiset(Conditions(q)) == multiset(Conjuncts(Conditions(p)))
    ensures WellFormed(w.db) && DistinctColumns(w.db)
    ensures forall i :: 0 <= i < |Leaves(q)| ==> Leaves(q)[i].table in w.db
    ensures forall c :: c in Conjuncts(Conditions(p)) <==> c in Conjuncts(Conditions(q))
    ensures AllComparable(Conditions(q), ScopeOf(Leaves(p)), w.db)
    ensures forall i :: 0 <= i < |Conditions(q)| ==> ColumnsExist(Conditions(q)[i], ScopeOf(Leaves(p)), w.db)
    ensures forall c :: c in Conjuncts(Conditions(q)) ==> AlwaysBoolean(c, ScopeOf(Leaves(p)), w.db)
  {
    hide Comparable, ColumnsExist, AlwaysBoolean, Conjuncts, Conditions, Leaves, ScopeOf, WellFormed, DistinctColumns;
    Bags.SameElements(Conditions(q), Conjuncts(Conditions(p)));
    ConjunctsAtomic(Conditions(p));
    AtomicConjuncts(Conditions(q));
    TablesStored(Leaves(p), Leaves(q), w.db);
  }

  lemma TablesStored(a: seq<Leaf>, b: seq<Leaf>, db: Database)
    requires multiset(a) == multiset(b) && forall i :: 0 <= i < |a| ==> a[i].table in db
    ensures forall i :: 0 <= i < |b| ==> b[i].table in db
  {
    Bags.SameElements(b, a);
  }

  // plan_join_search's last loop.
  function Residuals(best: P.PhysicalPlan, residual: seq<Expr>): P.PhysicalPlan
    decreases |residual|
  {
    if residual == [] then best else Residuals(Residual(best, residual[0]), residual[1..])
  }

  function Residual(best: P.PhysicalPlan, e: Expr): P.PhysicalPlan
  {
    P.Filter(e, best, best.estimated_cost.Plus(Costs.FilterCost(best.estimated_rows)),
             if best.estimated_rows / 10 < 1 then 1 else best.estimated_rows / 10)
  }

  lemma {:induction false} ResidualsImplement(best: P.PhysicalPlan, residual: seq<Expr>, q: LogicalPlan)
    requires Implements(best, q)
    ensures Implements(Residuals(best, residual), PD.WrapFilters(q, residual))
    decreases |residual|
  {
    if residual != [] {
      ResidualsImplement(Residual(best, residual[0]), residual[1..], Select(residual[0], q));
    }
  }

  lemma LeavesOfGraph(p: LogicalPlan, g: JoinGraph)
    requires JoinTree(p) && SameBases(g.relations, BaseRelations(p))
    ensures LeavesFor(g.relations) == Leaves(p)
  {
    BasesAreLeaves(p);
  }

  // A query tree whose join conjuncts form a tree gets a plan with its rows.
  lemma SearchedPlanAnswers(p: LogicalPlan, g: JoinGraph, residual: seq<Expr>, st: Statistics, best: P.PhysicalPlan,
                            w: World)
    requires JoinTree(p) && Scoped(p) && Distinct(Leaves(p)) && PlainEqualities(p) && Typed(p, w)
    requires Sorted(BaseRelations(p), Conjuncts(Conditions(p)), g, residual)
    requires |g.relations| >= 1 && LeftDeep(g, st, Pow2(|g.relations|) - 1, best)
    requires |JoinConjuncts(p)| == |Leaves(p)| - 1
    ensures SameResult(p, Residuals(best, residual), w) && PlanRuns(Residuals(best, residual), w.db)
  {
    hide LeftDeep, PlainEqualities, Typed, Implements, Qualified, AllFilters, Conjuncts, RelationIds, Placed,
         JoinConjuncts;
    SortedIsPlaced(p, g, residual);
    EdgesAreJoinConjuncts(p, g, residual);
    LeavesOfGraph(p, g);
    var q := TreeUsesEverythingOnce(g, st, best);
    DistinctPermutes(Leaves(p), Leaves(q));
    ConditionsQualified(p);
    forall e | e in residual ensures Qualified(e, Aliases(Leaves(q))) {
      assert e in multiset(residual);
      assert e in multiset(Conjuncts(Conditions(p)));
    }
    PD.WrapShape(q, residual);
    WrapConditions(q, residual);
    ResidualsImplement(best, residual, q);
    ImplementationAnswers(p, Residuals(best, residual), PD.WrapFilters(q, residual), w);
  }

  // A left-deep plan of all relations under the residual filters.
  ghost predicate Searched(g: JoinGraph, st: Statistics, residual: seq<Expr>, plan: P.PhysicalPlan)
  {
    exists best :: LeftDeep(g, st, Pow2(|g.relations|) - 1, best) && plan == Residuals(best, residual)
  }

  // physical/physical_planner.cpp plan_join_search.  The plan answers
  // the query, without throwing, whenever there is one join conjunct fewer
  // than there are relations.
  method PlanJoinSearch(p: LogicalPlan, st: Statistics)
    returns (result: Result<P.PhysicalPlan>, ghost graph: JoinGraph, ghost rest: seq<Expr>)
    requires |Leaves(p)| <= 64
    ensures JoinTree(p) ==> Sorted(BaseRelations(p), Conjuncts(Conditions(p)), graph, rest)
    ensures result.Ok? <==> JoinTree(p) && 1 <= |Leaves(p)| <= 63 && Connected(graph.edges, AllRelations(graph))
    ensures result.Ok? ==> Searched(graph, st, rest, result.value)
    ensures (&& result.Ok? && Scoped(p) && Distinct(Leaves(p)) && PlainEqualities(p)
             && |JoinConjuncts(p)| == |Leaves(p)| - 1) ==>
      forall w :: Typed(p, w) ==> SameResult(p, result.value, w) && PlanRuns(result.value, w.db)
  {
    hide LeftDeep, PlainEqualities, Typed, SameResult, PlanRuns, Scoped, Distinct, Sorted, Connected;
    graph, rest := JoinGraph([], []), [];
    var extraction := BuildJoinGraph(p);
    if extraction.Err? {
      result := Err(extraction.error);
      return;
    }
    var (g, residual) := extraction.value;
    graph, rest := g, residual;
    RelationCount(p, g, residual);
    var enumerator := new JoinEnumerator(st);
    var best := enumerator.FindBestPlan(g);
    if best.Err? {
      result := best;
      return;
    }
    var plan := best.value;
    for i := 0 to |residual|
      invariant Residuals(plan, residual[i..]) == Residuals(best.value, residual)
    {
      plan := Residual(plan, residual[i]);
      assert residual[i..][1..] == residual[i + 1..];
    }
    result := Ok(plan);
    if Scoped(p) && Distinct(Leaves(p)) && PlainEqualities(p) && |JoinConjuncts(p)| == |Leaves(p)| - 1 {
      forall w | Typed(p, w) ensures SameResult(p, plan, w) && PlanRuns(plan, w.db) {
        SearchedPlanAnswers(p, g, residual, st, best.value, w);
      }
    }
  }

  lemma RelationCount(p: LogicalPlan, g: JoinGraph, residual: seq<Expr>)
    requires JoinTree(p) && Sorted(BaseRelations(p), Conjuncts(Conditions(p)), g, residual)
    ensures |g.relations| == |Leaves(p)|
  {
    BasesAreLeaves(p);
  }
}
