// optimizer/join_graph.cpp: turning a tree of inner joins into relations,
// local filters, edges and residual filters.
module JoinGraphExtraction {
  import opened Wrappers
  import opened Ast
  import opened Bags
  import opened JoinGraphs
  import R = Relational
  import NF = NormalForm

  // find_relation: the first relation of that name.
  function FindRelation(relations: seq<Relation>, name: string): (i: Option<nat>)
    ensures i.Some? ==> i.value < |relations| && relations[i.value].Name() == name
    ensures i.None? ==> forall j :: 0 <= j < |relations| ==> relations[j].Name() != name
  {
    if relations == [] then None
    else if relations[0].Name() == name then Some(0)
    else
      var i := FindRelation(relations[1..], name);
      if i.Some? then Some(i.value + 1) else
        assert forall j :: 0 < j < |relations| ==> relations[j] == relations[1..][j - 1];
        None
  }

  // referenced_relation_ids: None when some column is unqualified or names no
  // relation.
  function RelationIds(e: Expr, relations: seq<Relation>): (ids: Option<set<nat>>)
    ensures ids.Some? ==> forall i :: i in ids.value ==> i < |relations|
  {
    match e
    case Column(t, _) =>
      if t.None? then None
      else var i := FindRelation(relations, t.value); if i.None? then None else Some({i.value})
    case BinaryOp(l, _, r) =>
      var a, b := RelationIds(l, relations), RelationIds(r, relations);
      if a.None? || b.None? then None else Some(a.value + b.value)
    case UnaryOp(_, x) => RelationIds(x, relations)
    case Function(_, args) =>
      if forall i :: 0 <= i < |args| ==> RelationIds(args[i], relations).Some? then
        Some(set i, id | 0 <= i < |args| && id in RelationIds(args[i], relations).value :: id)
      else None
    case _ => Some({})
  }

  // The column is qualified by the name of a relation.
  predicate Known(column: (Option<string>, string), relations: seq<Relation>)
  {
    column.0.Some? && FindRelation(relations, column.0.value).Some?
  }

  ghost predicate Mentions(e: Expr, relations: seq<Relation>, id: nat)
  {
    exists q :: q in ColumnsOf(e) && Known(q, relations) && FindRelation(relations, q.0.value) == Some(id)
  }

  // The ids are exactly the relations the columns name, and there are none
  // exactly when some column names no relation.
  lemma {:induction false} IdsAreMentioned(e: Expr, relations: seq<Relation>)
    ensures RelationIds(e, relations).Some? <==> forall q :: q in ColumnsOf(e) ==> Known(q, relations)
    ensures RelationIds(e, relations).Some? ==>
      forall id :: id in RelationIds(e, relations).value <==> Mentions(e, relations, id)
  {
    match e
    case Column(t, c) =>
      assert (t, c) in ColumnsOf(e);
    case BinaryOp(l, _, r) =>
      IdsAreMentioned(l, relations);
      IdsAreMentioned(r, relations);
      forall id ensures Mentions(e, relations, id) <==> Mentions(l, relations, id) || Mentions(r, relations, id) {
      }
    case UnaryOp(_, x) =>
      IdsAreMentioned(x, relations);
      assert forall id :: Mentions(e, relations, id) <==> Mentions(x, relations, id);
    case Function(_, args) =>
      forall i | 0 <= i < |args| {
        IdsAreMentioned(args[i], relations);
      }
      ArgumentsMention(e, relations);
    case _ =>
  }

  lemma ArgumentsMention(e: Expr, relations: seq<Relation>)
    requires e.Function?
    requires forall i :: 0 <= i < |e.args| ==>
      (RelationIds(e.args[i], relations).Some? <==> forall q :: q in ColumnsOf(e.args[i]) ==> Known(q, relations))
    requires forall i :: 0 <= i < |e.args| && RelationIds(e.args[i], relations).Some? ==>
      forall id :: id in RelationIds(e.args[i], relations).value <==> Mentions(e.args[i], relations, id)
    ensures RelationIds(e, relations).Some? <==> forall q :: q in ColumnsOf(e) ==> Known(q, relations)
    ensures RelationIds(e, relations).Some? ==>
      forall id :: id in RelationIds(e, relations).value <==> Mentions(e, relations, id)
  {
    if RelationIds(e, relations).Some? {
      forall id ensures id in RelationIds(e, relations).value <==> Mentions(e, relations, id) {
        if id in RelationIds(e, relations).value {
          var i :| 0 <= i < |e.args| && id in RelationIds(e.args[i], relations).value;
          assert Mentions(e.args[i], relations, id);
        }
        if Mentions(e, relations, id) {
          var q :| q in ColumnsOf(e) && Known(q, relations) && FindRelation(relations, q.0.value) == Some(id);
          var i :| 0 <= i < |e.args| && q in ColumnsOf(e.args[i]);
          assert Mentions(e.args[i], relations, id);
        }
      }
    } else {
      var i :| 0 <= i < |e.args| && RelationIds(e.args[i], relations).None?;
      var q :| q in ColumnsOf(e.args[i]) && !Known(q, relations);
      assert q in ColumnsOf(e);
    }
  }

  // ---- build_join_graph ----

  // The scans of a tree, left to right, without filters yet.
  function BaseRelations(p: R.LogicalPlan): seq<Relation>
  {
    match p
    case Scan(table, alias) => [Relation(table, alias, [])]
    case Select(_, input) => BaseRelations(input)
    case Join(_, left, right) => BaseRelations(left) + BaseRelations(right)
    case Above(_, _) => []
  }

  lemma {:induction false} BasesAreLeaves(p: R.LogicalPlan)
    requires NF.JoinTree(p)
    ensures |BaseRelations(p)| == |NF.Leaves(p)|
    ensures forall i :: 0 <= i < |BaseRelations(p)| ==>
      NF.Leaves(p)[i] == NF.Leaf(BaseRelations(p)[i].table_name, BaseRelations(p)[i].Name())
  {
    match p
    case Scan(_, _) =>
    case Select(_, input) => BasesAreLeaves(input);
    case Join(_, left, right) =>
      BasesAreLeaves(left);
      BasesAreLeaves(right);
  }

  function AllFilters(relations: seq<Relation>): seq<Expr>
  {
    if relations == [] then [] else relations[0].local_filters + AllFilters(relations[1..])
  }

  function EdgeConditions(edges: seq<JoinEdge>): seq<Expr>
  {
    seq(|edges|, k requires 0 <= k < |edges| => edges[k].pred)
  }

  function WithFilter(relations: seq<Relation>, i: nat, f: Expr): seq<Relation>
    requires i < |relations|
  {
    relations[i := relations[i].(local_filters := relations[i].local_filters + [f])]
  }

  lemma {:induction false} FilterAdded(relations: seq<Relation>, i: nat, f: Expr)
    requires i < |relations|
    ensures multiset(AllFilters(WithFilter(relations, i, f))) == multiset(AllFilters(relations)) + multiset{f}
    decreases i
  {
    var after := WithFilter(relations, i, f);
    if i == 0 {
      assert after[1..] == relations[1..];
    } else {
      assert after[1..] == WithFilter(relations[1..], i - 1, f);
      FilterAdded(relations[1..], i - 1, f);
    }
  }

  ghost predicate SameBases(a: seq<Relation>, b: seq<Relation>)
  {
    |a| == |b| && forall i :: 0 <= i < |a| ==> a[i].table_name == b[i].table_name && a[i].alias == b[i].alias
  }

  // Every conjunct seen so far is in exactly one place, the place its
  // relations call for.
  ghost predicate Sorted(bases: seq<Relation>, conjuncts: seq<Expr>, g: JoinGraph, residual: seq<Expr>)
  {
    && SameBases(g.relations, bases)
    && multiset(conjuncts) == multiset(AllFilters(g.relations)) + multiset(EdgeConditions(g.edges)) + multiset(residual)
    && (forall i, f :: 0 <= i < |g.relations| && f in g.relations[i].local_filters ==>
        RelationIds(f, bases) == Some({i}))
    && (forall k :: 0 <= k < |g.edges| ==>
          g.edges[k].left != g.edges[k].right
          && RelationIds(g.edges[k].pred, bases) == Some({g.edges[k].left, g.edges[k].right}))
    && (forall e :: e in residual ==> RelationIds(e, bases).None? || |RelationIds(e, bases).value| !in {1, 2})
  }

  lemma SortResidual(bases: seq<Relation>, seen: seq<Expr>, g: JoinGraph, residual: seq<Expr>, e: Expr)
    requires Sorted(bases, seen, g, residual)
    requires RelationIds(e, bases).None? || |RelationIds(e, bases).value| !in {1, 2}
    ensures Sorted(bases, seen + [e], g, residual + [e])
  {
    hide RelationIds, AllFilters;
  }

  lemma SortFilter(bases: seq<Relation>, seen: seq<Expr>, g: JoinGraph, residual: seq<Expr>, e: Expr, id: nat)
    requires Sorted(bases, seen, g, residual) && id < |bases| && RelationIds(e, bases) == Some({id})
    ensures Sorted(bases, seen + [e], g.(relations := WithFilter(g.relations, id, e)), residual)
  {
    hide RelationIds, AllFilters;
    FilterAdded(g.relations, id, e);
  }

  lemma SortEdge(bases: seq<Relation>, seen: seq<Expr>, g: JoinGraph, residual: seq<Expr>, e: Expr, a: nat, b: nat)
    requires Sorted(bases, seen, g, residual) && a != b && RelationIds(e, bases) == Some({a, b})
    ensures Sorted(bases, seen + [e], g.(edges := g.edges + [JoinEdge(a, b, e)]), residual)
  {
    hide RelationIds, AllFilters;
    assert EdgeConditions(g.edges + [JoinEdge(a, b, e)]) == EdgeConditions(g.edges) + [e];
    InMiddle(multiset(AllFilters(g.relations)), multiset(EdgeConditions(g.edges)), multiset(residual), e);
  }

  lemma InMiddle(a: multiset<Expr>, b: multiset<Expr>, c: multiset<Expr>, e: Expr)
    ensures (a + b + c) + multiset{e} == a + (b + multiset{e}) + c
  {
  }

  lemma SortedIsValid(bases: seq<Relation>, seen: seq<Expr>, g: JoinGraph, residual: seq<Expr>)
    requires Sorted(bases, seen, g, residual)
    ensures g.Valid()
  {
    hide AllFilters, EdgeConditions;
    forall k | 0 <= k < |g.edges| ensures g.edges[k].left < |g.relations| && g.edges[k].right < |g.relations| {
      assert g.edges[k].left in RelationIds(g.edges[k].pred, bases).value;
      assert g.edges[k].right in RelationIds(g.edges[k].pred, bases).value;
    }
  }

  // One conjunct: to its relation, to the graph, or left over.
  method PlaceConjunct(bases: seq<Relation>, ghost seen: seq<Expr>, g: JoinGraph, residual: seq<Expr>, e: Expr)
    returns (g': JoinGraph, residual': seq<Expr>)
    requires Sorted(bases, seen, g, residual) && |g.relations| == |bases|
    ensures Sorted(bases, seen + [e], g', residual') && |g'.relations| == |bases|
  {
    hide RelationIds, Sorted, AllFilters;
    g', residual' := g, residual;
    var ids := RelationIds(e, bases);
    if ids.None? || |ids.value| !in {1, 2} {
      SortResidual(bases, seen, g, residual, e);
      residual' := residual + [e];
    } else if |ids.value| == 1 {
      var id :| id in ids.value;
      OneElement(ids.value, id);
      SortFilter(bases, seen, g, residual, e, id);
      g' := g.(relations := WithFilter(g.relations, id, e));
    } else {
      var a :| a in ids.value;
      assert |ids.value - {a}| == 1;
      var b :| b in ids.value - {a};
      TwoElements(ids.value, a, b);
      SortEdge(bases, seen, g, residual, e, a, b);
      g' := g.(edges := g.edges + [JoinEdge(a, b, e)]);
    }
  }

  method BuildJoinGraph(p: R.LogicalPlan) returns (result: Result<(JoinGraph, seq<Expr>)>)
    ensures result.Ok? <==> NF.JoinTree(p)
    ensures result.Ok? ==>
      Sorted(BaseRelations(p), NF.Conjuncts(NF.Conditions(p)), result.value.0, result.value.1) && result.value.0.Valid()
  {
    hide *;
    if !NF.JoinTree(p) {
      return Err("join_graph: unexpected node kind inside a join-search subtree");
    }
    var bases, conjuncts := BaseRelations(p), NF.Conjuncts(NF.Conditions(p));
    var g, residual := JoinGraph(bases, []), [];
    NothingSorted(p);
    for n := 0 to |conjuncts|
      invariant Sorted(bases, conjuncts[..n], g, residual) && |g.relations| == |bases|
    {
      assert conjuncts[..n + 1] == conjuncts[..n] + [conjuncts[n]];
      g, residual := PlaceConjunct(bases, conjuncts[..n], g, residual, conjuncts[n]);
    }
    assert conjuncts[..|conjuncts|] == conjuncts;
    SortedIsValid(bases, conjuncts, g, residual);
    result := Ok((g, residual));
  }

  lemma NothingSorted(p: R.LogicalPlan)
    ensures Sorted(BaseRelations(p), NF.Conjuncts(NF.Conditions(p))[..0], JoinGraph(BaseRelations(p), []), [])
  {
    NoFilters(p);
  }

  lemma {:induction false} NoFilters(p: R.LogicalPlan)
    ensures AllFilters(BaseRelations(p)) == [] && forall i :: 0 <= i < |BaseRelations(p)| ==>
      BaseRelations(p)[i].local_filters == []
  {
    match p
    case Scan(_, _) =>
    case Select(_, input) => NoFilters(input);
    case Join(_, left, right) =>
      NoFilters(left);
      NoFilters(right);
      FiltersAppend(BaseRelations(left), BaseRelations(right));
    case Above(_, _) =>
  }

  lemma {:induction false} FiltersAppend(a: seq<Relation>, b: seq<Relation>)
    ensures AllFilters(a + b) == AllFilters(a) + AllFilters(b)
  {
    if a == [] {
      assert a + b == b;
    } else {
      assert (a + b)[0] == a[0] && (a + b)[1..] == a[1..] + b;
      FiltersAppend(a[1..], b);
    }
  }

  lemma OneElement(s: set<nat>, x: nat)
    requires |s| == 1 && x in s
    ensures s == {x}
  {
    assert |s - {x}| == 0;
  }

  lemma TwoElements(s: set<nat>, x: nat, y: nat)
    requires |s| == 2 && x in s && y in s - {x}
    ensures s == {x, y}
  {
    assert |s - {x}| == 1;
    OneElement(s - {x}, y);
    assert s == (s - {x}) + {x};
  }
}
