// Physical plans and their costs (physical/physical_plan.hpp, physical/cost.cpp).
module Costs {
  datatype Cost = Cost(cpu: real, io: real, memory: real) {
    function Total(): real { cpu + io + memory }

    function Plus(other: Cost): Cost
    {
      Cost(cpu + other.cpu, io + other.io, memory + other.memory)
    }
  }

  const CPU_TUPLE := 0.01
  const SEQ_PAGE := 1.0
  const RANDOM_PAGE := 4.0
  const INDEX_TUPLE := 0.005
  const HASH_BUILD := 0.02
  const MEMORY_PER_ROW := 0.001
  const MEMORY_BUDGET_ROWS := 100000.0
  const SPILL_IO_PER_ROW := 0.05

  // static_cast<size_t>(std::max(1.0, std::round(rows)))
  function RowsToSize(rows: real): (n: nat)
    ensures n >= 1
  {
    if rows < 1.0 then 1 else (rows + 0.5).Floor
  }

  function SpillPenalty(rows: nat): real
  {
    if rows as real <= MEMORY_BUDGET_ROWS then 0.0
    else (rows as real - MEMORY_BUDGET_ROWS) * SPILL_IO_PER_ROW
  }

  function SeqScanCost(row_count: nat, page_count: real): Cost
  {
    Cost(row_count as real * CPU_TUPLE, (if page_count < 1.0 then 1.0 else page_count) * SEQ_PAGE, 0.0)
  }

  function IndexScanCost(matched: nat): Cost
  {
    Cost(matched as real * (CPU_TUPLE + INDEX_TUPLE), matched as real * RANDOM_PAGE, 0.0)
  }

  function FilterCost(input_rows: nat): Cost
  {
    Cost(input_rows as real * CPU_TUPLE, 0.0, 0.0)
  }

  function NestedLoopCost(left_rows: nat, right_rows: nat): Cost
  {
    Cost(left_rows as real * right_rows as real * CPU_TUPLE * 0.01, 0.0, 0.0)
  }

  function HashJoinCost(left_rows: nat, right_rows: nat): Cost
  {
    var build := if left_rows <= right_rows then left_rows else right_rows;
    var probe := if left_rows <= right_rows then right_rows else left_rows;
    Cost(build as real * HASH_BUILD + probe as real * CPU_TUPLE, SpillPenalty(build), build as real * MEMORY_PER_ROW)
  }

  function IndexNestedLoopCost(outer_rows: nat, output_rows: nat): Cost
  {
    Cost(outer_rows as real * (CPU_TUPLE + INDEX_TUPLE) + output_rows as real * CPU_TUPLE,
         outer_rows as real * RANDOM_PAGE, 0.0)
  }
}

module Plans {
  import opened Wrappers
  import opened Ast
  import opened Costs

  datatype JoinAlgorithm = NestedLoopJoin | HashJoin | IndexNestedLoopJoin

  datatype PhysicalPlan =
    | SeqScan(table_name: string, alias: Option<string>, estimated_cost: Cost, estimated_rows: nat)
    | IndexScan(table_name: string, alias: Option<string>, index_column: string, probe: Literal,
                estimated_cost: Cost, estimated_rows: nat)
    | Filter(pred: Expr, input: PhysicalPlan, estimated_cost: Cost, estimated_rows: nat)
    | Join(algorithm: JoinAlgorithm, condition: Expr, left: PhysicalPlan, right: PhysicalPlan,
           estimated_cost: Cost, estimated_rows: nat)
  {
    function Total(): real { estimated_cost.Total() }
  }
}

// The join graph (optimizer/join_graph.hpp) and what it means for it to be
// connected.
module JoinGraphs {
  import opened Wrappers
  import opened Ast

  datatype Relation = Relation(table_name: string, alias: Option<string>, local_filters: seq<Expr>) {
    function Name(): string { if alias.Some? then alias.value else table_name }
  }

  datatype JoinEdge = JoinEdge(left: nat, right: nat, pred: Expr)

  datatype JoinGraph = JoinGraph(relations: seq<Relation>, edges: seq<JoinEdge>) {
    ghost predicate Valid()
    {
      forall k :: 0 <= k < |edges| ==>
        edges[k].left < |relations| && edges[k].right < |relations| && edges[k].left != edges[k].right
    }
  }

  predicate Joins(e: JoinEdge, a: nat, b: nat)
  {
    (e.left == a && e.right == b) || (e.left == b && e.right == a)
  }

  ghost predicate Adjacent(edges: seq<JoinEdge>, a: nat, b: nat)
  {
    exists k :: 0 <= k < |edges| && Joins(edges[k], a, b)
  }

  // A walk through s along edges.
  ghost predicate Walk(edges: seq<JoinEdge>, s: set<nat>, path: seq<nat>)
  {
    && (forall i :: 0 <= i < |path| ==> path[i] in s)
    && (forall i :: 0 <= i < |path| - 1 ==> Adjacent(edges, path[i], path[i + 1]))
  }

  ghost predicate Linked(edges: seq<JoinEdge>, s: set<nat>, a: nat, b: nat)
  {
    exists path :: Walk(edges, s, path) && |path| > 0 && path[0] == a && path[|path| - 1] == b
  }

  // The graph restricted to s is connected: every two relations are linked by
  // a walk that stays inside s.
  ghost predicate Connected(edges: seq<JoinEdge>, s: set<nat>)
  {
    s != {} && forall a, b :: a in s && b in s ==> Linked(edges, s, a, b)
  }

  ghost predicate Touches(edges: seq<JoinEdge>, s: set<nat>, r: nat)
  {
    exists a :: a in s && Adjacent(edges, a, r)
  }

  // r comes last: the rest of s is not empty and has an edge to r.
  ghost predicate Last(edges: seq<JoinEdge>, s: set<nat>, r: nat)
  {
    r in s && s != {r} && Touches(edges, s - {r}, r)
  }

  // s can be assembled one adjacent relation at a time.
  ghost predicate Grown(edges: seq<JoinEdge>, s: set<nat>)
    decreases |s|
  {
    |s| == 1 || exists r :: Last(edges, s, r) && Grown(edges, s - {r})
  }

  lemma {:induction false} WalkLeaves(edges: seq<JoinEdge>, s: set<nat>, t: set<nat>, path: seq<nat>)
    returns (a: nat, r: nat)
    requires Walk(edges, s, path) && |path| > 0
    requires path[0] in t && path[|path| - 1] !in t
    ensures a in t && r in s - t && Adjacent(edges, a, r)
  {
    if path[1] in t {
      a, r := WalkLeaves(edges, s, t, path[1..]);
    } else {
      a, r := path[0], path[1];
    }
  }

  lemma Outside(s: set<nat>, t: set<nat>) returns (y: nat)
    requires t <= s && t != s
    ensures y in s && y !in t
  {
    assert !(forall z :: z in s <==> z in t);
    y :| y in s && y !in t;
  }

  // A grown part of a connected set keeps growing until it is the whole set.
  lemma {:induction false} GrowthContinues(edges: seq<JoinEdge>, s: set<nat>, t: set<nat>)
    requires Connected(edges, s) && t <= s && t != {} && Grown(edges, t)
    ensures Grown(edges, s)
    decreases s - t
  {
    if t != s {
      var x :| x in t;
      var y := Outside(s, t);
      assert Linked(edges, s, x, y);
      var path :| Walk(edges, s, path) && |path| > 0 && path[0] == x && path[|path| - 1] == y;
      var a, r := WalkLeaves(edges, s, t, path);
      var u := t + {r};
      assert u - {r} == t;
      assert Last(edges, u, r);
      GrowthContinues(edges, s, u);
    }
  }

  lemma LinkedThrough(edges: seq<JoinEdge>, s: set<nat>, a: nat, b: nat, c: nat)
    requires Linked(edges, s, a, b) && Linked(edges, s, b, c)
    ensures Linked(edges, s, a, c)
  {
    var p :| Walk(edges, s, p) && |p| > 0 && p[0] == a && p[|p| - 1] == b;
    var q :| Walk(edges, s, q) && |q| > 0 && q[0] == b && q[|q| - 1] == c;
    var path := p + q[1..];
    assert Walk(edges, s, path);
    assert path[|path| - 1] == c;
  }

  lemma LinkedEdge(edges: seq<JoinEdge>, s: set<nat>, a: nat, b: nat)
    requires a in s && b in s && Adjacent(edges, a, b)
    ensures Linked(edges, s, a, b) && Linked(edges, s, b, a)
  {
    assert Walk(edges, s, [a, b]);
    assert Walk(edges, s, [b, a]) by {
      var k :| 0 <= k < |edges| && Joins(edges[k], a, b);
      assert Joins(edges[k], b, a);
    }
  }

  lemma LinkedWider(edges: seq<JoinEdge>, s: set<nat>, t: set<nat>, a: nat, b: nat)
    requires Linked(edges, s, a, b) && s <= t
    ensures Linked(edges, t, a, b)
  {
    var p :| Walk(edges, s, p) && |p| > 0 && p[0] == a && p[|p| - 1] == b;
    assert Walk(edges, t, p);
  }

  lemma {:induction false} GrownIsConnected(edges: seq<JoinEdge>, s: set<nat>)
    requires Grown(edges, s) && s != {}
    ensures Connected(edges, s)
    decreases |s|
  {
    if |s| == 1 {
      SingletonConnected(edges, s);
    } else {
      var r :| Last(edges, s, r) && Grown(edges, s - {r});
      GrownIsConnected(edges, s - {r});
      AddingKeepsConnected(edges, s - {r}, r);
      assert s - {r} + {r} == s;
    }
  }

  lemma SingletonConnected(edges: seq<JoinEdge>, s: set<nat>)
    requires |s| == 1
    ensures Connected(edges, s)
  {
    var x :| x in s;
    assert |s - {x}| == 0;
    assert s == {x};
    assert Walk(edges, s, [x]);
  }

  lemma AddingKeepsConnected(edges: seq<JoinEdge>, t: set<nat>, r: nat)
    requires Connected(edges, t) && Touches(edges, t, r)
    ensures Connected(edges, t + {r})
  {
    forall a, b | a in t + {r} && b in t + {r} ensures Linked(edges, t + {r}, a, b) {
      LinkedAfterAdding(edges, t, r, a, b);
    }
  }

  lemma LinkedAfterAdding(edges: seq<JoinEdge>, t: set<nat>, r: nat, a: nat, b: nat)
    requires Connected(edges, t) && Touches(edges, t, r)
    requires a in t + {r} && b in t + {r}
    ensures Linked(edges, t + {r}, a, b)
  {
    var s := t + {r};
    var x :| x in t && Adjacent(edges, x, r);
    LinkedEdge(edges, s, x, r);
    var a' := if a in t then a else x;
    var b' := if b in t then b else x;
    LinkedWider(edges, t, s, a', b');
    if a !in t {
      LinkedThrough(edges, s, a, a', b');
    }
    if b !in t {
      LinkedThrough(edges, s, a, b', b);
    }
  }

  lemma ConnectedIffGrown(edges: seq<JoinEdge>, s: set<nat>)
    requires s != {}
    ensures Connected(edges, s) <==> Grown(edges, s)
  {
    if Grown(edges, s) {
      GrownIsConnected(edges, s);
    }
    if Connected(edges, s) {
      var x :| x in s;
      assert |{x}| == 1;
      GrowthContinues(edges, s, {x});
    }
  }
}
