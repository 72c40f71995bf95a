// Rule 3 of logical/optimizer.cpp: flatten a tree of inner joins and rebuild
// it greedily, smallest estimated output first.
module Reorder {
  import opened Wrappers
  import opened Ast
  import opened Bags
  import opened Relational
  import opened NormalForm
  import opened Pushdown

  type Catalog = string -> Option<nat>  // row counts of known tables

  const TRUE := Lit(Boolean(true))

  function JoinEstimate(left: nat, right: nat): nat
  {
    if left * right / 10 < 1 then 1 else left * right / 10
  }

  function RowEstimate(p: LogicalPlan, catalog: Catalog): nat
  {
    match p
    case Scan(table, _) => if catalog(table).Some? then catalog(table).value else 1000
    case Select(_, input) => var n := RowEstimate(input, catalog) / 10; if n < 1 then 1 else n
    case Join(_, left, right) => JoinEstimate(RowEstimate(left, catalog), RowEstimate(right, catalog))
    case Above(_, _) => 1000
  }

  // extract_join_tree: the operands of a nest of joins, and its conditions.
  function Operands(p: LogicalPlan): seq<LogicalPlan>
  {
    if p.Join? then Operands(p.left) + Operands(p.right) else [p]
  }

  function JoinConditions(p: LogicalPlan): seq<Expr>
  {
    if p.Join? then [p.condition] + JoinConditions(p.left) + JoinConditions(p.right) else []
  }

  // The condition mentions both plans.
  predicate Links(c: Expr, a: LogicalPlan, b: LogicalPlan)
  {
    Tables(c) * ScanAliases(a) != {} && Tables(c) * ScanAliases(b) != {}
  }

  ghost predicate Linkable(conds: seq<Expr>, a: LogicalPlan, b: LogicalPlan)
  {
    exists k :: 0 <= k < |conds| && Links(conds[k], a, b)
  }

  ghost predicate FirstLinkIs(conds: seq<Expr>, a: LogicalPlan, b: LogicalPlan, k: nat)
  {
    k < |conds| && Links(conds[k], a, b) && forall i :: 0 <= i < k ==> !Links(conds[i], a, b)
  }

  // best_pair: the cheapest pair linked by some condition, and the first such
  // condition; None exactly when no pair is linked.
  method BestPair(nodes: seq<(LogicalPlan, nat)>, conds: seq<Expr>) returns (bi: nat, bj: nat, bc: Option<nat>)
    requires |nodes| >= 2
    ensures bi < bj < |nodes|
    ensures if bc.Some? then FirstLinkIs(conds, nodes[bi].0, nodes[bj].0, bc.value) else bi == 0 && bj == 1
    ensures forall i, j :: 0 <= i < j < |nodes| && Linkable(conds, nodes[i].0, nodes[j].0) ==>
      bc.Some? && JoinEstimate(nodes[bi].1, nodes[bj].1) <= JoinEstimate(nodes[i].1, nodes[j].1)
  {
    bi, bj, bc := 0, 1, None;
    for i := 0 to |nodes|
      invariant bi < bj < |nodes|
      invariant if bc.Some? then FirstLinkIs(conds, nodes[bi].0, nodes[bj].0, bc.value) else bi == 0 && bj == 1
      invariant forall x, y :: 0 <= x < y < |nodes| && x < i && Linkable(conds, nodes[x].0, nodes[y].0) ==>
        bc.Some? && JoinEstimate(nodes[bi].1, nodes[bj].1) <= JoinEstimate(nodes[x].1, nodes[y].1)
    {
      for j := i + 1 to |nodes|
        invariant bi < bj < |nodes|
        invariant if bc.Some? then FirstLinkIs(conds, nodes[bi].0, nodes[bj].0, bc.value) else bi == 0 && bj == 1
        invariant forall x, y ::
          0 <= x < y < |nodes| && (x < i || (x == i && y < j)) && Linkable(conds, nodes[x].0, nodes[y].0) ==>
          bc.Some? && JoinEstimate(nodes[bi].1, nodes[bj].1) <= JoinEstimate(nodes[x].1, nodes[y].1)
      {
        var k := FirstLink(conds, nodes[i].0, nodes[j].0);
        if k < |conds| && (bc.None? || JoinEstimate(nodes[i].1, nodes[j].1) < JoinEstimate(nodes[bi].1, nodes[bj].1)) {
          bi, bj, bc := i, j, Some(k);
        }
      }
    }
  }

  method FirstLink(conds: seq<Expr>, a: LogicalPlan, b: LogicalPlan) returns (k: nat)
    ensures k <= |conds| && (k < |conds| <==> Linkable(conds, a, b))
    ensures k < |conds| ==> FirstLinkIs(conds, a, b, k)
  {
    k := 0;
    while k < |conds| && !Links(conds[k], a, b)
      invariant k <= |conds| && forall i :: 0 <= i < k ==> !Links(conds[i], a, b)
    {
      k := k + 1;
    }
  }

  // ---- What is conserved ----

  ghost function AllLeaves(ps: seq<LogicalPlan>): multiset<Leaf>
  {
    if ps == [] then multiset{} else multiset(Leaves(ps[0])) + AllLeaves(ps[1..])
  }

  ghost function AllConditions(ps: seq<LogicalPlan>): multiset<Expr>
  {
    if ps == [] then multiset{} else multiset(Conditions(ps[0])) + AllConditions(ps[1..])
  }

  ghost function AllOperands(ps: seq<LogicalPlan>): multiset<LogicalPlan>
  {
    if ps == [] then multiset{} else multiset(Operands(ps[0])) + AllOperands(ps[1..])
  }

  lemma {:induction false} PartsAppend(a: seq<LogicalPlan>, b: seq<LogicalPlan>)
    ensures AllLeaves(a + b) == AllLeaves(a) + AllLeaves(b)
    ensures AllOperands(a + b) == AllOperands(a) + AllOperands(b)
    ensures AllConditions(a + b) == AllConditions(a) + AllConditions(b)
  {
    if a == [] {
      assert a + b == b;
    } else {
      assert (a + b)[0] == a[0] && (a + b)[1..] == a[1..] + b;
      PartsAppend(a[1..], b);
    }
  }

  lemma {:induction false} PartsWithout(ps: seq<LogicalPlan>, i: nat)
    requires i < |ps|
    ensures AllLeaves(ps) == multiset(Leaves(ps[i])) + AllLeaves(Without(ps, i))
    ensures AllOperands(ps) == multiset(Operands(ps[i])) + AllOperands(Without(ps, i))
    ensures AllConditions(ps) == multiset(Conditions(ps[i])) + AllConditions(Without(ps, i))
    decreases i
  {
    hide Leaves, Conditions, Operands;
    if i == 0 {
      assert Without(ps, i) == ps[1..];
    } else {
      assert Without(ps, i)[0] == ps[0] && Without(ps, i)[1..] == Without(ps[1..], i - 1);
      PartsWithout(ps[1..], i - 1);
    }
  }

  function Without<T>(s: seq<T>, i: nat): seq<T>
    requires i < |s|
  {
    s[..i] + s[i + 1..]
  }

  lemma {:induction false} OperandsKeepParts(p: LogicalPlan)
    requires JoinTree(p)
    ensures AllConditions(Operands(p)) + multiset(JoinConditions(p)) == multiset(Conditions(p))
    ensures forall o :: o in Operands(p) ==> JoinTree(o)
    ensures |Operands(p)| == |JoinConditions(p)| + 1
  {
    hide AllLeaves, AllConditions, Leaves, Conditions;
    if p.Join? {
      OperandsKeepParts(p.left);
      OperandsKeepParts(p.right);
      PartsAppend(Operands(p.left), Operands(p.right));
      ConditionBags(p);
      Regroup(AllConditions(Operands(p.left)), AllConditions(Operands(p.right)), multiset{p.condition},
              multiset(JoinConditions(p.left)), multiset(JoinConditions(p.right)));
    } else {
      OnePart(p);
    }
  }

  lemma Regroup(a: multiset<Expr>, b: multiset<Expr>, c: multiset<Expr>, d: multiset<Expr>, e: multiset<Expr>)
    ensures (a + b) + (c + d + e) == c + (a + d) + (b + e)
  {
  }

  lemma ConditionBags(p: LogicalPlan)
    requires p.Join?
    ensures multiset(Conditions(p))
      == multiset{p.condition} + multiset(Conditions(p.left)) + multiset(Conditions(p.right))
    ensures multiset(JoinConditions(p))
      == multiset{p.condition} + multiset(JoinConditions(p.left)) + multiset(JoinConditions(p.right))
    ensures multiset(Leaves(p)) == multiset(Leaves(p.left)) + multiset(Leaves(p.right))
    ensures multiset(Operands(p)) == multiset(Operands(p.left)) + multiset(Operands(p.right))
  {
  }

  lemma OnePart(p: LogicalPlan)
    ensures AllLeaves([p]) == multiset(Leaves(p)) && AllConditions([p]) == multiset(Conditions(p))
    ensures AllOperands([p]) == multiset(Operands(p))
  {
    hide Leaves, Conditions, Operands;
    assert [p][1..] == [];
    assert AllLeaves([p]) == multiset(Leaves(p)) + AllLeaves([]);
    assert AllConditions([p]) == multiset(Conditions(p)) + AllConditions([]);
    assert AllOperands([p]) == multiset(Operands(p)) + AllOperands([]);
  }

  // Taking two plans out and putting their join at the end.
  function Merge(ps: seq<LogicalPlan>, i: nat, j: nat, c: Expr): seq<LogicalPlan>
    requires i < j < |ps|
  {
    Without(Without(ps, j), i) + [Join(c, ps[i], ps[j])]
  }

  lemma MergeKeepsParts(ps: seq<LogicalPlan>, i: nat, j: nat, c: Expr)
    requires i < j < |ps|
    ensures AllLeaves(Merge(ps, i, j, c)) == AllLeaves(ps) && AllOperands(Merge(ps, i, j, c)) == AllOperands(ps)
    ensures AllConditions(Merge(ps, i, j, c)) == AllConditions(ps) + multiset{c}
  {
    var rest, join := Without(Without(ps, j), i), Join(c, ps[i], ps[j]);
    PartsWithout(ps, j);
    PartsWithout(Without(ps, j), i);
    PartsAppend(rest, [join]);
    OnePart(join);
    ConditionBags(join);
    BagSwap(multiset(Leaves(ps[j])), multiset(Leaves(ps[i])), AllLeaves(rest));
    BagSwap(multiset(Operands(ps[j])), multiset(Operands(ps[i])), AllOperands(rest));
    BagSwap(multiset(Conditions(ps[j])), multiset(Conditions(ps[i])), AllConditions(rest));
    BagGrows(AllConditions(rest), multiset(Conditions(ps[i])) + multiset(Conditions(ps[j])), AllConditions(ps),
             multiset{}, c);
  }

  // ---- Which conditions can be placed ----

  ghost function Cover(ps: seq<LogicalPlan>): set<string>
  {
    set i, a | 0 <= i < |ps| && a in ScanAliases(ps[i]) :: a
  }

  ghost predicate Apart(ps: seq<LogicalPlan>)
  {
    forall i, j :: 0 <= i < j < |ps| ==> ScanAliases(ps[i]) !! ScanAliases(ps[j])
  }

  // The tables of c lie in exactly two of the plans.
  ghost predicate BetweenTwo(c: Expr, ps: seq<LogicalPlan>)
  {
    exists i, j :: 0 <= i < j < |ps| && Links(c, ps[i], ps[j]) && Tables(c) <= ScanAliases(ps[i]) + ScanAliases(ps[j])
  }

  // a is made of whole plans.
  ghost predicate Whole(a: set<string>, ps: seq<LogicalPlan>)
  {
    a <= Cover(ps) && forall i :: 0 <= i < |ps| ==> ScanAliases(ps[i]) <= a || ScanAliases(ps[i]) !! a
  }

  predicate Straddles(c: Expr, a: set<string>)
  {
    Tables(c) * a != {} && Tables(c) - a != {}
  }

  // A way to split the plans in two that no condition crosses.
  ghost predicate IsCut(a: set<string>, ps: seq<LogicalPlan>, conds: seq<Expr>)
  {
    Whole(a, ps) && a != {} && a != Cover(ps) && forall c :: c in conds ==> !Straddles(c, a)
  }

  ghost predicate Spans(ps: seq<LogicalPlan>, conds: seq<Expr>)
  {
    forall a :: !IsCut(a, ps, conds)
  }

  // Index in ps of an element of Merge(ps, i, j, c) other than the last.
  function Skip(n: nat, i: nat, j: nat): nat
  {
    if n < i then n else if n + 1 < j then n + 1 else n + 2
  }

  function Unskip(k: nat, i: nat, j: nat): int
  {
    if k < i then k else if k < j then k - 1 else k - 2
  }

  lemma TwoRemoved<T>(s: seq<T>, i: nat, j: nat)
    requires i < j < |s|
    ensures |Without(Without(s, j), i)| == |s| - 2
    ensures forall n :: 0 <= n < |s| - 2 ==> Without(Without(s, j), i)[n] == s[Skip(n, i, j)]
  {
    var once := Without(s, j);
    assert forall n :: 0 <= n < |once| ==> once[n] == s[if n < j then n else n + 1];
  }

  lemma MergeIndices(ps: seq<LogicalPlan>, i: nat, j: nat, c: Expr)
    requires i < j < |ps|
    ensures |Merge(ps, i, j, c)| == |ps| - 1 && Merge(ps, i, j, c)[|ps| - 2] == Join(c, ps[i], ps[j])
    ensures forall n :: 0 <= n < |ps| - 2 ==> Merge(ps, i, j, c)[n] == ps[Skip(n, i, j)]
    ensures forall k :: 0 <= k < |ps| && k != i && k != j ==> Merge(ps, i, j, c)[Unskip(k, i, j)] == ps[k]
  {
    hide Without;
    TwoRemoved(ps, i, j);
    forall k | 0 <= k < |ps| && k != i && k != j ensures Merge(ps, i, j, c)[Unskip(k, i, j)] == ps[k] {
      assert Skip(Unskip(k, i, j), i, j) == k;
    }
  }

  // Where the aliases of ps[k] are after the merge.
  function NewHome(ps: seq<LogicalPlan>, k: nat, i: nat, j: nat): int
  {
    if k == i || k == j then |ps| - 2 else Unskip(k, i, j)
  }

  lemma MergeHome(ps: seq<LogicalPlan>, i: nat, j: nat, c: Expr, k: nat)
    requires i < j < |ps| && k < |ps|
    ensures 0 <= NewHome(ps, k, i, j) < |Merge(ps, i, j, c)|
    ensures ScanAliases(ps[k]) <= ScanAliases(Merge(ps, i, j, c)[NewHome(ps, k, i, j)])
  {
    MergeIndices(ps, i, j, c);
  }

  lemma MergeCover(ps: seq<LogicalPlan>, i: nat, j: nat, c: Expr)
    requires i < j < |ps|
    ensures Cover(Merge(ps, i, j, c)) == Cover(ps)
  {
    hide Merge;
    var ps' := Merge(ps, i, j, c);
    MergeIndices(ps, i, j, c);
    forall x | x in Cover(ps') ensures x in Cover(ps) {
      var n :| 0 <= n < |ps'| && x in ScanAliases(ps'[n]);
      if n == |ps| - 2 {
        assert x in ScanAliases(ps[i]) || x in ScanAliases(ps[j]);
      } else {
        assert x in ScanAliases(ps[Skip(n, i, j)]);
      }
    }
    forall x | x in Cover(ps) ensures x in Cover(ps') {
      var k :| 0 <= k < |ps| && x in ScanAliases(ps[k]);
      MergeHome(ps, i, j, c, k);
    }
  }

  lemma MergeApart(ps: seq<LogicalPlan>, i: nat, j: nat, c: Expr)
    requires i < j < |ps| && Apart(ps)
    ensures Apart(Merge(ps, i, j, c))
  {
    hide Merge, Apart, Skip;
    var ps' := Merge(ps, i, j, c);
    MergeIndices(ps, i, j, c);
    assert ScanAliases(ps'[|ps| - 2]) == ScanAliases(ps[i]) + ScanAliases(ps[j]);
    hide ScanAliases;
    forall m, n | 0 <= m < n < |ps'| ensures ScanAliases(ps'[m]) !! ScanAliases(ps'[n]) {
      SkipsApart(m, n, i, j, |ps|);
      if n < |ps| - 2 {
        ApartPair(ps, Skip(m, i, j), Skip(n, i, j));
      } else {
        ApartPair(ps, Skip(m, i, j), i);
        ApartPair(ps, Skip(m, i, j), j);
      }
    }
    AllApart(ps');
  }

  lemma SkipsApart(m: nat, n: nat, i: nat, j: nat, size: nat)
    requires i < j < size && m < n < size - 1
    ensures Skip(m, i, j) < size && Skip(m, i, j) != i && Skip(m, i, j) != j
    ensures n < size - 2 ==> Skip(m, i, j) < Skip(n, i, j) < size
  {
  }

  lemma AllApart(ps: seq<LogicalPlan>)
    requires forall m, n :: 0 <= m < n < |ps| ==> ScanAliases(ps[m]) !! ScanAliases(ps[n])
    ensures Apart(ps)
  {
  }

  lemma ApartPair(ps: seq<LogicalPlan>, i: nat, j: nat)
    requires Apart(ps) && i < |ps| && j < |ps| && i != j
    ensures ScanAliases(ps[i]) !! ScanAliases(ps[j])
  {
    if j < i { assert ScanAliases(ps[j]) !! ScanAliases(ps[i]); }
  }

  lemma {:induction false} SomeAlias(p: LogicalPlan) returns (a: string)
    ensures a in ScanAliases(p)
  {
    match p
    case Scan(table, alias) => a := Name(table, alias);
    case Join(_, left, _) => a := SomeAlias(left);
    case Select(_, input) => a := SomeAlias(input);
    case Above(_, input) => a := SomeAlias(input);
  }

  // Every operand lies inside one of the plans.
  ghost predicate Coarser(ps: seq<LogicalPlan>, operands: seq<LogicalPlan>)
  {
    forall i :: 0 <= i < |operands| ==> Inside(ScanAliases(operands[i]), ps)
  }

  ghost predicate Inside(a: set<string>, ps: seq<LogicalPlan>)
  {
    exists n :: 0 <= n < |ps| && a <= ScanAliases(ps[n])
  }

  // A condition between two operands that mentions two plans lies within them.
  lemma LinkIsInScope(c: Expr, ps: seq<LogicalPlan>, operands: seq<LogicalPlan>, i: nat, j: nat)
    requires Apart(ps) && Coarser(ps, operands) && BetweenTwo(c, operands)
    requires i < j < |ps| && Links(c, ps[i], ps[j])
    ensures Tables(c) <= ScanAliases(ps[i]) + ScanAliases(ps[j])
  {
    var x, y :| 0 <= x < y < |operands| && Links(c, operands[x], operands[y])
                && Tables(c) <= ScanAliases(operands[x]) + ScanAliases(operands[y]);
    var m :| 0 <= m < |ps| && ScanAliases(operands[x]) <= ScanAliases(ps[m]);
    var n :| 0 <= n < |ps| && ScanAliases(operands[y]) <= ScanAliases(ps[n]);
    var s :| s in Tables(c) * ScanAliases(ps[i]);
    var t :| t in Tables(c) * ScanAliases(ps[j]);
    Overlap(ps, i, if s in ScanAliases(operands[x]) then m else n, s);
    Overlap(ps, j, if t in ScanAliases(operands[x]) then m else n, t);
  }

  lemma Overlap(ps: seq<LogicalPlan>, i: nat, j: nat, x: string)
    requires Apart(ps) && i < |ps| && j < |ps| && x in ScanAliases(ps[i]) && x in ScanAliases(ps[j])
    ensures i == j
  {
  }

  // When nothing cuts the operands apart, a condition still waits to link two
  // of the plans.
  lemma SomePairLinks(ps: seq<LogicalPlan>, operands: seq<LogicalPlan>, conds: seq<Expr>, rem: seq<Expr>)
    requires |ps| >= 2 && Apart(ps) && Coarser(ps, operands) && Cover(ps) == Cover(operands)
    requires Spans(operands, conds) && forall c :: c in conds ==> BetweenTwo(c, operands)
    requires forall c :: c in conds ==> c in rem || Inside(Tables(c), ps)
    ensures exists i, j :: 0 <= i < j < |ps| && Linkable(rem, ps[i], ps[j])
  {
    var a := ScanAliases(ps[0]);
    WholePlan(ps, operands);
    assert !IsCut(a, operands, conds);
    var c :| c in conds && Straddles(c, a);
    var s :| s in Tables(c) * a;
    var t :| t in Tables(c) - a;
    assert t in Cover(operands) by { TablesCovered(c, operands); }
    var j :| 0 <= j < |ps| && t in ScanAliases(ps[j]);
    assert c in rem by {
      if n :| 0 <= n < |ps| && Tables(c) <= ScanAliases(ps[n]) {
        Overlap(ps, 0, n, s);
      }
    }
    var k :| 0 <= k < |rem| && rem[k] == c;
    assert t in Tables(c) * ScanAliases(ps[j]);
    assert Links(rem[k], ps[0], ps[j]);
    assert Linkable(rem, ps[0], ps[j]);
  }

  lemma TablesCovered(c: Expr, operands: seq<LogicalPlan>)
    requires BetweenTwo(c, operands)
    ensures Tables(c) <= Cover(operands)
  {
  }

  // One plan out of several is neither nothing nor everything.
  lemma WholePlan(ps: seq<LogicalPlan>, operands: seq<LogicalPlan>)
    requires |ps| >= 2 && Apart(ps) && Coarser(ps, operands) && Cover(ps) == Cover(operands)
    ensures Whole(ScanAliases(ps[0]), operands) && ScanAliases(ps[0]) != {} && ScanAliases(ps[0]) != Cover(operands)
  {
    var a := ScanAliases(ps[0]);
    var x := SomeAlias(ps[0]);
    var y := SomeAlias(ps[1]);
    assert y in Cover(ps) && y !in a;
    assert a <= Cover(ps);
    forall i | 0 <= i < |operands| ensures ScanAliases(operands[i]) <= a || ScanAliases(operands[i]) !! a {
      var n :| 0 <= n < |ps| && ScanAliases(operands[i]) <= ScanAliases(ps[n]);
      if n != 0 { assert ScanAliases(ps[0]) !! ScanAliases(ps[n]); }
    }
  }

  // Merging along a condition that does not cross a cut keeps both sides whole.
  lemma CutSurvives(a: set<string>, ps: seq<LogicalPlan>, i: nat, j: nat, c: Expr)
    requires i < j < |ps| && Whole(a, ps) && Links(c, ps[i], ps[j]) && !Straddles(c, a)
    ensures Whole(a, Merge(ps, i, j, c))
  {
    var ps' := Merge(ps, i, j, c);
    MergeIndices(ps, i, j, c);
    MergeCover(ps, i, j, c);
    var s :| s in Tables(c) * ScanAliases(ps[i]);
    var t :| t in Tables(c) * ScanAliases(ps[j]);
    assert s in a <==> t in a by {
      if s in a { assert s in Tables(c) * a; assert t !in Tables(c) - a; }
      if t in a { assert t in Tables(c) * a; assert s !in Tables(c) - a; }
    }
    assert ScanAliases(ps'[|ps| - 2]) == ScanAliases(ps[i]) + ScanAliases(ps[j]);
  }

  // ---- greedy_join_order ----

  ghost predicate TreesInScope(ps: seq<LogicalPlan>)
  {
    forall i :: 0 <= i < |ps| ==> JoinTree(ps[i]) && Scoped(ps[i])
  }

  ghost function Trues(n: nat): multiset<Expr>
  {
    if n == 0 then multiset{} else Trues(n - 1) + multiset{TRUE}
  }

  // The state of the greedy loop: the plans still to be joined, the
  // conditions still unused, and how often TRUE had to be made up.
  ghost predicate Balanced(operands: seq<LogicalPlan>, conds: seq<Expr>, ps: seq<LogicalPlan>, rem: seq<Expr>,
                           invented: nat)
  {
    && AllLeaves(ps) == AllLeaves(operands) && AllOperands(ps) == AllOperands(operands)
    && AllConditions(ps) + multiset(rem) == AllConditions(operands) + multiset(conds) + Trues(invented)
    && |rem| + |operands| == |conds| + |ps| + invented
  }

  ghost predicate Separated(operands: seq<LogicalPlan>, conds: seq<Expr>, ps: seq<LogicalPlan>, rem: seq<Expr>,
                            invented: nat)
  {
    && Apart(ps) && Coarser(ps, operands) && Cover(ps) == Cover(operands)
    && (forall c :: c in rem ==> c in conds)
    && (forall c :: c in conds ==> c in rem || Inside(Tables(c), ps))
    && (Spans(operands, conds) ==> invented == 0)
    && (forall a :: IsCut(a, operands, conds) && invented == 0 ==> Whole(a, ps))
    && (invented == 0 && TreesInScope(operands) && AllQualified(conds) ==> TreesInScope(ps))
  }

  lemma BalancedMerge(operands: seq<LogicalPlan>, conds: seq<Expr>, ps: seq<LogicalPlan>, rem: seq<Expr>, invented: nat,
                      i: nat, j: nat, k: Option<nat>)
    requires Balanced(operands, conds, ps, rem, invented) && i < j < |ps| && (k.Some? ==> k.value < |rem|)
    ensures k.Some? ==> Balanced(operands, conds, Merge(ps, i, j, rem[k.value]), Without(rem, k.value), invented)
    ensures k.None? ==> Balanced(operands, conds, Merge(ps, i, j, TRUE), rem, invented + 1)
  {
    hide Merge, AllLeaves, AllConditions, AllOperands, Trues;
    var c := if k.Some? then rem[k.value] else TRUE;
    MergeKeepsParts(ps, i, j, c);
    MergeIndices(ps, i, j, c);
    var sum := AllConditions(operands) + multiset(conds);
    if k.Some? {
      MultisetSplit(rem, k.value);
      BagMoves(AllConditions(ps), c, multiset(rem), multiset(Without(rem, k.value)), sum + Trues(invented));
    } else {
      BagGrows(AllConditions(ps), multiset(rem), sum, Trues(invented), TRUE);
      OneMoreTrue(invented);
    }
  }

  lemma OneMoreTrue(n: nat)
    ensures Trues(n + 1) == Trues(n) + multiset{TRUE}
  {
  }

  lemma SeparatedMerge(operands: seq<LogicalPlan>, conds: seq<Expr>, ps: seq<LogicalPlan>, rem: seq<Expr>,
                       invented: nat, i: nat, j: nat, k: nat)
    requires Separated(operands, conds, ps, rem, invented) && forall c :: c in conds ==> BetweenTwo(c, operands)
    requires i < j < |ps| && k < |rem| && Links(rem[k], ps[i], ps[j])
    ensures Separated(operands, conds, Merge(ps, i, j, rem[k]), Without(rem, k), invented)
  {
    hide Links, BetweenTwo, Merge, Straddles;
    var c, ps' := rem[k], Merge(ps, i, j, rem[k]);
    MergeCover(ps, i, j, c);
    MergeApart(ps, i, j, c);
    MergeIndices(ps, i, j, c);
    LinkIsInScope(c, ps, operands, i, j);
    assert Tables(c) <= ScanAliases(ps'[|ps| - 2]);
    CoarserMerge(ps, operands, i, j, c);
    PlacedMerge(conds, ps, rem, i, j, k);
    forall a | IsCut(a, operands, conds) && invented == 0 ensures Whole(a, ps') {
      CutSurvives(a, ps, i, j, c);
    }
    if invented == 0 && TreesInScope(operands) && AllQualified(conds) {
      MergedInScope(ps, i, j, c);
    }
  }

  lemma CoarserMerge(ps: seq<LogicalPlan>, operands: seq<LogicalPlan>, i: nat, j: nat, c: Expr)
    requires Coarser(ps, operands) && i < j < |ps|
    ensures Coarser(Merge(ps, i, j, c), operands)
  {
    hide Merge;
    var ps' := Merge(ps, i, j, c);
    forall x | 0 <= x < |operands| ensures Inside(ScanAliases(operands[x]), ps') {
      var m :| 0 <= m < |ps| && ScanAliases(operands[x]) <= ScanAliases(ps[m]);
      MergeHome(ps, i, j, c, m);
      assert ScanAliases(operands[x]) <= ScanAliases(ps'[NewHome(ps, m, i, j)]);
    }
  }

  lemma PlacedMerge(conds: seq<Expr>, ps: seq<LogicalPlan>, rem: seq<Expr>, i: nat, j: nat, k: nat)
    requires i < j < |ps| && k < |rem| && Tables(rem[k]) <= ScanAliases(ps[i]) + ScanAliases(ps[j])
    requires forall c :: c in conds ==> c in rem || Inside(Tables(c), ps)
    ensures var ps' := Merge(ps, i, j, rem[k]);
      forall c :: c in conds ==> c in Without(rem, k) || Inside(Tables(c), ps')
  {
    hide Merge;
    var ps' := Merge(ps, i, j, rem[k]);
    MergeIndices(ps, i, j, rem[k]);
    assert ScanAliases(ps'[|ps| - 2]) == ScanAliases(ps[i]) + ScanAliases(ps[j]);
    hide ScanAliases, Tables;
    forall c | c in conds ensures c in Without(rem, k) || Inside(Tables(c), ps') {
      if c == rem[k] {
        assert Tables(c) <= ScanAliases(ps'[|ps| - 2]);
      } else if c in rem {
        var m :| 0 <= m < |rem| && rem[m] == c;
        assert Without(rem, k)[if m < k then m else m - 1] == c;
      } else {
        var m :| 0 <= m < |ps| && Tables(c) <= ScanAliases(ps[m]);
        MergeHome(ps, i, j, rem[k], m);
      }
    }
  }

  lemma MergedInScope(ps: seq<LogicalPlan>, i: nat, j: nat, c: Expr)
    requires TreesInScope(ps) && i < j < |ps| && QualifiedTables(c)
      && Tables(c) <= ScanAliases(ps[i]) + ScanAliases(ps[j])
    ensures TreesInScope(Merge(ps, i, j, c))
  {
    MergeIndices(ps, i, j, c);
    ScanAliasesAreAliases(ps[i]);
    ScanAliasesAreAliases(ps[j]);
    AliasesAppend(Leaves(ps[i]), Leaves(ps[j]));
    TablesAreColumns(c);
    forall q | q in ColumnsOf(c) ensures q.0.Some? && q.0.value in Aliases(Leaves(ps[i]) + Leaves(ps[j])) {
      assert (Some(q.0.value), q.1) in ColumnsOf(c);
    }
  }

  ghost predicate AllQualified(conds: seq<Expr>)
  {
    forall c :: c in conds ==> QualifiedTables(c)
  }

  ghost predicate QualifiedTables(c: Expr)
  {
    forall q :: q in ColumnsOf(c) ==> q.0.Some?
  }

  // Operands share no alias, there is one condition fewer than operands, and
  // each condition lies between two of them.
  ghost predicate Spannable(operands: seq<LogicalPlan>, conds: seq<Expr>)
  {
    Apart(operands) && |operands| == |conds| + 1 && forall c :: c in conds ==> BetweenTwo(c, operands)
  }

  function Plans(nodes: seq<(LogicalPlan, nat)>): seq<LogicalPlan>
  {
    seq(|nodes|, i requires 0 <= i < |nodes| => nodes[i].0)
  }

  lemma StartBalanced(operands: seq<LogicalPlan>, conds: seq<Expr>)
    ensures Balanced(operands, conds, operands, conds, 0)
    ensures Spannable(operands, conds) ==> Separated(operands, conds, operands, conds, 0)
  {
    hide BetweenTwo;
    forall i | 0 <= i < |operands| ensures Inside(ScanAliases(operands[i]), operands) {
      assert ScanAliases(operands[i]) <= ScanAliases(operands[i]);
    }
  }

  lemma SeparatedWithoutLink(operands: seq<LogicalPlan>, conds: seq<Expr>, ps: seq<LogicalPlan>, rem: seq<Expr>,
                             invented: nat, i: nat, j: nat)
    requires Separated(operands, conds, ps, rem, invented) && Spannable(operands, conds)
    requires i < j < |ps| && forall x, y :: 0 <= x < y < |ps| ==> !Linkable(rem, ps[x], ps[y])
    ensures Separated(operands, conds, Merge(ps, i, j, TRUE), rem, invented + 1)
  {
    hide Links, BetweenTwo, Merge, Straddles, Linkable;
    if Spans(operands, conds) {
      SomePairLinks(ps, operands, conds, rem);
    }
    MergeCover(ps, i, j, TRUE);
    MergeApart(ps, i, j, TRUE);
    CoarserMerge(ps, operands, i, j, TRUE);
    var ps' := Merge(ps, i, j, TRUE);
    forall c | c in conds ensures c in rem || Inside(Tables(c), ps') {
      if c !in rem {
        var m :| 0 <= m < |ps| && Tables(c) <= ScanAliases(ps[m]);
        MergeHome(ps, i, j, TRUE, m);
      }
    }
  }

  lemma MergePlans(ps: seq<LogicalPlan>, i: nat, j: nat, c: Expr, nodes: seq<(LogicalPlan, nat)>)
    requires i < j < |ps| && |nodes| == |ps| - 1 && nodes[|nodes| - 1].0 == Join(c, ps[i], ps[j])
    requires forall n :: 0 <= n < |nodes| - 1 ==> nodes[n].0 == ps[Skip(n, i, j)]
    ensures Plans(nodes) == Merge(ps, i, j, c)
  {
    MergeIndices(ps, i, j, c);
  }

  lemma Finished(operands: seq<LogicalPlan>, conds: seq<Expr>, plan: LogicalPlan, rem: seq<Expr>, invented: nat)
    requires Balanced(operands, conds, [plan], rem, invented)
    requires Spannable(operands, conds) ==> Separated(operands, conds, [plan], rem, invented)
    ensures multiset(Leaves(plan)) == AllLeaves(operands) && multiset(Operands(plan)) == AllOperands(operands)
    ensures Spannable(operands, conds) ==>
      (Spans(operands, conds) <==> multiset(Conditions(plan)) == AllConditions(operands) + multiset(conds))
    ensures Spannable(operands, conds) && Spans(operands, conds) ==> invented == 0
  {
    hide AllLeaves, AllConditions, AllOperands, Links, Straddles;
    OnePart(plan);
    if Spannable(operands, conds) {
      if Spans(operands, conds) {
        assert rem == [] && Trues(0) == multiset{};
        assert AllConditions([plan]) + multiset([]) == AllConditions([plan]);
      } else {
        var a :| IsCut(a, operands, conds);
        NoCutInOnePlan(a, plan, operands, conds);
        TrueCount(invented);
        NoTrueCondition(operands, conds, rem);
        assert (AllConditions([plan]) + multiset(rem))[TRUE] == AllConditions([plan])[TRUE];
        assert AllConditions([plan])[TRUE] == (AllConditions(operands) + multiset(conds))[TRUE] + invented;
      }
    }
  }

  lemma NoCutInOnePlan(a: set<string>, plan: LogicalPlan, operands: seq<LogicalPlan>, conds: seq<Expr>)
    requires IsCut(a, operands, conds) && Cover([plan]) == Cover(operands)
    ensures !Whole(a, [plan])
  {
    var all := ScanAliases([plan][0]);
    assert Cover([plan]) == all;
    assert a <= all && all <= a ==> a == all;
    assert a <= all && all !! a ==> a == {};
  }

  lemma {:induction false} TrueCount(n: nat)
    ensures Trues(n)[TRUE] == n
  {
    if n > 0 { TrueCount(n - 1); }
  }

  lemma NoTrueCondition(operands: seq<LogicalPlan>, conds: seq<Expr>, rem: seq<Expr>)
    requires (forall c :: c in conds ==> BetweenTwo(c, operands)) && forall c :: c in rem ==> c in conds
    ensures TRUE !in conds && TRUE !in rem && multiset(rem)[TRUE] == 0
  {
    assert Tables(TRUE) == {};
    assert !BetweenTwo(TRUE, operands);
  }

  // ---- The rounds ----

  // The round's choice: the cheapest linked pair and its first link, or the
  // first two plans when no pair is linked.
  ghost predicate Chosen(ps: seq<LogicalPlan>, rem: seq<Expr>, catalog: Catalog, i: nat, j: nat, k: Option<nat>)
  {
    && i < j < |ps|
    && (if k.Some? then FirstLinkIs(rem, ps[i], ps[j], k.value) else i == 0 && j == 1)
    && forall x, y :: 0 <= x < y < |ps| && Linkable(rem, ps[x], ps[y]) ==>
         && k.Some?
         && JoinEstimate(RowEstimate(ps[i], catalog), RowEstimate(ps[j], catalog))
              <= JoinEstimate(RowEstimate(ps[x], catalog), RowEstimate(ps[y], catalog))
  }

  function Condition(rem: seq<Expr>, k: Option<nat>): Expr
  {
    if k.Some? && k.value < |rem| then rem[k.value] else TRUE
  }

  function Remaining(rem: seq<Expr>, k: Option<nat>): seq<Expr>
  {
    if k.Some? && k.value < |rem| then Without(rem, k.value) else rem
  }

  ghost predicate Round(ps: seq<LogicalPlan>, rem: seq<Expr>, catalog: Catalog, i: nat, j: nat, k: Option<nat>,
                        plan: LogicalPlan, taken: seq<LogicalPlan>)
    decreases |ps|, 0
  {
    && |ps| > 1 && Chosen(ps, rem, catalog, i, j, k)
    && taken != [] && taken[0] == Join(Condition(rem, k), ps[i], ps[j])
    && |Merge(ps, i, j, Condition(rem, k))| == |ps| - 1
    && Greedy(Merge(ps, i, j, Condition(rem, k)), Remaining(rem, k), catalog, plan, taken[1..])
  }

  // plan is what greedy rounds make of ps, by the joins taken in turn.
  ghost predicate Greedy(ps: seq<LogicalPlan>, rem: seq<Expr>, catalog: Catalog, plan: LogicalPlan,
                         taken: seq<LogicalPlan>)
    decreases |ps|, 1
  {
    if |ps| <= 1 then ps == [plan] && taken == []
    else exists i, j, k :: Round(ps, rem, catalog, i, j, k, plan, taken)
  }

  ghost predicate GreedyPlan(ps: seq<LogicalPlan>, rem: seq<Expr>, catalog: Catalog, plan: LogicalPlan)
  {
    exists taken :: Greedy(ps, rem, catalog, plan, taken)
  }

  // Whatever greedy rounds make of these plans they make of the first ones.
  ghost predicate Leads(operands: seq<LogicalPlan>, conds: seq<Expr>, catalog: Catalog, ps: seq<LogicalPlan>,
                        rem: seq<Expr>)
  {
    forall plan :: GreedyPlan(ps, rem, catalog, plan) ==> GreedyPlan(operands, conds, catalog, plan)
  }

  lemma LeadsOn(operands: seq<LogicalPlan>, conds: seq<Expr>, catalog: Catalog, ps: seq<LogicalPlan>, rem: seq<Expr>,
                i: nat, j: nat, k: Option<nat>)
    requires Leads(operands, conds, catalog, ps, rem) && Chosen(ps, rem, catalog, i, j, k)
    ensures Leads(operands, conds, catalog, Merge(ps, i, j, Condition(rem, k)), Remaining(rem, k))
  {
    hide Chosen, Merge, Remaining, Condition;
    assert i < j < |ps| by { ChosenInRange(ps, rem, catalog, i, j, k); }
    var c := Condition(rem, k);
    MergeIndices(ps, i, j, c);
    forall plan | GreedyPlan(Merge(ps, i, j, c), Remaining(rem, k), catalog, plan)
      ensures GreedyPlan(ps, rem, catalog, plan)
    {
      var taken :| Greedy(Merge(ps, i, j, c), Remaining(rem, k), catalog, plan, taken);
      var all := [Join(c, ps[i], ps[j])] + taken;
      assert all[1..] == taken;
      assert Round(ps, rem, catalog, i, j, k, plan, all);
      assert Greedy(ps, rem, catalog, plan, all);
    }
  }

  lemma ChosenInRange(ps: seq<LogicalPlan>, rem: seq<Expr>, catalog: Catalog, i: nat, j: nat, k: Option<nat>)
    requires Chosen(ps, rem, catalog, i, j, k)
    ensures i < j < |ps| && (k.Some? ==> k.value < |rem|)
  {
  }

  lemma LastPlan(plan: LogicalPlan, rem: seq<Expr>, catalog: Catalog)
    ensures GreedyPlan([plan], rem, catalog, plan)
  {
    assert Greedy([plan], rem, catalog, plan, []);
  }

  ghost predicate Estimated(nodes: seq<(LogicalPlan, nat)>, catalog: Catalog)
  {
    forall n :: 0 <= n < |nodes| ==> nodes[n].1 == RowEstimate(nodes[n].0, catalog)
  }

  lemma EstimatedChoice(nodes: seq<(LogicalPlan, nat)>, rem: seq<Expr>, catalog: Catalog, i: nat, j: nat,
                        k: Option<nat>)
    requires Estimated(nodes, catalog) && i < j < |nodes|
    requires if k.Some? then FirstLinkIs(rem, nodes[i].0, nodes[j].0, k.value) else i == 0 && j == 1
    requires forall x, y :: 0 <= x < y < |nodes| && Linkable(rem, nodes[x].0, nodes[y].0) ==>
      k.Some? && JoinEstimate(nodes[i].1, nodes[j].1) <= JoinEstimate(nodes[x].1, nodes[y].1)
    ensures Chosen(Plans(nodes), rem, catalog, i, j, k)
  {
    hide Linkable, FirstLinkIs, JoinEstimate, RowEstimate;
  }

  lemma EstimatedMerge(nodes: seq<(LogicalPlan, nat)>, catalog: Catalog, i: nat, j: nat, node: (LogicalPlan, nat))
    requires Estimated(nodes, catalog) && i < j < |nodes| && node.1 == RowEstimate(node.0, catalog)
    ensures Estimated(Without(Without(nodes, j), i) + [node], catalog)
  {
    hide RowEstimate, Without;
    TwoRemoved(nodes, i, j);
  }

  // Greedy reordering takes in every round the cheapest linked pair, and
  // loses no leaf.  When every condition lies between two
  // operands it places every condition, inventing no TRUE, exactly when the
  // conditions leave no way to split the operands apart; the result is then in
  // scope throughout.
  method GreedyJoinOrder(operands: seq<LogicalPlan>, conds: seq<Expr>, catalog: Catalog) returns (plan: LogicalPlan)
    requires |operands| >= 1
    ensures GreedyPlan(operands, conds, catalog, plan)
    ensures multiset(Leaves(plan)) == AllLeaves(operands) && multiset(Operands(plan)) == AllOperands(operands)
    ensures Spannable(operands, conds) ==>
      (Spans(operands, conds) <==> multiset(Conditions(plan)) == AllConditions(operands) + multiset(conds))
    ensures Spannable(operands, conds) && Spans(operands, conds) && TreesInScope(operands) && AllQualified(conds) ==>
      JoinTree(plan) && Scoped(plan)
  {
    hide Balanced, Separated, Merge, Spans, AllLeaves, AllConditions, AllOperands, Links, TreesInScope, Leads, Chosen,
         GreedyPlan, Estimated, BetweenTwo, Apart, Linkable, JoinEstimate;
    var nodes := seq(|operands|, i requires 0 <= i < |operands| => (operands[i], RowEstimate(operands[i], catalog)));
    var rem := conds;
    ghost var invented: nat := 0;
    assert Plans(nodes) == operands;
    StartBalanced(operands, conds);
    StartEstimated(operands, conds, catalog, nodes);
    while |nodes| > 1
      invariant |nodes| >= 1
      invariant Estimated(nodes, catalog) && Leads(operands, conds, catalog, Plans(nodes), rem)
      invariant Balanced(operands, conds, Plans(nodes), rem, invented)
      invariant Spannable(operands, conds) ==> Separated(operands, conds, Plans(nodes), rem, invented)
    {
      ghost var ps := Plans(nodes);
      var i, j, k := BestPair(nodes, rem);
      EstimatedChoice(nodes, rem, catalog, i, j, k);
      ChosenInRange(ps, rem, catalog, i, j, k);
      LeadsOn(operands, conds, catalog, ps, rem, i, j, k);
      var cond := if k.Some? then rem[k.value] else TRUE;
      BalancedMerge(operands, conds, ps, rem, invented, i, j, k);
      if Spannable(operands, conds) {
        if k.Some? {
          SeparatedMerge(operands, conds, ps, rem, invented, i, j, k.value);
        } else {
          SeparatedWithoutLink(operands, conds, ps, rem, invented, i, j);
        }
      }
      var left, right := nodes[i].0, nodes[j].0;
      EstimatedMerge(nodes, catalog, i, j, (Join(cond, left, right), RowEstimate(Join(cond, left, right), catalog)));
      nodes := Without(Without(nodes, j), i);
      nodes :=
        nodes + [(Join(cond, left, right), JoinEstimate(RowEstimate(left, catalog), RowEstimate(right, catalog)))];
      MergePlans(ps, i, j, cond, nodes);
      if k.Some? {
        rem := Without(rem, k.value);
      } else {
        invented := invented + 1;
      }
    }
    plan := nodes[0].0;
    assert Plans(nodes) == [plan];
    Finished(operands, conds, plan, rem, invented);
    LedTo(operands, conds, catalog, plan, rem);
    if Spannable(operands, conds) && Spans(operands, conds) && TreesInScope(operands) && AllQualified(conds) {
      OnePlanInScope(operands, conds, plan, rem);
    }
  }

  lemma StartEstimated(operands: seq<LogicalPlan>, conds: seq<Expr>, catalog: Catalog, nodes: seq<(LogicalPlan, nat)>)
    requires |nodes| == |operands|
    requires forall i :: 0 <= i < |operands| ==> nodes[i] == (operands[i], RowEstimate(operands[i], catalog))
    ensures Estimated(nodes, catalog) && Leads(operands, conds, catalog, operands, conds)
  {
  }

  lemma LedTo(operands: seq<LogicalPlan>, conds: seq<Expr>, catalog: Catalog, plan: LogicalPlan, rem: seq<Expr>)
    requires Leads(operands, conds, catalog, [plan], rem)
    ensures GreedyPlan(operands, conds, catalog, plan)
  {
    LastPlan(plan, rem, catalog);
  }

  lemma OnePlanInScope(operands: seq<LogicalPlan>, conds: seq<Expr>, plan: LogicalPlan, rem: seq<Expr>)
    requires Separated(operands, conds, [plan], rem, 0) && TreesInScope(operands) && AllQualified(conds)
    ensures JoinTree(plan) && Scoped(plan)
  {
    assert JoinTree([plan][0]) && Scoped([plan][0]);
  }

  // ---- The rows of a reordered nest of joins ----

  lemma {:induction false} OperandsInScope(p: LogicalPlan)
    requires JoinTree(p) && Scoped(p)
    ensures TreesInScope(Operands(p)) && AllQualified(JoinConditions(p))
  {
    if p.Join? {
      OperandsInScope(p.left);
      OperandsInScope(p.right);
    }
  }

  lemma {:induction false} OperandsCover(p: LogicalPlan)
    ensures forall o :: o in Operands(p) ==> ScanAliases(o) <= ScanAliases(p)
  {
    if p.Join? {
      OperandsCover(p.left);
      OperandsCover(p.right);
    }
  }

  lemma {:induction false} OperandsApart(p: LogicalPlan)
    requires JoinTree(p) && Distinct(Leaves(p))
    ensures Apart(Operands(p))
  {
    if p.Join? {
      DistinctHalves(Leaves(p.left), Leaves(p.right));
      OperandsApart(p.left);
      OperandsApart(p.right);
      OperandsCover(p.left);
      OperandsCover(p.right);
      ScanAliasesAreAliases(p.left);
      ScanAliasesAreAliases(p.right);
      ApartAppend(Operands(p.left), Operands(p.right), ScanAliases(p.left), ScanAliases(p.right));
    }
  }

  lemma ApartAppend(a: seq<LogicalPlan>, b: seq<LogicalPlan>, x: set<string>, y: set<string>)
    requires Apart(a) && Apart(b) && x !! y
    requires (forall o :: o in a ==> ScanAliases(o) <= x) && forall o :: o in b ==> ScanAliases(o) <= y
    ensures Apart(a + b)
  {
    forall i, j | 0 <= i < j < |a + b| ensures ScanAliases((a + b)[i]) !! ScanAliases((a + b)[j]) {
      if i < |a| <= j {
        assert (a + b)[i] in a && (a + b)[j] in b;
      }
    }
  }

  lemma {:induction false} ConjunctMembers(conditions: seq<Expr>)
    ensures forall x :: x in Conjuncts(conditions) <==> exists c :: c in conditions && x in SplitAnd(c)
  {
    if conditions != [] {
      ConjunctMembers(conditions[1..]);
      assert conditions == [conditions[0]] + conditions[1..];
      forall x ensures x in Conjuncts(conditions) <==> exists c :: c in conditions && x in SplitAnd(c) {
        if x in SplitAnd(conditions[0]) {
          assert conditions[0] in conditions;
        } else if x in Conjuncts(conditions[1..]) {
          var c :| c in conditions[1..] && x in SplitAnd(c);
          assert c in conditions;
        }
      }
    }
  }

  lemma SameBagSameConjuncts(a: seq<Expr>, b: seq<Expr>)
    requires multiset(a) == multiset(b)
    ensures forall x :: x in Conjuncts(a) <==> x in Conjuncts(b)
  {
    hide Conjuncts, SplitAnd;
    ConjunctMembers(a);
    ConjunctMembers(b);
    forall c ensures c in a <==> c in b {
      assert c in a <==> c in multiset(a);
      assert c in b <==> c in multiset(b);
    }
  }

  ghost predicate TreeConditions(operands: seq<LogicalPlan>, conds: seq<Expr>)
  {
    Spans(operands, conds) && forall c :: c in conds ==> BetweenTwo(c, operands)
  }

  // q joins the operands of p; where the conditions of p are a tree of its
  // operands, q keeps them.
  ghost predicate Nested(p: LogicalPlan, q: LogicalPlan)
  {
    && q.Join? && multiset(Operands(q)) == multiset(Operands(p)) && multiset(Leaves(q)) == multiset(Leaves(p))
    && (JoinTree(p) && Scoped(p) && Distinct(Leaves(p)) && TreeConditions(Operands(p), JoinConditions(p)) ==>
          multiset(Conditions(q)) == multiset(Conditions(p)) && JoinTree(q) && Scoped(q))
  }

  // reorder_joins on a nest of joins whose operands are already reordered:
  // three or more operands are joined greedily, two are left as they are.
  // When each condition lies between two operands and no split of the
  // operands is uncrossed, the rows are the same.
  method ReorderNest(p: LogicalPlan, catalog: Catalog) returns (q: LogicalPlan)
    requires p.Join?
    ensures Nested(p, q)
    ensures if |Operands(p)| >= 3 then GreedyPlan(Operands(p), JoinConditions(p), catalog, q)
            else q == Join(p.condition, p.left, p.right)
    ensures JoinTree(p) && Scoped(p) && Distinct(Leaves(p)) && TreeConditions(Operands(p), JoinConditions(p)) ==>
      forall w: World :: WellFormed(w.db) ==> SameRows(p, q, w)
  {
    NoNestedOperands(p);
    OperandsKeepLeaves(p);
    var operands, conds := Operands(p), JoinConditions(p);
    if |operands| >= 3 {
      q := GreedyJoinOrder(operands, conds, catalog);
      SeveralOperands(p, q);
    } else {
      TwoOperands(p);
      q := Join(conds[0], operands[0], operands[1]);
    }
    if JoinTree(p) {
      OperandsKeepParts(p);
      if Scoped(p) && Distinct(Leaves(p)) && TreeConditions(operands, conds) {
        OperandsInScope(p);
        OperandsApart(p);
        ReorderedRows(p, q);
      }
    }
  }

  lemma {:induction false} OperandsKeepLeaves(p: LogicalPlan)
    ensures AllLeaves(Operands(p)) == multiset(Leaves(p))
  {
    if p.Join? {
      OperandsKeepLeaves(p.left);
      OperandsKeepLeaves(p.right);
      PartsAppend(Operands(p.left), Operands(p.right));
      ConditionBags(p);
    } else {
      OnePart(p);
    }
  }

  // Operands are not joins, so their own operands are themselves.
  lemma {:induction false} NoNestedOperands(p: LogicalPlan)
    ensures AllOperands(Operands(p)) == multiset(Operands(p))
  {
    if p.Join? {
      NoNestedOperands(p.left);
      NoNestedOperands(p.right);
      PartsAppend(Operands(p.left), Operands(p.right));
      ConditionBags(p);
    } else {
      OnePart(p);
    }
  }

  // A plan with two operands is a join.
  lemma SeveralOperands(p: LogicalPlan, q: LogicalPlan)
    requires multiset(Operands(p)) == multiset(Operands(q)) && p.Join?
    ensures q.Join?
  {
    SomeOperand(p.left);
    SomeOperand(p.right);
    assert |Operands(p)| == |multiset(Operands(p))| == |multiset(Operands(q))| == |Operands(q)|;
  }

  lemma {:induction false} TwoOperands(p: LogicalPlan)
    requires p.Join? && |Operands(p)| < 3
    ensures JoinConditions(p) == [p.condition] && Operands(p) == [p.left, p.right]
  {
    SomeOperand(p.left);
    SomeOperand(p.right);
    if p.left.Join? { SomeOperand(p.left.left); SomeOperand(p.left.right); }
    if p.right.Join? { SomeOperand(p.right.left); SomeOperand(p.right.right); }
  }

  lemma {:induction false} SomeOperand(p: LogicalPlan)
    ensures |Operands(p)| >= 1
  {
    if p.Join? { SomeOperand(p.left); }
  }

  lemma ReorderedRows(p: LogicalPlan, q: LogicalPlan)
    requires JoinTree(p) && Scoped(p) && Distinct(Leaves(p)) && JoinTree(q) && Scoped(q)
    requires multiset(Leaves(q)) == multiset(Leaves(p)) && multiset(Conditions(q)) == multiset(Conditions(p))
    ensures forall w: World :: WellFormed(w.db) ==> SameRows(p, q, w)
  {
    hide *;
    DistinctPermutes(Leaves(p), Leaves(q));
    SameBagSameConjuncts(Conditions(p), Conditions(q));
    forall w: World | WellFormed(w.db) ensures SameRows(p, q, w) {
      SameConjunctsSameRows(p, q, w);
    }
  }
}
