// optimizer/join_enumerator.cpp: the dynamic program itself.
module JoinEnumeration {
  import opened Wrappers
  import opened Ast
  import opened Bits
  import opened Plans
  import opened JoinGraphs
  import opened Estimates
  import opened AccessPaths
  import opened JoinCandidates

  type Memo = map<nat, PhysicalPlan>

  // Every entry is a left-deep plan of its own mask.
  ghost predicate Sound(g: JoinGraph, st: Statistics, memo: Memo)
  {
    forall m :: m in memo ==> 0 < m < Pow2(|g.relations|) && LeftDeep(g, st, m, memo[m])
  }

  ghost predicate HasBases(g: JoinGraph, st: Statistics, memo: Memo)
  {
    forall i: nat :: i < |g.relations| ==> Pow2(i) in memo && memo[Pow2(i)] == AccessPath(st, g.relations[i])
  }

  // No extension of a memoised plan beats the entry of m.
  ghost predicate LocallyBest(g: JoinGraph, st: Statistics, memo: Memo, m: nat)
    requires m in memo
  {
    forall r: nat, plan :: Without(m, r) in memo && Extends(g, st, m, r, memo[Without(m, r)], plan)
      ==> memo[m].Total() <= plan.Total()
  }

  // The entry of m exists exactly when m can be grown, and is the best
  // one-relation extension of the other entries.
  ghost predicate Solved(g: JoinGraph, st: Statistics, memo: Memo, m: nat)
  {
    && (m in memo <==> Grown(g.edges, Members(m, |g.relations|)))
    && (m in memo ==> LocallyBest(g, st, memo, m))
  }

  lemma MembersWithout(m: nat, r: nat, n: nat)
    ensures Members(Without(m, r), n) == Members(m, n) - {r}
  {
    forall j: nat ensures Has(Without(m, r), j) <==> Has(m, j) && j != r { WithoutHas(m, r, j); }
  }

  // A connecting edge is found exactly when r touches the rest.
  lemma EdgeFoundIffTouches(g: JoinGraph, m: nat, r: nat)
    requires g.Valid()
    ensures FirstEdge(g, m, Pow2(r), 0) < |g.edges| <==> Touches(g.edges, Members(m, |g.relations|), r)
  {
    hide Pow2, Has;
    var k := FirstEdge(g, m, Pow2(r), 0);
    if k < |g.edges| {
      var e := g.edges[k];
      SingletonHas(r, e.left);
      SingletonHas(r, e.right);
      var a := if e.right == r && Has(m, e.left) then e.left else e.right;
      assert Joins(e, a, r);
      assert Adjacent(g.edges, a, r);
    }
    if Touches(g.edges, Members(m, |g.relations|), r) {
      var a :| a in Members(m, |g.relations|) && Adjacent(g.edges, a, r);
      var j :| 0 <= j < |g.edges| && Joins(g.edges[j], a, r);
      SingletonHas(r, r);
      assert Connects(g.edges[j], m, Pow2(r));
    }
  }

  // Relation r can come last in m on top of the memoised plan of the rest.
  ghost predicate Usable(g: JoinGraph, memo: Memo, m: nat, r: nat)
  {
    r < |g.relations| && Has(m, r) && Without(m, r) in memo && FirstEdge(g, Without(m, r), Pow2(r), 0) < |g.edges|
  }

  lemma UsableIffGrown(g: JoinGraph, st: Statistics, memo: Memo, m: nat)
    requires g.Valid() && m < Pow2(|g.relations|) && Popcount(m) >= 2
    requires forall r: nat :: Has(m, r) ==>
      (Without(m, r) in memo <==> Grown(g.edges, Members(Without(m, r), |g.relations|)))
    ensures (exists r: nat :: Usable(g, memo, m, r)) <==> Grown(g.edges, Members(m, |g.relations|))
  {
    hide Pow2, Popcount, Has, Without, FirstEdge, Connects;
    var s := Members(m, |g.relations|);
    PopcountIsSize(m, |g.relations|);
    forall r: nat ensures Usable(g, memo, m, r) <==> Last(g.edges, s, r) && Grown(g.edges, s - {r}) {
      MembersWithout(m, r, |g.relations|);
      EdgeFoundIffTouches(g, Without(m, r), r);
      if Has(m, r) { BitsBelow(m, |g.relations|, r); }
    }
  }

  lemma WithoutNonZero(m: nat, r: nat)
    requires Has(m, r) && Popcount(m) >= 2
    ensures 0 < Without(m, r) < m
  {
    hide Pow2, Has, Without;
    WithoutShrinks(m, r);
    assert Popcount(0) == 0;
  }

  lemma WithoutOnlyBit(m: nat, r: nat)
    requires Has(m, r) && Popcount(m) == 1
    ensures Without(m, r) == 0
  {
    hide Pow2, Popcount, Has, Without;
    WithoutShrinks(m, r);
    if Without(m, r) != 0 {
      SizePositive(Without(m, r));
    }
  }

  lemma AddingKeepsSolved(g: JoinGraph, st: Statistics, memo: Memo, m: nat, added: nat, plan: PhysicalPlan)
    requires Solved(g, st, memo, m) && m != added && Popcount(m) <= Popcount(added)
    ensures Solved(g, st, memo[added := plan], m)
  {
    hide Pow2, Popcount, Has, Without, AccessPath, Candidates, FirstEdge, LeftDeep;
    forall r: nat, p | Without(m, r) in memo[added := plan]
      && Extends(g, st, m, r, memo[added := plan][Without(m, r)], p)
      ensures m in memo ==> memo[m].Total() <= p.Total()
    {
      WithoutShrinks(m, r);
    }
  }

  lemma SingletonSolved(g: JoinGraph, st: Statistics, memo: Memo, m: nat)
    requires HasBases(g, st, memo) && 0 < m < Pow2(|g.relations|) && Popcount(m) == 1
    ensures Solved(g, st, memo, m)
  {
    hide Pow2, Popcount, Has, Without, AccessPath, Candidates, FirstEdge, LeftDeep;
    var i := NonZeroHasSome(m);
    BitsBelow(m, |g.relations|, i);
    PopcountIsSize(m, |g.relations|);
    OneBit(m, i);
    forall r: nat | Has(m, r) ensures Without(m, r) == 0 {
      WithoutOnlyBit(m, r);
    }
  }

  lemma OneBit(m: nat, i: nat)
    requires Has(m, i) && Popcount(m) == 1
    ensures m == Pow2(i)
  {
    hide Pow2, Popcount, Has, Without;
    WithoutShrinks(m, i);
    if Without(m, i) != 0 {
      var j := NonZeroHasSome(Without(m, i));
      WithoutShrinks(Without(m, i), j);
    }
    forall j: nat ensures Has(m, j) <==> Has(Pow2(i), j) {
      SingletonHas(i, j);
      WithoutHas(m, i, j);
      ZeroHasNothing(j);
    }
    SameBits(m, Pow2(i));
  }

  lemma PowersDiffer(i: nat, j: nat)
    requires Pow2(i) == Pow2(j)
    ensures i == j
  {
    hide Pow2, Has;
    SingletonHas(i, i);
    SingletonHas(j, i);
  }

  // A best extension over every relation is a locally best entry.
  lemma NewEntryBest(g: JoinGraph, st: Statistics, memo: Memo, m: nat, best: PhysicalPlan)
    requires m !in memo
    requires forall q: nat, p :: Adds(g, st, memo, m, q, p) ==> best.Total() <= p.Total()
    ensures LocallyBest(g, st, memo[m := best], m)
  {
    hide Without, Candidates, AccessPath, FirstEdge;
    var memo' := memo[m := best];
    forall r: nat, p | Without(m, r) in memo' && Extends(g, st, m, r, memo'[Without(m, r)], p)
      ensures best.Total() <= p.Total()
    {
      assert Adds(g, st, memo, m, r, p);
    }
  }

  lemma SubsetsSolved(g: JoinGraph, st: Statistics, memo: Memo, m: nat)
    requires Popcount(m) >= 2
    requires forall k :: 0 < k < m && Popcount(k) < Popcount(m) ==> Solved(g, st, memo, k)
    ensures forall r: nat :: Has(m, r) ==>
      (Without(m, r) in memo <==> Grown(g.edges, Members(Without(m, r), |g.relations|)))
  {
    hide Pow2, Popcount, Has, Without, Grown, LocallyBest;
    forall r: nat | Has(m, r)
      ensures Without(m, r) in memo <==> Grown(g.edges, Members(Without(m, r), |g.relations|))
    {
      WithoutNonZero(m, r);
      WithoutShrinks(m, r);
      assert Solved(g, st, memo, Without(m, r));
    }
  }

  // Only relations make masks: the memo of the base cases.
  ghost predicate BaseMemo(g: JoinGraph, st: Statistics, memo: Memo, n: nat)
    requires n <= |g.relations|
  {
    && (forall i: nat :: i < n ==> Pow2(i) in memo && memo[Pow2(i)] == AccessPath(st, g.relations[i]))
    && (forall m :: m in memo ==> exists i: nat :: i < n && m == Pow2(i))
  }

  lemma AddBase(g: JoinGraph, st: Statistics, memo: Memo, n: nat)
    requires n < |g.relations| && BaseMemo(g, st, memo, n)
    ensures BaseMemo(g, st, memo[Pow2(n) := AccessPath(st, g.relations[n])], n + 1)
  {
    hide Pow2, AccessPath;
    var memo' := memo[Pow2(n) := AccessPath(st, g.relations[n])];
    forall i: nat | i < n + 1 ensures Pow2(i) in memo' && memo'[Pow2(i)] == AccessPath(st, g.relations[i]) {
      if Pow2(i) == Pow2(n) { PowersDiffer(i, n); }
    }
    forall m | m in memo' ensures exists i: nat :: i < n + 1 && m == Pow2(i) {
      if m != Pow2(n) {
        var i: nat :| i < n && m == Pow2(i);
      }
    }
  }

  lemma BasesAreSound(g: JoinGraph, st: Statistics, memo: Memo)
    requires BaseMemo(g, st, memo, |g.relations|)
    ensures Sound(g, st, memo) && HasBases(g, st, memo)
    ensures forall m :: m in memo ==> Popcount(m) == 1
    ensures forall m :: 0 < m < Pow2(|g.relations|) && Popcount(m) == 1 ==> Solved(g, st, memo, m)
  {
    hide Pow2, Popcount, AccessPath, Extends, Solved;
    forall m | m in memo ensures 0 < m < Pow2(|g.relations|) && LeftDeep(g, st, m, memo[m]) && Popcount(m) == 1 {
      var i: nat :| i < |g.relations| && m == Pow2(i);
      Pow2Grows(i, |g.relations|);
      SingletonPopcount(i);
    }
    forall m | 0 < m < Pow2(|g.relations|) && Popcount(m) == 1 ensures Solved(g, st, memo, m) {
      SingletonSolved(g, st, memo, m);
    }
  }

  lemma SizePositive(m: nat)
    requires m > 0
    ensures Popcount(m) >= 1
  {
    hide Pow2, Popcount, Has, Without;
    var i := NonZeroHasSome(m);
    WithoutShrinks(m, i);
  }

  // Every mask below the loop's limit has been solved.
  ghost predicate AllSolved(g: JoinGraph, st: Statistics, memo: Memo, limit: nat)
  {
    Sound(g, st, memo) && HasBases(g, st, memo) && forall m :: 0 < m < limit ==> Solved(g, st, memo, m)
  }

  lemma SizeAtMost(m: nat, n: nat)
    requires m < Pow2(n)
    ensures Popcount(m) <= n
  {
    if n > 0 { SizeAtMost(m / 2, n - 1); }
  }

  // Row estimates of a proper subset do not depend on the plan chosen for it.
  ghost predicate RowsDependOnMask(g: JoinGraph, st: Statistics)
  {
    forall m, p, q :: 0 < m < Pow2(|g.relations|) - 1 && LeftDeep(g, st, m, p) && LeftDeep(g, st, m, q)
      ==> p.estimated_rows == q.estimated_rows
  }

  // A plan that extends `left` is beaten by the entry of m once the entry of
  // the rest beats `left`.
  lemma ExtensionBeaten(g: JoinGraph, st: Statistics, memo: Memo, m: nat, r: nat, left: PhysicalPlan, p: PhysicalPlan)
    requires Extends(g, st, m, r, left, p)
    requires Without(m, r) in memo && m in memo && LocallyBest(g, st, memo, m)
    requires memo[Without(m, r)].Total() <= left.Total()
    requires memo[Without(m, r)].estimated_rows == left.estimated_rows
    ensures memo[m].Total() <= p.Total()
  {
    hide Has, Without, Pow2, Candidates, AccessPath, FirstEdge;
    var rest := Without(m, r);
    var edge := g.edges[FirstEdge(g, rest, Pow2(r), 0)];
    var right := AccessPath(st, g.relations[r]);
    var i :| 0 <= i < |Candidates(g, st, rest, Pow2(r), left, right, edge.pred)|
          && Candidates(g, st, rest, Pow2(r), left, right, edge.pred)[i] == p;
    CandidatesMonotone(g, st, rest, Pow2(r), memo[rest], left, right, edge.pred, i);
    var c := Candidates(g, st, rest, Pow2(r), memo[rest], right, edge.pred)[i];
    assert Extends(g, st, m, r, memo[rest], c);
  }

  lemma ExtendableIsMemoised(g: JoinGraph, st: Statistics, memo: Memo, m: nat, r: nat, left: PhysicalPlan,
                             p: PhysicalPlan)
    requires g.Valid() && AllSolved(g, st, memo, Pow2(|g.relations|)) && m < Pow2(|g.relations|)
    requires Extends(g, st, m, r, left, p) && Without(m, r) in memo
    ensures m in memo
  {
    hide Pow2, Popcount, Has, Without, Candidates, AccessPath, FirstEdge, Grown, LocallyBest, LeftDeep;
    WithoutShrinks(m, r);
    SizePositive(Without(m, r));
    SubsetsSolved(g, st, memo, m);
    UsableIffGrown(g, st, memo, m);
    assert Usable(g, memo, m, r);
    assert Solved(g, st, memo, m);
  }

  // Then the best extensions of best entries are best overall.
  lemma {:induction false} GloballyBest(g: JoinGraph, st: Statistics, memo: Memo, m: nat, p: PhysicalPlan)
    requires g.Valid() && RowsDependOnMask(g, st) && AllSolved(g, st, memo, Pow2(|g.relations|))
    requires 0 < m < Pow2(|g.relations|) && LeftDeep(g, st, m, p)
    ensures m in memo && memo[m].Total() <= p.Total()
    decreases m
  {
    hide Pow2, Has, Without, Candidates, AccessPath, FirstEdge, LocallyBest;
    if i: nat :| i < |g.relations| && m == Pow2(i) && p == AccessPath(st, g.relations[i]) {
    } else {
      var r: nat, left :| Extends(g, st, m, r, left, p) && LeftDeep(g, st, Without(m, r), left);
      GloballyBest(g, st, memo, Without(m, r), left);
      ExtendableIsMemoised(g, st, memo, m, r, left, p);
      assert Solved(g, st, memo, m);
      ExtensionBeaten(g, st, memo, m, r, left, p);
    }
  }

  lemma {:induction false} FullSize(n: nat)
    ensures Popcount(Pow2(n) - 1) == n
  {
    if n > 0 {
      FullSize(n - 1);
      assert (Pow2(n) - 1) / 2 == Pow2(n - 1) - 1;
    }
  }

  // What a completely filled memo says about every subset.
  lemma SearchOutcome(g: JoinGraph, st: Statistics, memo: Memo)
    requires g.Valid() && |g.relations| >= 1 && AllSolved(g, st, memo, Pow2(|g.relations|))
    ensures forall m :: 0 < m < Pow2(|g.relations|) ==> (m in memo <==> Connected(g.edges, Members(m, |g.relations|)))
    ensures Pow2(|g.relations|) - 1 in memo <==> Connected(g.edges, AllRelations(g))
    ensures RowsDependOnMask(g, st) ==> forall p :: LeftDeep(g, st, Pow2(|g.relations|) - 1, p) ==>
      Pow2(|g.relations|) - 1 in memo && memo[Pow2(|g.relations|) - 1].Total() <= p.Total()
  {
    hide Popcount, Has, Without, LeftDeep, LocallyBest, Grown, Connected;
    var full := Pow2(|g.relations|) - 1;
    forall m | 0 < m < Pow2(|g.relations|)
      ensures m in memo <==> Connected(g.edges, Members(m, |g.relations|))
    {
      assert Solved(g, st, memo, m);
      var i := NonZeroHasSome(m);
      BitsBelow(m, |g.relations|, i);
      assert i in Members(m, |g.relations|);
      ConnectedIffGrown(g.edges, Members(m, |g.relations|));
    }
    assert full > 0 by { Pow2Grows(0, |g.relations|); assert Pow2(0) == 1; }
    forall p | RowsDependOnMask(g, st) && LeftDeep(g, st, full, p)
      ensures full in memo && memo[full].Total() <= p.Total()
    {
      GloballyBest(g, st, memo, full, p);
    }
  }

  lemma FullIsLeftDeep(g: JoinGraph, st: Statistics, memo: Memo)
    requires Sound(g, st, memo) && Pow2(|g.relations|) - 1 in memo
    ensures LeftDeep(g, st, Pow2(|g.relations|) - 1, memo[Pow2(|g.relations|) - 1])
  {
    hide LeftDeep;
  }

  // The state of solve_subset's loop after the relations below r.
  ghost predicate BestUpTo(g: JoinGraph, st: Statistics, memo: Memo, m: nat, r: nat, best: Option<PhysicalPlan>)
  {
    && (best.Some? ==> exists q: nat :: Adds(g, st, memo, m, q, best.value))
    && (best.Some? <==> exists q: nat :: q < r && Usable(g, memo, m, q))
    && (forall q: nat, p :: q < r && Adds(g, st, memo, m, q, p) ==> best.Some? && best.value.Total() <= p.Total())
  }

  // p adds relation r to the memoised plan of the rest of m.
  ghost predicate Adds(g: JoinGraph, st: Statistics, memo: Memo, m: nat, r: nat, p: PhysicalPlan)
  {
    Without(m, r) in memo && Extends(g, st, m, r, memo[Without(m, r)], p)
  }

  lemma SkipUnusable(g: JoinGraph, st: Statistics, memo: Memo, m: nat, r: nat, best: Option<PhysicalPlan>)
    requires BestUpTo(g, st, memo, m, r, best) && !Usable(g, memo, m, r)
    ensures BestUpTo(g, st, memo, m, r + 1, best)
  {
    hide Adds, Usable;
    forall q: nat, p | Adds(g, st, memo, m, q, p) ensures Usable(g, memo, m, q) {
      AddsIsUsable(g, st, memo, m, q, p);
    }
  }

  lemma AddsIsUsable(g: JoinGraph, st: Statistics, memo: Memo, m: nat, r: nat, p: PhysicalPlan)
    requires Adds(g, st, memo, m, r, p)
    ensures Usable(g, memo, m, r)
  {
    hide Has, Without, Pow2, AccessPath, FirstEdge, Candidates;
  }

  lemma TakeCandidate(g: JoinGraph, st: Statistics, memo: Memo, m: nat, r: nat, best: Option<PhysicalPlan>,
                      candidate: PhysicalPlan)
    requires BestUpTo(g, st, memo, m, r, best) && Usable(g, memo, m, r)
    requires Adds(g, st, memo, m, r, candidate)
    requires forall p :: Adds(g, st, memo, m, r, p) ==> candidate.Total() <= p.Total()
    ensures BestUpTo(g, st, memo, m, r + 1,
                     if best.None? || candidate.Total() < best.value.Total() then Some(candidate) else best)
  {
    hide Adds, Usable;
  }

  lemma AddsIsLeftDeep(g: JoinGraph, st: Statistics, memo: Memo, m: nat, r: nat, p: PhysicalPlan)
    requires Sound(g, st, memo) && Adds(g, st, memo, m, r, p)
    ensures LeftDeep(g, st, m, p)
  {
    hide Has, Without, Pow2, AccessPath, FirstEdge, Candidates;
    assert LeftDeep(g, st, Without(m, r), memo[Without(m, r)]);
  }

  class JoinEnumerator {
    const st: Statistics
    var memo: Memo

    constructor (st: Statistics)
      ensures this.st == st && memo == map[]
    {
      this.st := st;
      memo := map[];
    }

    method FindConnectingEdge(left_mask: nat, right_mask: nat, g: JoinGraph) returns (k: nat)
      ensures k == FirstEdge(g, left_mask, right_mask, 0)
    {
      k := 0;
      while k < |g.edges| && !Connects(g.edges[k], left_mask, right_mask)
        invariant 0 <= k <= |g.edges|
        invariant FirstEdge(g, left_mask, right_mask, 0) == FirstEdge(g, left_mask, right_mask, k)
      {
        k := k + 1;
      }
    }

    // The cheapest of all candidates for one join step.
    method GenerateBestCandidate(left_mask: nat, right_mask: nat, left: PhysicalPlan, right: PhysicalPlan,
                                 edge: JoinEdge, g: JoinGraph) returns (best: PhysicalPlan)
      ensures best in Candidates(g, st, left_mask, right_mask, left, right, edge.pred)
      ensures forall c :: c in Candidates(g, st, left_mask, right_mask, left, right, edge.pred) ==>
        best.Total() <= c.Total()
    {
      var candidates := Candidates(g, st, left_mask, right_mask, left, right, edge.pred);
      var best_i := 0;
      for i := 1 to |candidates|
        invariant best_i < |candidates|
        invariant forall j :: 0 <= j < i ==> candidates[best_i].Total() <= candidates[j].Total()
      {
        if candidates[i].Total() < candidates[best_i].Total() {
          best_i := i;
        }
      }
      best := candidates[best_i];
    }

    method SolveSubset(subset: nat, g: JoinGraph)
      requires g.Valid() && 0 < subset < Pow2(|g.relations|) && Popcount(subset) >= 2 && subset !in memo
      requires Sound(g, st, memo) && HasBases(g, st, memo)
      requires forall m :: 0 < m < subset && Popcount(m) < Popcount(subset) ==> Solved(g, st, memo, m)
      modifies this
      ensures Sound(g, st, memo) && Solved(g, st, memo, subset)
      ensures memo.Keys <= old(memo).Keys + {subset}
      ensures memo == old(memo) || (subset in memo && memo == old(memo)[subset := memo[subset]])
    {
      hide Pow2, Popcount, Has, Without, AccessPath, Candidates, FirstEdge, Grown, LeftDeep, LocallyBest;
      var best: Option<PhysicalPlan> := None;
      for r := 0 to |g.relations|
        invariant memo == old(memo) && BestUpTo(g, st, memo, subset, r, best)
      {
        var left_mask := Without(subset, r);
        if !Has(subset, r) || left_mask !in memo {
          SkipUnusable(g, st, memo, subset, r, best);
          continue;
        }
        WithoutNonZero(subset, r);
        var k := FindConnectingEdge(left_mask, Pow2(r), g);
        if k == |g.edges| {
          SkipUnusable(g, st, memo, subset, r, best);
          continue;
        }
        var candidate := GenerateBestCandidate(left_mask, Pow2(r), memo[left_mask], memo[Pow2(r)], g.edges[k], g);
        TakeCandidate(g, st, memo, subset, r, best, candidate);
        if best.None? || candidate.Total() < best.value.Total() {
          best := Some(candidate);
        }
      }
      SubsetsSolved(g, st, memo, subset);
      UsableIffGrown(g, st, memo, subset);
      assert best.Some? <==> exists q: nat :: Usable(g, memo, subset, q);
      forall q: nat, p | Adds(g, st, memo, subset, q, p) ensures Usable(g, memo, subset, q) {
        AddsIsUsable(g, st, memo, subset, q, p);
      }
      if best.Some? {
        ghost var q: nat :| Adds(g, st, memo, subset, q, best.value);
        AddsIsLeftDeep(g, st, memo, subset, q, best.value);
        NewEntryBest(g, st, memo, subset, best.value);
        memo := memo[subset := best.value];
      }
    }

    // find_best_plan succeeds exactly on connected graphs of 1 to 63
    // relations, memoises exactly the connected subsets, and returns a
    // left-deep plan of all relations that no left-deep plan beats when row
    // estimates depend on the subset alone.
    method FindBestPlan(g: JoinGraph) returns (result: Result<PhysicalPlan>)
      requires g.Valid() && |g.relations| <= 64 && memo == map[]
      modifies this
      ensures result.Ok? <==> 1 <= |g.relations| <= 63 && Connected(g.edges, AllRelations(g))
      ensures result.Ok? ==> LeftDeep(g, st, Pow2(|g.relations|) - 1, result.value)
      ensures |g.relations| <= 63 ==>
        forall m :: 0 < m < Pow2(|g.relations|) && |g.relations| > 0 ==>
          (m in memo <==> Connected(g.edges, Members(m, |g.relations|)))
      ensures 1 <= |g.relations| <= 63 ==> AllSolved(g, st, memo, Pow2(|g.relations|))
      ensures result.Ok? && RowsDependOnMask(g, st) ==>
        forall p :: LeftDeep(g, st, Pow2(|g.relations|) - 1, p) ==> result.value.Total() <= p.Total()
    {
      hide Popcount, Has, Without, AccessPath, Candidates, LeftDeep, Solved, Connected, BaseMemo, Sound, HasBases;
      var n := |g.relations|;
      if n == 0 {
        return Err("join_enumerator: empty join graph");
      }
      FillBases(g);
      var limit := if n == 64 then Pow2(64) - 1 else Pow2(n);
      for size := 2 to n + 1
        invariant Sound(g, st, memo) && HasBases(g, st, memo)
        invariant forall m :: m in memo ==> Popcount(m) < size && (m < limit || Popcount(m) == 1)
        invariant forall m :: 0 < m < limit && Popcount(m) < size ==> Solved(g, st, memo, m)
      {
        SolveSize(g, size, limit);
      }
      forall m | 0 < m < limit ensures Solved(g, st, memo, m) {
        SizeAtMost(m, n);
      }
      var full := Pow2(n) - 1;
      FullSize(n);
      if n <= 63 { SearchOutcome(g, st, memo); }
      if full in memo {
        result := Ok(memo[full]);
        FullIsLeftDeep(g, st, memo);
      } else {
        result := Err("join_enumerator: relations are not fully connected by join predicates");
      }
    }

    method FillBases(g: JoinGraph)
      requires memo == map[]
      modifies this
      ensures Sound(g, st, memo) && HasBases(g, st, memo)
      ensures forall m :: m in memo ==> Popcount(m) == 1
      ensures forall m :: 0 < m < Pow2(|g.relations|) && Popcount(m) < 2 ==> Solved(g, st, memo, m)
    {
      hide Pow2, Popcount, AccessPath, LeftDeep, Solved;
      for i := 0 to |g.relations|
        invariant BaseMemo(g, st, memo, i)
      {
        var path := BestAccessPath(st, g.relations[i]);
        AddBase(g, st, memo, i);
        memo := memo[Pow2(i) := path];
      }
      BasesAreSound(g, st, memo);
      forall m | 0 < m < Pow2(|g.relations|) && Popcount(m) < 2 ensures Solved(g, st, memo, m) {
        SizePositive(m);
      }
    }

    // One round of the search: every subset of the given size, in mask order.
    method SolveSize(g: JoinGraph, size: nat, limit: nat)
      requires g.Valid() && size >= 2 && limit <= Pow2(|g.relations|)
      requires Sound(g, st, memo) && HasBases(g, st, memo)
      requires forall m :: m in memo ==> Popcount(m) < size
      requires forall m :: 0 < m < limit && Popcount(m) < size ==> Solved(g, st, memo, m)
      modifies this
      ensures Sound(g, st, memo) && HasBases(g, st, memo)
      ensures forall m :: m in memo ==> Popcount(m) < size + 1
      ensures forall m :: 0 < m < limit && Popcount(m) < size + 1 ==> Solved(g, st, memo, m)
      ensures forall m :: m in memo && m !in old(memo) ==> m < limit
    {
      hide Pow2, Popcount, AccessPath, LeftDeep, Solved;
      var subset := 1;
      while subset < limit
        invariant Sound(g, st, memo) && HasBases(g, st, memo)
        invariant forall m :: m in memo ==> Popcount(m) < size || (Popcount(m) == size && m < subset)
        invariant forall m :: m in memo && m !in old(memo) ==> m < limit
        invariant forall m :: 0 < m < limit && Popcount(m) < size ==> Solved(g, st, memo, m)
        invariant forall m :: 0 < m < subset && m < limit && Popcount(m) == size ==> Solved(g, st, memo, m)
      {
        if Popcount(subset) == size {
          ghost var before := memo;
          SolveSubset(subset, g);
          forall m | 0 < m < limit && m != subset && Popcount(m) <= size && Solved(g, st, before, m)
            ensures Solved(g, st, memo, m)
          {
            if memo != before { AddingKeepsSolved(g, st, before, m, subset, memo[subset]); }
          }
        }
        subset := subset + 1;
      }
    }
  }

  ghost function AllRelations(g: JoinGraph): set<nat>
  {
    Members(Pow2(|g.relations|) - 1, |g.relations|)
  }
}
