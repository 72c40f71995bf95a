// reorder_joins over whole plans (logical/optimizer.cpp): inner nests of joins
// are reordered before the nests around them.

// Disjoint groups of aliases, and sets of tables that link them.
module AliasGroups {
  type Group = set<string>

  ghost function Union(groups: set<Group>): Group
  {
    set x, a | x in groups && a in x :: a
  }

  ghost predicate Apart(groups: set<Group>)
  {
    {} !in groups && forall x, y :: x in groups && y in groups && x != y ==> x !! y
  }

  // a is made of whole groups.
  ghost predicate Whole(a: Group, groups: set<Group>)
  {
    a <= Union(groups) && forall x :: x in groups ==> x <= a || x !! a
  }

  predicate Crosses(t: Group, a: Group)
  {
    t * a != {} && t - a != {}
  }

  // A way to split the groups that nothing crosses.
  ghost predicate Cut(a: Group, groups: set<Group>, links: seq<Group>)
  {
    Whole(a, groups) && a != {} && a != Union(groups) && forall i :: 0 <= i < |links| ==> !Crosses(links[i], a)
  }

  // t lies in two groups, perhaps the same.
  ghost predicate InTwo(t: Group, groups: set<Group>)
  {
    exists x, y :: x in groups && y in groups && t <= x + y
  }

  lemma InUnion(x: Group, groups: set<Group>)
    requires x in groups
    ensures x <= Union(groups)
  {
  }

  // A set over x is not among sets apart from x.
  lemma OverlapNot(x: Group, u: Group, rest: set<Group>)
    requires x != {} && x <= u && forall z :: z in rest ==> z !! x
    ensures u !in rest
  {
    var a :| a in x;
    assert a in u;
  }

  function Inside(a: Group): Group -> bool
  {
    t => t <= a
  }

  function Outside(a: Group): Group -> bool
  {
    t => !(t <= a)
  }

  lemma UnionOfBoth(l: set<Group>, r: set<Group>)
    ensures Union(l + r) == Union(l) + Union(r)
  {
  }

  lemma BothApart(l: set<Group>, r: set<Group>)
    requires Apart(l) && Apart(r) && Union(l) !! Union(r)
    ensures l !! r && Apart(l + r) && |l + r| == |l| + |r|
  {
    hide Union;
    forall x, y | x in l && y in r ensures x !! y && x != y {
      InUnion(x, l);
      InUnion(y, r);
      assert x != {};
      var a :| a in x;
      assert a !in y;
    }
  }

  ghost function Contracted(groups: set<Group>, some: set<Group>): set<Group>
  {
    groups - some + {Union(some)}
  }

  lemma ContractedGroups(groups: set<Group>, some: set<Group>)
    requires Apart(groups) && some <= groups && some != {}
    ensures Apart(Contracted(groups, some)) && Union(Contracted(groups, some)) == Union(groups)
    ensures |Contracted(groups, some)| == |groups| - |some| + 1
  {
    var rest, u := groups - some, Union(some);
    var x :| x in some;
    InUnion(x, some);
    assert x != {};
    forall z | z in rest ensures z !! u {
      forall a | a in u ensures a !in z {
        var y :| y in some && a in y;
        assert y !! z;
      }
    }
    OverlapNot(x, u, rest);
    assert |rest| == |groups| - |some|;
    forall a ensures a in Union(groups) <==> a in Union(Contracted(groups, some)) {
      if a in Union(groups) {
        var z :| z in groups && a in z;
        assert (if z in some then u else z) in Contracted(groups, some);
        if z in some {
          InUnion(z, some);
        }
      }
      if a in Union(Contracted(groups, some)) {
        var z :| z in Contracted(groups, some) && a in z;
        if z == u {
          var y :| y in some && a in y;
        }
      }
    }
  }

  lemma ContractedInTwo(t: Group, groups: set<Group>, some: set<Group>)
    requires InTwo(t, groups) && some <= groups
    ensures InTwo(t, Contracted(groups, some))
  {
    var x, y :| x in groups && y in groups && t <= x + y;
    var u := Union(some);
    if x in some { InUnion(x, some); }
    if y in some { InUnion(y, some); }
    var x', y' := if x in some then u else x, if y in some then u else y;
    assert x' in Contracted(groups, some) && y' in Contracted(groups, some) && t <= x' + y';
  }

  lemma WholeUncontracted(a: Group, groups: set<Group>, some: set<Group>)
    requires some <= groups && Whole(a, Contracted(groups, some)) && Union(Contracted(groups, some)) == Union(groups)
    ensures Whole(a, groups) && (Union(some) <= a || Union(some) !! a)
  {
    assert Union(some) in Contracted(groups, some);
    forall z | z in groups ensures z <= a || z !! a {
      if z in some {
        InUnion(z, some);
      } else {
        assert z in Contracted(groups, some);
      }
    }
  }

  // Too few links leave a cut.
  lemma {:induction false} FewLinks(groups: set<Group>, links: seq<Group>) returns (a: Group)
    requires Apart(groups) && |links| + 1 < |groups| && forall i :: 0 <= i < |links| ==> InTwo(links[i], groups)
    ensures Cut(a, groups, links)
    decreases |links|
  {
    hide Union, InTwo, Contracted, Apart;
    if links == [] {
      a := OneGroup(groups);
    } else {
      var t, rest := links[0], links[1..];
      assert InTwo(t, groups);
      var x, y := TwoOf(t, groups);
      if x == y {
        a := FewLinks(groups, rest);
        assert forall i :: 0 < i < |links| ==> links[i] == rest[i - 1];
      } else {
        var both := {x, y};
        assert |both| == 2 && t <= Union(both) by { InUnion(x, both); InUnion(y, both); }
        ContractedGroups(groups, both);
        forall i | 0 <= i < |rest| ensures InTwo(rest[i], Contracted(groups, both)) {
          ContractedInTwo(rest[i], groups, both);
        }
        a := FewLinks(Contracted(groups, both), rest);
        WholeUncontracted(a, groups, both);
        assert forall i :: 0 < i < |links| ==> links[i] == rest[i - 1];
      }
    }
  }

  lemma TwoOf(t: Group, groups: set<Group>) returns (x: Group, y: Group)
    requires InTwo(t, groups)
    ensures x in groups && y in groups && t <= x + y
  {
    x, y :| x in groups && y in groups && t <= x + y;
  }

  lemma OneGroup(groups: set<Group>) returns (a: Group)
    requires Apart(groups) && |groups| > 1
    ensures Cut(a, groups, [])
  {
    a :| a in groups;
    var rest := groups - {a};
    assert |rest| > 0;
    var b :| b in rest;
    assert b !! a && b != {} && b <= Union(groups);
    InUnion(a, groups);
  }
}

module Nests {
  import opened Wrappers
  import opened Ast
  import opened Bags
  import opened Relational
  import opened NormalForm
  import opened Pushdown
  import opened Reorder
  import AG = AliasGroups

  // The tables of each condition.
  function TablesOf(conds: seq<Expr>): seq<AG.Group>
  {
    seq(|conds|, i requires 0 <= i < |conds| => Tables(conds[i]))
  }

  // The aliases of each operand of a nest.
  ghost function Groups(p: LogicalPlan): set<AG.Group>
  {
    set o | o in Operands(p) :: ScanAliases(o)
  }

  ghost predicate Between(t: AG.Group, groups: set<AG.Group>)
  {
    exists x, y :: x in groups && y in groups && x != y && t * x != {} && t * y != {} && t <= x + y
  }

  // Each condition lies between two groups, and no split is uncrossed.
  ghost predicate TreeGroups(groups: set<AG.Group>, conds: seq<Expr>)
  {
    && (forall a :: !AG.Cut(a, groups, TablesOf(conds)))
    && forall c :: c in conds ==> Between(Tables(c), groups)
  }

  lemma TreeGroupsPermute(groups: set<AG.Group>, conds: seq<Expr>, conds': seq<Expr>)
    requires TreeGroups(groups, conds) && multiset(conds) == multiset(conds')
    ensures TreeGroups(groups, conds')
  {
    hide Between, AG.Cut;
    SameElements(conds, conds');
    forall a ensures !AG.Cut(a, groups, TablesOf(conds')) {
      if AG.Cut(a, groups, TablesOf(conds')) {
        CutPermutes(a, groups, conds, conds');
      }
    }
  }

  lemma CutPermutes(a: AG.Group, groups: set<AG.Group>, conds: seq<Expr>, conds': seq<Expr>)
    requires AG.Cut(a, groups, TablesOf(conds')) && forall c :: c in conds ==> c in conds'
    ensures AG.Cut(a, groups, TablesOf(conds))
  {
    hide AG.Whole;
    forall i | 0 <= i < |conds| ensures !AG.Crosses(TablesOf(conds)[i], a) {
      assert conds[i] in conds';
      var j :| 0 <= j < |conds'| && conds'[j] == conds[i];
      assert !AG.Crosses(TablesOf(conds')[j], a);
    }
  }

  // ---- Groups of a nest ----

  lemma {:induction false} GroupsOf(p: LogicalPlan)
    requires JoinTree(p) && Distinct(Leaves(p))
    ensures AG.Apart(Groups(p)) && AG.Union(Groups(p)) == ScanAliases(p) && |Groups(p)| == |JoinConditions(p)| + 1
    ensures p.Join? ==> Groups(p) == Groups(p.left) + Groups(p.right) && ScanAliases(p.left) !! ScanAliases(p.right)
  {
    if p.Join? {
      DistinctHalves(Leaves(p.left), Leaves(p.right));
      ScanAliasesAreAliases(p.left);
      ScanAliasesAreAliases(p.right);
      GroupsOf(p.left);
      GroupsOf(p.right);
      GroupsJoin(p);
    } else {
      var a := SomeAlias(p);
      assert Operands(p) == [p];
      assert Groups(p) == {ScanAliases(p)};
    }
  }

  lemma GroupsJoin(p: LogicalPlan)
    requires p.Join? && ScanAliases(p.left) !! ScanAliases(p.right)
    requires AG.Apart(Groups(p.left)) && AG.Union(Groups(p.left)) == ScanAliases(p.left)
      && |Groups(p.left)| == |JoinConditions(p.left)| + 1
    requires AG.Apart(Groups(p.right)) && AG.Union(Groups(p.right)) == ScanAliases(p.right)
      && |Groups(p.right)| == |JoinConditions(p.right)| + 1
    ensures AG.Apart(Groups(p)) && AG.Union(Groups(p)) == ScanAliases(p) && |Groups(p)| == |JoinConditions(p)| + 1
    ensures Groups(p) == Groups(p.left) + Groups(p.right)
  {
    hide AG.Apart, AG.Union;
    var l, r := Groups(p.left), Groups(p.right);
    assert Groups(p) == l + r;
    AG.BothApart(l, r);
    AG.UnionOfBoth(l, r);
  }

  // The set form says what the sequence form says.
  lemma TreeConditionsAreGroups(p: LogicalPlan)
    requires JoinTree(p) && Distinct(Leaves(p))
    ensures TreeConditions(Operands(p), JoinConditions(p)) <==> TreeGroups(Groups(p), JoinConditions(p))
  {
    hide AG.Whole, Whole, BetweenTwo, Between, Cover, AG.Union, ScanAliases, Tables;
    var ops, conds := Operands(p), JoinConditions(p);
    OperandsApart(p);
    SameCover(p);
    forall a ensures IsCut(a, ops, conds) <==> AG.Cut(a, Groups(p), TablesOf(conds)) { SameCut(p, a); }
    forall c ensures BetweenTwo(c, ops) <==> Between(Tables(c), Groups(p)) { SameBetween(p, c); }
  }

  lemma SameCover(p: LogicalPlan)
    ensures Cover(Operands(p)) == AG.Union(Groups(p))
  {
    var ops := Operands(p);
    forall a ensures a in Cover(ops) <==> a in AG.Union(Groups(p)) {
      if a in Cover(ops) {
        var i :| 0 <= i < |ops| && a in ScanAliases(ops[i]);
        assert ops[i] in ops && ScanAliases(ops[i]) in Groups(p);
      }
      if a in AG.Union(Groups(p)) {
        var x :| x in Groups(p) && a in x;
        var o :| o in ops && ScanAliases(o) == x;
        var i :| 0 <= i < |ops| && ops[i] == o;
      }
    }
  }

  lemma SameWhole(p: LogicalPlan, a: set<string>)
    ensures Whole(a, Operands(p)) <==> AG.Whole(a, Groups(p))
  {
    hide Cover, AG.Union;
    var ops := Operands(p);
    SameCover(p);
    if Whole(a, ops) {
      forall x | x in Groups(p) ensures x <= a || x !! a {
        var o :| o in ops && ScanAliases(o) == x;
        var i :| 0 <= i < |ops| && ops[i] == o;
        assert ScanAliases(ops[i]) <= a || ScanAliases(ops[i]) !! a;
      }
    }
    if AG.Whole(a, Groups(p)) {
      forall i | 0 <= i < |ops| ensures ScanAliases(ops[i]) <= a || ScanAliases(ops[i]) !! a {
        assert ops[i] in ops && ScanAliases(ops[i]) in Groups(p);
      }
    }
  }

  lemma SameCut(p: LogicalPlan, a: set<string>)
    ensures IsCut(a, Operands(p), JoinConditions(p)) <==> AG.Cut(a, Groups(p), TablesOf(JoinConditions(p)))
  {
    hide AG.Whole, Whole, Cover, AG.Union, Tables;
    SameWhole(p, a);
    SameCover(p);
    var conds := JoinConditions(p);
    forall i | 0 <= i < |conds| ensures Straddles(conds[i], a) <==> AG.Crosses(TablesOf(conds)[i], a) {
    }
    if forall c :: c in conds ==> !Straddles(c, a) {
      forall i | 0 <= i < |conds| ensures !AG.Crosses(TablesOf(conds)[i], a) { assert conds[i] in conds; }
    }
    if forall i :: 0 <= i < |conds| ==> !AG.Crosses(TablesOf(conds)[i], a) {
      forall c | c in conds ensures !Straddles(c, a) {
        var i :| 0 <= i < |conds| && conds[i] == c;
        assert !AG.Crosses(TablesOf(conds)[i], a);
      }
    }
  }

  lemma SameBetween(p: LogicalPlan, c: Expr)
    requires Apart(Operands(p))
    ensures BetweenTwo(c, Operands(p)) <==> Between(Tables(c), Groups(p))
  {
    hide ScanAliases, Tables;
    var ops := Operands(p);
    if BetweenTwo(c, ops) {
      var i, j :| 0 <= i < j < |ops| && Links(c, ops[i], ops[j])
                  && Tables(c) <= ScanAliases(ops[i]) + ScanAliases(ops[j]);
      TwoGroups(p, c, i, j);
    }
    if Between(Tables(c), Groups(p)) {
      var x, y :| x in Groups(p) && y in Groups(p) && x != y
                  && Tables(c) * x != {} && Tables(c) * y != {} && Tables(c) <= x + y;
      var i := GroupAt(p, x);
      var j := GroupAt(p, y);
      assert if i < j then Links(c, ops[i], ops[j]) else Links(c, ops[j], ops[i]);
    }
  }

  lemma TwoGroups(p: LogicalPlan, c: Expr, i: nat, j: nat)
    requires Apart(Operands(p)) && i < j < |Operands(p)| && Links(c, Operands(p)[i], Operands(p)[j])
    requires Tables(c) <= ScanAliases(Operands(p)[i]) + ScanAliases(Operands(p)[j])
    ensures Between(Tables(c), Groups(p))
  {
    hide ScanAliases, Tables;
    var o, u := Operands(p)[i], Operands(p)[j];
    assert o in Operands(p) && u in Operands(p);
    var x, y := ScanAliases(o), ScanAliases(u);
    assert x in Groups(p) && y in Groups(p) && x !! y;
    var a :| a in Tables(c) * x;
    assert a !in y;
  }

  lemma GroupAt(p: LogicalPlan, x: AG.Group) returns (i: nat)
    requires x in Groups(p)
    ensures i < |Operands(p)| && ScanAliases(Operands(p)[i]) == x
  {
    hide ScanAliases;
    var o :| o in Operands(p) && ScanAliases(o) == x;
    i :| 0 <= i < |Operands(p)| && Operands(p)[i] == o;
  }

  // ---- A nest inside a nest ----

  lemma CountInside(a: AG.Group, links: seq<AG.Group>)
    ensures |Filter(AG.Inside(a), links)| + |Filter(AG.Outside(a), links)| == |links|
  {
    if links != [] {
      CountInside(a, links[1..]);
    }
  }

  // Groups with as many conditions among them as groups: somewhere else the
  // conditions are too few.
  lemma Crowded(groups: set<AG.Group>, links: seq<AG.Group>, some: set<AG.Group>) returns (b: AG.Group)
    requires AG.Apart(groups) && |links| + 1 == |groups| && some <= groups && some != {}
    requires forall i :: 0 <= i < |links| ==> AG.InTwo(links[i], groups)
    requires |Filter(AG.Inside(AG.Union(some)), links)| >= |some|
    ensures AG.Cut(b, groups, links)
  {
    hide AG.Union, AG.InTwo, AG.Apart, AG.Whole, AG.Contracted;
    var u := AG.Union(some);
    var rest := Filter(AG.Outside(u), links);
    CountInside(u, links);
    AG.ContractedGroups(groups, some);
    FilterMembers(AG.Outside(u), links);
    forall i | 0 <= i < |rest| ensures AG.InTwo(rest[i], AG.Contracted(groups, some)) {
      assert rest[i] in rest;
      var j :| 0 <= j < |links| && links[j] == rest[i];
      AG.ContractedInTwo(links[j], groups, some);
    }
    b := AG.FewLinks(AG.Contracted(groups, some), rest);
    AG.WholeUncontracted(b, groups, some);
    forall i | 0 <= i < |links| ensures !AG.Crosses(links[i], b) {
      if !(links[i] <= u) {
        assert links[i] in rest;
        var j :| 0 <= j < |rest| && rest[j] == links[i];
      }
    }
  }

  lemma {:induction false} ScopedConditions(p: LogicalPlan)
    requires JoinTree(p) && Scoped(p)
    ensures forall c :: c in JoinConditions(p) ==> Tables(c) <= ScanAliases(p)
  {
    if p.Join? {
      ScopedConditions(p.left);
      ScopedConditions(p.right);
      ScanAliasesAreAliases(p);
      TablesAreColumns(p.condition);
      forall t | t in Tables(p.condition) ensures t in ScanAliases(p) {
        var c :| (Some(t), c) in ColumnsOf(p.condition);
      }
    }
  }

  lemma StaysBetween(t: AG.Group, own: set<AG.Group>, other: set<AG.Group>)
    requires Between(t, own + other) && t <= AG.Union(own) && AG.Union(own) !! AG.Union(other)
    ensures Between(t, own)
  {
    var x, y :| x in own + other && y in own + other && x != y && t * x != {} && t * y != {} && t <= x + y;
    if x in other { AG.InUnion(x, other); }
    if y in other { AG.InUnion(y, other); }
    assert x in own && y in own;
  }

  // A cut of a part of the groups crowds one side of it.
  lemma PartIsTree(own: set<AG.Group>, other: set<AG.Group>, mine: seq<AG.Group>, all: seq<AG.Group>, a: AG.Group)
    returns (b: AG.Group)
    requires AG.Apart(own + other) && own !! other && |mine| + 1 == |own| && |all| + 1 == |own + other|
    requires forall i :: 0 <= i < |all| ==> AG.InTwo(all[i], own + other)
    requires forall i :: 0 <= i < |mine| ==> mine[i] <= AG.Union(own)
    requires forall keep: AG.Group -> bool :: |Filter(keep, all)| >= |Filter(keep, mine)|
    requires AG.Cut(a, own, mine)
    ensures AG.Cut(b, own + other, all)
  {
    var inner := set x | x in own && x <= a;
    var outer := own - inner;
    SidesOfCut(own, a, inner, outer);
    CountInside(a, mine);
    assert |own| == |inner| + |outer| by { assert own == inner + outer; }
    if |Filter(AG.Inside(a), mine)| >= |inner| {
      assert |Filter(AG.Inside(AG.Union(inner)), all)| >= |inner|;
      b := Crowded(own + other, all, inner);
    } else {
      OutsideIsOuter(mine, a, AG.Union(own), AG.Union(outer));
      assert |Filter(AG.Inside(AG.Union(outer)), all)| >= |outer|;
      b := Crowded(own + other, all, outer);
    }
  }

  lemma SidesOfCut(own: set<AG.Group>, a: AG.Group, inner: set<AG.Group>, outer: set<AG.Group>)
    requires AG.Whole(a, own) && a != {} && a != AG.Union(own)
    requires inner == (set x | x in own && x <= a) && outer == own - inner
    ensures AG.Union(inner) == a && AG.Union(outer) == AG.Union(own) - a && inner != {} && outer != {}
  {
    forall e | e in a ensures e in AG.Union(inner) {
      assert e in AG.Union(own);
      var x :| x in own && e in x;
      assert x <= a;
    }
    forall e | e in AG.Union(own) - a ensures e in AG.Union(outer) {
      var x :| x in own && e in x;
      assert x in outer;
    }
    forall e | e in AG.Union(outer) ensures e in AG.Union(own) - a {
      var x :| x in outer && e in x;
      assert x !! a;
    }
    var e :| e in a;
    assert e in AG.Union(inner);
    var f :| f in AG.Union(own) && f !in a;
    assert f in AG.Union(outer);
  }

  lemma NotCrossing(t: AG.Group, a: AG.Group, all: AG.Group)
    requires t <= all && !AG.Crosses(t, a)
    ensures t <= a || t <= all - a
  {
    if e :| e in t && e !in a {
      assert e in t - a;
      forall x | x in t ensures x in all - a {
        assert x !in t * a;
      }
    }
  }

  lemma OutsideIsOuter(mine: seq<AG.Group>, a: AG.Group, all: AG.Group, rest: AG.Group)
    requires rest == all - a && forall i :: 0 <= i < |mine| ==> mine[i] <= all && !AG.Crosses(mine[i], a)
    ensures |Filter(AG.Inside(rest), mine)| >= |Filter(AG.Outside(a), mine)|
  {
    if mine != [] {
      var t := mine[0];
      assert t == mine[0] && !AG.Crosses(t, a);
      NotCrossing(t, a, all);
      OutsideIsOuter(mine[1..], a, all, rest);
    }
  }

  lemma KeptByPrefix(keep: AG.Group -> bool, a: seq<AG.Group>, b: seq<AG.Group>, c: seq<AG.Group>)
    ensures |Filter(keep, a + b + c)| >= |Filter(keep, b)|
  {
    FilterAppend(keep, a + b, c);
    FilterAppend(keep, a, b);
  }

  // The conditions of a tree of operands restrict to a tree on either side.
  lemma SubNest(p: LogicalPlan)
    requires p.Join? && JoinTree(p) && Scoped(p) && Distinct(Leaves(p)) && TreeGroups(Groups(p), JoinConditions(p))
    ensures TreeGroups(Groups(p.left), JoinConditions(p.left)) && TreeGroups(Groups(p.right), JoinConditions(p.right))
  {
    hide AG.Union, AG.Apart, AG.InTwo, AG.Cut, Between, Tables, Leaves, Distinct, ScanAliases, Groups, TreeGroups,
         Filter, Scoped;
    SideGroups(p);
    var l, r := TablesOf(JoinConditions(p.left)), TablesOf(JoinConditions(p.right));
    var all := TablesOf(JoinConditions(p));
    assert all == [Tables(p.condition)] + l + r;
    AllInTwo(Groups(p), JoinConditions(p));
    KeptByHalves(Tables(p.condition), l, r);
    SideIsTree(p, Groups(p.left), Groups(p.right), JoinConditions(p.left), all);
    assert Groups(p.left) + Groups(p.right) == Groups(p.right) + Groups(p.left);
    SideIsTree(p, Groups(p.right), Groups(p.left), JoinConditions(p.right), all);
  }

  lemma SideGroups(p: LogicalPlan)
    requires p.Join? && JoinTree(p) && Scoped(p) && Distinct(Leaves(p))
    ensures var l, r := Groups(p.left), Groups(p.right);
      && Groups(p) == l + r && AG.Apart(l + r) && l !! r && AG.Union(l) !! AG.Union(r)
      && |JoinConditions(p.left)| + 1 == |l| && |JoinConditions(p.right)| + 1 == |r|
      && |JoinConditions(p)| + 1 == |l + r|
      && (forall c :: c in JoinConditions(p.left) ==> Tables(c) <= AG.Union(l))
      && (forall c :: c in JoinConditions(p.right) ==> Tables(c) <= AG.Union(r))
  {
    hide AG.Union, AG.Apart, Tables, Leaves, Distinct, ScanAliases, Groups;
    Halves(p);
    GroupsOf(p);
    GroupsOf(p.left);
    GroupsOf(p.right);
    AG.BothApart(Groups(p.left), Groups(p.right));
    ScopedConditions(p.left);
    ScopedConditions(p.right);
  }

  lemma KeptByHalves(t: AG.Group, l: seq<AG.Group>, r: seq<AG.Group>)
    ensures forall keep: AG.Group -> bool ::
      |Filter(keep, [t] + l + r)| >= |Filter(keep, l)| && |Filter(keep, [t] + l + r)| >= |Filter(keep, r)|
  {
    forall keep: AG.Group -> bool
      ensures |Filter(keep, [t] + l + r)| >= |Filter(keep, l)| && |Filter(keep, [t] + l + r)| >= |Filter(keep, r)| {
      KeptByPrefix(keep, [t], l, r);
      KeptByPrefix(keep, [t] + l, r, []);
      assert [t] + l + r + [] == [t] + l + r;
    }
  }

  lemma Halves(p: LogicalPlan)
    requires p.Join? && Distinct(Leaves(p))
    ensures Distinct(Leaves(p.left)) && Distinct(Leaves(p.right))
  {
    DistinctHalves(Leaves(p.left), Leaves(p.right));
  }

  lemma AllInTwo(groups: set<AG.Group>, conds: seq<Expr>)
    requires TreeGroups(groups, conds)
    ensures forall i :: 0 <= i < |conds| ==> AG.InTwo(TablesOf(conds)[i], groups)
  {
    forall i | 0 <= i < |conds| ensures AG.InTwo(TablesOf(conds)[i], groups) {
      assert conds[i] in conds;
      assert Between(Tables(conds[i]), groups);
    }
  }

  lemma SideIsTree(p: LogicalPlan, own: set<AG.Group>, other: set<AG.Group>, conds: seq<Expr>, all: seq<AG.Group>)
    requires TreeGroups(own + other, JoinConditions(p)) && all == TablesOf(JoinConditions(p))
    requires AG.Apart(own + other) && own !! other && |conds| + 1 == |own| && |all| + 1 == |own + other|
    requires AG.Union(own) !! AG.Union(other)
    requires forall i :: 0 <= i < |all| ==> AG.InTwo(all[i], own + other)
    requires forall c :: c in conds ==> c in JoinConditions(p) && Tables(c) <= AG.Union(own)
    requires forall keep: AG.Group -> bool :: |Filter(keep, all)| >= |Filter(keep, TablesOf(conds))|
    ensures TreeGroups(own, conds)
  {
    hide AG.Union, AG.InTwo, AG.Apart, AG.Whole, Tables;
    forall c | c in conds ensures Between(Tables(c), own) {
      assert Between(Tables(c), own + other);
      StaysBetween(Tables(c), own, other);
    }
    forall a ensures !AG.Cut(a, own, TablesOf(conds)) {
      if AG.Cut(a, own, TablesOf(conds)) {
        forall i | 0 <= i < |conds| ensures TablesOf(conds)[i] <= AG.Union(own) { assert conds[i] in conds; }
        var b := PartIsTree(own, other, TablesOf(conds), all, a);
      }
    }
  }

  // ---- Whole plans ----

  // In every nest of joins of p, each condition lies between two operands and
  // no split of the operands is uncrossed.
  ghost predicate TreeNests(p: LogicalPlan)
    decreases p, 1
  {
    (p.Join? ==> TreeConditions(Operands(p), JoinConditions(p))) && BelowNests(p)
  }

  ghost predicate BelowNests(p: LogicalPlan)
    decreases p, 0
  {
    match p
    case Scan(_, _) => true
    case Join(_, left, right) => BelowNests(left) && BelowNests(right)
    case Select(_, input) => TreeNests(input)
    case Above(_, input) => TreeNests(input)
  }

  ghost predicate Reorderable(p: LogicalPlan)
  {
    JoinTree(p) && Scoped(p) && Distinct(Leaves(p)) && TreeNests(p)
  }

  lemma SidesReorderable(p: LogicalPlan)
    requires p.Join? && Reorderable(p)
    ensures Reorderable(p.left) && Reorderable(p.right)
  {
    hide TreeConditions, TreeGroups, Operands, JoinConditions, Leaves, Distinct;
    assert BelowNests(p);
    Halves(p);
    TreeConditionsAreGroups(p);
    TreeConditionsAreGroups(p.left);
    TreeConditionsAreGroups(p.right);
    SubNest(p);
  }

  // q has the parts of p: the same leaves and conditions, and as a nest the
  // same groups of aliases and conditions among them.
  ghost predicate SameParts(p: LogicalPlan, q: LogicalPlan)
  {
    && JoinTree(q) && Scoped(q) && (q.Join? <==> p.Join?)
    && multiset(Leaves(q)) == multiset(Leaves(p)) && multiset(Conditions(q)) == multiset(Conditions(p))
    && Groups(q) == Groups(p) && multiset(JoinConditions(q)) == multiset(JoinConditions(p))
  }

  // Upper operators stay; the tree below them has the same parts and rows, and
  // where its conditions are boolean neither tree throws.
  ghost predicate Reordered(p: LogicalPlan, q: LogicalPlan)
  {
    if p.Above? then q.Above? && q.op == p.op && Reordered(p.input, q.input)
    else Reorderable(p) ==>
      && SameParts(p, q)
      && forall w: World :: WellFormed(w.db) ==>
           SameRows(p, q, w) && (BooleanJoins(p, w.db) ==> Runs(p, w) && Runs(q, w))
  }

  lemma BagWithout(s: seq<LogicalPlan>, i: nat)
    requires i < |s|
    ensures multiset(Without(s, i)) == multiset(s) - multiset{s[i]}
  {
    assert s == s[..i] + [s[i]] + s[i + 1..];
  }

  lemma {:induction false} BagOfConditions(a: seq<LogicalPlan>, b: seq<LogicalPlan>)
    requires multiset(a) == multiset(b)
    ensures AllConditions(a) == AllConditions(b)
  {
    hide Conditions;
    if a == [] {
      assert multiset(b) == multiset{};
      assert b == [];
    } else {
      assert a[0] in multiset(b);
      var i :| 0 <= i < |b| && b[i] == a[0];
      BagWithout(a, 0);
      BagWithout(b, i);
      assert Without(a, 0) == a[1..];
      BagOfConditions(a[1..], Without(b, i));
      PartsWithout(b, i);
    }
  }

  lemma SameOperandsSameNest(p: LogicalPlan, q: LogicalPlan)
    requires JoinTree(p) && JoinTree(q) && multiset(Operands(p)) == multiset(Operands(q))
    requires multiset(Conditions(p)) == multiset(Conditions(q))
    ensures Groups(p) == Groups(q) && multiset(JoinConditions(p)) == multiset(JoinConditions(q))
  {
    hide Operands, JoinConditions, Conditions, AllConditions, AllLeaves, ScanAliases;
    SameElements(Operands(p), Operands(q));
    OperandsKeepParts(p);
    OperandsKeepParts(q);
    BagOfConditions(Operands(p), Operands(q));
    Cancelled(AllConditions(Operands(p)), multiset(JoinConditions(p)), multiset(JoinConditions(q)));
  }

  lemma Cancelled<T>(a: multiset<T>, b: multiset<T>, c: multiset<T>)
    requires a + b == a + c
    ensures b == c
  {
    assert b == a + b - a;
    assert c == a + c - a;
  }

  lemma SameLeavesSameAliases(p: LogicalPlan, q: LogicalPlan)
    requires multiset(Leaves(p)) == multiset(Leaves(q))
    ensures ScanAliases(p) == ScanAliases(q) && Aliases(Leaves(p)) == Aliases(Leaves(q))
  {
    hide Leaves, Aliases, ScanAliases;
    SameElements(Leaves(p), Leaves(q));
    SameAliases(Leaves(p), Leaves(q));
    SameAliases(Leaves(q), Leaves(p));
    ScanAliasesAreAliases(p);
    ScanAliasesAreAliases(q);
  }

  // Reordering the operands of a join leaves a nest that can be reordered.
  lemma SidesReordered(p: LogicalPlan, left: LogicalPlan, right: LogicalPlan)
    requires p.Join? && Reorderable(p) && SameParts(p.left, left) && SameParts(p.right, right)
    ensures var q := Join(p.condition, left, right);
      SameParts(p, q) && Distinct(Leaves(q)) && TreeConditions(Operands(q), JoinConditions(q))
  {
    hide TreeConditions, TreeGroups, Operands, Distinct, Groups, ScanAliases;
    var q := Join(p.condition, left, right);
    SameLeavesSameAliases(p.left, left);
    SameLeavesSameAliases(p.right, right);
    AliasesAppend(Leaves(p.left), Leaves(p.right));
    AliasesAppend(Leaves(left), Leaves(right));
    ConditionBags(p);
    ConditionBags(q);
    DistinctPermutes(Leaves(p), Leaves(q));
    GroupsOf(p);
    GroupsOf(q);
    TreeConditionsAreGroups(p);
    TreeConditionsAreGroups(q);
    TreeGroupsPermute(Groups(p), JoinConditions(p), JoinConditions(q));
  }

  // The same parts suffice for the same rows.
  lemma PartsGiveRows(p: LogicalPlan, q: LogicalPlan)
    requires !p.Above? && (Reorderable(p) ==> SameParts(p, q))
    ensures Reordered(p, q)
  {
    hide SameRows, Runs, BooleanJoins, Reorderable, SameParts;
    if Reorderable(p) {
      PartsGiveSameRows(p, q);
      forall w: World | WellFormed(w.db) && BooleanJoins(p, w.db) ensures Runs(p, w) && Runs(q, w) {
        ReorderedRuns(p, q, w);
      }
    }
  }

  lemma PartsGiveSameRows(p: LogicalPlan, q: LogicalPlan)
    requires Reorderable(p) && SameParts(p, q)
    ensures forall w: World :: WellFormed(w.db) ==> SameRows(p, q, w)
  {
    hide SameRows, TreeNests, Groups;
    ReorderedRows(p, q);
  }

  // Boolean conditions throw in no order of the joins.
  lemma ReorderedRuns(p: LogicalPlan, q: LogicalPlan, w: World)
    requires Reorderable(p) && SameParts(p, q) && WellFormed(w.db) && BooleanJoins(p, w.db)
    ensures Runs(p, w) && Runs(q, w)
  {
    hide TreeNests, Groups, Scoped, Runs, WellFormed, AlwaysBoolean, Conjuncts, Distinct, Binds, ScopeOf;
    var sc := ScopeOf(Leaves(p));
    SameBagSameConjuncts(Conditions(q), Conditions(p));
    SameElements(Leaves(q), Leaves(p));
    DistinctPermutes(Leaves(p), Leaves(q));
    ScopeBinds(Leaves(p), Leaves(p));
    ScopeBinds(Leaves(p), Leaves(q));
    BooleanTreesRun(p, sc, w);
    BooleanTreesRun(q, sc, w);
  }

  lemma SelectReordered(p: LogicalPlan, input: LogicalPlan)
    requires p.Select? && Reordered(p.input, input)
    ensures Reordered(p, Select(p.pred, input))
  {
    hide SameParts, Reorderable, SameRows;
    if Reorderable(p) {
      InputReorderable(p);
      SelectParts(p, input);
    }
    PartsGiveRows(p, Select(p.pred, input));
  }

  lemma InputReorderable(p: LogicalPlan)
    requires p.Select? && Reorderable(p)
    ensures Reorderable(p.input) && !p.input.Above? && Scoped(p)
  {
    hide TreeConditions, Distinct;
    assert BelowNests(p);
  }

  lemma SelectParts(p: LogicalPlan, input: LogicalPlan)
    requires p.Select? && Scoped(p) && SameParts(p.input, input)
    ensures SameParts(p, Select(p.pred, input))
  {
    hide Groups, Distinct;
    var q := Select(p.pred, input);
    SameLeavesSameAliases(p.input, input);
    OneGroup(p);
    OneGroup(q);
  }

  lemma OneGroup(p: LogicalPlan)
    requires !p.Join?
    ensures Groups(p) == {ScanAliases(p)} && JoinConditions(p) == []
  {
    assert Operands(p) == [p];
  }

  lemma JoinReordered(p: LogicalPlan, left: LogicalPlan, right: LogicalPlan, q: LogicalPlan)
    requires p.Join? && Reordered(p.left, left) && Reordered(p.right, right)
      && Nested(Join(p.condition, left, right), q)
    ensures Reordered(p, q)
  {
    hide SameRows, TreeConditions, Distinct, Groups, Leaves, Operands, Conditions, JoinConditions, TreeNests, Scoped;
    if Reorderable(p) {
      SidesReorderable(p);
      SidesReordered(p, left, right);
      SameOperandsSameNest(Join(p.condition, left, right), q);
    }
    PartsGiveRows(p, q);
  }

  // reorder_joins: whatever nests of joins a plan holds, the leaves survive;
  // where every nest is a tree of its operands, so do the conditions and rows.
  method ReorderJoins(p: LogicalPlan, catalog: Catalog) returns (q: LogicalPlan)
    ensures multiset(Leaves(q)) == multiset(Leaves(p)) && Reordered(p, q)
    decreases p
  {
    hide SameRows, SameParts, Nested, Reorderable, Reordered;
    match p
    case Scan(_, _) =>
      q := p;
      ScanReordered(p);
    case Select(pred, input) =>
      var below := ReorderJoins(input, catalog);
      q := Select(pred, below);
      SelectReordered(p, below);
    case Above(op, input) =>
      var below := ReorderJoins(input, catalog);
      q := Above(op, below);
      AboveReordered(p, below);
    case Join(condition, left, right) =>
      var left' := ReorderJoins(left, catalog);
      var right' := ReorderJoins(right, catalog);
      q := ReorderNest(Join(condition, left', right'), catalog);
      JoinReordered(p, left', right', q);
      JoinLeaves(p, left', right', q);
  }

  lemma ScanReordered(p: LogicalPlan)
    requires p.Scan?
    ensures Reordered(p, p)
  {
    hide SameRows, Reorderable;
    PartsGiveRows(p, p);
  }

  lemma AboveReordered(p: LogicalPlan, input: LogicalPlan)
    requires p.Above? && Reordered(p.input, input)
    ensures Reordered(p, Above(p.op, input))
  {
    hide SameRows, Reorderable, SameParts;
  }

  lemma JoinLeaves(p: LogicalPlan, left: LogicalPlan, right: LogicalPlan, q: LogicalPlan)
    requires p.Join? && Nested(Join(p.condition, left, right), q)
    requires multiset(Leaves(left)) == multiset(Leaves(p.left)) && multiset(Leaves(right)) == multiset(Leaves(p.right))
    ensures multiset(Leaves(q)) == multiset(Leaves(p))
  {
    hide Distinct, Scoped, Operands, Conditions;
  }
}
