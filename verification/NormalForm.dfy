// What a tree of scans, filters and inner joins means, independently of its
// shape.  An assignment gives one row per alias; a row of the tree is the
// concatenation of an assignment's rows in leaf order.  The number of times it
// is produced is the product of its rows' multiplicities, or nothing if some
// condition of the tree does not hold of it.
module NormalForm {
  import opened Wrappers
  import opened Ast
  import opened Values
  import opened Evaluation
  import opened Bags
  import opened Relational

  datatype Leaf = Leaf(table: string, alias: string)

  type Assignment = map<string, Row>

  type Scope = map<string, string>  // alias to table

  // A subtree the join rewrites look into.
  predicate JoinTree(p: LogicalPlan)
  {
    match p
    case Scan(_, _) => true
    case Select(_, input) => JoinTree(input)
    case Join(_, left, right) => JoinTree(left) && JoinTree(right)
    case Above(_, _) => false
  }

  function Leaves(p: LogicalPlan): seq<Leaf>
  {
    match p
    case Scan(table, alias) => [Leaf(table, Name(table, alias))]
    case Select(_, input) => Leaves(input)
    case Join(_, left, right) => Leaves(left) + Leaves(right)
    case Above(_, input) => Leaves(input)
  }

  // Filter predicates and join conditions, outermost first.
  function Conditions(p: LogicalPlan): seq<Expr>
  {
    match p
    case Scan(_, _) => []
    case Select(e, input) => [e] + Conditions(input)
    case Join(e, left, right) => [e] + Conditions(left) + Conditions(right)
    case Above(_, input) => Conditions(input)
  }

  ghost function Aliases(leaves: seq<Leaf>): set<string>
  {
    set i | 0 <= i < |leaves| :: leaves[i].alias
  }

  ghost predicate Distinct(leaves: seq<Leaf>)
  {
    forall i, j :: 0 <= i < j < |leaves| ==> leaves[i].alias != leaves[j].alias
  }

  // Every column is qualified by one of the given aliases.
  ghost predicate Qualified(e: Expr, aliases: set<string>)
  {
    forall q :: q in ColumnsOf(e) ==> q.0.Some? && q.0.value in aliases
  }

  lemma SplitQualified(e: Expr, aliases: set<string>)
    requires Qualified(e, aliases)
    ensures forall c :: c in SplitAnd(e) ==> Qualified(c, aliases)
  {
    SplitAndColumns(e);
  }

  // Every condition mentions only aliases below it.
  ghost predicate Scoped(p: LogicalPlan)
  {
    match p
    case Scan(_, _) => true
    case Select(e, input) => Scoped(input) && Qualified(e, Aliases(Leaves(input)))
    case Join(e, left, right) => Scoped(left) && Scoped(right) && Qualified(e, Aliases(Leaves(left) + Leaves(right)))
    case Above(_, input) => Scoped(input)
  }

  // The scope binds these leaves.
  ghost predicate Binds(sc: Scope, leaves: seq<Leaf>)
  {
    forall i :: 0 <= i < |leaves| ==> leaves[i].alias in sc && sc[leaves[i].alias] == leaves[i].table
  }

  // Each leaf is given a row of its table's width.
  ghost predicate Fits(leaves: seq<Leaf>, db: Database, t: Assignment)
  {
    forall i :: 0 <= i < |leaves| ==>
      leaves[i].alias in t && |t[leaves[i].alias]| == |TableOf(db, leaves[i].table).columns|
  }

  // Each leaf is given a stored row.
  ghost predicate Drawn(leaves: seq<Leaf>, db: Database, t: Assignment)
  {
    forall i :: 0 <= i < |leaves| ==> leaves[i].alias in t && t[leaves[i].alias] in TableOf(db, leaves[i].table).rows
  }

  ghost function At(t: Assignment, alias: string): Row
  {
    if alias in t then t[alias] else []
  }

  ghost function Flatten(leaves: seq<Leaf>, t: Assignment): Row
  {
    if leaves == [] then [] else At(t, leaves[0].alias) + Flatten(leaves[1..], t)
  }

  ghost function Width(leaves: seq<Leaf>, db: Database): nat
  {
    if leaves == [] then 0 else |TableOf(db, leaves[0].table).columns| + Width(leaves[1..], db)
  }

  // How many ways the stored rows can make up the assignment.
  ghost function Product(leaves: seq<Leaf>, db: Database, t: Assignment): nat
  {
    if leaves == [] then 1 else Stored(leaves[0], db, t) * Product(leaves[1..], db, t)
  }

  // How often the row given to a leaf is stored in its table.
  ghost function Stored(leaf: Leaf, db: Database, t: Assignment): nat
  {
    multiset(TableOf(db, leaf.table).rows)[At(t, leaf.alias)]
  }

  function PositionOf(columns: seq<string>, column: string): (i: Option<nat>)
    ensures i.Some? ==> i.value < |columns| && columns[i.value] == column
  {
    if columns == [] then None
    else if columns[0] == column then Some(0)
    else
      var i := PositionOf(columns[1..], column);
      if i.Some? then Some(i.value + 1) else None
  }

  // Column references answered by an assignment.
  ghost function ScopeLook(sc: Scope, db: Database, t: Assignment): Lookup
  {
    (q: Option<string>, c: string) =>
      if q.Some? && q.value in sc && q.value in t then
        var i := PositionOf(TableOf(db, sc[q.value]).columns, c);
        if i.Some? && i.value < |t[q.value]| then Some(t[q.value][i.value]) else None
      else None
  }

  ghost predicate AllHold(conditions: seq<Expr>, look: Lookup)
  {
    forall i :: 0 <= i < |conditions| ==> Holds(conditions[i], look)
  }

  lemma {:induction false} FlattenAppend(a: seq<Leaf>, b: seq<Leaf>, t: Assignment)
    ensures Flatten(a + b, t) == Flatten(a, t) + Flatten(b, t)
  {
    if a == [] {
      assert a + b == b;
    } else {
      assert (a + b)[1..] == a[1..] + b;
      FlattenAppend(a[1..], b, t);
    }
  }

  lemma {:induction false} ProductAppend(a: seq<Leaf>, b: seq<Leaf>, db: Database, t: Assignment)
    ensures Product(a + b, db, t) == Product(a, db, t) * Product(b, db, t)
  {
    hide Stored;
    if a == [] {
      assert a + b == b;
    } else {
      assert (a + b)[0] == a[0] && (a + b)[1..] == a[1..] + b;
      ProductAppend(a[1..], b, db, t);
      assert Product(a + b, db, t) == Stored(a[0], db, t) * Product(a[1..] + b, db, t);
      assert Product(a, db, t) == Stored(a[0], db, t) * Product(a[1..], db, t);
      TimesAssociate(Stored(a[0], db, t), Product(a[1..], db, t), Product(b, db, t));
    }
  }

  lemma TimesAssociate(x: nat, y: nat, z: nat)
    ensures x * (y * z) == (x * y) * z
  {
  }

  lemma {:induction false} FlattenWidth(leaves: seq<Leaf>, db: Database, t: Assignment)
    requires Fits(leaves, db, t)
    ensures |Flatten(leaves, t)| == Width(leaves, db)
  {
    if leaves != [] { FlattenWidth(leaves[1..], db, t); }
  }

  lemma {:induction false} WidthAppend(a: seq<Leaf>, b: seq<Leaf>, db: Database)
    ensures Width(a + b, db) == Width(a, db) + Width(b, db)
  {
    if a == [] {
      assert a + b == b;
    } else {
      assert (a + b)[1..] == a[1..] + b;
      WidthAppend(a[1..], b, db);
    }
  }

  // The schema of a join tree lists its leaves' columns in order.
  ghost function LeafSchema(leaves: seq<Leaf>, db: Database): Schema
  {
    if leaves == [] then []
    else Qualify(leaves[0].alias, TableOf(db, leaves[0].table).columns) + LeafSchema(leaves[1..], db)
  }

  lemma {:induction false} SchemaWidth(leaves: seq<Leaf>, db: Database)
    ensures |LeafSchema(leaves, db)| == Width(leaves, db)
  {
    if leaves != [] { SchemaWidth(leaves[1..], db); }
  }

  lemma {:induction false} LeafSchemaAppend(a: seq<Leaf>, b: seq<Leaf>, db: Database)
    ensures LeafSchema(a + b, db) == LeafSchema(a, db) + LeafSchema(b, db)
  {
    if a == [] {
      assert a + b == b;
    } else {
      assert (a + b)[1..] == a[1..] + b;
      LeafSchemaAppend(a[1..], b, db);
    }
  }

  lemma {:induction false} SchemaIsLeafSchema(p: LogicalPlan, w: World)
    requires JoinTree(p)
    ensures SchemaOf(p, w) == LeafSchema(Leaves(p), w.db)
  {
    match p
    case Scan(table, alias) =>
    case Select(_, input) => SchemaIsLeafSchema(input, w);
    case Join(_, left, right) =>
      SchemaIsLeafSchema(left, w);
      SchemaIsLeafSchema(right, w);
      LeafSchemaAppend(Leaves(left), Leaves(right), w.db);
  }

  lemma {:induction false} ResolveAppend(a: Schema, b: Schema, table: string, column: string)
    ensures ResolveQualified(a + b, table, column)
         == if ResolveQualified(a, table, column).Some? then ResolveQualified(a, table, column)
            else if ResolveQualified(b, table, column).Some? then Some(|a| + ResolveQualified(b, table, column).value)
            else None
  {
    if a == [] {
      assert a + b == b;
    } else {
      assert (a + b)[1..] == a[1..] + b;
      ResolveAppend(a[1..], b, table, column);
    }
  }

  lemma {:induction false} ResolveInLeaf(alias: string, columns: seq<string>, table: string, column: string)
    ensures ResolveQualified(Qualify(alias, columns), table, column)
         == if alias == table then PositionOf(columns, column) else None
  {
    if columns != [] {
      assert Qualify(alias, columns)[1..] == Qualify(alias, columns[1..]);
      ResolveInLeaf(alias, columns[1..], table, column);
    }
  }

  lemma {:induction false} ResolveElsewhere(leaves: seq<Leaf>, db: Database, table: string, column: string)
    requires table !in Aliases(leaves)
    ensures ResolveQualified(LeafSchema(leaves, db), table, column) == None
  {
    if leaves != [] {
      var columns := TableOf(db, leaves[0].table).columns;
      TailOf(leaves);
      ResolveInLeaf(leaves[0].alias, columns, table, column);
      ResolveElsewhere(leaves[1..], db, table, column);
      ResolveAppend(Qualify(leaves[0].alias, columns), LeafSchema(leaves[1..], db), table, column);
    }
  }

  lemma LookPastPrefix(a: Schema, b: Schema, x: Row, y: Row, alias: string, column: string)
    requires |a| == |x|
    ensures FlatLook(a + b, x + y)(Some(alias), column)
         == if ResolveQualified(a, alias, column).Some? then FlatLook(a, x)(Some(alias), column)
            else FlatLook(b, y)(Some(alias), column)
  {
    ResolveAppend(a, b, alias, column);
  }

  // On a flattened assignment, a qualified column is found where the
  // assignment itself has it.
  lemma {:induction false} LooksAgree(leaves: seq<Leaf>, sc: Scope, db: Database, t: Assignment, alias: string,
                                      column: string)
    requires Distinct(leaves) && Binds(sc, leaves) && Fits(leaves, db, t) && alias in Aliases(leaves)
    ensures FlatLook(LeafSchema(leaves, db), Flatten(leaves, t))(Some(alias), column)
      == ScopeLook(sc, db, t)(Some(alias), column)
  {
    hide ResolveQualified, PositionOf, Resolve, TableOf;
    var columns, rest := TableOf(db, leaves[0].table).columns, leaves[1..];
    TailOf(leaves);
    ResolveInLeaf(leaves[0].alias, columns, alias, column);
    LookPastPrefix(Qualify(leaves[0].alias, columns), LeafSchema(rest, db), At(t, leaves[0].alias), Flatten(rest, t),
                   alias, column);
    if leaves[0].alias == alias {
      ResolveElsewhere(rest, db, alias, column);
      LookInLeaf(alias, columns, At(t, alias), column);
      LookNowhere(LeafSchema(rest, db), Flatten(rest, t), alias, column);
    } else {
      LooksAgree(rest, sc, db, t, alias, column);
    }
  }

  lemma LookInLeaf(alias: string, columns: seq<string>, row: Row, column: string)
    ensures FlatLook(Qualify(alias, columns), row)(Some(alias), column)
         == if PositionOf(columns, column).Some? && PositionOf(columns, column).value < |row|
            then Some(row[PositionOf(columns, column).value]) else None
  {
    ResolveInLeaf(alias, columns, alias, column);
  }

  lemma LookNowhere(schema: Schema, row: Row, alias: string, column: string)
    requires ResolveQualified(schema, alias, column) == None
    ensures FlatLook(schema, row)(Some(alias), column) == None
  {
  }

  lemma TailOf(leaves: seq<Leaf>)
    requires leaves != []
    ensures Aliases(leaves) == {leaves[0].alias} + Aliases(leaves[1..])
    ensures Distinct(leaves) ==> Distinct(leaves[1..]) && leaves[0].alias !in Aliases(leaves[1..])
  {
    assert leaves == [leaves[0]] + leaves[1..];
    AliasesAppend([leaves[0]], leaves[1..]);
    assert [leaves[0]][0].alias in Aliases([leaves[0]]);
    assert forall i :: 0 <= i < |leaves[1..]| ==> leaves[1..][i] == leaves[i + 1];
  }

  lemma AliasesAppend(a: seq<Leaf>, b: seq<Leaf>)
    ensures Aliases(a + b) == Aliases(a) + Aliases(b)
  {
    forall x ensures x in Aliases(a + b) <==> x in Aliases(a) || x in Aliases(b) {
      if i :| 0 <= i < |a| && a[i].alias == x { assert (a + b)[i].alias == x; }
      if i :| 0 <= i < |b| && b[i].alias == x { assert (a + b)[|a| + i].alias == x; }
    }
  }

  lemma Halves(a: seq<Leaf>, b: seq<Leaf>, sc: Scope, db: Database, t: Assignment)
    requires Distinct(a + b) && Binds(sc, a + b) && Fits(a + b, db, t)
    ensures Distinct(a) && Binds(sc, a) && Fits(a, db, t)
    ensures Distinct(b) && Binds(sc, b) && Fits(b, db, t)
  {
    assert forall i :: 0 <= i < |a| ==> a[i] == (a + b)[i];
    assert forall i :: 0 <= i < |b| ==> b[i] == (a + b)[|a| + i];
  }

  // At any node, a qualified condition sees the flattened assignment exactly
  // as it sees the assignment.
  lemma ConditionOnAssignment(e: Expr, p: LogicalPlan, sc: Scope, w: World, t: Assignment)
    requires JoinTree(p) && Qualified(e, Aliases(Leaves(p)))
    requires Distinct(Leaves(p)) && Binds(sc, Leaves(p)) && Fits(Leaves(p), w.db, t)
    ensures Evaluate(e, FlatLook(SchemaOf(p, w), Flatten(Leaves(p), t))) == Evaluate(e, ScopeLook(sc, w.db, t))
  {
    SchemaIsLeafSchema(p, w);
    var f, g := FlatLook(SchemaOf(p, w), Flatten(Leaves(p), t)), ScopeLook(sc, w.db, t);
    forall q | q in ColumnsOf(e) ensures f(q.0, q.1) == g(q.0, q.1) {
      LooksAgree(Leaves(p), sc, w.db, t, q.0.value, q.1);
    }
    EvaluateFrame(e, f, g);
  }

  lemma {:induction false} RowWidths(p: LogicalPlan, w: World)
    requires JoinTree(p) && WellFormed(w.db)
    ensures forall r :: r in RowsOf(p, w) ==> |r| == Width(Leaves(p), w.db)
  {
    match p
    case Scan(table, alias) =>
      assert Leaves(p)[1..] == [] && Leaves(p)[0].table == table;
      assert Width(Leaves(p), w.db) == |TableOf(w.db, table).columns| + Width([], w.db);
    case Select(e, input) =>
      RowWidths(input, w);
      FilterMembers(Keeps(e, SchemaOf(input, w)), RowsOf(input, w));
    case Join(e, left, right) =>
      RowWidths(left, w);
      RowWidths(right, w);
      WidthAppend(Leaves(left), Leaves(right), w.db);
      JoinMembers(RowsOf(left, w), RowsOf(right, w), Keeps(e, SchemaOf(left, w) + SchemaOf(right, w)));
  }

  lemma AllHoldOne(e: Expr, look: Lookup)
    ensures AllHold([e], look) <==> Holds(e, look)
  {
    assert [e][0] == e;
  }

  // The multiplicity of an assignment in a join tree.
  ghost function Multiplicity(p: LogicalPlan, sc: Scope, w: World, t: Assignment): nat
    requires Fits(Leaves(p), w.db, t)
  {
    if AllHold(Conditions(p), ScopeLook(sc, w.db, t)) then Product(Leaves(p), w.db, t) else 0
  }

  lemma AllHoldAppend(a: seq<Expr>, b: seq<Expr>, look: Lookup)
    ensures AllHold(a + b, look) <==> AllHold(a, look) && AllHold(b, look)
  {
    if AllHold(a + b, look) {
      assert forall i :: 0 <= i < |a| ==> a[i] == (a + b)[i];
      assert forall i :: 0 <= i < |b| ==> b[i] == (a + b)[|a| + i];
    }
  }

  // The normal form: execution produces an assignment exactly as often as its
  // rows are stored, provided every condition of the tree holds of it.
  lemma {:induction false} TreeMeaning(p: LogicalPlan, sc: Scope, w: World, t: Assignment)
    requires JoinTree(p) && Scoped(p) && WellFormed(w.db)
    requires Distinct(Leaves(p)) && Binds(sc, Leaves(p)) && Fits(Leaves(p), w.db, t)
    ensures multiset(RowsOf(p, w))[Flatten(Leaves(p), t)] == Multiplicity(p, sc, w, t)
  {
    hide RowsOf, Multiplicity, Flatten, Distinct, Binds, Fits;
    match p
    case Scan(table, alias) => ScanMeaning(p, sc, w, t);
    case Select(e, input) =>
      TreeMeaning(input, sc, w, t);
      SelectMeaning(p, sc, w, t);
    case Join(e, left, right) =>
      Halves(Leaves(left), Leaves(right), sc, w.db, t);
      TreeMeaning(left, sc, w, t);
      TreeMeaning(right, sc, w, t);
      JoinMeaning(p, sc, w, t);
  }

  lemma ScanMeaning(p: LogicalPlan, sc: Scope, w: World, t: Assignment)
    requires p.Scan? && Fits(Leaves(p), w.db, t)
    ensures multiset(RowsOf(p, w))[Flatten(Leaves(p), t)] == Multiplicity(p, sc, w, t)
  {
    var leaves := Leaves(p);
    assert Conditions(p) == [] && AllHold([], ScopeLook(sc, w.db, t));
    assert leaves[1..] == [];
    hide ScopeLook, AllHold, Conditions;
    assert Flatten(leaves, t) == t[leaves[0].alias];
    assert Product(leaves, w.db, t) == Stored(leaves[0], w.db, t) * Product([], w.db, t);
  }

  lemma SelectMeaning(p: LogicalPlan, sc: Scope, w: World, t: Assignment)
    requires p.Select? && JoinTree(p) && Scoped(p)
    requires Distinct(Leaves(p)) && Binds(sc, Leaves(p)) && Fits(Leaves(p), w.db, t)
    requires multiset(RowsOf(p.input, w))[Flatten(Leaves(p), t)] == Multiplicity(p.input, sc, w, t)
    ensures multiset(RowsOf(p, w))[Flatten(Leaves(p), t)] == Multiplicity(p, sc, w, t)
  {
    ConditionOnAssignment(p.pred, p.input, sc, w, t);
    FilterCount(Keeps(p.pred, SchemaOf(p.input, w)), RowsOf(p.input, w), Flatten(Leaves(p), t));
    AllHoldAppend([p.pred], Conditions(p.input), ScopeLook(sc, w.db, t));
    AllHoldOne(p.pred, ScopeLook(sc, w.db, t));
  }

  lemma JoinMeaning(p: LogicalPlan, sc: Scope, w: World, t: Assignment)
    requires p.Join? && JoinTree(p) && Scoped(p) && WellFormed(w.db)
    requires Distinct(Leaves(p)) && Binds(sc, Leaves(p)) && Fits(Leaves(p), w.db, t)
    requires Fits(Leaves(p.left), w.db, t) && Fits(Leaves(p.right), w.db, t)
    requires multiset(RowsOf(p.left, w))[Flatten(Leaves(p.left), t)] == Multiplicity(p.left, sc, w, t)
    requires multiset(RowsOf(p.right, w))[Flatten(Leaves(p.right), t)] == Multiplicity(p.right, sc, w, t)
    ensures multiset(RowsOf(p, w))[Flatten(Leaves(p), t)] == Multiplicity(p, sc, w, t)
  {
    hide JoinRows, Holds, ScopeLook;
    var a, b := Leaves(p.left), Leaves(p.right);
    var x, look := Flatten(a + b, t), ScopeLook(sc, w.db, t);
    var keep := Keeps(p.condition, SchemaOf(p.left, w) + SchemaOf(p.right, w));
    FlattenAppend(a, b, t);
    FlattenWidth(a, w.db, t);
    RowWidths(p.left, w);
    JoinCount(RowsOf(p.left, w), RowsOf(p.right, w), keep, Width(a, w.db), x);
    assert x[..Width(a, w.db)] == Flatten(a, t) && x[Width(a, w.db)..] == Flatten(b, t);
    ProductAppend(a, b, w.db, t);
    ConditionsOfJoin(p, sc, w, t);
    NoProduct(AllHold(Conditions(p.left), look), AllHold(Conditions(p.right), look),
              Product(a, w.db, t), Product(b, w.db, t));
  }

  lemma ConditionsOfJoin(p: LogicalPlan, sc: Scope, w: World, t: Assignment)
    requires p.Join? && JoinTree(p) && Scoped(p)
    requires Distinct(Leaves(p)) && Binds(sc, Leaves(p)) && Fits(Leaves(p), w.db, t)
    ensures AllHold(Conditions(p), ScopeLook(sc, w.db, t))
      <==> (Keeps(p.condition, SchemaOf(p, w))(Flatten(Leaves(p), t))
            && AllHold(Conditions(p.left), ScopeLook(sc, w.db, t))
            && AllHold(Conditions(p.right), ScopeLook(sc, w.db, t)))
  {
    var look := ScopeLook(sc, w.db, t);
    ConditionOnAssignment(p.condition, p, sc, w, t);
    AllHoldAppend([p.condition] + Conditions(p.left), Conditions(p.right), look);
    AllHoldAppend([p.condition], Conditions(p.left), look);
    AllHoldOne(p.condition, look);
  }

  lemma NoProduct(a: bool, b: bool, x: nat, y: nat)
    ensures (if a then x else 0) * (if b then y else 0) == if a && b then x * y else 0
  {
  }

  // ---- Two trees with the same leaves and the same conditions ----

  // The product does not depend on the order of the leaves.
  lemma {:induction false} ProductPermutes(a: seq<Leaf>, b: seq<Leaf>, db: Database, t: Assignment)
    requires multiset(a) == multiset(b)
    ensures Product(a, db, t) == Product(b, db, t)
  {
    if a == [] {
      assert |multiset(b)| == 0;
    } else {
      var i := PermutationStep(a, b);
      ProductExtract(b, i, db, t);
      ProductPermutes(a[1..], b[..i] + b[i + 1..], db, t);
    }
  }

  lemma ProductExtract(b: seq<Leaf>, i: nat, db: Database, t: Assignment)
    requires i < |b|
    ensures Product(b, db, t) == Stored(b[i], db, t) * Product(b[..i] + b[i + 1..], db, t)
  {
    hide Stored;
    var front, back := b[..i], b[i + 1..];
    assert b == front + ([b[i]] + back);
    ProductAppend(front, [b[i]] + back, db, t);
    ProductAppend(front, back, db, t);
    assert ([b[i]] + back)[1..] == back;
    TimesSwap(Product(front, db, t), Stored(b[i], db, t), Product(back, db, t));
  }

  lemma TimesSwap(x: nat, y: nat, z: nat)
    ensures x * (y * z) == y * (x * z)
  {
    assert x * y == y * x;
    assert x * (y * z) == (x * y) * z;
    assert y * (x * z) == (y * x) * z;
  }

  // All conjuncts of a list of conditions.
  function Conjuncts(conditions: seq<Expr>): seq<Expr>
  {
    if conditions == [] then [] else SplitAnd(conditions[0]) + Conjuncts(conditions[1..])
  }

  lemma {:induction false} ConjunctsDecide(conditions: seq<Expr>, look: Lookup)
    ensures AllHold(conditions, look) <==> forall c :: c in Conjuncts(conditions) ==> Holds(c, look)
  {
    if conditions != [] {
      ConjunctsDecide(conditions[1..], look);
      HoldsSplit(conditions[0], look);
      assert conditions == [conditions[0]] + conditions[1..];
      AllHoldAppend([conditions[0]], conditions[1..], look);
      AllHoldOne(conditions[0], look);
    }
  }

  lemma {:induction false} ConjunctsAppend(a: seq<Expr>, b: seq<Expr>)
    ensures Conjuncts(a + b) == Conjuncts(a) + Conjuncts(b)
  {
    if a == [] {
      assert a + b == b;
    } else {
      assert (a + b)[1..] == a[1..] + b;
      ConjunctsAppend(a[1..], b);
    }
  }

  lemma ConjunctsOfJoin(p: LogicalPlan)
    requires p.Join?
    ensures Conjuncts(Conditions(p))
      == SplitAnd(p.condition) + Conjuncts(Conditions(p.left)) + Conjuncts(Conditions(p.right))
  {
    ConjunctsAppend([p.condition] + Conditions(p.left), Conditions(p.right));
    ConjunctsAppend([p.condition], Conditions(p.left));
    assert Conjuncts([p.condition]) == SplitAnd(p.condition) + [];
  }

  lemma ConjunctsOfSelect(p: LogicalPlan)
    requires p.Select?
    ensures Conjuncts(Conditions(p)) == SplitAnd(p.pred) + Conjuncts(Conditions(p.input))
  {
    assert ([p.pred] + Conditions(p.input))[1..] == Conditions(p.input);
  }

  // Two trees produce the same rows, up to the order of columns and rows.
  ghost predicate SameRows(p: LogicalPlan, q: LogicalPlan, w: World)
    requires multiset(Leaves(p)) == multiset(Leaves(q))
  {
    forall t :: Fits(Leaves(p), w.db, t) && Fits(Leaves(q), w.db, t) ==>
      multiset(RowsOf(p, w))[Flatten(Leaves(p), t)] == multiset(RowsOf(q, w))[Flatten(Leaves(q), t)]
  }

  ghost function ScopeOf(leaves: seq<Leaf>): Scope
  {
    map a | a in Aliases(leaves) :: TableFor(leaves, a)
  }

  ghost function TableFor(leaves: seq<Leaf>, alias: string): string
    requires alias in Aliases(leaves)
  {
    var i :| 0 <= i < |leaves| && leaves[i].alias == alias;
    leaves[i].table
  }

  lemma ScopeBinds(a: seq<Leaf>, b: seq<Leaf>)
    requires Distinct(a) && multiset(a) == multiset(b)
    ensures Binds(ScopeOf(a), a) && Binds(ScopeOf(a), b)
  {
    forall i | 0 <= i < |b| ensures b[i].alias in ScopeOf(a) && ScopeOf(a)[b[i].alias] == b[i].table {
      assert b[i] in multiset(b);
      assert b[i] in a;
      var j :| 0 <= j < |a| && a[j] == b[i];
    }
  }

  lemma {:induction false} DistinctPermutes(a: seq<Leaf>, b: seq<Leaf>)
    requires multiset(a) == multiset(b) && Distinct(a)
    ensures Distinct(b) && Aliases(a) == Aliases(b)
  {
    forall x ensures x in a <==> x in b {
      assert x in a <==> x in multiset(a);
      assert x in b <==> x in multiset(b);
    }
    SameAliases(a, b);
    SameAliases(b, a);
    if a == [] {
      assert |multiset(b)| == 0;
    } else {
      var i := PermutationStep(a, b);
      var rest := b[..i] + b[i + 1..];
      TailOf(a);
      DistinctPermutes(a[1..], rest);
      InsertDistinct(b, i);
    }
  }

  lemma SameAliases(a: seq<Leaf>, b: seq<Leaf>)
    requires forall x :: x in a ==> x in b
    ensures Aliases(a) <= Aliases(b)
  {
    forall s | s in Aliases(a) ensures s in Aliases(b) {
      var i :| 0 <= i < |a| && a[i].alias == s;
      assert a[i] in b;
    }
  }

  lemma InsertDistinct(b: seq<Leaf>, i: nat)
    requires i < |b| && Distinct(b[..i] + b[i + 1..]) && b[i].alias !in Aliases(b[..i] + b[i + 1..])
    ensures Distinct(b)
  {
    var rest := b[..i] + b[i + 1..];
    forall x, y | 0 <= x < y < |b| ensures b[x].alias != b[y].alias {
      if x != i { assert b[x] == rest[if x < i then x else x - 1]; }
      if y != i { assert b[y] == rest[if y < i then y else y - 1]; }
    }
  }

  // Same leaves, same conjuncts: same rows.  This is what every join rewrite
  // below relies on.
  lemma SameConjunctsSameRows(p: LogicalPlan, q: LogicalPlan, w: World)
    requires JoinTree(p) && Scoped(p) && JoinTree(q) && Scoped(q) && WellFormed(w.db)
    requires Distinct(Leaves(p)) && Distinct(Leaves(q)) && multiset(Leaves(p)) == multiset(Leaves(q))
    requires forall c :: c in Conjuncts(Conditions(p)) <==> c in Conjuncts(Conditions(q))
    ensures SameRows(p, q, w)
  {
    var sc := ScopeOf(Leaves(p));
    ScopeBinds(Leaves(p), Leaves(q));
    forall t | Fits(Leaves(p), w.db, t) && Fits(Leaves(q), w.db, t)
      ensures multiset(RowsOf(p, w))[Flatten(Leaves(p), t)] == multiset(RowsOf(q, w))[Flatten(Leaves(q), t)]
    {
      TreeMeaning(p, sc, w, t);
      TreeMeaning(q, sc, w, t);
      ConjunctsDecide(Conditions(p), ScopeLook(sc, w.db, t));
      ConjunctsDecide(Conditions(q), ScopeLook(sc, w.db, t));
      ProductPermutes(Leaves(p), Leaves(q), w.db, t);
    }
  }

  // ---- Throwing ----

  // Rows of a tree are flattened assignments of stored rows.
  lemma {:induction false} RowsAreDrawn(p: LogicalPlan, w: World, r: Row) returns (t: Assignment)
    requires JoinTree(p) && Distinct(Leaves(p)) && r in RowsOf(p, w)
    ensures Drawn(Leaves(p), w.db, t) && t.Keys == Aliases(Leaves(p)) && r == Flatten(Leaves(p), t)
  {
    match p
    case Scan(table, alias) =>
      var leaves := Leaves(p);
      t := map[leaves[0].alias := r];
      assert leaves[1..] == [] && Flatten(leaves, t) == r + Flatten([], t);
      assert leaves[0].alias in Aliases(leaves);
    case Select(e, input) =>
      FilterMembers(Keeps(e, SchemaOf(input, w)), RowsOf(input, w));
      t := RowsAreDrawn(input, w, r);
    case Join(e, left, right) =>
      DistinctHalves(Leaves(left), Leaves(right));
      JoinMembers(RowsOf(left, w), RowsOf(right, w), Keeps(e, SchemaOf(left, w) + SchemaOf(right, w)));
      var rl, rr :| rl in RowsOf(left, w) && rr in RowsOf(right, w) && r == rl + rr;
      var tl := RowsAreDrawn(left, w, rl);
      var tr := RowsAreDrawn(right, w, rr);
      t := tl + tr;
      Merged(Leaves(left), Leaves(right), w.db, tl, tr);
  }

  lemma DistinctHalves(a: seq<Leaf>, b: seq<Leaf>)
    requires Distinct(a + b)
    ensures Distinct(a) && Distinct(b) && Aliases(a) !! Aliases(b)
  {
    assert forall i :: 0 <= i < |a| ==> a[i] == (a + b)[i];
    assert forall i :: 0 <= i < |b| ==> b[i] == (a + b)[|a| + i];
  }

  // Assignments of disjoint leaves side by side.
  lemma Merged(a: seq<Leaf>, b: seq<Leaf>, db: Database, tl: Assignment, tr: Assignment)
    requires Distinct(a + b) && Drawn(a, db, tl) && Drawn(b, db, tr)
    requires tl.Keys == Aliases(a) && tr.Keys == Aliases(b)
    ensures Drawn(a + b, db, tl + tr) && (tl + tr).Keys == Aliases(a + b)
    ensures Flatten(a + b, tl + tr) == Flatten(a, tl) + Flatten(b, tr)
  {
    var t := tl + tr;
    DistinctHalves(a, b);
    AliasesAppend(a, b);
    forall i | 0 <= i < |a| ensures a[i].alias in tl && a[i].alias !in tr {
      assert a[i].alias in Aliases(a);
    }
    forall i | 0 <= i < |b| ensures b[i].alias in tr {
      assert b[i].alias in Aliases(b);
    }
    FlattenAgrees(a, tl, t);
    FlattenAgrees(b, tr, t);
    FlattenAppend(a, b, t);
  }

  lemma {:induction false} FlattenAgrees(leaves: seq<Leaf>, s: Assignment, t: Assignment)
    requires forall i :: 0 <= i < |leaves| ==> At(s, leaves[i].alias) == At(t, leaves[i].alias)
    ensures Flatten(leaves, s) == Flatten(leaves, t)
  {
    if leaves != [] { FlattenAgrees(leaves[1..], s, t); }
  }

  // e mentions aliases of the scope only, and each is given a stored row.
  ghost predicate DrawnFor(e: Expr, sc: Scope, db: Database, t: Assignment)
  {
    forall q :: q in ColumnsOf(e) ==>
      q.0.Some? && q.0.value in sc && q.0.value in t && t[q.0.value] in TableOf(db, sc[q.0.value]).rows
  }

  // e is a boolean whatever stored rows it looks at.
  ghost predicate AlwaysBoolean(e: Expr, sc: Scope, db: Database)
  {
    forall t :: DrawnFor(e, sc, db, t) ==> GivesBoolean(e, ScopeLook(sc, db, t))
  }

  lemma BooleanOnRow(e: Expr, p: LogicalPlan, sc: Scope, w: World, t: Assignment)
    requires JoinTree(p) && WellFormed(w.db) && Qualified(e, Aliases(Leaves(p)))
    requires Distinct(Leaves(p)) && Binds(sc, Leaves(p)) && Drawn(Leaves(p), w.db, t)
    requires forall c :: c in SplitAnd(e) ==> AlwaysBoolean(c, sc, w.db)
    ensures GivesBoolean(e, FlatLook(SchemaOf(p, w), Flatten(Leaves(p), t)))
  {
    ConditionOnAssignment(e, p, sc, w, t);
    SplitAndColumns(e);
    forall c | c in SplitAnd(e) ensures GivesBoolean(c, ScopeLook(sc, w.db, t)) {
      assert DrawnFor(c, sc, w.db, t);
    }
    BooleanSplit(e, ScopeLook(sc, w.db, t));
  }

  // A tree whose conjuncts are always boolean never throws.
  lemma {:induction false} BooleanTreesRun(p: LogicalPlan, sc: Scope, w: World)
    requires JoinTree(p) && Scoped(p) && WellFormed(w.db)
    requires Distinct(Leaves(p)) && Binds(sc, Leaves(p))
    requires forall i :: 0 <= i < |Leaves(p)| ==> Leaves(p)[i].table in w.db
    requires forall c :: c in Conjuncts(Conditions(p)) ==> AlwaysBoolean(c, sc, w.db)
    ensures Runs(p, w)
    decreases p, 1
  {
    match p
    case Scan(table, _) =>
      assert Leaves(p)[0].table == table;
    case Select(e, input) =>
      ConjunctsOfSelect(p);
      BooleanTreesRun(input, sc, w);
      forall r | r in RowsOf(input, w) ensures GivesBoolean(e, FlatLook(SchemaOf(input, w), r)) {
        var t := RowsAreDrawn(input, w, r);
        BooleanOnRow(e, input, sc, w, t);
      }
    case Join(e, left, right) => BooleanJoinRuns(p, sc, w);
  }

  lemma {:induction false} BooleanJoinRuns(p: LogicalPlan, sc: Scope, w: World)
    requires p.Join? && JoinTree(p) && Scoped(p) && WellFormed(w.db)
    requires Distinct(Leaves(p)) && Binds(sc, Leaves(p))
    requires forall i :: 0 <= i < |Leaves(p)| ==> Leaves(p)[i].table in w.db
    requires forall c :: c in Conjuncts(Conditions(p)) ==> AlwaysBoolean(c, sc, w.db)
    ensures Runs(p, w)
    decreases p, 0
  {
    var a, b := Leaves(p.left), Leaves(p.right);
    assert forall i :: 0 <= i < |a| ==> a[i] == (a + b)[i];
    assert forall i :: 0 <= i < |b| ==> b[i] == (a + b)[|a| + i];
    hide AlwaysBoolean, Conjuncts, RowsOf, SchemaOf, Flatten;
    ConjunctsOfJoin(p);
    BooleanTreesRun(p.left, sc, w);
    BooleanTreesRun(p.right, sc, w);
    forall l, r | l in RowsOf(p.left, w) && r in RowsOf(p.right, w)
      ensures GivesBoolean(p.condition, FlatLook(SchemaOf(p.left, w) + SchemaOf(p.right, w), l + r))
    {
      var tl := RowsAreDrawn(p.left, w, l);
      var tr := RowsAreDrawn(p.right, w, r);
      Merged(a, b, w.db, tl, tr);
      BooleanOnRow(p.condition, p, sc, w, tl + tr);
    }
  }
}
