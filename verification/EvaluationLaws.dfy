// What evaluation computes (execution/expr_eval.cpp, execution/value_ops.cpp),
// stated on numbers, strings and truth values.
module EvaluationLaws {
  import opened Wrappers
  import opened Ast
  import opened Values
  import opened Evaluation
  import opened Relational

  // ---- Comparison ----

  // The number a literal stands for.
  function NumberOf(v: Literal): Option<real>
  {
    match v
    case Integer(n) => Some(n as real)
    case Float(x) => Some(x)
    case _ => None
  }

  ghost predicate Compares(l: Expr, r: Expr, look: Lookup, less: bool, equal: bool, greater: bool)
  {
    && Evaluate(BinaryOp(l, Lt, r), look) == Some(Boolean(less))
    && Evaluate(BinaryOp(l, Eq, r), look) == Some(Boolean(equal))
    && Evaluate(BinaryOp(l, Gt, r), look) == Some(Boolean(greater))
    && Evaluate(BinaryOp(l, Lte, r), look) == Some(Boolean(less || equal))
    && Evaluate(BinaryOp(l, Neq, r), look) == Some(Boolean(!equal))
    && Evaluate(BinaryOp(l, Gte, r), look) == Some(Boolean(greater || equal))
  }

  // Numbers compare as numbers, across kinds.
  lemma NumbersCompare(l: Expr, r: Expr, look: Lookup, a: Literal, b: Literal)
    requires Evaluate(l, look) == Some(a) && Evaluate(r, look) == Some(b)
    requires NumberOf(a).Some? && NumberOf(b).Some?
    ensures var x, y := NumberOf(a).value, NumberOf(b).value; Compares(l, r, look, x < y, x == y, x > y)
  {
    ComparesOf(l, r, look, a, b);
  }

  lemma ComparesOf(l: Expr, r: Expr, look: Lookup, a: Literal, b: Literal)
    requires Evaluate(l, look) == Some(a) && Evaluate(r, look) == Some(b)
    ensures forall op :: Evaluate(BinaryOp(l, op, r), look) == Apply(op, a, b)
  {
  }

  // Some first difference decides, or one string is a proper prefix.
  ghost predicate Precedes(s: string, t: string)
  {
    exists i :: 0 <= i <= |s| && i < |t| && s[..i] == t[..i] && (i < |s| ==> s[i] < t[i])
  }

  lemma {:induction false} LexLessPrecedes(s: string, t: string)
    ensures LexLess(s, t) <==> Precedes(s, t)
  {
    if s == [] || t == [] {
      assert t != [] ==> s[..0] == t[..0];
    } else if s[0] == t[0] {
      LexLessPrecedes(s[1..], t[1..]);
      if Precedes(s[1..], t[1..]) {
        var i :| 0 <= i <= |s[1..]| && i < |t[1..]| && s[1..][..i] == t[1..][..i]
                 && (i < |s[1..]| ==> s[1..][i] < t[1..][i]);
        assert s[..i + 1] == [s[0]] + s[1..][..i] && t[..i + 1] == [t[0]] + t[1..][..i];
      }
      if Precedes(s, t) {
        var i :| 0 <= i <= |s| && i < |t| && s[..i] == t[..i] && (i < |s| ==> s[i] < t[i]);
        assert i > 0;
        assert s[1..][..i - 1] == s[..i][1..] && t[1..][..i - 1] == t[..i][1..];
      }
    } else {
      assert s[..0] == t[..0];
      if Precedes(s, t) {
        var i :| 0 <= i <= |s| && i < |t| && s[..i] == t[..i] && (i < |s| ==> s[i] < t[i]);
        SameHead(s, t, i);
      }
    }
  }

  lemma SameHead(s: string, t: string, i: nat)
    requires i <= |s| && i < |t| && s[..i] == t[..i] && s != []
    ensures i > 0 ==> s[0] == t[0]
  {
    if i > 0 {
      assert s[..i][0] == t[..i][0];
    }
  }

  // Strings compare lexicographically.
  lemma StringsCompare(l: Expr, r: Expr, look: Lookup, s: string, t: string)
    requires Evaluate(l, look) == Some(Str(s)) && Evaluate(r, look) == Some(Str(t))
    ensures Compares(l, r, look, Precedes(s, t), s == t, Precedes(t, s))
  {
    ComparesOf(l, r, look, Str(s), Str(t));
    LexLessPrecedes(s, t);
    LexLessPrecedes(t, s);
    LexLessTotal(s, t);
    LexLessTotal(t, s);
    hide Precedes;
  }

  predicate Comparable(a: Literal, b: Literal)
  {
    (NumberOf(a).Some? && NumberOf(b).Some?) || (a.Str? && b.Str?)
  }

  // Of two comparable values exactly one of <, = and > holds.
  lemma Trichotomy(l: Expr, r: Expr, look: Lookup, a: Literal, b: Literal)
    requires Evaluate(l, look) == Some(a) && Evaluate(r, look) == Some(b) && Comparable(a, b)
    ensures var less, equal, greater :=
        Holds(BinaryOp(l, Lt, r), look), Holds(BinaryOp(l, Eq, r), look), Holds(BinaryOp(l, Gt, r), look);
      (less || equal || greater) && !(less && equal) && !(less && greater) && !(equal && greater)
  {
    if a.Str? {
      hide Precedes;
      StringsCompare(l, r, look, a.str_val, b.str_val);
      LexLessPrecedes(a.str_val, b.str_val);
      LexLessPrecedes(b.str_val, a.str_val);
      LexLessTotal(a.str_val, b.str_val);
    } else {
      NumbersCompare(l, r, look, a, b);
    }
  }

  // NULL is neither less than, equal to nor greater than anything, so <=, <>
  // and >= hold of it.
  lemma NullCompares(l: Expr, r: Expr, look: Lookup, a: Literal, b: Literal)
    requires Evaluate(l, look) == Some(a) && Evaluate(r, look) == Some(b) && (a.Null? || b.Null?)
    ensures forall op :: op in {Lt, Eq, Gt} ==> Evaluate(BinaryOp(l, op, r), look) == Some(Boolean(false))
    ensures forall op :: op in {Lte, Neq, Gte} ==> Evaluate(BinaryOp(l, op, r), look) == Some(Boolean(true))
  {
    ComparesOf(l, r, look, a, b);
  }

  // Other pairs of kinds have no order; of those, booleans alone can be equal.
  lemma OthersCompare(l: Expr, r: Expr, look: Lookup, a: Literal, b: Literal)
    requires Evaluate(l, look) == Some(a) && Evaluate(r, look) == Some(b)
    requires !a.Null? && !b.Null? && !Comparable(a, b)
    ensures forall op :: op in {Lt, Gt, Lte, Gte} ==> Evaluate(BinaryOp(l, op, r), look) == None
    ensures Evaluate(BinaryOp(l, Eq, r), look) == Some(Boolean(a.Boolean? && a == b))
    ensures Evaluate(BinaryOp(l, Neq, r), look) == Some(Boolean(!(a.Boolean? && a == b)))
  {
    ComparesOf(l, r, look, a, b);
  }

  // ---- Truth values ----

  lemma TruthTables(l: Expr, r: Expr, look: Lookup, p: bool, q: bool)
    requires Evaluate(l, look) == Some(Boolean(p)) && Evaluate(r, look) == Some(Boolean(q))
    ensures Evaluate(BinaryOp(l, And, r), look) == Some(Boolean(p && q))
    ensures Evaluate(BinaryOp(l, Or, r), look) == Some(Boolean(p || q))
    ensures Evaluate(UnaryOp(Not, l), look) == Some(Boolean(!p))
  {
    ComparesOf(l, r, look, Boolean(p), Boolean(q));
  }

  // AND and OR give a boolean exactly when the left side is one and, where it
  // does not decide, the right side is one too.
  lemma ConnectivesThrow(l: Expr, r: Expr, look: Lookup, a: Literal, b: Literal)
    requires Evaluate(l, look) == Some(a) && Evaluate(r, look) == Some(b)
    ensures Evaluate(BinaryOp(l, And, r), look).Some? <==> a.Boolean? && (a.bool_val ==> b.Boolean?)
    ensures Evaluate(BinaryOp(l, Or, r), look).Some? <==> a.Boolean? && (!a.bool_val ==> b.Boolean?)
    ensures Evaluate(UnaryOp(Not, l), look).Some? <==> a.Boolean?
    ensures a == Boolean(false) ==> Evaluate(BinaryOp(l, And, r), look) == Some(Boolean(false))
    ensures a == Boolean(true) ==> Evaluate(BinaryOp(l, Or, r), look) == Some(Boolean(true))
  {
    ComparesOf(l, r, look, a, b);
  }

  // An operand that throws makes every operation throw.
  lemma OperandsThrow(l: Expr, op: BinaryOperator, r: Expr, look: Lookup)
    requires Evaluate(l, look).None? || Evaluate(r, look).None?
    ensures Evaluate(BinaryOp(l, op, r), look).None?
  {
  }

  // ---- Arithmetic ----

  // The result is x, an Integer exactly when both operands are.
  predicate Computes(v: Option<Literal>, a: Literal, b: Literal, x: real)
  {
    v.Some? && NumberOf(v.value) == Some(x) && (v.value.Integer? <==> a.Integer? && b.Integer?)
  }

  lemma ArithmeticComputes(l: Expr, r: Expr, look: Lookup, a: Literal, b: Literal)
    requires Evaluate(l, look) == Some(a) && Evaluate(r, look) == Some(b)
    requires NumberOf(a).Some? && NumberOf(b).Some?
    ensures var x, y := NumberOf(a).value, NumberOf(b).value;
      && Computes(Evaluate(BinaryOp(l, Add, r), look), a, b, x + y)
      && Computes(Evaluate(BinaryOp(l, Sub, r), look), a, b, x - y)
      && Computes(Evaluate(BinaryOp(l, Mul, r), look), a, b, Times(x, y))
      && (y != 0.0 ==> Evaluate(BinaryOp(l, Div, r), look) == Some(Float(x / y)))
  {
    ComparesOf(l, r, look, a, b);
    assert AsReal(a) == NumberOf(a).value && AsReal(b) == NumberOf(b).value;
    ProductComputes(a, b);
    hide Times;
  }

  lemma ProductComputes(a: Literal, b: Literal)
    requires NumberOf(a).Some? && NumberOf(b).Some?
    ensures Computes(Apply(Mul, a, b), a, b, Times(NumberOf(a).value, NumberOf(b).value))
  {
    hide Times;
    if a.Integer? && b.Integer? {
      ProductOfIntegers(a.int_val, b.int_val);
    } else {
      assert AsReal(a) == NumberOf(a).value && AsReal(b) == NumberOf(b).value;
    }
  }

  lemma ProductOfIntegers(m: int, n: int)
    ensures (m * n) as real == Times(m as real, n as real)
  {
  }

  lemma NotANumberThrows(l: Expr, op: BinaryOperator, r: Expr, look: Lookup, a: Literal, b: Literal)
    requires Evaluate(l, look) == Some(a) && Evaluate(r, look) == Some(b) && op in {Add, Sub, Mul, Div}
    requires NumberOf(a).None? || NumberOf(b).None?
    ensures Evaluate(BinaryOp(l, op, r), look).None?
    ensures NumberOf(a).None? ==> Evaluate(UnaryOp(Neg, l), look).None?
  {
    ComparesOf(l, r, look, a, b);
  }

  // What is subtracted and added again, or divided by and multiplied with
  // again, leaves the number; two signs leave the value.
  lemma ArithmeticUndone(l: Expr, r: Expr, look: Lookup, a: Literal, b: Literal)
    requires Evaluate(l, look) == Some(a) && Evaluate(r, look) == Some(b)
    requires NumberOf(a).Some? && NumberOf(b).Some?
    ensures Computes(Evaluate(BinaryOp(BinaryOp(l, Sub, r), Add, r), look), a, b, NumberOf(a).value)
    ensures NumberOf(b) != Some(0.0) ==>
      Evaluate(BinaryOp(BinaryOp(l, Div, r), Mul, r), look) == Some(Float(NumberOf(a).value))
    ensures Evaluate(UnaryOp(Neg, UnaryOp(Neg, l)), look) == Some(a)
    ensures Computes(Evaluate(UnaryOp(Neg, l), look), a, a, -NumberOf(a).value)
  {
    ArithmeticComputes(l, r, look, a, b);
    var difference := BinaryOp(l, Sub, r);
    ArithmeticComputes(difference, r, look, Evaluate(difference, look).value, b);
    if NumberOf(b) != Some(0.0) {
      Requotient(l, r, look, a, b);
    }
  }

  lemma Requotient(l: Expr, r: Expr, look: Lookup, a: Literal, b: Literal)
    requires Evaluate(l, look) == Some(a) && Evaluate(r, look) == Some(b)
    requires NumberOf(a).Some? && NumberOf(b).Some? && NumberOf(b).value != 0.0
    ensures Evaluate(BinaryOp(BinaryOp(l, Div, r), Mul, r), look) == Some(Float(NumberOf(a).value))
  {
    hide Times;
    var x, y, quotient := NumberOf(a).value, NumberOf(b).value, BinaryOp(l, Div, r);
    ArithmeticComputes(l, r, look, a, b);
    var q :| q == x / y;
    ComparesOf(quotient, r, look, Float(q), b);
    ProductComputes(Float(q), b);
    Divided(q, x, y);
  }

  lemma Divided(q: real, x: real, y: real)
    requires y != 0.0 && q == x / y
    ensures Times(q, y) == x
  {
  }

  // ---- Columns ----

  // An unqualified name is found exactly when one column alone bears it.
  lemma UnqualifiedFound(schema: Schema, column: string, i: nat)
    requires i < |schema|
    ensures Resolve(schema, None, column) == Some(i) <==>
      schema[i].column == column && forall j :: 0 <= j < |schema| && schema[j].column == column ==> j == i
  {
    var positions := set j | 0 <= j < |schema| && schema[j].column == column;
    if schema[i].column == column && forall j :: 0 <= j < |schema| && schema[j].column == column ==> j == i {
      assert positions == {i};
      assert FirstNamed(schema, column) == i;
    }
    if Resolve(schema, None, column) == Some(i) {
      assert |positions| == 1 && i in positions;
      OnlyElement(positions, i);
      forall j | 0 <= j < |schema| && schema[j].column == column ensures j == i {
        assert j in positions;
      }
    }
  }

  // A qualified one is found at the first column that bears both names.
  lemma {:induction false} QualifiedFound(schema: Schema, table: string, column: string, i: nat)
    requires i < |schema|
    ensures Resolve(schema, Some(table), column) == Some(i) <==>
      Bears(schema[i], table, column) && forall j :: 0 <= j < i ==> !Bears(schema[j], table, column)
  {
    var rest := schema[1..];
    assert forall j :: 1 <= j < |schema| ==> schema[j] == rest[j - 1];
    if i > 0 {
      QualifiedFound(rest, table, column, i - 1);
      assert forall j :: 0 <= j < |rest| ==> rest[j] == schema[j + 1];
    }
  }

  // A column without a qualifier answers to the empty one.
  predicate Bears(e: Entry, table: string, column: string)
  {
    e.column == column && (e.table == Some(table) || (e.table.None? && table == ""))
  }

  lemma OnlyElement(s: set<int>, x: int)
    requires |s| == 1 && x in s
    ensures s == {x}
  {
    assert |s - {x}| == 0;
  }
}
