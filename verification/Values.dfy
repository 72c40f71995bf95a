// The syntax of expressions (parser/ast.hpp) and the values they compute
// (execution/value_ops.cpp, execution/expr_eval.cpp).  Doubles are exact
// reals; an evaluation that throws is None.
module Ast {
  import opened Wrappers

  datatype BinaryOperator =
    | Eq | Neq | Lt | Gt | Lte | Gte
    | And | Or
    | Add | Sub | Mul | Div

  datatype UnaryOperator = Not | Neg

  datatype Literal =
    | Integer(int_val: int)
    | Float(float_val: real)
    | Str(str_val: string)
    | Boolean(bool_val: bool)
    | Null

  datatype Expr =
    | Column(table: Option<string>, column: string)
    | Lit(literal: Literal)
    | BinaryOp(left: Expr, binary_op: BinaryOperator, right: Expr)
    | UnaryOp(unary_op: UnaryOperator, operand: Expr)
    | Function(func_name: string, args: seq<Expr>)
    | Wildcard

  // The (qualifier, column) pairs occurring in an expression.
  ghost function ColumnsOf(e: Expr): set<(Option<string>, string)>
  {
    match e
    case Column(t, c) => {(t, c)}
    case BinaryOp(l, _, r) => ColumnsOf(l) + ColumnsOf(r)
    case UnaryOp(_, x) => ColumnsOf(x)
    case Function(_, args) => set i, q | 0 <= i < |args| && q in ColumnsOf(args[i]) :: q
    case _ => {}
  }

  // `a AND b AND c` as [a, b, c]: split_and and split_and_copy.
  function SplitAnd(e: Expr): (conjuncts: seq<Expr>)
    ensures conjuncts != []
  {
    if e.BinaryOp? && e.binary_op == And then SplitAnd(e.left) + SplitAnd(e.right) else [e]
  }

  lemma {:induction false} SplitAndColumns(e: Expr)
    ensures forall c :: c in SplitAnd(e) ==> ColumnsOf(c) <= ColumnsOf(e)
  {
    if e.BinaryOp? && e.binary_op == And {
      SplitAndColumns(e.left);
      SplitAndColumns(e.right);
    }
  }
}

module Values {
  import opened Wrappers
  import opened Ast
  import opened Decimal

  type Row = seq<Literal>

  predicate IsNumeric(v: Literal)
  {
    v.Integer? || v.Float?
  }

  function AsReal(v: Literal): real
    requires IsNumeric(v)
  {
    if v.Integer? then v.int_val as real else v.float_val
  }

  // literal_equal: NULL equals nothing, numbers compare across kinds.
  predicate LiteralEqual(a: Literal, b: Literal)
  {
    if a.Null? || b.Null? then false
    else if IsNumeric(a) && IsNumeric(b) then AsReal(a) == AsReal(b)
    else if a.Str? && b.Str? then a.str_val == b.str_val
    else if a.Boolean? && b.Boolean? then a.bool_val == b.bool_val
    else false
  }

  // std::string operator<.
  predicate LexLess(a: string, b: string)
  {
    if b == [] then false
    else if a == [] then true
    else if a[0] != b[0] then a[0] < b[0]
    else LexLess(a[1..], b[1..])
  }

  // literal_less; None when the kinds cannot be ordered.
  function LiteralLess(a: Literal, b: Literal): Option<bool>
  {
    if a.Null? || b.Null? then Some(false)
    else if IsNumeric(a) && IsNumeric(b) then Some(AsReal(a) < AsReal(b))
    else if a.Str? && b.Str? then Some(LexLess(a.str_val, b.str_val))
    else None
  }

  // std::to_string(double): six digits after the point.
  function FloatText(f: real): string
  {
    var magnitude := if f < 0.0 then -f else f;
    var scaled := (magnitude * 1000000.0 + 0.5).Floor;
    var digits := NatText(scaled % 1000000);
    (if f < 0.0 then "-" else "") + NatText(scaled / 1000000) + "." + Zeros(6 - |digits|) + digits
  }

  function Zeros(n: int): string
    decreases if n < 0 then 0 else n
  {
    if n <= 0 then "" else "0" + Zeros(n - 1)
  }

  // literal_to_string: the text by which joins hash and groups are keyed.
  function LiteralText(v: Literal): string
  {
    match v
    case Integer(i) => IntText(i)
    case Float(f) => FloatText(f)
    case Str(s) => s
    case Boolean(b) => if b then "true" else "false"
    case Null => "<null>"
  }

  // Where text and literal_equal agree, by kinds: always between two Integers,
  // two strings or two booleans, never between two NULLs; two Floats must
  // differ in their first six decimals if at all, a number must not equal one
  // of the other kind, and a string must not spell a value of another kind.
  predicate TextAgrees(a: Literal, b: Literal)
  {
    if a.Str? && b.Str? then true
    else if a.Str? then a.str_val != LiteralText(b)
    else if b.Str? then b.str_val != LiteralText(a)
    else if a.Null? && b.Null? then false
    else if a.Float? && b.Float? then a.float_val == b.float_val || FloatText(a.float_val) != FloatText(b.float_val)
    else if IsNumeric(a) && IsNumeric(b) && (a.Float? || b.Float?) then AsReal(a) != AsReal(b)
    else true
  }

  lemma NumberTexts(n: int, f: real)
    ensures '.' !in IntText(n) && '.' in FloatText(f)
    ensures IntText(n)[0] == '-' || IsDigit(IntText(n)[0])
    ensures FloatText(f) != [] && (FloatText(f)[0] == '-' || IsDigit(FloatText(f)[0]))
  {
    hide NatText, Zeros;
    var magnitude := if f < 0.0 then -f else f;
    var scaled := (magnitude * 1000000.0 + 0.5).Floor;
    var digits := NatText(scaled % 1000000);
    var whole, rest := (if f < 0.0 then "-" else "") + NatText(scaled / 1000000), Zeros(6 - |digits|) + digits;
    assert FloatText(f) == whole + "." + rest;
    assert FloatText(f)[|whole|] == '.';
    assert FloatText(f)[0] == whole[0];
  }

  // Text decides equality exactly there.
  lemma TextDecidesEquality(a: Literal, b: Literal)
    ensures (LiteralText(a) == LiteralText(b) <==> LiteralEqual(a, b)) <==> TextAgrees(a, b)
  {
    hide NatText, FloatText, IntText;
    if a.Integer? && b.Integer? && LiteralText(a) == LiteralText(b) {
      IntTextInjective(a.int_val, b.int_val);
    }
    NumberTexts(if a.Integer? then a.int_val else 0, if b.Float? then b.float_val else 0.0);
    NumberTexts(if b.Integer? then b.int_val else 0, if a.Float? then a.float_val else 0.0);
  }

  // Equal values always have equal text, except an Integer beside a Float.
  lemma EqualityDecidesText(a: Literal, b: Literal)
    requires LiteralEqual(a, b)
    requires a.Integer? <==> b.Integer?
    ensures LiteralText(a) == LiteralText(b)
  {
  }

  lemma EqualityIgnoresText()
    ensures LiteralEqual(Integer(1), Float(1.0)) && LiteralText(Integer(1)) != LiteralText(Float(1.0))
    ensures !LiteralEqual(Null, Null) && LiteralText(Null) == LiteralText(Null)
    ensures !LiteralEqual(Integer(1), Str("1")) && LiteralText(Integer(1)) == LiteralText(Str("1"))
  {
    assert |LiteralText(Integer(1))| == 1;
  }

  lemma {:induction false} LexLessTotal(a: string, b: string)
    ensures LexLess(a, b) ==> !LexLess(b, a)
    ensures a == b || LexLess(a, b) || LexLess(b, a)
  {
    if a != [] && b != [] {
      LexLessTotal(a[1..], b[1..]);
      assert a == [a[0]] + a[1..] && b == [b[0]] + b[1..];
    }
  }

  lemma {:induction false} LexLessTransitive(a: string, b: string, c: string)
    requires LexLess(a, b) && LexLess(b, c)
    ensures LexLess(a, c)
  {
    if a != [] && b[0] == a[0] && c[0] == b[0] {
      LexLessTransitive(a[1..], b[1..], c[1..]);
    }
  }
}

// execution/expr_eval.cpp.  Column references are answered by a lookup, so
// the same definition serves flat rows and per-alias assignments.
module Evaluation {
  import opened Wrappers
  import opened Ast
  import opened Values

  type Lookup = (Option<string>, string) -> Option<Literal>

  // Products by name, so that equal factors give equal products.
  function Times(x: real, y: real): real
  {
    x * y
  }

  function Arithmetic(op: BinaryOperator, a: Literal, b: Literal): Option<Literal>
    requires op in {Add, Sub, Mul, Div}
  {
    if !IsNumeric(a) || !IsNumeric(b) then None
    else if op == Div then (if AsReal(b) == 0.0 then None else Some(Float(AsReal(a) / AsReal(b))))
    else if a.Integer? && b.Integer? then
      Some(Integer(if op == Add then a.int_val + b.int_val
                   else if op == Sub then a.int_val - b.int_val
                   else a.int_val * b.int_val))
    else
      Some(Float(if op == Add then AsReal(a) + AsReal(b)
                 else if op == Sub then AsReal(a) - AsReal(b)
                 else Times(AsReal(a), AsReal(b))))
  }

  function Negated(b: Option<bool>): Option<Literal>
  {
    if b.Some? then Some(Boolean(!b.value)) else None
  }

  function Asserted(b: Option<bool>): Option<Literal>
  {
    if b.Some? then Some(Boolean(b.value)) else None
  }

  function Apply(op: BinaryOperator, a: Literal, b: Literal): Option<Literal>
  {
    match op
    case Eq => Some(Boolean(LiteralEqual(a, b)))
    case Neq => Some(Boolean(!LiteralEqual(a, b)))
    case Lt => Asserted(LiteralLess(a, b))
    case Gt => Asserted(LiteralLess(b, a))
    case Lte => Negated(LiteralLess(b, a))
    case Gte => Negated(LiteralLess(a, b))
    case And =>
      // the right operand's kind is inspected only when the left one is true
      if !a.Boolean? then None
      else if !a.bool_val then Some(Boolean(false))
      else if b.Boolean? then Some(Boolean(b.bool_val)) else None
    case Or =>
      if !a.Boolean? then None
      else if a.bool_val then Some(Boolean(true))
      else if b.Boolean? then Some(Boolean(b.bool_val)) else None
    case _ => Arithmetic(op, a, b)
  }

  function Evaluate(e: Expr, look: Lookup): Option<Literal>
  {
    match e
    case Lit(v) => Some(v)
    case Column(t, c) => look(t, c)
    case UnaryOp(op, x) =>
      var v := Evaluate(x, look);
      if v.None? then None
      else if op == Not then (if v.value.Boolean? then Some(Boolean(!v.value.bool_val)) else None)
      else if v.value.Integer? then Some(Integer(-v.value.int_val))
      else if v.value.Float? then Some(Float(-v.value.float_val))
      else None
    case BinaryOp(l, op, r) =>
      var a := Evaluate(l, look);
      var b := Evaluate(r, look);
      if a.None? || b.None? then None else Apply(op, a.value, b.value)
    case Function(_, _) => None  // no aggregate is registered below a HashAggregate
    case Wildcard => None
  }

  predicate Holds(e: Expr, look: Lookup)
  {
    Evaluate(e, look) == Some(Boolean(true))
  }

  predicate GivesBoolean(e: Expr, look: Lookup)
  {
    var v := Evaluate(e, look);
    v.Some? && v.value.Boolean?
  }

  // Evaluation reads nothing but the columns an expression mentions.
  lemma {:induction false} EvaluateFrame(e: Expr, f: Lookup, g: Lookup)
    requires forall q :: q in ColumnsOf(e) ==> f(q.0, q.1) == g(q.0, q.1)
    ensures Evaluate(e, f) == Evaluate(e, g)
  {
    match e
    case UnaryOp(_, x) => EvaluateFrame(x, f, g);
    case BinaryOp(l, _, r) =>
      EvaluateFrame(l, f, g);
      EvaluateFrame(r, f, g);
    case Column(t, c) =>
      assert (t, c) in ColumnsOf(e);
    case _ =>
  }

  // A conjunction holds exactly when all its conjuncts do, whatever throws.
  lemma {:induction false} HoldsSplit(e: Expr, look: Lookup)
    ensures Holds(e, look) <==> forall c :: c in SplitAnd(e) ==> Holds(c, look)
  {
    if e.BinaryOp? && e.binary_op == And {
      HoldsSplit(e.left, look);
      HoldsSplit(e.right, look);
    }
  }

  // If every conjunct gives a boolean then so does the conjunction.
  lemma {:induction false} BooleanSplit(e: Expr, look: Lookup)
    requires forall c :: c in SplitAnd(e) ==> GivesBoolean(c, look)
    ensures GivesBoolean(e, look)
  {
    if e.BinaryOp? && e.binary_op == And {
      BooleanSplit(e.left, look);
      BooleanSplit(e.right, look);
    }
  }
}
