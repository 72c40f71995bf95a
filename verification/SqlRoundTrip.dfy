// Printing a statement as tokens and parsing it again
// (parser/sql_printer.cpp against parser/parser.cpp).
module SqlPrinted {
  import opened Wrappers
  import opened Ast
  import opened SqlTokens
  import opened SqlStatements
  import opened SqlGrammar

  function OperatorToken(op: BinaryOperator): Token
  {
    match op
    case Eq => OpEq
    case Neq => OpNeq
    case Lt => OpLt
    case Gt => OpGt
    case Lte => OpLte
    case Gte => OpGte
    case And => KwAnd
    case Or => KwOr
    case Add => Plus
    case Sub => Minus
    case Mul => Star
    case Div => Slash
  }

  // The tokens of print_expr's text: operations in parentheses, NOT without.
  function ExprTokens(e: Expr): Tokens
  {
    match e
    case Column(table, column) =>
      (if table.Some? then [Identifier(table.value), Dot] else [])
        + [if table.Some? && column == "*" then Star else Identifier(column)]
    case Lit(v) => LiteralTokens(v)
    case BinaryOp(l, op, r) => [LParen] + ExprTokens(l) + [OperatorToken(op)] + ExprTokens(r) + [RParen]
    case UnaryOp(op, x) => [if op == Not then KwNot else Minus] + ExprTokens(x)
    case Function(name, args) => [Identifier(name), LParen] + ListTokens(args) + [RParen]
    case Wildcard => [Star]
  }

  function LiteralTokens(v: Literal): Tokens
  {
    match v
    case Integer(n) => if n < 0 then [Minus, IntegerLit(-n)] else [IntegerLit(n)]
    case Float(f) => [FloatLit(f)]
    case Str(s) => [StringLit(s)]
    case Boolean(b) => [if b then KwTrue else KwFalse]
    case Null => [KwNull]
  }

  function ListTokens(es: seq<Expr>): Tokens
  {
    if es == [] then []
    else if |es| == 1 then ExprTokens(es[0])
    else ExprTokens(es[0]) + [Comma] + ListTokens(es[1..])
  }

  // ---- Which expressions print to something that parses back ----

  predicate Logical(op: BinaryOperator)
  {
    op == And || op == Or
  }

  // What the parser builds: no negative literal, a wildcard only as a call's
  // one argument.
  predicate Shaped(e: Expr)
  {
    match e
    case Column(_, _) => true
    case Lit(v) => v.Integer? ==> v.int_val >= 0
    case BinaryOp(l, op, r) => Shaped(l) && Shaped(r)
    case UnaryOp(op, x) => Shaped(x)
    case Function(_, args) => args == [Wildcard] || AllShaped(args)
    case Wildcard => false
  }

  predicate AllShaped(es: seq<Expr>)
  {
    forall i :: 0 <= i < |es| ==> Shaped(es[i])
  }

  predicate NotRooted(e: Expr)
  {
    e.UnaryOp? && e.unary_op == Not
  }

  // NOT only at the top, under AND, OR or NOT, or as an argument.
  predicate Loose(e: Expr)
    decreases e, 1
  {
    if NotRooted(e) then Loose(e.operand) else Tight(e)
  }

  predicate Tight(e: Expr)
    decreases e, 0
  {
    match e
    case Column(_, _) => true
    case Lit(v) => true
    case BinaryOp(l, op, r) => if Logical(op) then Loose(l) && Loose(r) else Tight(l) && Tight(r)
    case UnaryOp(op, x) => op == Neg && Tight(x)
    case Function(_, args) => AllLoose(args)
    case Wildcard => true
  }

  predicate AllLoose(es: seq<Expr>)
  {
    forall i :: 0 <= i < |es| ==> Loose(es[i])
  }

  // ---- Coming back ----

  // p took exactly what was printed, and gave x back just when good.
  ghost predicate Back<T>(p: Parsed<T>, x: T, rest: Tokens, good: bool)
  {
    if p.Ok? then p.value.1 == rest && (p.value.0 == x <==> good) else !good
  }

  // And nothing else becomes a column.
  ghost predicate ExprBack(p: Parsed<Expr>, e: Expr, rest: Tokens, good: bool)
  {
    Back(p, e, rest, good) && (p.Ok? && p.value.0.Column? ==> good)
  }

  // The same for a list read after `done`.
  ghost predicate ListBack<T>(p: Parsed<seq<T>>, done: seq<T>, xs: seq<T>, rest: Tokens, good: bool)
  {
    if p.Ok? then
      p.value.1 == rest && |p.value.0| == |done| + |xs| && p.value.0[..|done|] == done
        && (p.value.0[|done|..] == xs <==> good)
    else !good
  }

  lemma ListBackOne<T>(p: Parsed<T>, all: Parsed<seq<T>>, done: seq<T>, xs: seq<T>, rest: Tokens, good: bool)
    requires |xs| == 1 && Back(p, xs[0], rest, good)
    requires if p.Ok? then all == Ok((done + [p.value.0], rest)) else all.Err?
    ensures ListBack(all, done, xs, rest, good)
  {
    if p.Ok? {
      assert all.value.0[|done|..] == [p.value.0];
    }
  }

  lemma ListBackMore<T>(p: Parsed<T>, all: Parsed<seq<T>>, done: seq<T>, xs: seq<T>, after: Tokens, rest: Tokens,
                        good: bool, more: bool)
    requires xs != [] && Back(p, xs[0], after, good)
    requires if p.Ok? then ListBack(all, done + [p.value.0], xs[1..], rest, more) else all.Err?
    ensures ListBack(all, done, xs, rest, good && more)
  {
    if p.Ok? && all.Ok? {
      var got, n := all.value.0, |done|;
      assert got[..n] == got[..n + 1][..n];
      assert got[n..] == [got[n]] + got[n + 1..] && got[n] == got[..n + 1][n];
      assert xs == [xs[0]] + xs[1..];
      assert got[n..] == xs <==> got[n..][0] == xs[0] && got[n..][1..] == xs[1..];
    }
  }

  lemma ListBackWhole<T>(p: Parsed<seq<T>>, xs: seq<T>, rest: Tokens, good: bool)
    requires ListBack(p, [], xs, rest, good)
    ensures Back(p, xs, rest, good)
  {
    if p.Ok? {
      assert p.value.0[0..] == p.value.0;
    }
  }

  // ---- What ends an expression at each level ----

  predicate EndsUnary(t: Token) { t != LParen && t != Dot }
  predicate EndsProduct(t: Token) { EndsUnary(t) && MultiplicativeOf(t).None? }
  predicate EndsSum(t: Token) { EndsProduct(t) && AdditiveOf(t).None? }
  predicate EndsComparison(t: Token) { EndsSum(t) && ComparisonOf(t).None? }
  predicate EndsAnd(t: Token) { EndsComparison(t) && t != KwAnd }
  predicate EndsOr(t: Token) { EndsAnd(t) && t != KwOr }

  lemma Head(e: Expr)
    requires Shaped(e)
    ensures ExprTokens(e) != [] && First(ExprTokens(e)) !in {RParen, Star}
    ensures First(ExprTokens(e)) == KwNot <==> NotRooted(e)
  {
    if e.Column? && e.table.Some? {
      assert ExprTokens(e)[0] == Identifier(e.table.value);
    }
  }

  lemma Joined(a: Tokens, b: Tokens)
    requires a != []
    ensures First(a + b) == First(a) && Rest(a + b) == Rest(a) + b
  {
  }

  lemma Cons(t: Token, rest: Tokens)
    ensures First([t] + rest) == t && Rest([t] + rest) == rest
  {
  }

  // ---- From one level to the next: what ends there is passed on ----

  lemma ProductOfUnary(ts: Tokens)
    requires ParseUnary(ts).Ok? ==> EndsProduct(First(ParseUnary(ts).value.1))
    ensures ParseMultiplicative(ts) == ParseUnary(ts)
  {
    hide ParseUnary;
  }

  lemma SumOfProduct(ts: Tokens)
    requires ParseMultiplicative(ts).Ok? ==> EndsSum(First(ParseMultiplicative(ts).value.1))
    ensures ParseAdditive(ts) == ParseMultiplicative(ts)
  {
    hide ParseMultiplicative;
  }

  lemma ComparisonOfSum(ts: Tokens)
    requires ParseAdditive(ts).Ok? ==> EndsComparison(First(ParseAdditive(ts).value.1))
    ensures ParseComparison(ts) == ParseAdditive(ts)
  {
    hide ParseAdditive;
  }

  lemma NotOfComparison(ts: Tokens)
    requires First(ts) != KwNot
    ensures ParseNot(ts) == ParseComparison(ts)
  {
    hide ParseComparison;
  }

  lemma AndOfNot(ts: Tokens)
    requires ParseNot(ts).Ok? ==> EndsAnd(First(ParseNot(ts).value.1))
    ensures ParseAnd(ts) == ParseNot(ts)
  {
    hide ParseNot;
  }

  lemma OrOfAnd(ts: Tokens)
    requires ParseAnd(ts).Ok? ==> EndsOr(First(ParseAnd(ts).value.1))
    ensures ParseOr(ts) == ParseAnd(ts)
  {
    hide ParseAnd;
  }

  lemma NotOfUnary(ts: Tokens)
    requires First(ts) != KwNot && (ParseUnary(ts).Ok? ==> EndsComparison(First(ParseUnary(ts).value.1)))
    ensures ParseNot(ts) == ParseUnary(ts)
  {
    hide ParseUnary, ParseMultiplicative, ParseAdditive, ParseComparison, ParseNot, First;
    ProductOfUnary(ts);
    SumOfProduct(ts);
    ComparisonOfSum(ts);
    NotOfComparison(ts);
  }

  lemma OrOfNot(ts: Tokens)
    requires ParseNot(ts).Ok? ==> EndsOr(First(ParseNot(ts).value.1))
    ensures ParseOr(ts) == ParseNot(ts)
  {
    hide ParseNot, ParseAnd, ParseOr, First;
    AndOfNot(ts);
    OrOfAnd(ts);
  }

  // A NOT or a minus in front.
  lemma NotInFront(ts: Tokens)
    ensures ParseNot([KwNot] + ts) == var x := ParseNot(ts); if x.Err? then x
      else Ok((UnaryOp(Not, x.value.0), x.value.1))
  {
    hide First, Rest;
    Cons(KwNot, ts);
  }

  lemma MinusInFront(ts: Tokens)
    ensures ParseUnary([Minus] + ts) == var x := ParseUnary(ts); if x.Err? then x
      else Ok((UnaryOp(Neg, x.value.0), x.value.1))
  {
    hide First, Rest;
    Cons(Minus, ts);
  }

  lemma NotIsNoUnary(ts: Tokens)
    requires First(ts) == KwNot
    ensures ParseUnary(ts).Err?
  {
    assert ParsePrimary(ts).Err?;
  }

  // ---- Inside parentheses: the left operand, then the operator and the right ----

  function Combined(l: Parsed<Expr>, op: BinaryOperator, r: Parsed<Expr>): Parsed<Expr>
  {
    if l.Err? then l else if r.Err? then r else Ok((BinaryOp(l.value.0, op, r.value.0), r.value.1))
  }

  lemma OrPrinted(ts: Tokens, after: Tokens)
    requires First(after) == KwOr && (ParseNot(ts).Ok? ==> ParseNot(ts).value.1 == after)
    requires var r := ParseNot(Rest(after)); r.Ok? ==> EndsOr(First(r.value.1))
    ensures ParseOr(ts) == Combined(ParseNot(ts), Or, ParseNot(Rest(after)))
  {
    hide ParseNot, ParseAnd;
    AndOfNot(ts);
    AndOfNot(Rest(after));
    var l, r := ParseNot(ts), ParseNot(Rest(after));
    if l.Ok? && r.Ok? {
      assert OrTail(l.value.0, after) == OrTail(BinaryOp(l.value.0, Or, r.value.0), r.value.1);
    }
  }

  lemma AndPrinted(ts: Tokens, after: Tokens)
    requires First(after) == KwAnd && (ParseNot(ts).Ok? ==> ParseNot(ts).value.1 == after)
    requires var r := ParseNot(Rest(after)); r.Ok? ==> EndsOr(First(r.value.1))
    ensures ParseOr(ts) == Combined(ParseNot(ts), And, ParseNot(Rest(after)))
  {
    hide ParseNot, ParseOr;
    var l, r := ParseNot(ts), ParseNot(Rest(after));
    if l.Ok? && r.Ok? {
      assert AndTail(l.value.0, after) == AndTail(BinaryOp(l.value.0, And, r.value.0), r.value.1);
    }
    assert ParseAnd(ts) == Combined(l, And, r);
    hide ParseAnd;
    OrOfAnd(ts);
  }

  lemma LogicalBinary(ts: Tokens, op: BinaryOperator, after: Tokens)
    requires Logical(op) && First(after) == OperatorToken(op) && (ParseNot(ts).Ok? ==> ParseNot(ts).value.1 == after)
    requires var r := ParseNot(Rest(after)); r.Ok? ==> First(r.value.1) == RParen
    ensures ParseOr(ts) == Combined(ParseNot(ts), op, ParseNot(Rest(after)))
  {
    hide ParseNot, ParseOr, First, Rest;
    if op == Or {
      OrPrinted(ts, after);
    } else {
      AndPrinted(ts, after);
    }
  }

  lemma ComparisonPrinted(ts: Tokens, op: BinaryOperator, after: Tokens)
    requires ComparisonOf(First(after)) == Some(op) && (ParseAdditive(ts).Ok? ==> ParseAdditive(ts).value.1 == after)
    ensures ParseComparison(ts) == Combined(ParseAdditive(ts), op, ParseAdditive(Rest(after)))
  {
    hide ParseAdditive, ComparisonOf;
  }

  lemma AdditivePrinted(ts: Tokens, op: BinaryOperator, after: Tokens)
    requires AdditiveOf(First(after)) == Some(op)
      && (ParseMultiplicative(ts).Ok? ==> ParseMultiplicative(ts).value.1 == after)
    requires var r := ParseMultiplicative(Rest(after)); r.Ok? ==> EndsComparison(First(r.value.1))
    ensures ParseComparison(ts) == Combined(ParseMultiplicative(ts), op, ParseMultiplicative(Rest(after)))
  {
    hide ParseMultiplicative, ParseComparison;
    var l, r := ParseMultiplicative(ts), ParseMultiplicative(Rest(after));
    if l.Ok? && r.Ok? {
      assert AdditiveTail(l.value.0, after) == AdditiveTail(BinaryOp(l.value.0, op, r.value.0), r.value.1);
    }
    assert ParseAdditive(ts) == Combined(l, op, r);
    hide ParseAdditive;
    ComparisonOfSum(ts);
  }

  lemma MultiplicativePrinted(ts: Tokens, op: BinaryOperator, after: Tokens)
    requires MultiplicativeOf(First(after)) == Some(op) && (ParseUnary(ts).Ok? ==> ParseUnary(ts).value.1 == after)
    requires var r := ParseUnary(Rest(after)); r.Ok? ==> EndsComparison(First(r.value.1))
    ensures ParseComparison(ts) == Combined(ParseUnary(ts), op, ParseUnary(Rest(after)))
  {
    hide ParseUnary, ParseComparison, ParseAdditive;
    var l, r := ParseUnary(ts), ParseUnary(Rest(after));
    if l.Ok? && r.Ok? {
      assert MultiplicativeTail(l.value.0, after) == MultiplicativeTail(BinaryOp(l.value.0, op, r.value.0), r.value.1);
    }
    assert ParseMultiplicative(ts) == Combined(l, op, r);
    hide ParseMultiplicative;
    SumOfProduct(ts);
    ComparisonOfSum(ts);
  }

  lemma TightBinary(ts: Tokens, op: BinaryOperator, after: Tokens)
    requires !Logical(op) && First(after) == OperatorToken(op)
      && (ParseUnary(ts).Ok? ==> ParseUnary(ts).value.1 == after)
    requires var r := ParseUnary(Rest(after)); r.Ok? ==> First(r.value.1) == RParen
    ensures ParseComparison(ts) == Combined(ParseUnary(ts), op, ParseUnary(Rest(after)))
  {
    hide ParseUnary, ParseMultiplicative, ParseAdditive, ParseComparison, OperatorToken, MultiplicativeOf, AdditiveOf,
         ComparisonOf, EndsSum, EndsProduct, EndsComparison, First, Rest;
    ArithmeticEnds(op);
    RParenEnds();
    if op == Mul || op == Div {
      MultiplicativePrinted(ts, op, after);
    } else if op == Add || op == Sub {
      ProductOfUnary(ts);
      ProductOfUnary(Rest(after));
      AdditivePrinted(ts, op, after);
    } else {
      ComparisonEnds(op);
      ProductOfUnary(ts);
      SumOfProduct(ts);
      ProductOfUnary(Rest(after));
      SumOfProduct(Rest(after));
      ComparisonPrinted(ts, op, after);
    }
  }

  lemma RParenEnds()
    ensures EndsUnary(RParen) && EndsProduct(RParen) && EndsSum(RParen) && EndsComparison(RParen) && EndsOr(RParen)
  {
  }

  lemma CommaEnds()
    ensures EndsOr(Comma)
  {
  }

  // What an operator ends, to the left of it.
  lemma OperatorEndsUnary(op: BinaryOperator)
    ensures EndsUnary(OperatorToken(op)) && (Logical(op) ==> EndsComparison(OperatorToken(op)))
  {
  }

  lemma ArithmeticEnds(op: BinaryOperator)
    ensures op in {Mul, Div} ==> MultiplicativeOf(OperatorToken(op)) == Some(op)
    ensures op in {Add, Sub} ==> AdditiveOf(OperatorToken(op)) == Some(op) && EndsProduct(OperatorToken(op))
  {
  }

  lemma ComparisonEnds(op: BinaryOperator)
    requires op in {Eq, Neq, Lt, Gt, Lte, Gte}
    ensures ComparisonOf(OperatorToken(op)) == Some(op) && EndsSum(OperatorToken(op)) && EndsProduct(OperatorToken(op))
  {
  }

  // A parenthesised expression is a primary.
  lemma Parenthesised(inner: Tokens, rest: Tokens)
    requires ParseOr(inner).Ok? ==> ParseOr(inner).value.1 == [RParen] + rest
    ensures ParseUnary([LParen] + inner) == var p := ParseOr(inner); if p.Err? then p else Ok((p.value.0, rest))
  {
    hide ParseOr, First, Rest;
    Cons(LParen, inner);
    Cons(RParen, rest);
    assert ParsePrimary([LParen] + inner) == var p := ParseOr(inner); if p.Err? then p else Ok((p.value.0, rest));
  }

  lemma BinaryTokens(l: Expr, op: BinaryOperator, r: Expr, rest: Tokens)
    ensures ExprTokens(BinaryOp(l, op, r)) + rest
      == [LParen] + (ExprTokens(l) + ([OperatorToken(op)] + (ExprTokens(r) + ([RParen] + rest))))
  {
  }

  // ---- The induction ----

  // A printed expression, read as an operand, comes back just when no NOT
  // stands in the way.
  lemma {:induction false} UnaryBack(e: Expr, rest: Tokens)
    requires Shaped(e) && EndsUnary(First(rest))
    ensures ExprBack(ParseUnary(ExprTokens(e) + rest), e, rest, Tight(e))
    decreases e, 4
  {
    match e
    case Column(table, column) => ColumnPrinted(table, column, rest);
    case Lit(v) => LiteralPrinted(v, rest);
    case BinaryOp(l, op, r) => BinaryBack(l, op, r, rest);
    case UnaryOp(op, x) => SignBack(op, x, rest);
    case Function(name, args) => FunctionBack(name, args, rest);
  }

  lemma {:induction false} SignBack(op: UnaryOperator, x: Expr, rest: Tokens)
    requires Shaped(x) && EndsUnary(First(rest))
    ensures ExprBack(ParseUnary(ExprTokens(UnaryOp(op, x)) + rest), UnaryOp(op, x), rest, op == Neg && Tight(x))
    decreases UnaryOp(op, x), 3
  {
    var t := if op == Not then KwNot else Minus;
    assert ExprTokens(UnaryOp(op, x)) + rest == [t] + (ExprTokens(x) + rest);
    hide ParseUnary, ExprTokens, Tight, Shaped;
    if op == Not {
      Cons(t, ExprTokens(x) + rest);
      NotIsNoUnary([t] + (ExprTokens(x) + rest));
    } else {
      UnaryBack(x, rest);
      MinusInFront(ExprTokens(x) + rest);
    }
  }

  lemma ColumnPrinted(table: Option<string>, column: string, rest: Tokens)
    requires EndsUnary(First(rest))
    ensures ParseUnary(ExprTokens(Column(table, column)) + rest) == Ok((Column(table, column), rest))
  {
    if table.Some? {
      var last := if column == "*" then Star else Identifier(column);
      assert ExprTokens(Column(table, column)) + rest == [Identifier(table.value)] + ([Dot] + ([last] + rest));
      hide ParseUnary, ExprTokens;
      QualifiedPrinted(table.value, last, [last] + rest, rest);
    } else {
      assert ExprTokens(Column(table, column)) + rest == [Identifier(column)] + rest;
      hide ParseUnary, ExprTokens;
      NamePrinted(column, rest);
    }
  }

  lemma NamePrinted(name: string, rest: Tokens)
    requires EndsUnary(First(rest))
    ensures ParseUnary([Identifier(name)] + rest) == Ok((Column(None, name), rest))
  {
    hide First, Rest;
    Cons(Identifier(name), rest);
    assert ParsePrimary([Identifier(name)] + rest) == AfterName(name, rest);
  }

  lemma QualifiedPrinted(table: string, last: Token, ts: Tokens, rest: Tokens)
    requires ts == [last] + rest && (last.Identifier? || last == Star)
    ensures ParseUnary([Identifier(table)] + ([Dot] + ts))
         == Ok((Column(Some(table), if last == Star then "*" else last.text), rest))
  {
    hide First, Rest;
    Cons(Identifier(table), [Dot] + ts);
    Cons(Dot, ts);
    Cons(last, rest);
    assert ParsePrimary([Identifier(table)] + ([Dot] + ts)) == AfterName(table, [Dot] + ts);
  }

  lemma LiteralPrinted(v: Literal, rest: Tokens)
    requires Shaped(Lit(v))
    ensures ParseUnary(ExprTokens(Lit(v)) + rest) == Ok((Lit(v), rest))
  {
    var ts := ExprTokens(Lit(v)) + rest;
    assert |ExprTokens(Lit(v))| == 1 && Rest(ts) == rest;
  }

  lemma NotTokens(e: Expr, rest: Tokens)
    requires NotRooted(e)
    ensures ExprTokens(e) + rest == [KwNot] + (ExprTokens(e.operand) + rest)
  {
  }

  lemma {:induction false} NotBack(e: Expr, rest: Tokens)
    requires Shaped(e) && EndsComparison(First(rest))
    ensures ExprBack(ParseNot(ExprTokens(e) + rest), e, rest, Loose(e))
    decreases e, 5
  {
    if NotRooted(e) {
      NotTokens(e, rest);
      hide ParseNot, ExprTokens, First, EndsComparison;
      NotBack(e.operand, rest);
      NotInFront(ExprTokens(e.operand) + rest);
    } else {
      hide ParseNot, ExprTokens, ParseUnary, Tight, Shaped, First;
      UnaryBack(e, rest);
      Head(e);
      Joined(ExprTokens(e), rest);
      NotOfUnary(ExprTokens(e) + rest);
    }
  }

  // Any expression the parser can build, before anything that ends one.
  lemma {:induction false} ExprPrinted(e: Expr, rest: Tokens)
    requires Shaped(e) && EndsOr(First(rest))
    ensures ExprBack(ParseOr(ExprTokens(e) + rest), e, rest, Loose(e))
    decreases e, 6
  {
    hide ParseOr, ParseNot, ExprTokens, Loose, Shaped, First;
    NotBack(e, rest);
    OrOfNot(ExprTokens(e) + rest);
  }

  // Inside the parentheses of an operation.
  lemma {:induction false} BinaryBack(l: Expr, op: BinaryOperator, r: Expr, rest: Tokens)
    requires Shaped(l) && Shaped(r)
    ensures ExprBack(ParseUnary(ExprTokens(BinaryOp(l, op, r)) + rest), BinaryOp(l, op, r), rest,
                     Tight(BinaryOp(l, op, r)))
    decreases BinaryOp(l, op, r), 3
  {
    var t, close := OperatorToken(op), [RParen] + rest;
    var after := [t] + (ExprTokens(r) + close);
    Cons(t, ExprTokens(r) + close);
    Cons(RParen, rest);
    BinaryTokens(l, op, r, rest);
    var good := Tight(BinaryOp(l, op, r));
    hide First, Rest, ExprTokens, ParseUnary, ParseOr, OperatorToken, Shaped;
    if Logical(op) {
      LogicalBack(l, op, r, after, close);
    } else if NotRooted(l) {
      ChainBack(BinaryOp(l, op, r), l, op, r, after, close);
      hide Tight, Loose;
      RParenEnds();
      OrOfNot(ExprTokens(l) + after);
    } else {
      TightBack(BinaryOp(l, op, r), l, op, r, after, close);
    }
    hide Tight, Loose;
    Parenthesised(ExprTokens(l) + after, rest);
  }

  lemma {:induction false} LogicalBack(l: Expr, op: BinaryOperator, r: Expr, after: Tokens, close: Tokens)
    requires Shaped(l) && Shaped(r) && Logical(op)
    requires First(after) == OperatorToken(op) && Rest(after) == ExprTokens(r) + close && First(close) == RParen
    ensures ExprBack(ParseOr(ExprTokens(l) + after), BinaryOp(l, op, r), close, Loose(l) && Loose(r))
    decreases BinaryOp(l, op, r), 2
  {
    hide First, Rest, ExprTokens, ParseNot, ParseOr, OperatorToken, Loose, Shaped, EndsComparison;
    OperatorEndsUnary(op);
    RParenEnds();
    NotBack(l, after);
    NotBack(r, close);
    LogicalBinary(ExprTokens(l) + after, op, after);
  }

  // Operands of the other operators.
  lemma {:induction false} OperandsBack(whole: Expr, l: Expr, op: BinaryOperator, r: Expr, after: Tokens, close: Tokens)
    requires l < whole && r < whole && Shaped(l) && Shaped(r) && !Logical(op) && !NotRooted(l)
    requires First(after) == OperatorToken(op) && Rest(after) == ExprTokens(r) + close && First(close) == RParen
    ensures ExprBack(ParseNot(ExprTokens(l) + after), BinaryOp(l, op, r), close, Tight(l) && Tight(r))
    ensures var p := ParseNot(ExprTokens(l) + after); p.Ok? ==> p.value.0.BinaryOp?
    decreases whole, 1
  {
    hide First, Rest, ExprTokens, ParseUnary, ParseNot, ParseComparison, OperatorToken, Tight, Shaped, EndsUnary;
    OperatorEndsUnary(op);
    RParenEnds();
    UnaryBack(l, after);
    UnaryBack(r, close);
    Head(l);
    Joined(ExprTokens(l), after);
    TightBinary(ExprTokens(l) + after, op, after);
    NotOfComparison(ExprTokens(l) + after);
  }

  lemma {:induction false} TightBack(whole: Expr, l: Expr, op: BinaryOperator, r: Expr, after: Tokens, close: Tokens)
    requires l < whole && r < whole && Shaped(l) && Shaped(r) && !Logical(op) && !NotRooted(l)
    requires First(after) == OperatorToken(op) && Rest(after) == ExprTokens(r) + close && First(close) == RParen
    ensures ExprBack(ParseOr(ExprTokens(l) + after), BinaryOp(l, op, r), close, Tight(l) && Tight(r))
    decreases whole, 2
  {
    hide First, Rest, ExprTokens, ParseNot, ParseOr, OperatorToken, Tight, Shaped, EndsOr;
    OperandsBack(whole, l, op, r, after, close);
    RParenEnds();
    OrOfNot(ExprTokens(l) + after);
  }

  // A NOT in front of the left operand takes the whole operation.
  lemma {:induction false} ChainBack(whole: Expr, l: Expr, op: BinaryOperator, r: Expr, after: Tokens, close: Tokens)
    requires l < whole && r < whole && Shaped(l) && Shaped(r) && !Logical(op)
    requires First(after) == OperatorToken(op) && Rest(after) == ExprTokens(r) + close && First(close) == RParen
    ensures var p := ParseNot(ExprTokens(l) + after); p.Ok? ==>
      p.value.1 == close && !p.value.0.Column? && (NotRooted(l) ==> NotRooted(p.value.0))
    decreases whole, 2, l
  {
    if NotRooted(l) {
      NotTokens(l, after);
      hide First, Rest, ExprTokens, ParseNot, OperatorToken;
      ChainBack(whole, l.operand, op, r, after, close);
      NotInFront(ExprTokens(l.operand) + after);
    } else {
      hide First, Rest, ExprTokens, ParseNot, OperatorToken, Tight, Shaped;
      OperandsBack(whole, l, op, r, after, close);
    }
  }

  // ---- Argument lists ----

  lemma {:induction false} ExprListBack(es: seq<Expr>, done: seq<Expr>, rest: Tokens)
    requires es != [] && AllShaped(es) && EndsOr(First(rest)) && First(rest) != Comma
    ensures ListBack(ParseExprList(ListTokens(es) + rest, done), done, es, rest, AllLoose(es))
    decreases es, 7
  {
    hide First, Rest, ExprTokens, Loose, Shaped, ParseOr, ParseExprList, EndsOr, ListBack;
    CommaEnds();
    if |es| == 1 {
      ExprPrinted(es[0], rest);
      ListRead(ExprTokens(es[0]) + rest, done);
      ListBackOne(ParseOr(ExprTokens(es[0]) + rest), ParseExprList(ListTokens(es) + rest, done), done, es, rest,
                  Loose(es[0]));
    } else {
      var more := ListTokens(es[1..]) + rest;
      var after := [Comma] + more;
      assert ListTokens(es) + rest == ExprTokens(es[0]) + after;
      Cons(Comma, more);
      ExprPrinted(es[0], after);
      var p := ParseOr(ExprTokens(es[0]) + after);
      ListRead(ExprTokens(es[0]) + after, done);
      var all := ParseExprList(ListTokens(es) + rest, done);
      if p.Ok? {
        ExprListBack(es[1..], done + [p.value.0], rest);
      }
      ListBackMore(p, all, done, es, after, rest, Loose(es[0]), AllLoose(es[1..]));
      AllLooseStep(es);
    }
  }

  lemma AllLooseStep(es: seq<Expr>)
    requires es != []
    ensures AllLoose(es) <==> Loose(es[0]) && AllLoose(es[1..])
  {
    hide Loose;
    if Loose(es[0]) && AllLoose(es[1..]) {
      forall i | 0 <= i < |es| ensures Loose(es[i]) {
        assert i > 0 ==> es[i] == es[1..][i - 1];
      }
    }
  }

  lemma ListRead(ts: Tokens, done: seq<Expr>)
    ensures var p := ParseOr(ts);
      if p.Err? then ParseExprList(ts, done).Err?
      else if First(p.value.1) == Comma
        then ParseExprList(ts, done) == ParseExprList(Rest(p.value.1), done + [p.value.0])
      else ParseExprList(ts, done) == Ok((done + [p.value.0], p.value.1))
  {
    hide ParseOr;
  }

  lemma ListHead(es: seq<Expr>)
    requires es != [] && Shaped(es[0])
    ensures ListTokens(es) != [] && First(ListTokens(es)) !in {RParen, Star}
  {
    hide Shaped;
    Head(es[0]);
  }

  lemma {:induction false} FunctionBack(name: string, args: seq<Expr>, rest: Tokens)
    requires args == [Wildcard] || AllShaped(args)
    ensures ExprBack(ParseUnary(ExprTokens(Function(name, args)) + rest), Function(name, args), rest, AllLoose(args))
    decreases args, 9
  {
    var close, list := [RParen] + rest, ListTokens(args);
    assert ExprTokens(Function(name, args)) + rest == [Identifier(name)] + ([LParen] + (list + close));
    hide AllShaped, AllLoose, ExprTokens, ListTokens, ParseUnary, ParseArguments;
    ArgumentsBack(args, rest);
    CallPrinted(name, list + close, rest);
  }

  lemma CallPrinted(name: string, inner: Tokens, rest: Tokens)
    requires ParseArguments(inner).Ok? ==> ParseArguments(inner).value.1 == [RParen] + rest
    ensures var p := ParseUnary([Identifier(name)] + ([LParen] + inner));
      if ParseArguments(inner).Ok? then p == Ok((Function(name, ParseArguments(inner).value.0), rest)) else p.Err?
  {
    hide ParseArguments, First, Rest;
    var ts := [Identifier(name)] + ([LParen] + inner);
    Cons(Identifier(name), [LParen] + inner);
    Cons(LParen, inner);
    Cons(RParen, rest);
    assert ParsePrimary(ts) == AfterName(name, Rest(ts));
  }

  lemma {:induction false} ArgumentsBack(args: seq<Expr>, rest: Tokens)
    requires args == [Wildcard] || AllShaped(args)
    ensures Back(ParseArguments(ListTokens(args) + ([RParen] + rest)), args, [RParen] + rest, AllLoose(args))
    decreases args, 8
  {
    var close := [RParen] + rest;
    Cons(RParen, rest);
    if args == [] {
      assert ListTokens(args) + close == close;
    } else if args == [Wildcard] {
      assert ListTokens(args) + close == [Star] + close;
      Cons(Star, close);
    } else {
      assert Shaped(args[0]);
      hide AllLoose, AllShaped, Shaped, ParseExprList, ListTokens, First, Rest, ListBack, Back, EndsOr;
      RParenEnds();
      ListHead(args);
      Joined(ListTokens(args), close);
      ExprListBack(args, [], close);
      ListBackWhole(ParseExprList(ListTokens(args) + close, []), args, close, AllLoose(args));
    }
  }
}

// Whole statements.
module SqlStatementRoundTrip {
  import opened Wrappers
  import opened Ast
  import opened SqlTokens
  import opened SqlStatements
  import opened SqlGrammar
  import opened SqlPrinted

  function AliasTokens(before: Tokens, alias: Option<string>): Tokens
  {
    if alias.Some? then before + [Identifier(alias.value)] else []
  }

  function ItemTokens(item: SelectItem): Tokens
  {
    match item
    case ItemWildcard => [Star]
    case ItemQualifiedWildcard(table) => [Identifier(table), Dot, Star]
    case ItemExpression(e, alias) => ExprTokens(e) + AliasTokens([KwAs], alias)
  }

  function ItemsTokens(items: seq<SelectItem>): Tokens
  {
    if items == [] then []
    else if |items| == 1 then ItemTokens(items[0])
    else ItemTokens(items[0]) + [Comma] + ItemsTokens(items[1..])
  }

  function TableTokens(t: TableRef): Tokens
  {
    [Identifier(t.table_name)] + AliasTokens([], t.alias)
  }

  function JoinToken(t: JoinType): Token
  {
    match t
    case Inner => KwInner
    case Left => KwLeft
    case Right => KwRight
    case Cross => KwCross
  }

  function JoinTokens(j: JoinClause): Tokens
  {
    [JoinToken(j.join_type), KwJoin] + TableTokens(j.table) + [KwOn] + ExprTokens(j.condition)
  }

  function JoinsTokens(joins: seq<JoinClause>): Tokens
  {
    if joins == [] then [] else JoinTokens(joins[0]) + JoinsTokens(joins[1..])
  }

  function ClauseTokens(keyword: Token, e: Option<Expr>): Tokens
  {
    if e.Some? then [keyword] + ExprTokens(e.value) else []
  }

  function GroupTokens(es: seq<Expr>): Tokens
  {
    if es == [] then [] else [KwGroup, KwBy] + ListTokens(es)
  }

  function OrderItemTokens(i: OrderByItem): Tokens
  {
    ExprTokens(i.expression) + [if i.ascending then KwAsc else KwDesc]
  }

  function OrderListTokens(items: seq<OrderByItem>): Tokens
  {
    if items == [] then []
    else if |items| == 1 then OrderItemTokens(items[0])
    else OrderItemTokens(items[0]) + [Comma] + OrderListTokens(items[1..])
  }

  function OrderTokens(items: seq<OrderByItem>): Tokens
  {
    if items == [] then [] else [KwOrder, KwBy] + OrderListTokens(items)
  }

  function LimitTokens(limit: Option<nat>): Tokens
  {
    if limit.Some? then [KwLimit, IntegerLit(limit.value)] else []
  }

  // The clauses after the joins, each before what follows it.
  function ClausesTokens(s: SelectStatement, rest: Tokens): Tokens
  {
    ClauseTokens(KwWhere, s.where_clause) + (GroupTokens(s.group_by) + (ClauseTokens(KwHaving, s.having)
      + (OrderTokens(s.order_by) + (LimitTokens(s.limit) + rest))))
  }

  function StatementTokens(s: SelectStatement): Tokens
  {
    [KwSelect]
      + (ItemsTokens(s.columns)
         + ([KwFrom] + (TableTokens(s.source) + (JoinsTokens(s.joins) + ClausesTokens(s, [Eof])))))
  }

  // ---- Which statements print to something that parses back ----

  predicate Starred(e: Expr)
  {
    e.Column? && e.table.Some? && e.column == "*"
  }

  predicate ShapedItem(item: SelectItem)
  {
    item.ItemExpression? ==> Shaped(item.expr) && !Starred(item.expr)
  }

  predicate PlacedItem(item: SelectItem)
  {
    item.ItemExpression? ==> Loose(item.expr)
  }

  // What the parser builds.
  predicate ShapedStatement(s: SelectStatement)
  {
    && s.columns != [] && (forall i :: 0 <= i < |s.columns| ==> ShapedItem(s.columns[i]))
    && (forall i :: 0 <= i < |s.joins| ==> Shaped(s.joins[i].condition))
    && (s.where_clause.Some? ==> Shaped(s.where_clause.value)) && (s.having.Some? ==> Shaped(s.having.value))
    && AllShaped(s.group_by)
    && (forall i :: 0 <= i < |s.order_by| ==> Shaped(s.order_by[i].expression))
    && (s.limit.Some? ==> AsSize(s.limit.value) == s.limit.value)
  }

  predicate PlacedJoins(joins: seq<JoinClause>)
  {
    forall i :: 0 <= i < |joins| ==> Loose(joins[i].condition)
  }

  predicate PlacedItems(items: seq<SelectItem>)
  {
    forall i :: 0 <= i < |items| ==> PlacedItem(items[i])
  }

  predicate PlacedOrder(items: seq<OrderByItem>)
  {
    forall i :: 0 <= i < |items| ==> Loose(items[i].expression)
  }

  predicate PlacedClause(e: Option<Expr>)
  {
    e.Some? ==> Loose(e.value)
  }

  // NOT only where its missing parentheses change nothing.
  predicate NotsPlaced(s: SelectStatement)
  {
    && PlacedItems(s.columns) && PlacedJoins(s.joins) && PlacedClause(s.where_clause) && AllLoose(s.group_by)
    && PlacedClause(s.having) && PlacedOrder(s.order_by)
  }

  // ---- What may follow ----

  // Where each clause stands in the order of clauses.
  function Rank(t: Token): nat
  {
    match t
    case KwWhere => 1
    case KwGroup => 2
    case KwHaving => 3
    case KwOrder => 4
    case KwLimit => 5
    case Eof => 6
    case _ => 0
  }

  lemma ClauseEnds(t: Token)
    requires Rank(t) > 0
    ensures EndsOr(t) && t != Comma && t != KwAs && !t.Identifier? && JoinTypeOf(t).None? && t != KwAsc && t != KwDesc
  {
  }

  // Tokens that begin a clause or a join end an expression and an alias.
  predicate Closes(t: Token)
  {
    EndsOr(t) && t != KwAs && !t.Identifier?
  }

  // ---- Aliases, items, tables ----

  lemma AliasPrinted(before: Tokens, alias: Option<string>, rest: Tokens)
    requires (before == [KwAs] || before == []) && First(rest) != KwAs && !First(rest).Identifier?
    ensures ParseAlias(AliasTokens(before, alias) + rest) == Ok((alias, rest))
  {
    if alias.Some? {
      hide First, Rest;
      Cons(Identifier(alias.value), rest);
      if before == [KwAs] {
        assert AliasTokens(before, alias) + rest == [KwAs] + ([Identifier(alias.value)] + rest);
        Cons(KwAs, [Identifier(alias.value)] + rest);
      } else {
        assert AliasTokens(before, alias) + rest == [Identifier(alias.value)] + rest;
      }
    } else {
      assert AliasTokens(before, alias) + rest == rest;
    }
  }

  lemma ItemBack(item: SelectItem, rest: Tokens)
    requires ShapedItem(item) && (First(rest) == Comma || First(rest) == KwFrom)
    ensures Back(ParseSelectItem(ItemTokens(item) + rest), item, rest, PlacedItem(item))
  {
    match item
    case ItemWildcard =>
      hide First, Rest, ParseOr;
      assert ItemTokens(item) + rest == [Star] + rest;
      Cons(Star, rest);
    case ItemQualifiedWildcard(table) => QualifiedItem(table, rest);
    case ItemExpression(e, alias) => ExpressionItem(e, alias, rest);
  }

  lemma QualifiedItem(table: string, rest: Tokens)
    requires First(rest) == Comma || First(rest) == KwFrom
    ensures ParseSelectItem(ItemTokens(ItemQualifiedWildcard(table)) + rest) == Ok((ItemQualifiedWildcard(table), rest))
  {
    var e := Column(Some(table), "*");
    var ts := ItemTokens(ItemQualifiedWildcard(table)) + rest;
    assert ts == ExprTokens(e) + rest && First(ts) == Identifier(table);
    assert Shaped(e) && Loose(e);
    hide ParseOr, ExprTokens, Shaped, Loose;
    FollowsItem(First(rest));
    ExprPrinted(e, rest);
  }

  lemma FollowsItem(t: Token)
    requires t == Comma || t == KwFrom
    ensures EndsOr(t) && t != KwAs && !t.Identifier? && EndsOr(KwAs)
  {
  }

  lemma ItemWhole(e: Expr, alias: Option<string>, rest: Tokens)
    ensures ItemTokens(ItemExpression(e, alias)) + rest == ExprTokens(e) + (AliasTokens([KwAs], alias) + rest)
    ensures First(AliasTokens([KwAs], alias) + rest) == if alias.Some? then KwAs else First(rest)
  {
    hide ExprTokens;
    assert alias.None? ==> [] + rest == rest;
  }

  lemma ItemRead(ts: Tokens)
    requires First(ts) != Star
    ensures var p := ParseOr(ts);
      if p.Err? then ParseSelectItem(ts).Err?
      else !Starred(p.value.0) ==> var alias := ParseAlias(p.value.1);
        if alias.Err? then ParseSelectItem(ts).Err?
        else ParseSelectItem(ts) == Ok((ItemExpression(p.value.0, alias.value.0), alias.value.1))
  {
    hide ParseOr, ParseAlias;
  }

  lemma ExpressionItem(e: Expr, alias: Option<string>, rest: Tokens)
    requires Shaped(e) && !Starred(e) && (First(rest) == Comma || First(rest) == KwFrom)
    ensures Back(ParseSelectItem(ItemTokens(ItemExpression(e, alias)) + rest), ItemExpression(e, alias), rest, Loose(e))
  {
    hide Shaped, Loose, ParseOr, ExprTokens, ParseAlias, AliasTokens, First, Rest, EndsOr, ItemTokens, ParseSelectItem;
    var after := AliasTokens([KwAs], alias) + rest;
    ItemWhole(e, alias, rest);
    FollowsItem(First(rest));
    Head(e);
    Joined(ExprTokens(e), after);
    ExprPrinted(e, after);
    AliasPrinted([KwAs], alias, rest);
    ItemRead(ExprTokens(e) + after);
  }

  lemma SelectListRead(ts: Tokens, done: seq<SelectItem>)
    ensures var p := ParseSelectItem(ts);
      if p.Err? then ParseSelectList(ts, done).Err?
      else if First(p.value.1) == Comma
        then ParseSelectList(ts, done) == ParseSelectList(Rest(p.value.1), done + [p.value.0])
      else ParseSelectList(ts, done) == Ok((done + [p.value.0], p.value.1))
  {
    hide ParseSelectItem;
  }

  lemma {:induction false} ItemsBack(items: seq<SelectItem>, done: seq<SelectItem>, rest: Tokens)
    requires items != [] && (forall i :: 0 <= i < |items| ==> ShapedItem(items[i])) && First(rest) == KwFrom
    ensures ListBack(ParseSelectList(ItemsTokens(items) + rest, done), done, items, rest, PlacedItems(items))
  {
    hide First, Rest, ItemTokens, ShapedItem, PlacedItem, ParseSelectItem, ParseSelectList, ListBack;
    if |items| == 1 {
      ItemBack(items[0], rest);
      SelectListRead(ItemTokens(items[0]) + rest, done);
      ListBackOne(ParseSelectItem(ItemTokens(items[0]) + rest), ParseSelectList(ItemsTokens(items) + rest, done), done,
                  items, rest, PlacedItem(items[0]));
    } else {
      var more := ItemsTokens(items[1..]) + rest;
      var after := [Comma] + more;
      assert ItemsTokens(items) + rest == ItemTokens(items[0]) + after;
      Cons(Comma, more);
      ItemBack(items[0], after);
      var p, all := ParseSelectItem(ItemTokens(items[0]) + after), ParseSelectList(ItemsTokens(items) + rest, done);
      SelectListRead(ItemTokens(items[0]) + after, done);
      if p.Ok? {
        ItemsBack(items[1..], done + [p.value.0], rest);
      }
      ListBackMore(p, all, done, items, after, rest, PlacedItem(items[0]), PlacedItems(items[1..]));
      PlacedItemsStep(items);
    }
  }

  lemma PlacedItemsStep(items: seq<SelectItem>)
    requires items != []
    ensures PlacedItems(items) <==> PlacedItem(items[0]) && PlacedItems(items[1..])
  {
    hide PlacedItem;
    if PlacedItem(items[0]) && PlacedItems(items[1..]) {
      forall i | 0 <= i < |items| ensures PlacedItem(items[i]) {
        assert i > 0 ==> items[i] == items[1..][i - 1];
      }
    }
  }

  lemma TablePrinted(t: TableRef, rest: Tokens)
    requires First(rest) != KwAs && !First(rest).Identifier?
    ensures ParseTableRef(TableTokens(t) + rest) == Ok((t, rest))
  {
    hide First, Rest, ParseAlias, AliasTokens;
    AliasPrinted([], t.alias, rest);
    Cons(Identifier(t.table_name), AliasTokens([], t.alias) + rest);
    assert TableTokens(t) + rest == [Identifier(t.table_name)] + (AliasTokens([], t.alias) + rest);
  }

  // ---- Joins ----

  lemma JoinBack(j: JoinClause, rest: Tokens)
    requires Shaped(j.condition) && EndsOr(First(rest))
    ensures Back(ParseJoin(JoinTokens(j) + rest), j, rest, Loose(j.condition))
  {
    hide First, Rest, ExprTokens, Loose, Shaped, ParseOr, TableTokens, ParseTableRef, EndsOr;
    var body := ExprTokens(j.condition) + rest;
    var on := [KwOn] + body;
    var table := TableTokens(j.table) + on;
    assert JoinTokens(j) + rest == [JoinToken(j.join_type)] + ([KwJoin] + table);
    Cons(JoinToken(j.join_type), [KwJoin] + table);
    Cons(KwJoin, table);
    Cons(KwOn, body);
    ExprPrinted(j.condition, rest);
    TablePrinted(j.table, on);
  }

  lemma JoinsClose(joins: seq<JoinClause>, rest: Tokens)
    requires Rank(First(rest)) > 0
    ensures Closes(First(JoinsTokens(joins) + rest))
  {
    hide First, JoinTokens;
    if joins == [] {
      assert JoinsTokens(joins) + rest == rest;
      ClauseEnds(First(rest));
    } else {
      assert JoinsTokens(joins) + rest == JoinTokens(joins[0]) + (JoinsTokens(joins[1..]) + rest);
      JoinHead(joins[0], JoinsTokens(joins[1..]) + rest);
    }
  }

  lemma {:induction false} JoinsBack(joins: seq<JoinClause>, done: seq<JoinClause>, rest: Tokens)
    requires (forall i :: 0 <= i < |joins| ==> Shaped(joins[i].condition)) && Rank(First(rest)) > 0
    ensures ListBack(ParseJoins(JoinsTokens(joins) + rest, done), done, joins, rest, PlacedJoins(joins))
    decreases |joins|
  {
    hide First, Rest, ParseJoin, Loose, Shaped, EndsOr, JoinTokens, JoinTypeOf, ParseJoins, Rank;
    if joins == [] {
      ClauseEnds(First(rest));
      assert JoinsTokens(joins) + rest == rest;
      NoMoreJoins(rest, done);
    } else {
      hide ListBack;
      var more := JoinsTokens(joins[1..]) + rest;
      JoinsClose(joins[1..], rest);
      JoinBack(joins[0], more);
      JoinHead(joins[0], more);
      assert JoinsTokens(joins) + rest == JoinTokens(joins[0]) + more;
      var p, all := ParseJoin(JoinTokens(joins[0]) + more), ParseJoins(JoinsTokens(joins) + rest, done);
      OneMoreJoin(JoinTokens(joins[0]) + more, done);
      if p.Ok? {
        JoinsBack(joins[1..], done + [p.value.0], rest);
      }
      ListBackMore(p, all, done, joins, more, rest, Loose(joins[0].condition), PlacedJoins(joins[1..]));
      PlacedJoinsStep(joins);
    }
  }

  lemma PlacedJoinsStep(joins: seq<JoinClause>)
    requires joins != []
    ensures PlacedJoins(joins) <==> Loose(joins[0].condition) && PlacedJoins(joins[1..])
  {
    hide Loose;
    if Loose(joins[0].condition) && PlacedJoins(joins[1..]) {
      forall i | 0 <= i < |joins| ensures Loose(joins[i].condition) {
        assert i > 0 ==> joins[i] == joins[1..][i - 1];
      }
    }
  }

  lemma NoMoreJoins(ts: Tokens, done: seq<JoinClause>)
    requires JoinTypeOf(First(ts)).None?
    ensures ParseJoins(ts, done) == Ok((done, ts))
  {
  }

  lemma OneMoreJoin(ts: Tokens, done: seq<JoinClause>)
    requires JoinTypeOf(First(ts)).Some?
    ensures var p := ParseJoin(ts);
      if p.Err? then ParseJoins(ts, done).Err? else ParseJoins(ts, done) == ParseJoins(p.value.1, done + [p.value.0])
  {
    hide ParseJoin;
  }

  lemma JoinHead(j: JoinClause, rest: Tokens)
    ensures JoinTypeOf(First(JoinTokens(j) + rest)).Some? && Closes(First(JoinTokens(j) + rest))
  {
    assert First(JoinTokens(j) + rest) == JoinToken(j.join_type);
  }

  // ---- Clauses ----

  lemma ClauseBack(keyword: Token, e: Option<Expr>, rest: Tokens)
    requires (keyword == KwWhere || keyword == KwHaving) && (e.Some? ==> Shaped(e.value))
      && Rank(First(rest)) > Rank(keyword)
    ensures Back(ParseClause(keyword, ClauseTokens(keyword, e) + rest), e, rest, PlacedClause(e))
    ensures Rank(First(ClauseTokens(keyword, e) + rest)) >= Rank(keyword)
  {
    hide ParseOr, ExprTokens, Loose, Shaped, EndsOr, First, Rest;
    ClauseEnds(First(rest));
    if e.Some? {
      ExprPrinted(e.value, rest);
      assert ClauseTokens(keyword, e) + rest == [keyword] + (ExprTokens(e.value) + rest);
      Cons(keyword, ExprTokens(e.value) + rest);
    } else {
      assert ClauseTokens(keyword, e) + rest == rest;
    }
  }

  lemma GroupRead(ts: Tokens)
    ensures ParseGroupBy([KwGroup] + ([KwBy] + ts)) == ParseExprList(ts, [])
      && First([KwGroup] + ([KwBy] + ts)) == KwGroup
  {
    hide First, Rest, ParseExprList;
    Cons(KwGroup, [KwBy] + ts);
    Cons(KwBy, ts);
  }

  lemma GroupWhole(es: seq<Expr>, rest: Tokens)
    requires es != []
    ensures GroupTokens(es) + rest == [KwGroup] + ([KwBy] + (ListTokens(es) + rest))
  {
    hide ListTokens;
  }

  lemma NoGroup(rest: Tokens)
    requires First(rest) != KwGroup
    ensures GroupTokens([]) + rest == rest && ParseGroupBy(rest) == Ok(([], rest))
  {
  }

  lemma GroupBack(es: seq<Expr>, rest: Tokens)
    requires AllShaped(es) && Rank(First(rest)) > 2
    ensures Back(ParseGroupBy(GroupTokens(es) + rest), es, rest, AllLoose(es))
    ensures Rank(First(GroupTokens(es) + rest)) >= 2
  {
    hide ParseExprList, ListTokens, GroupTokens, ParseGroupBy, EndsOr, First, Rest, ListBack, Loose, Shaped;
    ClauseEnds(First(rest));
    if es == [] {
      NoGroup(rest);
    } else {
      hide AllShaped, AllLoose;
      ExprListBack(es, [], rest);
      ListBackWhole(ParseExprList(ListTokens(es) + rest, []), es, rest, AllLoose(es));
      GroupWhole(es, rest);
      GroupRead(ListTokens(es) + rest);
    }
  }

  lemma OrderItemBack(i: OrderByItem, rest: Tokens)
    requires Shaped(i.expression)
    ensures Back(ParseOrderItem(OrderItemTokens(i) + rest), i, rest, Loose(i.expression))
  {
    hide ParseOr, ExprTokens, Loose, Shaped, First, Rest;
    var t := if i.ascending then KwAsc else KwDesc;
    Cons(t, rest);
    assert EndsOr(KwAsc) && EndsOr(KwDesc);
    ExprPrinted(i.expression, [t] + rest);
    assert OrderItemTokens(i) + rest == ExprTokens(i.expression) + ([t] + rest);
  }

  lemma OrderListRead(ts: Tokens, done: seq<OrderByItem>)
    ensures var p := ParseOrderItem(ts);
      if p.Err? then ParseOrderList(ts, done).Err?
      else if First(p.value.1) == Comma
        then ParseOrderList(ts, done) == ParseOrderList(Rest(p.value.1), done + [p.value.0])
      else ParseOrderList(ts, done) == Ok((done + [p.value.0], p.value.1))
  {
    hide ParseOrderItem;
  }

  lemma {:induction false} OrderListBack(items: seq<OrderByItem>, done: seq<OrderByItem>, rest: Tokens)
    requires items != [] && (forall i :: 0 <= i < |items| ==> Shaped(items[i].expression)) && First(rest) != Comma
    ensures ListBack(ParseOrderList(OrderListTokens(items) + rest, done), done, items, rest, PlacedOrder(items))
  {
    hide First, Rest, OrderItemTokens, Shaped, Loose, ParseOrderItem, ParseOrderList, ListBack;
    if |items| == 1 {
      OrderItemBack(items[0], rest);
      OrderListRead(OrderItemTokens(items[0]) + rest, done);
      ListBackOne(ParseOrderItem(OrderItemTokens(items[0]) + rest), ParseOrderList(OrderListTokens(items) + rest, done),
                  done, items, rest, Loose(items[0].expression));
    } else {
      var more := OrderListTokens(items[1..]) + rest;
      var after := [Comma] + more;
      assert OrderListTokens(items) + rest == OrderItemTokens(items[0]) + after;
      Cons(Comma, more);
      OrderItemBack(items[0], after);
      var p, all := ParseOrderItem(OrderItemTokens(items[0]) + after),
        ParseOrderList(OrderListTokens(items) + rest, done);
      OrderListRead(OrderItemTokens(items[0]) + after, done);
      if p.Ok? {
        OrderListBack(items[1..], done + [p.value.0], rest);
      }
      ListBackMore(p, all, done, items, after, rest, Loose(items[0].expression), PlacedOrder(items[1..]));
      PlacedOrderStep(items);
    }
  }

  lemma PlacedOrderStep(items: seq<OrderByItem>)
    requires items != []
    ensures PlacedOrder(items) <==> Loose(items[0].expression) && PlacedOrder(items[1..])
  {
    hide Loose;
    if Loose(items[0].expression) && PlacedOrder(items[1..]) {
      forall i | 0 <= i < |items| ensures Loose(items[i].expression) {
        assert i > 0 ==> items[i] == items[1..][i - 1];
      }
    }
  }

  lemma OrderRead(ts: Tokens)
    ensures ParseOrderBy([KwOrder] + ([KwBy] + ts)) == ParseOrderList(ts, [])
      && First([KwOrder] + ([KwBy] + ts)) == KwOrder
  {
    hide First, Rest, ParseOrderList;
    Cons(KwOrder, [KwBy] + ts);
    Cons(KwBy, ts);
  }

  lemma OrderWhole(items: seq<OrderByItem>, rest: Tokens)
    requires items != []
    ensures OrderTokens(items) + rest == [KwOrder] + ([KwBy] + (OrderListTokens(items) + rest))
  {
    hide OrderListTokens;
  }

  lemma NoOrder(rest: Tokens)
    requires First(rest) != KwOrder
    ensures OrderTokens([]) + rest == rest && ParseOrderBy(rest) == Ok(([], rest))
  {
  }

  lemma OrderBack(items: seq<OrderByItem>, rest: Tokens)
    requires (forall i :: 0 <= i < |items| ==> Shaped(items[i].expression)) && Rank(First(rest)) > 4
    ensures Back(ParseOrderBy(OrderTokens(items) + rest), items, rest, PlacedOrder(items))
    ensures Rank(First(OrderTokens(items) + rest)) >= 4
  {
    hide ParseOrderList, OrderListTokens, OrderTokens, ParseOrderBy, Loose, Shaped, EndsOr, First, Rest, ListBack;
    ClauseEnds(First(rest));
    if items == [] {
      NoOrder(rest);
    } else {
      hide PlacedOrder;
      OrderListBack(items, [], rest);
      ListBackWhole(ParseOrderList(OrderListTokens(items) + rest, []), items, rest, PlacedOrder(items));
      OrderWhole(items, rest);
      OrderRead(OrderListTokens(items) + rest);
    }
  }

  lemma LimitPrinted(limit: Option<nat>)
    requires limit.Some? ==> AsSize(limit.value) == limit.value
    ensures ParseLimit(LimitTokens(limit) + [Eof]) == Ok((limit, [Eof]))
    ensures Rank(First(LimitTokens(limit) + [Eof])) >= 5
  {
    hide First, Rest;
    Cons(Eof, []);
    assert [Eof] + [] == [Eof];
    if limit.Some? {
      assert LimitTokens(limit) + [Eof] == [KwLimit] + ([IntegerLit(limit.value)] + [Eof]);
      Cons(KwLimit, [IntegerLit(limit.value)] + [Eof]);
      Cons(IntegerLit(limit.value), [Eof]);
    } else {
      assert LimitTokens(limit) + [Eof] == [Eof];
    }
  }

  function ClausesOf(s: SelectStatement): Clauses
  {
    Clauses(s.where_clause, s.group_by, s.having, s.order_by, s.limit)
  }

  predicate PlacedClauses(c: Clauses)
  {
    PlacedClause(c.where_clause) && AllLoose(c.group_by) && PlacedClause(c.having) && PlacedOrder(c.order_by)
  }

  lemma ClausesBack(s: SelectStatement)
    requires ShapedStatement(s)
    ensures Back(ParseClauses(ClausesTokens(s, [Eof])), ClausesOf(s), [Eof], PlacedClauses(ClausesOf(s)))
    ensures Rank(First(ClausesTokens(s, [Eof]))) > 0
  {
    hide First, Rest, ParseClause, ParseGroupBy, ParseOrderBy, ParseLimit, ClauseTokens, GroupTokens, OrderTokens,
         LimitTokens, Loose, Shaped, ShapedItem, PlacedClause, AllLoose, PlacedOrder, AllShaped;
    var l := LimitTokens(s.limit) + [Eof];
    var o := OrderTokens(s.order_by) + l;
    var h := ClauseTokens(KwHaving, s.having) + o;
    var g := GroupTokens(s.group_by) + h;
    LimitPrinted(s.limit);
    OrderBack(s.order_by, l);
    ClauseBack(KwHaving, s.having, o);
    GroupBack(s.group_by, h);
    ClauseBack(KwWhere, s.where_clause, g);
  }

  // Parsing the tokens of a printed statement gives the statement back just
  // when its NOTs are placed.
  lemma StatementPrinted(s: SelectStatement)
    requires ShapedStatement(s)
    ensures Parse(StatementTokens(s)) == Ok(s) <==> NotsPlaced(s)
  {
    hide First, Rest, ParseSelectList, ParseTableRef, ParseJoins, ParseClauses, ItemsTokens, TableTokens, JoinsTokens,
         ClausesTokens, Loose, Shaped, ShapedItem, EndsOr, PlacedItems, PlacedJoins, PlacedClause, AllLoose,
         PlacedOrder, AllShaped, ListBack;
    var clauses := ClausesTokens(s, [Eof]);
    var joins := JoinsTokens(s.joins) + clauses;
    var source := TableTokens(s.source) + joins;
    var columns := ItemsTokens(s.columns) + ([KwFrom] + source);
    ClausesBack(s);
    JoinsBack(s.joins, [], clauses);
    JoinsClose(s.joins, clauses);
    ListBackWhole(ParseJoins(joins, []), s.joins, clauses, PlacedJoins(s.joins));
    TablePrinted(s.source, joins);
    Cons(KwFrom, source);
    ItemsBack(s.columns, [], [KwFrom] + source);
    ListBackWhole(ParseSelectList(columns, []), s.columns, [KwFrom] + source, PlacedItems(s.columns));
    Cons(KwSelect, columns);
  }
}
