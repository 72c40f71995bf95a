// Precedence and associativity (parser/parser.cpp:236-390): expressions
// written with no parentheses but those their structure needs parse back.
module SqlPrecedence {
  import opened Wrappers
  import opened Ast
  import opened SqlTokens
  import opened SqlGrammar
  import opened SqlPrinted

  // How tightly the outermost operation binds: OR least, calls, names and
  // literals most.
  const OR := 1
  const AND := 2
  const NOT := 3
  const COMPARISON := 4
  const SUM := 5
  const PRODUCT := 6
  const SIGN := 7
  const PRIMARY := 8

  function OperatorLevel(op: BinaryOperator): nat
  {
    match op
    case Or => OR
    case And => AND
    case Add => SUM
    case Sub => SUM
    case Mul => PRODUCT
    case Div => PRODUCT
    case _ => COMPARISON
  }

  function Level(e: Expr): (p: nat)
    ensures 1 <= p <= 8
  {
    match e
    case BinaryOp(_, op, _) => OperatorLevel(op)
    case UnaryOp(op, _) => if op == Not then NOT else SIGN
    case _ => PRIMARY
  }

  // The level the operands of an operation are written at: chains group to the
  // left, and a comparison has no comparison as its operand.
  function LeftLevel(op: BinaryOperator): nat
  {
    if OperatorLevel(op) == COMPARISON then SUM else OperatorLevel(op)
  }

  function RightLevel(op: BinaryOperator): nat
  {
    OperatorLevel(op) + 1
  }

  // In parentheses only where an operation binding at least as tightly as p is
  // called for.
  function Lean(e: Expr, p: nat): Tokens
    decreases e, 1
  {
    if Level(e) < p then [LParen] + Bare(e) + [RParen] else Bare(e)
  }

  function Bare(e: Expr): Tokens
    decreases e, 0
  {
    match e
    case BinaryOp(l, op, r) => Lean(l, LeftLevel(op)) + [OperatorToken(op)] + Lean(r, RightLevel(op))
    case UnaryOp(op, x) => if op == Not then [KwNot] + Lean(x, NOT) else [Minus] + Lean(x, SIGN)
    case Function(name, args) => [Identifier(name), LParen] + LeanList(args) + [RParen]
    case _ => ExprTokens(e)
  }

  function LeanList(es: seq<Expr>): Tokens
  {
    if es == [] then []
    else if |es| == 1 then (if es[0] == Wildcard then [Star] else Lean(es[0], OR))
    else Lean(es[0], OR) + [Comma] + LeanList(es[1..])
  }

  // ---- The levels of the parser ----

  function ParseAt(p: nat, ts: Tokens): Parsed<Expr>
  {
    match p
    case 1 => ParseOr(ts)
    case 2 => ParseAnd(ts)
    case 3 => ParseNot(ts)
    case 4 => ParseComparison(ts)
    case 5 => ParseAdditive(ts)
    case 6 => ParseMultiplicative(ts)
    case 7 => ParseUnary(ts)
    case _ => ParsePrimary(ts)
  }

  // What a level goes on to make of what it has read.
  function GoOn(p: nat, e: Expr, ts: Tokens): Parsed<Expr>
  {
    match p
    case 1 => OrTail(e, ts)
    case 2 => AndTail(e, ts)
    case 5 => AdditiveTail(e, ts)
    case 6 => MultiplicativeTail(e, ts)
    case _ => Ok((e, ts))
  }

  // The token may follow an operand of level p.
  predicate Follows(p: nat, t: Token)
  {
    match p
    case 1 => EndsAnd(t)
    case 2 => EndsComparison(t)
    case 3 => EndsComparison(t)
    case 4 => EndsComparison(t)
    case 5 => EndsProduct(t)
    case _ => EndsUnary(t)
  }

  // What follows a looser operand ends a tighter one.
  lemma Ended(p: nat, e: Expr, rest: Tokens)
    requires 1 <= p < 8 && Follows(p, First(rest))
    ensures Follows(p + 1, First(rest)) && GoOn(p + 1, e, rest) == Ok((e, rest))
  {
  }

  // One level out.
  lemma Outwards(p: nat, ts: Tokens, e: Expr, rest: Tokens)
    requires 1 <= p < 8 && Follows(p, First(rest)) && ParseAt(p + 1, ts) == Ok((e, rest))
    ensures ParseAt(p, ts) == GoOn(p, e, rest)
  {
    if p == 3 {
      NoNot(ts);
    }
    if p == 7 {
      NoMinus(ts);
    }
    hide ParseAnd, ParseNot, ParseComparison, ParseAdditive, ParseMultiplicative, ParseUnary, ParsePrimary;
    match p
    case 1 => OutOfAnd(ts);
    case 2 => OutOfNot(ts);
    case 3 => NotOfComparison(ts);
    case 4 => ComparisonOfSum(ts);
    case 5 => OutOfProduct(ts);
    case 6 => OutOfUnary(ts);
    case _ => OutOfPrimary(ts);
  }

  lemma OutOfAnd(ts: Tokens)
    ensures ParseAnd(ts).Ok? ==> ParseOr(ts) == OrTail(ParseAnd(ts).value.0, ParseAnd(ts).value.1)
  {
    hide ParseAnd;
  }

  lemma OutOfNot(ts: Tokens)
    ensures ParseNot(ts).Ok? ==> ParseAnd(ts) == AndTail(ParseNot(ts).value.0, ParseNot(ts).value.1)
  {
    hide ParseNot;
  }

  lemma OutOfProduct(ts: Tokens)
    ensures var m := ParseMultiplicative(ts); m.Ok? ==> ParseAdditive(ts) == AdditiveTail(m.value.0, m.value.1)
  {
    hide ParseMultiplicative;
  }

  lemma OutOfUnary(ts: Tokens)
    ensures var u := ParseUnary(ts); u.Ok? ==> ParseMultiplicative(ts) == MultiplicativeTail(u.value.0, u.value.1)
  {
    hide ParseUnary;
  }

  lemma OutOfPrimary(ts: Tokens)
    requires First(ts) != Minus
    ensures ParseUnary(ts) == ParsePrimary(ts)
  {
    hide ParsePrimary;
  }

  lemma NoMinus(ts: Tokens)
    requires ParsePrimary(ts).Ok?
    ensures First(ts) != Minus
  {
  }

  lemma NoNot(ts: Tokens)
    requires ParseComparison(ts).Ok?
    ensures First(ts) != KwNot
  {
    if First(ts) == KwNot {
      NotIsNoUnary(ts);
      NotBelow(ts);
    }
  }

  lemma NotBelow(ts: Tokens)
    requires ParseUnary(ts).Err?
    ensures ParseComparison(ts).Err?
  {
    hide ParseUnary;
    assert ParseMultiplicative(ts).Err?;
    assert ParseAdditive(ts).Err?;
  }

  // Any number of levels out.
  lemma {:induction false} FarOutwards(p: nat, q: nat, ts: Tokens, e: Expr, rest: Tokens)
    requires 1 <= p < q <= 8 && Follows(p, First(rest)) && ParseAt(q, ts) == Ok((e, rest))
    ensures ParseAt(p, ts) == GoOn(p, e, rest)
    decreases q - p
  {
    hide ParseAt, GoOn, Follows;
    if p + 1 < q {
      AlsoFollows(p, q, First(rest));
      Ended(p, e, rest);
      FarOutwards(p + 1, q, ts, e, rest);
    }
    Outwards(p, ts, e, rest);
  }

  lemma AlsoFollows(p: nat, q: nat, t: Token)
    requires 1 <= p <= q <= 8 && Follows(p, t)
    ensures Follows(q, t)
  {
  }

  // ---- Parsing what was written ----

  // A chain goes on with one more operand, to the left.
  lemma ChainStep(p: nat, l: Expr, op: BinaryOperator, ts: Tokens, r: Expr, rest: Tokens)
    requires p == OperatorLevel(op) && p != COMPARISON && ParseAt(p + 1, ts) == Ok((r, rest))
    ensures GoOn(p, l, [OperatorToken(op)] + ts) == GoOn(p, BinaryOp(l, op, r), rest)
  {
    hide ParseAnd, ParseNot, ParseMultiplicative, ParseUnary;
    Cons(OperatorToken(op), ts);
  }

  lemma ComparisonStep(ts: Tokens, l: Expr, op: BinaryOperator, after: Tokens, r: Expr, rest: Tokens)
    requires OperatorLevel(op) == COMPARISON
    requires ParseAdditive(ts) == Ok((l, [OperatorToken(op)] + after)) && ParseAdditive(after) == Ok((r, rest))
    ensures ParseComparison(ts) == Ok((BinaryOp(l, op, r), rest))
  {
    hide ParseAdditive;
    Cons(OperatorToken(op), after);
  }

  lemma OperatorFollows(op: BinaryOperator)
    ensures Follows(LeftLevel(op), OperatorToken(op))
  {
  }

  // Written as leanly as its place allows, an expression is read there as
  // itself, and the reader goes on with what follows.
  lemma {:induction false} LeanParsed(e: Expr, p: nat, rest: Tokens)
    requires Shaped(e) && 1 <= p <= 8 && Follows(p, First(rest))
    ensures ParseAt(p, Lean(e, p) + rest) == GoOn(p, e, rest)
    decreases e, if p > Level(e) then 4 else 3
  {
    hide ParseAt, GoOn, Follows, Bare, Shaped, First;
    var q := Level(e);
    if p <= q {
      AlsoFollows(p, q, First(rest));
      BareParsed(e, rest);
      if p < q {
        AlsoFollows(p, q - 1, First(rest));
        Ended(q - 1, e, rest);
        FarOutwards(p, q, Bare(e) + rest, e, rest);
      }
    } else {
      var inner := [RParen] + rest;
      Closing(rest);
      LeanParsed(e, 1, inner);
      InParentheses(e, Bare(e), rest);
      assert ([LParen] + Bare(e) + [RParen]) + rest == [LParen] + (Bare(e) + inner);
      if p < 8 {
        FarOutwards(p, 8, Lean(e, p) + rest, e, rest);
      } else {
        LastLevel(e, rest);
      }
    }
  }

  lemma Closing(rest: Tokens)
    ensures Follows(1, First([RParen] + rest))
  {
  }

  lemma LastLevel(e: Expr, rest: Tokens)
    ensures GoOn(8, e, rest) == Ok((e, rest))
  {
  }

  lemma InParentheses(e: Expr, ts: Tokens, rest: Tokens)
    requires ParseAt(1, ts + ([RParen] + rest)) == GoOn(1, e, [RParen] + rest)
    ensures ParseAt(8, [LParen] + (ts + ([RParen] + rest))) == Ok((e, rest))
  {
    hide ParseOr;
    Cons(LParen, ts + ([RParen] + rest));
    Cons(RParen, rest);
    assert OrTail(e, [RParen] + rest) == Ok((e, [RParen] + rest));
  }

  lemma {:induction false} BareParsed(e: Expr, rest: Tokens)
    requires Shaped(e) && Follows(Level(e), First(rest))
    ensures ParseAt(Level(e), Bare(e) + rest) == GoOn(Level(e), e, rest)
    decreases e, 2
  {
    hide ParseComparison, ParseNot, ParseUnary, ParsePrimary, ExprTokens, Shaped, First;
    if e.BinaryOp? && Level(e) == COMPARISON {
      ComparisonParsed(e, rest);
    } else if e.BinaryOp? {
      ChainParsed(e, rest);
    } else if e.UnaryOp? {
      SignedParsed(e, rest);
    } else if e.Function? {
      CallParsed(e, rest);
    } else {
      NamedShape(e);
      NamedParsed(e, rest);
    }
  }

  lemma NamedShape(e: Expr)
    requires Shaped(e) && !e.BinaryOp? && !e.UnaryOp? && !e.Function?
    ensures (e.Column? || e.Lit?) && Bare(e) == ExprTokens(e)
  {
  }

  lemma {:induction false} SignedParsed(e: Expr, rest: Tokens)
    requires Shaped(e) && e.UnaryOp? && Follows(Level(e), First(rest))
    ensures ParseAt(Level(e), Bare(e) + rest) == Ok((e, rest))
    decreases e, 1
  {
    hide ParseNot, ParseUnary, Lean, First, Follows;
    var x, p := e.operand, Level(e);
    LeanParsed(x, p, rest);
    assert Bare(e) + rest == [if p == NOT then KwNot else Minus] + (Lean(x, p) + rest);
    if p == NOT {
      NotInFront(Lean(x, p) + rest);
    } else {
      MinusInFront(Lean(x, p) + rest);
    }
  }

  lemma {:induction false} ChainParsed(e: Expr, rest: Tokens)
    requires Shaped(e) && e.BinaryOp? && Level(e) != COMPARISON && Follows(Level(e), First(rest))
    ensures ParseAt(Level(e), Bare(e) + rest) == GoOn(Level(e), e, rest)
    decreases e, 1
  {
    hide ParseAt, GoOn, Follows, Lean, First;
    var l, op, r, p := e.left, e.binary_op, e.right, Level(e);
    var right := Lean(r, p + 1) + rest;
    var after := [OperatorToken(op)] + right;
    Cons(OperatorToken(op), right);
    OperatorFollows(op);
    LeanParsed(l, p, after);
    Ended(p, r, rest);
    LeanParsed(r, p + 1, rest);
    ChainStep(p, l, op, right, r, rest);
    assert Bare(e) + rest == Lean(l, p) + after;
  }

  lemma {:induction false} ComparisonParsed(e: Expr, rest: Tokens)
    requires Shaped(e) && e.BinaryOp? && Level(e) == COMPARISON && Follows(COMPARISON, First(rest))
    ensures ParseComparison(Bare(e) + rest) == Ok((e, rest))
    decreases e, 1
  {
    hide ParseComparison, ParseAdditive, Lean, First;
    var l, op, r := e.left, e.binary_op, e.right;
    var right := Lean(r, SUM) + rest;
    var after := [OperatorToken(op)] + right;
    Cons(OperatorToken(op), right);
    SumParsed(l, after);
    SumParsed(r, rest);
    ComparisonStep(Lean(l, SUM) + after, l, op, right, r, rest);
    ComparisonText(e, rest);
  }

  lemma ComparisonText(e: Expr, rest: Tokens)
    requires e.BinaryOp? && Level(e) == COMPARISON
    ensures Bare(e) + rest == Lean(e.left, SUM) + ([OperatorToken(e.binary_op)] + (Lean(e.right, SUM) + rest))
  {
    hide Lean;
  }

  lemma {:induction false} SumParsed(e: Expr, rest: Tokens)
    requires Shaped(e) && EndsSum(First(rest))
    ensures ParseAdditive(Lean(e, SUM) + rest) == Ok((e, rest))
    decreases e, 5
  {
    hide ParseAdditive, Lean;
    LeanParsed(e, SUM, rest);
    assert AdditiveTail(e, rest) == Ok((e, rest));
  }

  lemma NamedParsed(e: Expr, rest: Tokens)
    requires Shaped(e) && (e.Column? || e.Lit?) && EndsUnary(First(rest))
    ensures ParsePrimary(ExprTokens(e) + rest) == Ok((e, rest))
  {
    hide ParseUnary, ParsePrimary;
    NoSign(e);
    Joined(ExprTokens(e), rest);
    OutOfPrimary(ExprTokens(e) + rest);
    if e.Column? {
      ColumnPrinted(e.table, e.column, rest);
    } else {
      LiteralPrinted(e.literal, rest);
    }
  }

  lemma NoSign(e: Expr)
    requires Shaped(e) && (e.Column? || e.Lit?)
    ensures ExprTokens(e) != [] && First(ExprTokens(e)) != Minus
  {
    if e.Column? && e.table.Some? {
      assert ExprTokens(e)[0] == Identifier(e.table.value);
    }
  }

  lemma {:induction false} CallParsed(e: Expr, rest: Tokens)
    requires Shaped(e) && e.Function?
    ensures ParsePrimary(Bare(e) + rest) == Ok((e, rest))
    decreases e, 1
  {
    hide ParseArguments, LeanList, Shaped;
    var after := [RParen] + rest;
    var ts := LeanList(e.args) + after;
    assert Bare(e) + rest == [Identifier(e.func_name)] + ([LParen] + ts);
    ArgumentsParsed(e, after);
    CallOf(e.func_name, e.args, ts, rest);
  }

  lemma CallOf(name: string, args: seq<Expr>, ts: Tokens, rest: Tokens)
    requires ParseArguments(ts) == Ok((args, [RParen] + rest))
    ensures ParsePrimary([Identifier(name)] + ([LParen] + ts)) == Ok((Function(name, args), rest))
  {
    hide ParseArguments;
    Cons(Identifier(name), [LParen] + ts);
    Cons(LParen, ts);
    Cons(RParen, rest);
  }

  lemma {:induction false} ArgumentsParsed(e: Expr, after: Tokens)
    requires Shaped(e) && e.Function? && First(after) == RParen
    ensures ParseArguments(LeanList(e.args) + after) == Ok((e.args, after))
    decreases e, 0
  {
    hide ParseExprList, Lean;
    if e.args == [] {
      assert LeanList(e.args) + after == after;
    } else if e.args == [Wildcard] {
      Cons(Star, after);
    } else {
      LeanListHead(e.args, after);
      LeanListParsed(e.args, [], after);
      assert [] + e.args == e.args;
    }
  }

  lemma LeanHead(e: Expr, p: nat)
    requires Shaped(e)
    ensures Lean(e, p) != [] && First(Lean(e, p)) !in {RParen, Star}
    decreases e
  {
    if Level(e) < p {
      assert Lean(e, p)[0] == LParen;
    } else {
      match e
      case BinaryOp(l, op, r) =>
        LeanHead(l, LeftLevel(op));
        assert Bare(e)[0] == Lean(l, LeftLevel(op))[0];
      case Function(name, _) => assert Bare(e)[0] == Identifier(name);
      case UnaryOp(_, _) =>
      case _ => Head(e);
    }
  }

  lemma LeanListHead(es: seq<Expr>, rest: Tokens)
    requires es != [] && AllShaped(es)
    ensures First(LeanList(es) + rest) !in {RParen, Star}
  {
    LeanHead(es[0], OR);
    assert es[0] != Wildcard;
    if |es| > 1 {
      assert LeanList(es)[0] == Lean(es[0], OR)[0];
    }
  }

  lemma {:induction false} LeanListParsed(es: seq<Expr>, done: seq<Expr>, rest: Tokens)
    requires es != [] && AllShaped(es) && First(rest) == RParen
    ensures ParseExprList(LeanList(es) + rest, done) == Ok((done + es, rest))
    decreases es, 5
  {
    hide ParseOr, Lean, First, ParseExprList, Shaped, LeanList, ParseAt, GoOn, Follows;
    var e := es[0];
    NoWildcard(e);
    var after := if |es| == 1 then rest else [Comma] + (LeanList(es[1..]) + rest);
    LeanListText(es, rest);
    Cons(Comma, LeanList(es[1..]) + rest);
    ArgumentParsed(e, after);
    if |es| == 1 {
      LastArgument(Lean(e, OR) + after, e, done, after);
      assert es == [e];
    } else {
      NextArgument(Lean(e, OR) + after, e, done, LeanList(es[1..]) + rest);
      LeanListParsed(es[1..], done + [e], rest);
      assert (done + [e]) + es[1..] == done + es;
    }
  }

  lemma NoWildcard(e: Expr)
    requires Shaped(e)
    ensures e != Wildcard
  {
  }

  lemma {:induction false} ArgumentParsed(e: Expr, after: Tokens)
    requires Shaped(e) && First(after) in {RParen, Comma}
    ensures ParseOr(Lean(e, OR) + after) == Ok((e, after))
    decreases e, 5
  {
    hide ParseOr, Lean;
    OrEnds(e, after);
    LeanParsed(e, OR, after);
  }

  lemma LeanListText(es: seq<Expr>, rest: Tokens)
    requires es != [] && es[0] != Wildcard
    ensures |es| == 1 ==> LeanList(es) == Lean(es[0], OR)
    ensures |es| > 1 ==> LeanList(es) + rest == Lean(es[0], OR) + ([Comma] + (LeanList(es[1..]) + rest))
  {
    if |es| > 1 {
      CommaText(Lean(es[0], OR), LeanList(es[1..]), rest);
    }
  }

  lemma CommaText(a: Tokens, b: Tokens, rest: Tokens)
    ensures (a + [Comma] + b) + rest == a + ([Comma] + (b + rest))
  {
  }

  lemma LastArgument(ts: Tokens, e: Expr, done: seq<Expr>, rest: Tokens)
    requires ParseOr(ts) == Ok((e, rest)) && First(rest) != Comma
    ensures ParseExprList(ts, done) == Ok((done + [e], rest))
  {
    hide ParseOr;
  }

  lemma NextArgument(ts: Tokens, e: Expr, done: seq<Expr>, rest: Tokens)
    requires ParseOr(ts) == Ok((e, [Comma] + rest))
    ensures ParseExprList(ts, done) == ParseExprList(rest, done + [e])
  {
    hide ParseOr;
    Cons(Comma, rest);
  }

  lemma OrEnds(e: Expr, rest: Tokens)
    requires First(rest) in {RParen, Comma, Eof}
    ensures Follows(OR, First(rest)) && GoOn(OR, e, rest) == Ok((e, rest))
  {
  }

  // Written with no parentheses but the needed ones, before anything that ends
  // an expression, every expression the parser can build is read as itself.
  lemma LeanRoundTrip(e: Expr, rest: Tokens)
    requires Shaped(e) && EndsOr(First(rest))
    ensures ParseOr(Bare(e) + rest) == Ok((e, rest))
  {
    hide ParseOr, Bare;
    LeanParsed(e, OR, rest);
    assert OrTail(e, rest) == Ok((e, rest));
  }

  // ---- Chains ----

  // Operands joined by operators, grouped to the left.
  function LeftFold(e: Expr, tail: seq<(BinaryOperator, Expr)>): Expr
    decreases |tail|
  {
    if tail == [] then e else LeftFold(BinaryOp(e, tail[0].0, tail[0].1), tail[1..])
  }

  function TailTokens(tail: seq<(BinaryOperator, Expr)>, p: nat): Tokens
    decreases |tail|
  {
    if tail == [] then []
    else [OperatorToken(tail[0].0)] + Lean(tail[0].1, p + 1) + TailTokens(tail[1..], p)
  }

  // The operators of one level, which is no comparison.
  predicate OneLevel(tail: seq<(BinaryOperator, Expr)>, p: nat)
  {
    p != COMPARISON && forall i :: 0 <= i < |tail| ==> OperatorLevel(tail[i].0) == p
  }

  lemma {:induction false} FoldText(e: Expr, tail: seq<(BinaryOperator, Expr)>, p: nat)
    requires OneLevel(tail, p) && Level(e) >= p
    ensures Bare(LeftFold(e, tail)) == Bare(e) + TailTokens(tail, p) && Level(LeftFold(e, tail)) >= p
    decreases |tail|
  {
    if tail == [] {
      assert Bare(e) + [] == Bare(e);
    } else {
      var (op, x) := tail[0];
      var first := BinaryOp(e, op, x);
      assert OneLevel(tail[1..], p);
      FoldText(first, tail[1..], p);
      assert Bare(first) == Bare(e) + [OperatorToken(op)] + Lean(x, p + 1);
      hide Bare, Lean;
      assert Bare(e) + [OperatorToken(op)] + Lean(x, p + 1) + TailTokens(tail[1..], p)
          == Bare(e) + ([OperatorToken(op)] + Lean(x, p + 1) + TailTokens(tail[1..], p));
    }
  }

  lemma {:induction false} FoldShaped(e: Expr, tail: seq<(BinaryOperator, Expr)>)
    requires Shaped(e) && forall i :: 0 <= i < |tail| ==> Shaped(tail[i].1)
    ensures Shaped(LeftFold(e, tail))
    decreases |tail|
  {
    if tail != [] {
      FoldShaped(BinaryOp(e, tail[0].0, tail[0].1), tail[1..]);
    }
  }

  // A chain of operands joined by OR, by AND, by plus and minus, or by star
  // and slash groups to the left; each operand that binds more tightly is taken
  // whole, without parentheses.
  lemma ChainGroupsLeft(e: Expr, tail: seq<(BinaryOperator, Expr)>, p: nat, rest: Tokens)
    requires OneLevel(tail, p) && Level(e) >= p && EndsOr(First(rest))
    requires Shaped(e) && forall i :: 0 <= i < |tail| ==> Shaped(tail[i].1)
    ensures ParseOr(Bare(e) + TailTokens(tail, p) + rest) == Ok((LeftFold(e, tail), rest))
  {
    hide ParseOr, Bare, TailTokens;
    FoldText(e, tail, p);
    FoldShaped(e, tail);
    LeanRoundTrip(LeftFold(e, tail), rest);
  }

  // ---- At tokens ----

  const A := Column(None, "a")
  const B := Column(None, "b")
  const C := Column(None, "c")

  // a OR b AND c; NOT a = b; a + b * c; a < b + c; a - b - c; - a * b
  lemma Examples(rest: Tokens)
    requires EndsOr(First(rest))
    ensures var a, b, c := Identifier("a"), Identifier("b"), Identifier("c");
      && ParseOr([a, KwOr, b, KwAnd, c] + rest) == Ok((BinaryOp(A, Or, BinaryOp(B, And, C)), rest))
      && ParseOr([KwNot, a, OpEq, b] + rest) == Ok((UnaryOp(Not, BinaryOp(A, Eq, B)), rest))
      && ParseOr([a, Plus, b, Star, c] + rest) == Ok((BinaryOp(A, Add, BinaryOp(B, Mul, C)), rest))
      && ParseOr([a, OpLt, b, Plus, c] + rest) == Ok((BinaryOp(A, Lt, BinaryOp(B, Add, C)), rest))
      && ParseOr([a, Minus, b, Minus, c] + rest) == Ok((BinaryOp(BinaryOp(A, Sub, B), Sub, C), rest))
      && ParseOr([Minus, a, Star, b] + rest) == Ok((BinaryOp(UnaryOp(Neg, A), Mul, B), rest))
  {
    hide ParseOr, Bare;
    var a, b, c := Identifier("a"), Identifier("b"), Identifier("c");
    OneName("a");
    OneName("b");
    OneName("c");
    RightNested(A, Or, B, And, C, a, b, c);
    RightNested(A, Add, B, Mul, C, a, b, c);
    RightNested(A, Lt, B, Add, C, a, b, c);
    LeftNested(A, Sub, B, Sub, C, a, b, c);
    Signed(A, Eq, B, a, b);
    Signed(A, Mul, B, a, b);
    LeanRoundTrip(BinaryOp(A, Or, BinaryOp(B, And, C)), rest);
    LeanRoundTrip(UnaryOp(Not, BinaryOp(A, Eq, B)), rest);
    LeanRoundTrip(BinaryOp(A, Add, BinaryOp(B, Mul, C)), rest);
    LeanRoundTrip(BinaryOp(A, Lt, BinaryOp(B, Add, C)), rest);
    LeanRoundTrip(BinaryOp(BinaryOp(A, Sub, B), Sub, C), rest);
    LeanRoundTrip(BinaryOp(UnaryOp(Neg, A), Mul, B), rest);
  }

  lemma OneName(name: string)
    ensures OneToken(Column(None, name), Identifier(name))
  {
  }

  predicate OneToken(e: Expr, t: Token)
  {
    Level(e) == PRIMARY && Bare(e) == [t]
  }

  lemma RightNested(a: Expr, op: BinaryOperator, b: Expr, op': BinaryOperator, c: Expr, x: Token, y: Token, z: Token)
    requires OneToken(a, x) && OneToken(b, y) && OneToken(c, z) && OperatorLevel(op') >= RightLevel(op)
    ensures Bare(BinaryOp(a, op, BinaryOp(b, op', c))) == [x, OperatorToken(op), y, OperatorToken(op'), z]
  {
    BareBinary(b, op', c);
    BareBinary(a, op, BinaryOp(b, op', c));
  }

  lemma LeftNested(a: Expr, op: BinaryOperator, b: Expr, op': BinaryOperator, c: Expr, x: Token, y: Token, z: Token)
    requires OneToken(a, x) && OneToken(b, y) && OneToken(c, z) && OperatorLevel(op) >= LeftLevel(op')
    ensures Bare(BinaryOp(BinaryOp(a, op, b), op', c)) == [x, OperatorToken(op), y, OperatorToken(op'), z]
  {
    BareBinary(a, op, b);
    BareBinary(BinaryOp(a, op, b), op', c);
  }

  lemma Signed(a: Expr, op: BinaryOperator, b: Expr, x: Token, y: Token)
    requires OneToken(a, x) && OneToken(b, y)
    ensures OperatorLevel(op) == COMPARISON ==>
      Bare(UnaryOp(Not, BinaryOp(a, op, b))) == [KwNot, x, OperatorToken(op), y]
    ensures OperatorLevel(op) == PRODUCT ==>
      Bare(BinaryOp(UnaryOp(Neg, a), op, b)) == [Minus, x, OperatorToken(op), y]
  {
    BareBinary(a, op, b);
    assert Bare(UnaryOp(Neg, a)) == [Minus, x];
    if OperatorLevel(op) == PRODUCT {
      BareBinary(UnaryOp(Neg, a), op, b);
    }
  }

  lemma BareBinary(l: Expr, op: BinaryOperator, r: Expr)
    requires Level(l) >= LeftLevel(op) && Level(r) >= RightLevel(op)
    ensures Bare(BinaryOp(l, op, r)) == Bare(l) + [OperatorToken(op)] + Bare(r)
  {
  }
}
