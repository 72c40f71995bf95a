// Everything the lexer and the parser can return: the statements the round
// trip is about.
module SqlParsed {
  import opened Wrappers
  import opened Decimal
  import opened Ast
  import opened SqlTokens
  import opened SqlStatements
  import opened SqlGrammar
  import opened SqlPrinted
  import opened SqlStatementRoundTrip
  import opened SqlLexing
  import opened SqlText

  // ---- The lexer's tokens ----

  predicate GoodToken(t: Token)
  {
    match t
    case Identifier(w) => Name(w)
    case IntegerLit(n) => 0 <= n <= MAX_INT64
    case StringLit(s) => '\'' !in s
    case _ => true
  }

  predicate AllGood(ts: Tokens)
  {
    forall i :: 0 <= i < |ts| ==> GoodToken(ts[i])
  }

  lemma {:induction false} WordPrefix(s: string)
    ensures forall i :: 0 <= i < WordLength(s) ==> WordChar(s[i])
  {
    if s != [] && WordChar(s[0]) {
      WordPrefix(s[1..]);
      forall i | 0 <= i < WordLength(s) ensures WordChar(s[i]) {
        assert i > 0 ==> s[i] == s[1..][i - 1];
      }
    }
  }

  lemma {:induction false} QuotedPrefix(s: string)
    requires QuotedLength(s).Some?
    ensures '\'' !in s[..QuotedLength(s).value]
  {
    if s[0] != '\'' {
      QuotedPrefix(s[1..]);
      assert s[..QuotedLength(s).value] == [s[0]] + s[1..][..QuotedLength(s[1..]).value];
    }
  }

  lemma KeywordGood(w: string)
    ensures KeywordOf(w).Some? ==> GoodToken(KeywordOf(w).value)
  {
  }

  lemma NextTokenGood(s: string)
    requires s != [] && NextToken(s).Ok?
    ensures GoodToken(NextToken(s).value.0)
  {
    hide KeywordOf, WordLength, QuotedLength, DigitLength, NatValue;
    var c := s[0];
    if c == '\'' && QuotedLength(s[1..]).Some? {
      QuotedPrefix(s[1..]);
    } else if IsAlpha(c) || c == '_' {
      WordPrefix(s);
      WordLengthPositive(s);
      var w := s[..WordLength(s)];
      assert w[0] == c;
      KeywordGood(Upper(w));
    }
  }

  lemma WordLengthPositive(s: string)
    requires s != [] && WordChar(s[0])
    ensures WordLength(s) > 0
  {
  }

  lemma {:induction false} LexGood(s: string)
    requires Lex(s).Ok?
    ensures AllGood(Lex(s).value)
    decreases |s|
  {
    hide NextToken;
    if s != [] {
      if IsSpace(s[0]) {
        LexGood(s[1..]);
      } else {
        hide GoodToken;
        NextTokenGood(s);
        LexGood(NextToken(s).value.1);
      }
    }
  }

  // ---- The parser's expressions ----

  // No Float literal.
  predicate Plain(e: Expr)
  {
    match e
    case Lit(v) => !v.Float?
    case BinaryOp(l, _, r) => Plain(l) && Plain(r)
    case UnaryOp(_, x) => Plain(x)
    case Function(_, args) => forall i :: 0 <= i < |args| ==> Plain(args[i])
    case _ => true
  }

  predicate Built(e: Expr)
  {
    Shaped(e) && (Plain(e) ==> Lexable(e))
  }

  predicate AllBuilt(es: seq<Expr>)
  {
    forall i :: 0 <= i < |es| ==> Built(es[i])
  }

  predicate GoodExpr(p: Parsed<Expr>)
  {
    p.Ok? ==> Built(p.value.0) && AllGood(p.value.1)
  }

  predicate GoodList(p: Parsed<seq<Expr>>)
  {
    p.Ok? ==> AllBuilt(p.value.0) && AllGood(p.value.1)
  }

  lemma RestGood(ts: Tokens)
    requires AllGood(ts)
    ensures AllGood(Rest(ts)) && GoodToken(First(ts))
  {
  }

  lemma BuiltBinary(l: Expr, op: BinaryOperator, r: Expr)
    requires Built(l) && Built(r)
    ensures Built(BinaryOp(l, op, r))
  {
  }

  lemma BuiltUnary(op: UnaryOperator, x: Expr)
    requires Built(x)
    ensures Built(UnaryOp(op, x))
  {
  }

  lemma BuiltFunction(name: string, args: seq<Expr>)
    requires Name(name) && (args == [Wildcard] || AllBuilt(args))
    ensures Built(Function(name, args))
  {
    hide Name;
    var f := Function(name, args);
    if args == [Wildcard] {
      assert Plain(Wildcard) && Lexable(Wildcard);
    } else {
      assert forall i :: 0 <= i < |args| ==> Built(args[i]);
      hide Shaped;
      assert AllShaped(args);
    }
  }

  lemma {:induction false} OrBuilt(ts: Tokens)
    requires AllGood(ts)
    ensures GoodExpr(ParseOr(ts))
    decreases |ts|, 7
  {
    hide ParseAnd, OrTail, Built, AllGood;
    AndBuilt(ts);
    var l := ParseAnd(ts);
    if l.Ok? {
      OrTailBuilt(l.value.0, l.value.1);
    }
  }

  lemma {:induction false} OrTailBuilt(left: Expr, ts: Tokens)
    requires Built(left) && AllGood(ts)
    ensures GoodExpr(OrTail(left, ts))
    decreases |ts|, 0
  {
    hide ParseAnd, Built, AllGood;
    if First(ts) == KwOr {
      RestGood(ts);
      AndBuilt(Rest(ts));
      var r := ParseAnd(Rest(ts));
      if r.Ok? {
        BuiltBinary(left, Or, r.value.0);
        OrTailBuilt(BinaryOp(left, Or, r.value.0), r.value.1);
      }
    }
  }

  lemma {:induction false} AndBuilt(ts: Tokens)
    requires AllGood(ts)
    ensures GoodExpr(ParseAnd(ts))
    decreases |ts|, 6
  {
    hide ParseNot, AndTail, Built, AllGood;
    NotBuilt(ts);
    var l := ParseNot(ts);
    if l.Ok? {
      AndTailBuilt(l.value.0, l.value.1);
    }
  }

  lemma {:induction false} AndTailBuilt(left: Expr, ts: Tokens)
    requires Built(left) && AllGood(ts)
    ensures GoodExpr(AndTail(left, ts))
    decreases |ts|, 0
  {
    hide ParseNot, Built, AllGood;
    if First(ts) == KwAnd {
      RestGood(ts);
      NotBuilt(Rest(ts));
      var r := ParseNot(Rest(ts));
      if r.Ok? {
        BuiltBinary(left, And, r.value.0);
        AndTailBuilt(BinaryOp(left, And, r.value.0), r.value.1);
      }
    }
  }

  lemma {:induction false} NotBuilt(ts: Tokens)
    requires AllGood(ts)
    ensures GoodExpr(ParseNot(ts))
    decreases |ts|, 5
  {
    hide ParseComparison, Built, AllGood;
    RestGood(ts);
    if First(ts) == KwNot {
      NotBuilt(Rest(ts));
      var x := ParseNot(Rest(ts));
      if x.Ok? {
        BuiltUnary(Not, x.value.0);
      }
    } else {
      ComparisonBuilt(ts);
    }
  }

  lemma {:induction false} ComparisonBuilt(ts: Tokens)
    requires AllGood(ts)
    ensures GoodExpr(ParseComparison(ts))
    decreases |ts|, 4
  {
    hide ParseAdditive, Built, AllGood;
    SumBuilt(ts);
    var l := ParseAdditive(ts);
    if l.Ok? && ComparisonOf(First(l.value.1)).Some? {
      RestGood(l.value.1);
      SumBuilt(Rest(l.value.1));
      var r := ParseAdditive(Rest(l.value.1));
      if r.Ok? {
        BuiltBinary(l.value.0, ComparisonOf(First(l.value.1)).value, r.value.0);
      }
    }
  }

  lemma {:induction false} SumBuilt(ts: Tokens)
    requires AllGood(ts)
    ensures GoodExpr(ParseAdditive(ts))
    decreases |ts|, 3
  {
    hide ParseMultiplicative, AdditiveTail, Built, AllGood;
    ProductBuilt(ts);
    var l := ParseMultiplicative(ts);
    if l.Ok? {
      SumTailBuilt(l.value.0, l.value.1);
    }
  }

  lemma {:induction false} SumTailBuilt(left: Expr, ts: Tokens)
    requires Built(left) && AllGood(ts)
    ensures GoodExpr(AdditiveTail(left, ts))
    decreases |ts|, 0
  {
    hide ParseMultiplicative, Built, AllGood;
    var op := AdditiveOf(First(ts));
    if op.Some? {
      RestGood(ts);
      ProductBuilt(Rest(ts));
      var r := ParseMultiplicative(Rest(ts));
      if r.Ok? {
        BuiltBinary(left, op.value, r.value.0);
        SumTailBuilt(BinaryOp(left, op.value, r.value.0), r.value.1);
      }
    }
  }

  lemma {:induction false} ProductBuilt(ts: Tokens)
    requires AllGood(ts)
    ensures GoodExpr(ParseMultiplicative(ts))
    decreases |ts|, 2
  {
    hide ParseUnary, MultiplicativeTail, Built, AllGood;
    UnaryBuilt(ts);
    var l := ParseUnary(ts);
    if l.Ok? {
      ProductTailBuilt(l.value.0, l.value.1);
    }
  }

  lemma {:induction false} ProductTailBuilt(left: Expr, ts: Tokens)
    requires Built(left) && AllGood(ts)
    ensures GoodExpr(MultiplicativeTail(left, ts))
    decreases |ts|, 0
  {
    hide ParseUnary, Built, AllGood;
    var op := MultiplicativeOf(First(ts));
    if op.Some? {
      RestGood(ts);
      UnaryBuilt(Rest(ts));
      var r := ParseUnary(Rest(ts));
      if r.Ok? {
        BuiltBinary(left, op.value, r.value.0);
        ProductTailBuilt(BinaryOp(left, op.value, r.value.0), r.value.1);
      }
    }
  }

  lemma {:induction false} UnaryBuilt(ts: Tokens)
    requires AllGood(ts)
    ensures GoodExpr(ParseUnary(ts))
    decreases |ts|, 1
  {
    hide ParsePrimary, Built, AllGood;
    RestGood(ts);
    if First(ts) == Minus {
      UnaryBuilt(Rest(ts));
      var x := ParseUnary(Rest(ts));
      if x.Ok? {
        BuiltUnary(Neg, x.value.0);
      }
    } else {
      PrimaryBuilt(ts);
    }
  }

  lemma {:induction false} PrimaryBuilt(ts: Tokens)
    requires AllGood(ts)
    ensures GoodExpr(ParsePrimary(ts))
    decreases |ts|, 0
  {
    hide ParseOr, AfterName, AllGood, Name;
    RestGood(ts);
    if First(ts) == LParen {
      OrBuilt(Rest(ts));
      var x := ParseOr(Rest(ts));
      if x.Ok? {
        RestGood(x.value.1);
      }
    } else if First(ts).Identifier? {
      NameBuilt(First(ts).text, Rest(ts));
    }
  }

  lemma {:induction false} NameBuilt(name: string, ts: Tokens)
    requires Name(name) && AllGood(ts)
    ensures GoodExpr(AfterName(name, ts))
    decreases |ts|, 0
  {
    hide ParseArguments, AllGood, Name, AllBuilt;
    RestGood(ts);
    if First(ts) == LParen {
      ArgumentsBuilt(Rest(ts));
      var args := ParseArguments(Rest(ts));
      if args.Ok? {
        RestGood(args.value.1);
        BuiltFunction(name, args.value.0);
      }
    } else if First(ts) == Dot {
      RestGood(Rest(ts));
    }
  }

  lemma {:induction false} ArgumentsBuilt(ts: Tokens)
    requires AllGood(ts)
    ensures var p := ParseArguments(ts); p.Ok? ==>
      (p.value.0 == [Wildcard] || AllBuilt(p.value.0)) && AllGood(p.value.1)
    decreases |ts|, 9
  {
    hide ParseExprList, AllGood, Built;
    RestGood(ts);
    if First(ts) != RParen && First(ts) != Star {
      ExprListBuilt(ts, []);
    }
  }

  lemma {:induction false} ExprListBuilt(ts: Tokens, exprs: seq<Expr>)
    requires AllGood(ts) && AllBuilt(exprs)
    ensures GoodList(ParseExprList(ts, exprs))
    decreases |ts|, 8
  {
    hide ParseOr, AllGood, Built;
    OrBuilt(ts);
    var e := ParseOr(ts);
    if e.Ok? {
      RestGood(e.value.1);
      if First(e.value.1) == Comma {
        ExprListBuilt(Rest(e.value.1), exprs + [e.value.0]);
      }
    }
  }

  // ---- The parser's statements ----

  predicate PlainItem(i: SelectItem)
  {
    i.ItemExpression? ==> Plain(i.expr)
  }

  predicate PlainStatement(s: SelectStatement)
  {
    && (forall i :: 0 <= i < |s.columns| ==> PlainItem(s.columns[i]))
    && (forall i :: 0 <= i < |s.joins| ==> Plain(s.joins[i].condition))
    && (s.where_clause.Some? ==> Plain(s.where_clause.value)) && (s.having.Some? ==> Plain(s.having.value))
    && (forall i :: 0 <= i < |s.group_by| ==> Plain(s.group_by[i]))
    && (forall i :: 0 <= i < |s.order_by| ==> Plain(s.order_by[i].expression))
  }

  predicate BuiltItem(i: SelectItem)
  {
    ShapedItem(i) && (PlainItem(i) ==> LexableItem(i))
  }

  predicate BuiltJoin(j: JoinClause)
  {
    Built(j.condition) && LexableTable(j.table)
  }

  lemma AliasBuilt(ts: Tokens)
    requires AllGood(ts)
    ensures var p := ParseAlias(ts); p.Ok? ==> (p.value.0.Some? ==> Name(p.value.0.value)) && AllGood(p.value.1)
  {
    hide AllGood, Name;
    RestGood(ts);
    RestGood(Rest(ts));
  }

  lemma ItemBuilt(ts: Tokens)
    requires AllGood(ts)
    ensures var p := ParseSelectItem(ts); p.Ok? ==> BuiltItem(p.value.0) && AllGood(p.value.1)
  {
    hide ParseOr, ParseAlias, AllGood, Name;
    RestGood(ts);
    if First(ts) != Star {
      OrBuilt(ts);
      var e := ParseOr(ts);
      if e.Ok? {
        AliasBuilt(e.value.1);
      }
    }
  }

  lemma {:induction false} SelectListBuilt(ts: Tokens, items: seq<SelectItem>)
    requires AllGood(ts) && (forall i :: 0 <= i < |items| ==> BuiltItem(items[i]))
    ensures var p := ParseSelectList(ts, items);
      p.Ok? ==> p.value.0 != [] && (forall i :: 0 <= i < |p.value.0| ==> BuiltItem(p.value.0[i])) && AllGood(p.value.1)
    decreases |ts|
  {
    hide ParseSelectItem, AllGood, BuiltItem;
    ItemBuilt(ts);
    var i := ParseSelectItem(ts);
    if i.Ok? {
      RestGood(i.value.1);
      if First(i.value.1) == Comma {
        SelectListBuilt(Rest(i.value.1), items + [i.value.0]);
      }
    }
  }

  lemma TableBuilt(ts: Tokens)
    requires AllGood(ts)
    ensures var p := ParseTableRef(ts); p.Ok? ==> LexableTable(p.value.0) && AllGood(p.value.1)
  {
    hide ParseAlias, AllGood, Name;
    RestGood(ts);
    AliasBuilt(Rest(ts));
  }

  lemma JoinBuilt(ts: Tokens)
    requires AllGood(ts)
    ensures var p := ParseJoin(ts); p.Ok? ==> BuiltJoin(p.value.0) && AllGood(p.value.1)
  {
    hide ParseOr, ParseTableRef, AllGood, Built, LexableTable;
    RestGood(ts);
    RestGood(Rest(ts));
    var after := if First(ts) == KwJoin then Rest(ts) else Rest(Rest(ts));
    TableBuilt(after);
    var table := ParseTableRef(after);
    if table.Ok? {
      RestGood(table.value.1);
      OrBuilt(Rest(table.value.1));
    }
  }

  lemma {:induction false} JoinsBuilt(ts: Tokens, joins: seq<JoinClause>)
    requires AllGood(ts) && (forall i :: 0 <= i < |joins| ==> BuiltJoin(joins[i]))
    ensures var p := ParseJoins(ts, joins); p.Ok? ==>
      (forall i :: 0 <= i < |p.value.0| ==> BuiltJoin(p.value.0[i])) && AllGood(p.value.1)
    decreases |ts|
  {
    hide ParseJoin, AllGood, BuiltJoin;
    if JoinTypeOf(First(ts)).Some? {
      JoinBuilt(ts);
      var j := ParseJoin(ts);
      if j.Ok? {
        JoinsBuilt(j.value.1, joins + [j.value.0]);
      }
    }
  }

  lemma ClauseBuilt(keyword: Token, ts: Tokens)
    requires AllGood(ts)
    ensures var p := ParseClause(keyword, ts); p.Ok? ==>
      (p.value.0.Some? ==> Built(p.value.0.value)) && AllGood(p.value.1)
  {
    hide ParseOr, AllGood, Built;
    RestGood(ts);
    OrBuilt(Rest(ts));
  }

  lemma GroupBuilt(ts: Tokens)
    requires AllGood(ts)
    ensures GoodList(ParseGroupBy(ts))
  {
    hide ParseExprList, AllGood, Built;
    RestGood(ts);
    RestGood(Rest(ts));
    ExprListBuilt(Rest(Rest(ts)), []);
  }

  lemma OrderItemBuilt(ts: Tokens)
    requires AllGood(ts)
    ensures var p := ParseOrderItem(ts); p.Ok? ==> Built(p.value.0.expression) && AllGood(p.value.1)
  {
    hide ParseOr, AllGood, Built;
    OrBuilt(ts);
    if ParseOr(ts).Ok? {
      RestGood(ParseOr(ts).value.1);
    }
  }

  lemma {:induction false} OrderListBuilt(ts: Tokens, items: seq<OrderByItem>)
    requires AllGood(ts) && (forall i :: 0 <= i < |items| ==> Built(items[i].expression))
    ensures var p := ParseOrderList(ts, items);
      p.Ok? ==> (forall i :: 0 <= i < |p.value.0| ==> Built(p.value.0[i].expression)) && AllGood(p.value.1)
    decreases |ts|
  {
    hide ParseOrderItem, AllGood, Built;
    OrderItemBuilt(ts);
    var i := ParseOrderItem(ts);
    if i.Ok? {
      RestGood(i.value.1);
      if First(i.value.1) == Comma {
        OrderListBuilt(Rest(i.value.1), items + [i.value.0]);
      }
    }
  }

  lemma OrderBuilt(ts: Tokens)
    requires AllGood(ts)
    ensures var p := ParseOrderBy(ts); p.Ok? ==>
      (forall i :: 0 <= i < |p.value.0| ==> Built(p.value.0[i].expression)) && AllGood(p.value.1)
  {
    hide ParseOrderList, AllGood, Built;
    RestGood(ts);
    RestGood(Rest(ts));
    OrderListBuilt(Rest(Rest(ts)), []);
  }

  lemma LimitBuilt(ts: Tokens)
    requires AllGood(ts)
    ensures var p := ParseLimit(ts); p.Ok? ==> (p.value.0.Some? ==> p.value.0.value <= MAX_INT64)
  {
    hide AllGood;
    RestGood(ts);
    RestGood(Rest(ts));
  }

  predicate BuiltClauses(c: Clauses)
  {
    && (c.where_clause.Some? ==> Built(c.where_clause.value)) && AllBuilt(c.group_by)
    && (c.having.Some? ==> Built(c.having.value))
    && (forall i :: 0 <= i < |c.order_by| ==> Built(c.order_by[i].expression))
    && (c.limit.Some? ==> c.limit.value <= MAX_INT64)
  }

  lemma ClausesBuilt(ts: Tokens)
    requires AllGood(ts)
    ensures var p := ParseClauses(ts); p.Ok? ==> BuiltClauses(p.value.0)
  {
    hide ParseClause, ParseGroupBy, ParseOrderBy, ParseLimit, AllGood, Built;
    ClauseBuilt(KwWhere, ts);
    var w := ParseClause(KwWhere, ts);
    if w.Ok? {
      GroupBuilt(w.value.1);
      var g := ParseGroupBy(w.value.1);
      if g.Ok? {
        ClauseBuilt(KwHaving, g.value.1);
        var h := ParseClause(KwHaving, g.value.1);
        if h.Ok? {
          OrderBuilt(h.value.1);
          var o := ParseOrderBy(h.value.1);
          if o.Ok? {
            LimitBuilt(o.value.1);
          }
        }
      }
    }
  }

  predicate BuiltStatement(s: SelectStatement)
  {
    && s.columns != [] && (forall i :: 0 <= i < |s.columns| ==> BuiltItem(s.columns[i])) && LexableTable(s.source)
    && (forall i :: 0 <= i < |s.joins| ==> BuiltJoin(s.joins[i])) && BuiltClauses(ClausesOf(s))
  }

  lemma StatementBuilt(ts: Tokens)
    requires AllGood(ts) && Parse(ts).Ok?
    ensures BuiltStatement(Parse(ts).value)
  {
    hide ParseSelectList, ParseTableRef, ParseJoins, ParseClauses, AllGood, BuiltItem, BuiltJoin, LexableTable,
         BuiltClauses;
    RestGood(ts);
    SelectListBuilt(Rest(ts), []);
    var columns := ParseSelectList(Rest(ts), []).value;
    RestGood(columns.1);
    TableBuilt(Rest(columns.1));
    var source := ParseTableRef(Rest(columns.1)).value;
    JoinsBuilt(source.1, []);
    ClausesBuilt(ParseJoins(source.1, []).value.1);
  }

  lemma BuiltIsShaped(s: SelectStatement)
    requires BuiltStatement(s)
    ensures ShapedStatement(s)
  {
    hide Shaped, Lexable, LexableItem, LexableTable, Plain;
  }

  lemma BuiltIsLexable(s: SelectStatement)
    requires BuiltStatement(s) && PlainStatement(s)
    ensures LexableStatement(s)
  {
    hide Shaped, ShapedItem, Lexable, LexableItem, LexableTable, Plain, PlainItem;
  }

  // ---- The law, for everything the parser returns ----

  // Text that parses to a statement without Float literals: its canonical
  // text parses to it again just when its NOTs are placed.
  lemma ParsedRoundTrip(text: string, render: real -> string)
    requires Lex(text).Ok? && Parse(Lex(text).value).Ok? && PlainStatement(Parse(Lex(text).value).value)
    ensures var s := Parse(Lex(text).value).value; Reread(s, render) == Ok(s) <==> NotsPlaced(s)
  {
    hide Lex, Parse, AllGood, BuiltStatement, PlainStatement, ShapedStatement, LexableStatement, Reread, NotsPlaced;
    LexGood(text);
    StatementBuilt(Lex(text).value);
    var s := Parse(Lex(text).value).value;
    BuiltIsShaped(s);
    BuiltIsLexable(s);
    SqlRoundTrip(s, render);
  }

  // (NOT a) = b prints as NOT a = b, which is another statement.
  lemma NotUnderComparisonIsLost(a: string, b: string, source: TableRef, render: real -> string)
    requires Name(a) && Name(b) && LexableTable(source)
    ensures var e := BinaryOp(UnaryOp(Not, Column(None, a)), Eq, Column(None, b));
      var s := SelectStatement([ItemWildcard], source, [], Some(e), [], None, [], None);
      Reread(s, render) != Ok(s)
  {
    hide Reread, Name, LexableTable, Parse, Lex;
    var x, y := Column(None, a), Column(None, b);
    assert Lexable(x) && Shaped(x);
    assert Lexable(y) && Shaped(y);
    assert !Tight(UnaryOp(Not, x));
    var e := BinaryOp(UnaryOp(Not, x), Eq, y);
    var s := SelectStatement([ItemWildcard], source, [], Some(e), [], None, [], None);
    assert Shaped(UnaryOp(Not, x)) && Lexable(UnaryOp(Not, x));
    assert Shaped(e) && Lexable(e) && !Loose(e);
    hide Shaped, Lexable, Loose;
    assert ShapedStatement(s) && LexableStatement(s) && !NotsPlaced(s);
    SqlRoundTrip(s, render);
  }
}
