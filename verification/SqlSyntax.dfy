// Tokens, statements and the recursive-descent grammar of SELECT
// (parser/token.hpp, parser/ast.hpp, parser/parser.cpp), on token lists.
module SqlTokens {
  datatype Token =
    | KwSelect | KwFrom | KwWhere | KwJoin | KwInner | KwLeft | KwRight | KwCross | KwOn
    | KwAnd | KwOr | KwNot | KwAs | KwOrder | KwBy | KwGroup | KwLimit | KwAsc | KwDesc | KwHaving
    | KwNull | KwTrue | KwFalse
    | Identifier(text: string) | IntegerLit(value: int) | FloatLit(number: real) | StringLit(text: string)
    | OpEq | OpNeq | OpLt | OpGt | OpLte | OpGte | Plus | Minus | Star | Slash
    | Comma | Dot | LParen | RParen
    | Eof
}

module SqlStatements {
  import opened Wrappers
  import opened Ast

  datatype SelectItem =
    | ItemExpression(expr: Expr, alias: Option<string>)
    | ItemWildcard
    | ItemQualifiedWildcard(table: string)

  datatype TableRef = TableRef(table_name: string, alias: Option<string>)

  datatype JoinType = Inner | Left | Right | Cross

  datatype JoinClause = JoinClause(join_type: JoinType, table: TableRef, condition: Expr)

  datatype OrderByItem = OrderByItem(expression: Expr, ascending: bool)

  datatype SelectStatement = SelectStatement(
    columns: seq<SelectItem>,
    source: TableRef,
    joins: seq<JoinClause>,
    where_clause: Option<Expr>,
    group_by: seq<Expr>,
    having: Option<Expr>,
    order_by: seq<OrderByItem>,
    limit: Option<nat>)
}

module SqlGrammar {
  import opened Wrappers
  import opened Ast
  import opened SqlTokens
  import opened SqlStatements

  type Tokens = seq<Token>

  type Parsed<T> = Result<(T, Tokens)>

  // Past the last token there is only Eof.
  function First(ts: Tokens): Token
  {
    if ts == [] then Eof else ts[0]
  }

  function Rest(ts: Tokens): (r: Tokens)
    ensures |r| <= |ts| && (ts != [] ==> |r| == |ts| - 1)
  {
    if ts == [] then [] else ts[1..]
  }

  function Unexpected<T>(): Parsed<T>
  {
    Err("unexpected token during parse")
  }

  // ---- Expressions, by precedence ----

  function ParseOr(ts: Tokens): (r: Parsed<Expr>)
    ensures r.Ok? ==> |r.value.1| < |ts|
    decreases |ts|, 7
  {
    var l := ParseAnd(ts);
    if l.Err? then l else OrTail(l.value.0, l.value.1)
  }

  function OrTail(left: Expr, ts: Tokens): (r: Parsed<Expr>)
    ensures r.Ok? ==> |r.value.1| <= |ts|
    decreases |ts|, 0
  {
    if First(ts) != KwOr then Ok((left, ts))
    else
      var r := ParseAnd(Rest(ts));
      if r.Err? then r else OrTail(BinaryOp(left, Or, r.value.0), r.value.1)
  }

  function ParseAnd(ts: Tokens): (r: Parsed<Expr>)
    ensures r.Ok? ==> |r.value.1| < |ts|
    decreases |ts|, 6
  {
    var l := ParseNot(ts);
    if l.Err? then l else AndTail(l.value.0, l.value.1)
  }

  function AndTail(left: Expr, ts: Tokens): (r: Parsed<Expr>)
    ensures r.Ok? ==> |r.value.1| <= |ts|
    decreases |ts|, 0
  {
    if First(ts) != KwAnd then Ok((left, ts))
    else
      var r := ParseNot(Rest(ts));
      if r.Err? then r else AndTail(BinaryOp(left, And, r.value.0), r.value.1)
  }

  function ParseNot(ts: Tokens): (r: Parsed<Expr>)
    ensures r.Ok? ==> |r.value.1| < |ts|
    decreases |ts|, 5
  {
    if First(ts) == KwNot then
      var x := ParseNot(Rest(ts));
      if x.Err? then x else Ok((UnaryOp(Not, x.value.0), x.value.1))
    else ParseComparison(ts)
  }

  function ComparisonOf(t: Token): Option<BinaryOperator>
  {
    match t
    case OpEq => Some(Eq)
    case OpNeq => Some(Neq)
    case OpLt => Some(Lt)
    case OpGt => Some(Gt)
    case OpLte => Some(Lte)
    case OpGte => Some(Gte)
    case _ => None
  }

  function ParseComparison(ts: Tokens): (r: Parsed<Expr>)
    ensures r.Ok? ==> |r.value.1| < |ts|
    decreases |ts|, 4
  {
    var l := ParseAdditive(ts);
    if l.Err? then l
    else
      var op := ComparisonOf(First(l.value.1));
      if op.None? then l
      else
        var r := ParseAdditive(Rest(l.value.1));
        if r.Err? then r else Ok((BinaryOp(l.value.0, op.value, r.value.0), r.value.1))
  }

  function ParseAdditive(ts: Tokens): (r: Parsed<Expr>)
    ensures r.Ok? ==> |r.value.1| < |ts|
    decreases |ts|, 3
  {
    var l := ParseMultiplicative(ts);
    if l.Err? then l else AdditiveTail(l.value.0, l.value.1)
  }

  function AdditiveOf(t: Token): Option<BinaryOperator>
  {
    if t == Plus then Some(Add) else if t == Minus then Some(Sub) else None
  }

  function AdditiveTail(left: Expr, ts: Tokens): (r: Parsed<Expr>)
    ensures r.Ok? ==> |r.value.1| <= |ts|
    decreases |ts|, 0
  {
    var op := AdditiveOf(First(ts));
    if op.None? then Ok((left, ts))
    else
      var r := ParseMultiplicative(Rest(ts));
      if r.Err? then r else AdditiveTail(BinaryOp(left, op.value, r.value.0), r.value.1)
  }

  function ParseMultiplicative(ts: Tokens): (r: Parsed<Expr>)
    ensures r.Ok? ==> |r.value.1| < |ts|
    decreases |ts|, 2
  {
    var l := ParseUnary(ts);
    if l.Err? then l else MultiplicativeTail(l.value.0, l.value.1)
  }

  function MultiplicativeOf(t: Token): Option<BinaryOperator>
  {
    if t == Star then Some(Mul) else if t == Slash then Some(Div) else None
  }

  function MultiplicativeTail(left: Expr, ts: Tokens): (r: Parsed<Expr>)
    ensures r.Ok? ==> |r.value.1| <= |ts|
    decreases |ts|, 0
  {
    var op := MultiplicativeOf(First(ts));
    if op.None? then Ok((left, ts))
    else
      var r := ParseUnary(Rest(ts));
      if r.Err? then r else MultiplicativeTail(BinaryOp(left, op.value, r.value.0), r.value.1)
  }

  function ParseUnary(ts: Tokens): (r: Parsed<Expr>)
    ensures r.Ok? ==> |r.value.1| < |ts|
    decreases |ts|, 1
  {
    if First(ts) == Minus then
      var x := ParseUnary(Rest(ts));
      if x.Err? then x else Ok((UnaryOp(Neg, x.value.0), x.value.1))
    else ParsePrimary(ts)
  }

  function ParsePrimary(ts: Tokens): (r: Parsed<Expr>)
    ensures r.Ok? ==> |r.value.1| < |ts|
    decreases |ts|, 0
  {
    match First(ts)
    case LParen =>
      var x := ParseOr(Rest(ts));
      if x.Err? then x
      else if First(x.value.1) == RParen then Ok((x.value.0, Rest(x.value.1))) else Unexpected()
    case IntegerLit(n) => Ok((Lit(Integer(n)), Rest(ts)))
    case FloatLit(f) => Ok((Lit(Float(f)), Rest(ts)))
    case StringLit(s) => Ok((Lit(Str(s)), Rest(ts)))
    case KwTrue => Ok((Lit(Boolean(true)), Rest(ts)))
    case KwFalse => Ok((Lit(Boolean(false)), Rest(ts)))
    case KwNull => Ok((Lit(Null), Rest(ts)))
    case Identifier(name) => AfterName(name, Rest(ts))
    case _ => Err("unexpected token in expression")
  }

  // A name begins a call, a qualified column or a column.
  function AfterName(name: string, ts: Tokens): (r: Parsed<Expr>)
    ensures r.Ok? ==> |r.value.1| <= |ts|
    decreases |ts|, 0
  {
    if First(ts) == LParen then
      var args := ParseArguments(Rest(ts));
      if args.Err? then Err(args.error)
      else if First(args.value.1) == RParen then Ok((Function(name, args.value.0), Rest(args.value.1)))
        else Unexpected()
    else if First(ts) == Dot then
      var next := First(Rest(ts));
      if next.Identifier? then Ok((Column(Some(name), next.text), Rest(Rest(ts))))
      else if next == Star then Ok((Column(Some(name), "*"), Rest(Rest(ts))))
      else Err("expected column name after '.'")
    else Ok((Column(None, name), ts))
  }

  function ParseArguments(ts: Tokens): (r: Parsed<seq<Expr>>)
    ensures r.Ok? ==> |r.value.1| <= |ts|
    decreases |ts|, 9
  {
    if First(ts) == RParen then Ok(([], ts))
    else if First(ts) == Star then Ok(([Wildcard], Rest(ts)))
    else ParseExprList(ts, [])
  }

  // parse_expr_list, with the expressions already read
  function ParseExprList(ts: Tokens, exprs: seq<Expr>): (r: Parsed<seq<Expr>>)
    ensures r.Ok? ==> |r.value.1| < |ts|
    decreases |ts|, 8
  {
    var e := ParseOr(ts);
    if e.Err? then Err(e.error)
    else if First(e.value.1) == Comma then ParseExprList(Rest(e.value.1), exprs + [e.value.0])
    else Ok((exprs + [e.value.0], e.value.1))
  }

  // ---- Statements ----

  // AS name, or a bare name, or nothing.
  function ParseAlias(ts: Tokens): (r: Parsed<Option<string>>)
    ensures r.Ok? ==> |r.value.1| <= |ts|
  {
    if First(ts) == KwAs then
      var t := First(Rest(ts));
      if t.Identifier? then Ok((Some(t.text), Rest(Rest(ts)))) else Err("expected alias name after AS")
    else if First(ts).Identifier? then Ok((Some(First(ts).text), Rest(ts)))
    else Ok((None, ts))
  }

  function ParseSelectItem(ts: Tokens): (r: Parsed<SelectItem>)
    ensures r.Ok? ==> |r.value.1| < |ts|
  {
    if First(ts) == Star then Ok((ItemWildcard, Rest(ts)))
    else
      var e := ParseOr(ts);
      if e.Err? then Err(e.error)
      else if e.value.0.Column? && e.value.0.table.Some? && e.value.0.column == "*" then
        Ok((ItemQualifiedWildcard(e.value.0.table.value), e.value.1))
      else
        var alias := ParseAlias(e.value.1);
        if alias.Err? then Err(alias.error) else Ok((ItemExpression(e.value.0, alias.value.0), alias.value.1))
  }

  function ParseSelectList(ts: Tokens, items: seq<SelectItem>): (r: Parsed<seq<SelectItem>>)
    ensures r.Ok? ==> |r.value.1| < |ts|
    decreases |ts|
  {
    var i := ParseSelectItem(ts);
    if i.Err? then Err(i.error)
    else if First(i.value.1) == Comma then ParseSelectList(Rest(i.value.1), items + [i.value.0])
    else Ok((items + [i.value.0], i.value.1))
  }

  function ParseTableRef(ts: Tokens): (r: Parsed<TableRef>)
    ensures r.Ok? ==> |r.value.1| < |ts|
  {
    if !First(ts).Identifier? then Err("expected table name")
    else
      var alias := ParseAlias(Rest(ts));
      if alias.Err? then Err(alias.error) else Ok((TableRef(First(ts).text, alias.value.0), alias.value.1))
  }

  function JoinTypeOf(t: Token): Option<JoinType>
  {
    match t
    case KwJoin => Some(Inner)
    case KwInner => Some(Inner)
    case KwLeft => Some(JoinType.Left)
    case KwRight => Some(JoinType.Right)
    case KwCross => Some(Cross)
    case _ => None
  }

  // A bare JOIN is an inner join; the others need JOIN after them.
  function ParseJoin(ts: Tokens): (r: Parsed<JoinClause>)
    ensures r.Ok? ==> |r.value.1| < |ts|
  {
    var kind := JoinTypeOf(First(ts));
    if kind.None? then Err("expected JOIN keyword")
    else if First(ts) != KwJoin && First(Rest(ts)) != KwJoin then Unexpected()
    else
      var table := ParseTableRef(if First(ts) == KwJoin then Rest(ts) else Rest(Rest(ts)));
      if table.Err? then Err(table.error)
      else if First(table.value.1) != KwOn then Unexpected()
      else
        var condition := ParseOr(Rest(table.value.1));
        if condition.Err? then Err(condition.error)
        else Ok((JoinClause(kind.value, table.value.0, condition.value.0), condition.value.1))
  }

  function ParseJoins(ts: Tokens, joins: seq<JoinClause>): (r: Parsed<seq<JoinClause>>)
    ensures r.Ok? ==> |r.value.1| <= |ts|
    decreases |ts|
  {
    if JoinTypeOf(First(ts)).None? then Ok((joins, ts))
    else
      var j := ParseJoin(ts);
      if j.Err? then Err(j.error) else ParseJoins(j.value.1, joins + [j.value.0])
  }

  // An optional clause: keyword, then an expression.
  function ParseClause(keyword: Token, ts: Tokens): (r: Parsed<Option<Expr>>)
    ensures r.Ok? ==> |r.value.1| <= |ts|
  {
    if First(ts) != keyword then Ok((None, ts))
    else
      var e := ParseOr(Rest(ts));
      if e.Err? then Err(e.error) else Ok((Some(e.value.0), e.value.1))
  }

  function ParseGroupBy(ts: Tokens): (r: Parsed<seq<Expr>>)
    ensures r.Ok? ==> |r.value.1| <= |ts|
  {
    if First(ts) != KwGroup then Ok(([], ts))
    else if First(Rest(ts)) != KwBy then Unexpected()
    else ParseExprList(Rest(Rest(ts)), [])
  }

  function ParseOrderItem(ts: Tokens): (r: Parsed<OrderByItem>)
    ensures r.Ok? ==> |r.value.1| < |ts|
  {
    var e := ParseOr(ts);
    if e.Err? then Err(e.error)
    else if First(e.value.1) == KwAsc then Ok((OrderByItem(e.value.0, true), Rest(e.value.1)))
    else if First(e.value.1) == KwDesc then Ok((OrderByItem(e.value.0, false), Rest(e.value.1)))
    else Ok((OrderByItem(e.value.0, true), e.value.1))
  }

  function ParseOrderList(ts: Tokens, items: seq<OrderByItem>): (r: Parsed<seq<OrderByItem>>)
    ensures r.Ok? ==> |r.value.1| < |ts|
    decreases |ts|
  {
    var i := ParseOrderItem(ts);
    if i.Err? then Err(i.error)
    else if First(i.value.1) == Comma then ParseOrderList(Rest(i.value.1), items + [i.value.0])
    else Ok((items + [i.value.0], i.value.1))
  }

  function ParseOrderBy(ts: Tokens): (r: Parsed<seq<OrderByItem>>)
    ensures r.Ok? ==> |r.value.1| <= |ts|
  {
    if First(ts) != KwOrder then Ok(([], ts))
    else if First(Rest(ts)) != KwBy then Unexpected()
    else ParseOrderList(Rest(Rest(ts)), [])
  }

  // An int64_t cast to size_t.
  function AsSize(n: int): nat
  {
    n % 0x1_0000_0000_0000_0000
  }

  function ParseLimit(ts: Tokens): (r: Parsed<Option<nat>>)
    ensures r.Ok? ==> |r.value.1| <= |ts|
  {
    if First(ts) != KwLimit then Ok((None, ts))
    else if !First(Rest(ts)).IntegerLit? then Err("expected integer after LIMIT")
    else Ok((Some(AsSize(First(Rest(ts)).value)), Rest(Rest(ts))))
  }

  // The clauses after the joins, in order.
  datatype Clauses = Clauses(where_clause: Option<Expr>, group_by: seq<Expr>, having: Option<Expr>,
                             order_by: seq<OrderByItem>, limit: Option<nat>)

  function ParseClauses(ts: Tokens): (r: Parsed<Clauses>)
    ensures r.Ok? ==> |r.value.1| <= |ts|
  {
    var w := ParseClause(KwWhere, ts);
    if w.Err? then Err(w.error) else
    var g := ParseGroupBy(w.value.1);
    if g.Err? then Err(g.error) else
    var h := ParseClause(KwHaving, g.value.1);
    if h.Err? then Err(h.error) else
    var o := ParseOrderBy(h.value.1);
    if o.Err? then Err(o.error) else
    var l := ParseLimit(o.value.1);
    if l.Err? then Err(l.error) else
    Ok((Clauses(w.value.0, g.value.0, h.value.0, o.value.0, l.value.0), l.value.1))
  }

  // parse: what follows the statement is not looked at.
  function Parse(ts: Tokens): Result<SelectStatement>
  {
    if First(ts) != KwSelect then Err("expected SELECT") else
    var columns := ParseSelectList(Rest(ts), []);
    if columns.Err? then Err(columns.error) else
    if First(columns.value.1) != KwFrom then Err("unexpected token during parse") else
    var source := ParseTableRef(Rest(columns.value.1));
    if source.Err? then Err(source.error) else
    var joins := ParseJoins(source.value.1, []);
    if joins.Err? then Err(joins.error) else
    var c := ParseClauses(joins.value.1);
    if c.Err? then Err(c.error) else
    Ok(SelectStatement(columns.value.0, source.value.0, joins.value.0, c.value.0.where_clause, c.value.0.group_by,
                       c.value.0.having, c.value.0.order_by, c.value.0.limit))
  }
}
