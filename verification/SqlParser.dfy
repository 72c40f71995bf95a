// The cursor-moving parser (parser/parser.cpp), each of its methods proved
// against the grammar.
module SqlParser {
  import opened Wrappers
  import opened Ast
  import opened SqlTokens
  import opened SqlStatements
  import opened SqlGrammar

  // A parser that returned r and stands before rest did what p says.
  ghost predicate Did<T>(p: Parsed<T>, r: Result<T>, rest: Tokens)
  {
    if p.Ok? then r == Ok(p.value.0) && rest == p.value.1 else r.Err?
  }

  // The tokens that are literals by themselves.
  function LiteralOf(t: Token): Option<Literal>
  {
    match t
    case IntegerLit(n) => Some(Integer(n))
    case FloatLit(f) => Some(Float(f))
    case StringLit(s) => Some(Str(s))
    case KwTrue => Some(Boolean(true))
    case KwFalse => Some(Boolean(false))
    case KwNull => Some(Null)
    case _ => None
  }

  lemma PrimaryCases(ts: Tokens)
    ensures var t := First(ts);
      if t == LParen then
        var x := ParseOr(Rest(ts));
        ParsePrimary(ts) == if x.Err? then x else if First(x.value.1) == RParen then Ok((x.value.0, Rest(x.value.1)))
          else Unexpected()
      else if t.Identifier? then ParsePrimary(ts) == AfterName(t.text, Rest(ts))
      else if LiteralOf(t).Some? then ParsePrimary(ts) == Ok((Lit(LiteralOf(t).value), Rest(ts)))
      else ParsePrimary(ts).Err?
  {
    hide ParseOr, AfterName;
  }

  class Parser {
    const tokens: Tokens
    var pos: nat

    constructor (tokens: Tokens)
      ensures this.tokens == tokens && pos == 0 && Valid() && Remaining() == tokens
    {
      this.tokens, pos := tokens, 0;
    }

    ghost predicate Valid()
      reads this
    {
      pos <= |tokens|
    }

    ghost function Remaining(): Tokens
      requires Valid()
      reads this
    {
      tokens[pos..]
    }

    function Peek(): (t: Token)
      requires Valid()
      reads this
      ensures t == First(Remaining())
    {
      if pos < |tokens| then tokens[pos] else Eof
    }

    method Advance() returns (t: Token)
      requires Valid()
      modifies this
      ensures Valid() && pos >= old(pos) && (t != Eof ==> pos == old(pos) + 1)
      ensures t == First(old(Remaining())) && Remaining() == Rest(old(Remaining()))
    {
      t := Peek();
      if pos < |tokens| {
        assert tokens[pos..][1..] == tokens[pos + 1..];
        pos := pos + 1;
      }
    }

    method Expect(expected: Token) returns (ok: bool)
      requires Valid() && expected != Eof
      modifies this
      ensures Valid() && pos >= old(pos) && ok == (First(old(Remaining())) == expected)
      ensures Remaining() == if ok then Rest(old(Remaining())) else old(Remaining())
    {
      ok := Peek() == expected;
      if ok {
        var _ := Advance();
      }
    }

    // ---- Expressions ----

    method ParseOrHere() returns (r: Result<Expr>)
      requires Valid()
      modifies this
      ensures Valid() && pos >= old(pos) && (r.Ok? ==> pos > old(pos)) && Did(ParseOr(old(Remaining())), r, Remaining())
      decreases |tokens| - pos, 7
    {
      hide ParseAnd;
      r := ParseAndHere();
      if r.Err? {
        return;
      }
      ghost var left, after := r.value, Remaining();
      while Peek() == KwOr
        invariant Valid() && pos > old(pos) && r.Ok? && OrTail(left, after) == OrTail(r.value, Remaining())
        decreases |tokens| - pos
      {
        var _ := Advance();
        var x := ParseAndHere();
        if x.Err? {
          return x;
        }
        r := Ok(BinaryOp(r.value, Or, x.value));
      }
    }

    method ParseAndHere() returns (r: Result<Expr>)
      requires Valid()
      modifies this
      ensures Valid() && pos >= old(pos) && (r.Ok? ==> pos > old(pos))
        && Did(ParseAnd(old(Remaining())), r, Remaining())
      decreases |tokens| - pos, 6
    {
      hide ParseNot;
      r := ParseNotHere();
      if r.Err? {
        return;
      }
      ghost var left, after := r.value, Remaining();
      while Peek() == KwAnd
        invariant Valid() && pos > old(pos) && r.Ok? && AndTail(left, after) == AndTail(r.value, Remaining())
        decreases |tokens| - pos
      {
        var _ := Advance();
        var x := ParseNotHere();
        if x.Err? {
          return x;
        }
        r := Ok(BinaryOp(r.value, And, x.value));
      }
    }

    method ParseNotHere() returns (r: Result<Expr>)
      requires Valid()
      modifies this
      ensures Valid() && pos >= old(pos) && (r.Ok? ==> pos > old(pos))
        && Did(ParseNot(old(Remaining())), r, Remaining())
      decreases |tokens| - pos, 5
    {
      hide ParseComparison;
      if Peek() == KwNot {
        var _ := Advance();
        var x := ParseNotHere();
        return if x.Err? then x else Ok(UnaryOp(Not, x.value));
      }
      r := ParseComparisonHere();
    }

    method ParseComparisonHere() returns (r: Result<Expr>)
      requires Valid()
      modifies this
      ensures Valid() && pos >= old(pos) && (r.Ok? ==> pos > old(pos))
        && Did(ParseComparison(old(Remaining())), r, Remaining())
      decreases |tokens| - pos, 4
    {
      hide ParseAdditive;
      r := ParseAdditiveHere();
      if r.Err? {
        return;
      }
      var op := ComparisonOf(Peek());
      if op.None? {
        return;
      }
      var _ := Advance();
      var x := ParseAdditiveHere();
      r := if x.Err? then x else Ok(BinaryOp(r.value, op.value, x.value));
    }

    method ParseAdditiveHere() returns (r: Result<Expr>)
      requires Valid()
      modifies this
      ensures Valid() && pos >= old(pos) && (r.Ok? ==> pos > old(pos))
        && Did(ParseAdditive(old(Remaining())), r, Remaining())
      decreases |tokens| - pos, 3
    {
      hide ParseMultiplicative;
      r := ParseMultiplicativeHere();
      if r.Err? {
        return;
      }
      ghost var left, after := r.value, Remaining();
      while AdditiveOf(Peek()).Some?
        invariant Valid() && pos > old(pos) && r.Ok? && AdditiveTail(left, after) == AdditiveTail(r.value, Remaining())
        decreases |tokens| - pos
      {
        var t := Advance();
        var x := ParseMultiplicativeHere();
        if x.Err? {
          return x;
        }
        r := Ok(BinaryOp(r.value, AdditiveOf(t).value, x.value));
      }
    }

    method ParseMultiplicativeHere() returns (r: Result<Expr>)
      requires Valid()
      modifies this
      ensures Valid() && pos >= old(pos) && (r.Ok? ==> pos > old(pos))
        && Did(ParseMultiplicative(old(Remaining())), r, Remaining())
      decreases |tokens| - pos, 2
    {
      hide ParseUnary;
      r := ParseUnaryHere();
      if r.Err? {
        return;
      }
      ghost var left, after := r.value, Remaining();
      while MultiplicativeOf(Peek()).Some?
        invariant Valid() && pos > old(pos) && r.Ok?
          && MultiplicativeTail(left, after) == MultiplicativeTail(r.value, Remaining())
        decreases |tokens| - pos
      {
        var t := Advance();
        var x := ParseUnaryHere();
        if x.Err? {
          return x;
        }
        r := Ok(BinaryOp(r.value, MultiplicativeOf(t).value, x.value));
      }
    }

    method ParseUnaryHere() returns (r: Result<Expr>)
      requires Valid()
      modifies this
      ensures Valid() && pos >= old(pos) && (r.Ok? ==> pos > old(pos))
        && Did(ParseUnary(old(Remaining())), r, Remaining())
      decreases |tokens| - pos, 1
    {
      hide ParsePrimary;
      if Peek() == Minus {
        var _ := Advance();
        var x := ParseUnaryHere();
        return if x.Err? then x else Ok(UnaryOp(Neg, x.value));
      }
      r := ParsePrimaryHere();
    }

    method ParsePrimaryHere() returns (r: Result<Expr>)
      requires Valid()
      modifies this
      ensures Valid() && pos >= old(pos) && (r.Ok? ==> pos > old(pos))
        && Did(ParsePrimary(old(Remaining())), r, Remaining())
      decreases |tokens| - pos, 0
    {
      hide ParseOr, AfterName, ParsePrimary, LiteralOf;
      var t := Peek();
      PrimaryCases(Remaining());
      if t == LParen {
        var _ := Advance();
        r := ParseOrHere();
        if r.Ok? {
          var closed := Expect(RParen);
          r := if closed then r else Err("unexpected token during parse");
        }
        return;
      }
      if t.Identifier? {
        var _ := Advance();
        r := ParseAfterName(t.text);
        return;
      }
      var literal := LiteralOf(t);
      if literal.None? {
        return Err("unexpected token in expression");
      }
      var _ := Advance();
      r := Ok(Lit(literal.value));
    }

    method ParseAfterName(name: string) returns (r: Result<Expr>)
      requires Valid()
      modifies this
      ensures Valid() && pos >= old(pos) && Did(AfterName(name, old(Remaining())), r, Remaining())
      decreases |tokens| - pos, 9
    {
      hide ParseArguments;
      if Peek() == LParen {
        var _ := Advance();
        var args := ParseArgumentsHere();
        if args.Err? {
          return Err(args.error);
        }
        var closed := Expect(RParen);
        return if closed then Ok(Function(name, args.value)) else Err("unexpected token during parse");
      }
      if Peek() == Dot {
        var _ := Advance();
        var next := Advance();
        return if next.Identifier? then Ok(Column(Some(name), next.text))
               else if next == Star then Ok(Column(Some(name), "*"))
               else Err("expected column name after '.'");
      }
      r := Ok(Column(None, name));
    }

    method ParseArgumentsHere() returns (r: Result<seq<Expr>>)
      requires Valid()
      modifies this
      ensures Valid() && pos >= old(pos) && Did(ParseArguments(old(Remaining())), r, Remaining())
      decreases |tokens| - pos, 9
    {
      hide ParseExprList;
      if Peek() == RParen {
        return Ok([]);
      }
      if Peek() == Star {
        var _ := Advance();
        return Ok([Wildcard]);
      }
      r := ParseExprListHere();
    }

    method ParseExprListHere() returns (r: Result<seq<Expr>>)
      requires Valid()
      modifies this
      ensures Valid() && pos >= old(pos) && Did(ParseExprList(old(Remaining()), []), r, Remaining())
      decreases |tokens| - pos, 8
    {
      hide ParseOr;
      var exprs: seq<Expr> := [];
      ghost var start := Remaining();
      while true
        invariant Valid() && pos >= old(pos) && ParseExprList(start, []) == ParseExprList(Remaining(), exprs)
        decreases |tokens| - pos
      {
        var e := ParseOrHere();
        if e.Err? {
          return Err(e.error);
        }
        exprs := exprs + [e.value];
        var more := Expect(Comma);
        if !more {
          return Ok(exprs);
        }
      }
    }

    // ---- Statements ----

    method ParseAliasHere() returns (r: Result<Option<string>>)
      requires Valid()
      modifies this
      ensures Valid() && pos >= old(pos) && Did(ParseAlias(old(Remaining())), r, Remaining())
    {
      if Peek() == KwAs {
        var _ := Advance();
        var t := Advance();
        return if t.Identifier? then Ok(Some(t.text)) else Err("expected alias name after AS");
      }
      if Peek().Identifier? {
        var t := Advance();
        return Ok(Some(t.text));
      }
      r := Ok(None);
    }

    method ParseSelectListHere() returns (r: Result<seq<SelectItem>>)
      requires Valid()
      modifies this
      ensures Valid() && pos >= old(pos) && Did(ParseSelectList(old(Remaining()), []), r, Remaining())
    {
      hide ParseSelectItem;
      var items: seq<SelectItem> := [];
      ghost var start := Remaining();
      while true
        invariant Valid() && pos >= old(pos) && ParseSelectList(start, []) == ParseSelectList(Remaining(), items)
        decreases |tokens| - pos
      {
        var i := ParseSelectItemHere();
        if i.Err? {
          return Err(i.error);
        }
        items := items + [i.value];
        var more := Expect(Comma);
        if !more {
          return Ok(items);
        }
      }
    }

    method ParseSelectItemHere() returns (r: Result<SelectItem>)
      requires Valid()
      modifies this
      ensures Valid() && pos >= old(pos) && (r.Ok? ==> pos > old(pos))
        && Did(ParseSelectItem(old(Remaining())), r, Remaining())
    {
      hide ParseOr, ParseAlias;
      if Peek() == Star {
        var _ := Advance();
        return Ok(ItemWildcard);
      }
      var e := ParseOrHere();
      if e.Err? {
        return Err(e.error);
      }
      if e.value.Column? && e.value.table.Some? && e.value.column == "*" {
        return Ok(ItemQualifiedWildcard(e.value.table.value));
      }
      var alias := ParseAliasHere();
      r := if alias.Err? then Err(alias.error) else Ok(ItemExpression(e.value, alias.value));
    }

    method ParseTableRefHere() returns (r: Result<TableRef>)
      requires Valid()
      modifies this
      ensures Valid() && pos >= old(pos) && Did(ParseTableRef(old(Remaining())), r, Remaining())
    {
      hide ParseAlias;
      var name := Advance();
      if !name.Identifier? {
        return Err("expected table name");
      }
      var alias := ParseAliasHere();
      r := if alias.Err? then Err(alias.error) else Ok(TableRef(name.text, alias.value));
    }

    method ParseJoinHere() returns (r: Result<JoinClause>)
      requires Valid()
      modifies this
      ensures Valid() && pos >= old(pos) && (r.Ok? ==> pos > old(pos))
        && Did(ParseJoin(old(Remaining())), r, Remaining())
    {
      hide ParseOr, ParseTableRef;
      var kind := JoinTypeOf(Peek());
      if kind.None? {
        return Err("expected JOIN keyword");
      }
      var t := Advance();
      if t != KwJoin {
        var joined := Expect(KwJoin);
        if !joined {
          return Err("unexpected token during parse");
        }
      }
      var table := ParseTableRefHere();
      if table.Err? {
        return Err(table.error);
      }
      var on := Expect(KwOn);
      if !on {
        return Err("unexpected token during parse");
      }
      var condition := ParseOrHere();
      r := if condition.Err? then Err(condition.error) else Ok(JoinClause(kind.value, table.value, condition.value));
    }

    method ParseJoinsHere() returns (r: Result<seq<JoinClause>>)
      requires Valid()
      modifies this
      ensures Valid() && pos >= old(pos) && Did(ParseJoins(old(Remaining()), []), r, Remaining())
    {
      hide ParseJoin;
      var joins: seq<JoinClause> := [];
      ghost var start := Remaining();
      while JoinTypeOf(Peek()).Some?
        invariant Valid() && pos >= old(pos) && ParseJoins(start, []) == ParseJoins(Remaining(), joins)
        decreases |tokens| - pos
      {
        var j := ParseJoinHere();
        if j.Err? {
          return Err(j.error);
        }
        joins := joins + [j.value];
      }
      r := Ok(joins);
    }

    method ParseClauseHere(keyword: Token) returns (r: Result<Option<Expr>>)
      requires Valid() && keyword != Eof
      modifies this
      ensures Valid() && pos >= old(pos) && Did(ParseClause(keyword, old(Remaining())), r, Remaining())
    {
      hide ParseOr;
      if Peek() != keyword {
        return Ok(None);
      }
      var _ := Advance();
      var e := ParseOrHere();
      r := if e.Err? then Err(e.error) else Ok(Some(e.value));
    }

    method ParseGroupByHere() returns (r: Result<seq<Expr>>)
      requires Valid()
      modifies this
      ensures Valid() && pos >= old(pos) && Did(ParseGroupBy(old(Remaining())), r, Remaining())
    {
      hide ParseExprList;
      if Peek() != KwGroup {
        return Ok([]);
      }
      var _ := Advance();
      var grouped := Expect(KwBy);
      if !grouped {
        return Err("unexpected token during parse");
      }
      r := ParseExprListHere();
    }

    method ParseOrderItemHere() returns (r: Result<OrderByItem>)
      requires Valid()
      modifies this
      ensures Valid() && pos >= old(pos) && (r.Ok? ==> pos > old(pos))
        && Did(ParseOrderItem(old(Remaining())), r, Remaining())
    {
      hide ParseOr;
      var e := ParseOrHere();
      if e.Err? {
        return Err(e.error);
      }
      var ascending := true;
      if Peek() == KwAsc {
        var _ := Advance();
      } else if Peek() == KwDesc {
        var _ := Advance();
        ascending := false;
      }
      r := Ok(OrderByItem(e.value, ascending));
    }

    method ParseOrderByHere() returns (r: Result<seq<OrderByItem>>)
      requires Valid()
      modifies this
      ensures Valid() && pos >= old(pos) && Did(ParseOrderBy(old(Remaining())), r, Remaining())
    {
      hide ParseOrderItem;
      if Peek() != KwOrder {
        return Ok([]);
      }
      var _ := Advance();
      var ordered := Expect(KwBy);
      if !ordered {
        return Err("unexpected token during parse");
      }
      var items: seq<OrderByItem> := [];
      ghost var start := Remaining();
      while true
        invariant Valid() && pos >= old(pos) && ParseOrderList(start, []) == ParseOrderList(Remaining(), items)
        decreases |tokens| - pos
      {
        var i := ParseOrderItemHere();
        if i.Err? {
          return Err(i.error);
        }
        items := items + [i.value];
        var more := Expect(Comma);
        if !more {
          return Ok(items);
        }
      }
    }

    method ParseLimitHere() returns (r: Result<Option<nat>>)
      requires Valid()
      modifies this
      ensures Valid() && pos >= old(pos) && Did(ParseLimit(old(Remaining())), r, Remaining())
    {
      if Peek() != KwLimit {
        return Ok(None);
      }
      var _ := Advance();
      var t := Advance();
      r := if t.IntegerLit? then Ok(Some(AsSize(t.value))) else Err("expected integer after LIMIT");
    }

    method ParseClausesHere() returns (r: Result<Clauses>)
      requires Valid()
      modifies this
      ensures Valid() && pos >= old(pos) && Did(ParseClauses(old(Remaining())), r, Remaining())
    {
      hide ParseClause, ParseGroupBy, ParseOrderBy, ParseLimit;
      var w := ParseClauseHere(KwWhere);
      if w.Err? {
        return Err(w.error);
      }
      var g := ParseGroupByHere();
      if g.Err? {
        return Err(g.error);
      }
      var h := ParseClauseHere(KwHaving);
      if h.Err? {
        return Err(h.error);
      }
      var o := ParseOrderByHere();
      if o.Err? {
        return Err(o.error);
      }
      var l := ParseLimitHere();
      r := if l.Err? then Err(l.error) else Ok(Clauses(w.value, g.value, h.value, o.value, l.value));
    }

    // parse and parse_select
    method ParseHere() returns (r: Result<SelectStatement>)
      requires Valid()
      modifies this
      ensures Valid() && (r.Ok? <==> Parse(old(Remaining())).Ok?) && (r.Ok? ==> r == Parse(old(Remaining())))
    {
      hide ParseSelectList, ParseTableRef, ParseJoins, ParseClauses;
      if Peek() != KwSelect {
        return Err("expected SELECT");
      }
      var _ := Advance();
      var columns := ParseSelectListHere();
      if columns.Err? {
        return Err(columns.error);
      }
      var from := Expect(KwFrom);
      if !from {
        return Err("unexpected token during parse");
      }
      var source := ParseTableRefHere();
      if source.Err? {
        return Err(source.error);
      }
      var joins := ParseJoinsHere();
      if joins.Err? {
        return Err(joins.error);
      }
      var c := ParseClausesHere();
      r := if c.Err? then Err(c.error)
           else Ok(SelectStatement(columns.value, source.value, joins.value, c.value.where_clause, c.value.group_by,
                                   c.value.having, c.value.order_by, c.value.limit));
    }
  }
}
