// Canonical SQL text (parser/sql_printer.cpp) and its reading by the lexer.
module SqlText {
  import opened Wrappers
  import opened Decimal
  import opened Ast
  import opened SqlTokens
  import opened SqlStatements
  import opened SqlGrammar
  import opened SqlPrinted
  import opened SqlStatementRoundTrip
  import opened SqlLexing

  function OperatorText(op: BinaryOperator): string
  {
    match op
    case Eq => "="
    case Neq => "<>"
    case Lt => "<"
    case Gt => ">"
    case Lte => "<="
    case Gte => ">="
    case And => "AND"
    case Or => "OR"
    case Add => "+"
    case Sub => "-"
    case Mul => "*"
    case Div => "/"
  }

  // Floats print with the stream's default precision, not modelled: render.
  function LiteralText(v: Literal, render: real -> string): string
  {
    match v
    case Integer(n) => IntText(n)
    case Float(f) => render(f)
    case Str(s) => "'" + s + "'"
    case Boolean(b) => if b then "TRUE" else "FALSE"
    case Null => "NULL"
  }

  // print_expr
  function ExprText(e: Expr, render: real -> string): string
  {
    match e
    case Column(table, column) => if table.Some? then table.value + ("." + column) else column
    case Lit(v) => LiteralText(v, render)
    case BinaryOp(l, op, r) =>
      "(" + (ExprText(l, render) + (" " + (OperatorText(op) + (" " + (ExprText(r, render) + ")")))))
    case UnaryOp(op, x) => if op == Not then "NOT" + (" " + ExprText(x, render)) else "-" + ExprText(x, render)
    case Function(name, args) => name + ("(" + (ListText(args, render) + ")"))
    case Wildcard => "*"
  }

  function ListText(es: seq<Expr>, render: real -> string): string
  {
    if es == [] then ""
    else if |es| == 1 then ExprText(es[0], render)
    else ExprText(es[0], render) + ("," + (" " + ListText(es[1..], render)))
  }

  // Names that are words but no keywords, strings without quotes, integers
  // that fit: what the lexer can have produced.
  predicate Lexable(e: Expr)
  {
    match e
    case Column(table, column) => (table.Some? ==> Name(table.value))
      && (Name(column) || (table.Some? && column == "*"))
    case Lit(v) => (v.Integer? ==> 0 <= v.int_val <= MAX_INT64) && (v.Str? ==> '\'' !in v.str_val) && !v.Float?
    case BinaryOp(l, _, r) => Lexable(l) && Lexable(r)
    case UnaryOp(_, x) => Lexable(x)
    case Function(name, args) => Name(name) && forall i :: 0 <= i < |args| ==> Lexable(args[i])
    case Wildcard => true
  }

  // ---- Keywords and operators ----

  lemma ReadsKeyword(w: string, t: Token, rest: string)
    requires Word(w) && KeywordOf(Upper(w)) == Some(t) && (rest == [] || !WordChar(rest[0]))
    ensures Reads(w, [t], rest)
  {
    hide KeywordOf, Reads, Word;
    ReadsWord(w, rest);
  }

  lemma ReadsComparison(op: BinaryOperator, rest: string)
    requires op in {Eq, Neq, Lt, Gt, Lte, Gte}
    ensures Reads(OperatorText(op), [OperatorToken(op)], " " + rest)
  {
    var text, after := OperatorText(op), " " + rest;
    var s := text + after;
    assert s[|text|..] == after && s[0] == text[0] && s[|text|] == ' ';
    assert |text| == 2 ==> s[1] == text[1];
    ReadsOne(text, OperatorToken(op), after);
  }

  lemma ReadsOperator(op: BinaryOperator, rest: string)
    ensures Reads(OperatorText(op), [OperatorToken(op)], " " + rest)
  {
    hide Reads, KeywordOf;
    if op in {Eq, Neq, Lt, Gt, Lte, Gte} {
      ReadsComparison(op, rest);
    } else if op == And {
      KeywordAnd();
      ReadsKeyword("AND", KwAnd, " " + rest);
    } else if op == Or {
      KeywordAnd();
      ReadsKeyword("OR", KwOr, " " + rest);
    } else {
      ReadsSymbol(OperatorText(op)[0], " " + rest);
      assert OperatorText(op) == [OperatorText(op)[0]];
    }
  }

  lemma KeywordAnd()
    ensures Word("AND") && KeywordOf(Upper("AND")) == Some(KwAnd) && Word("OR") && KeywordOf(Upper("OR")) == Some(KwOr)
    ensures Word("NOT") && KeywordOf(Upper("NOT")) == Some(KwNot)
  {
    assert Upper("AND") == "AND" && Upper("OR") == "OR" && Upper("NOT") == "NOT";
  }

  lemma KeywordLiterals()
    ensures Word("TRUE") && KeywordOf(Upper("TRUE")) == Some(KwTrue)
    ensures Word("FALSE") && KeywordOf(Upper("FALSE")) == Some(KwFalse)
    ensures Word("NULL") && KeywordOf(Upper("NULL")) == Some(KwNull)
  {
    assert Upper("TRUE") == "TRUE" && Upper("FALSE") == "FALSE" && Upper("NULL") == "NULL";
  }

  // ---- Expressions ----

  lemma ReadsLiteral(v: Literal, render: real -> string, rest: string)
    requires Lexable(Lit(v)) && Breaks(rest)
    ensures Reads(LiteralText(v, render), LiteralTokens(v), rest)
  {
    hide Reads, KeywordOf, Word;
    match v
    case Integer(n) => ReadsInteger(n, rest);
    case Str(s) => ReadsString(s, rest);
    case Boolean(b) =>
      KeywordLiterals();
      if b { ReadsKeyword("TRUE", KwTrue, rest); } else { ReadsKeyword("FALSE", KwFalse, rest); }
    case Null =>
      KeywordLiterals();
      ReadsKeyword("NULL", KwNull, rest);
  }

  lemma ReadsColumn(table: Option<string>, column: string, rest: string)
    requires Lexable(Column(table, column)) && Breaks(rest)
    ensures Reads(if table.Some? then table.value + ("." + column) else column, ExprTokens(Column(table, column)), rest)
  {
    hide Reads, Name;
    if table.None? {
      ReadsName(column, rest);
      assert ExprTokens(Column(table, column)) == [Identifier(column)];
    } else {
      var last := if column == "*" then Star else Identifier(column);
      if column == "*" {
        ReadsSymbol('*', rest);
      } else {
        ReadsName(column, rest);
      }
      ReadsSymbol('.', column + rest);
      ReadsThen(".", [Dot], column, [last], rest);
      ReadsName(table.value, ("." + column) + rest);
      ReadsThen(table.value, [Identifier(table.value)], "." + column, [Dot] + [last], rest);
      assert ExprTokens(Column(table, column)) == [Identifier(table.value)] + ([Dot] + [last]);
    }
  }

  lemma ReadsParenthesised(a: string, ta: Tokens, op: BinaryOperator, b: string, tb: Tokens, rest: string)
    requires Reads(a, ta, " " + (OperatorText(op) + (" " + (b + ")"))) + rest) && Reads(b, tb, ")" + rest)
    ensures Reads("(" + (a + (" " + (OperatorText(op) + (" " + (b + ")"))))),
                  [LParen] + (ta + ([OperatorToken(op)] + (tb + [RParen]))), rest)
  {
    hide Reads, OperatorText, OperatorToken;
    var t := OperatorText(op);
    ReadsSymbol(')', rest);
    ReadsThen(b, tb, ")", [RParen], rest);
    ReadsSpace((b + ")") + rest);
    ReadsThen(" ", [], b + ")", tb + [RParen], rest);
    assert (" " + (b + ")")) + rest == " " + ((b + ")") + rest);
    ReadsOperator(op, (b + ")") + rest);
    ReadsThen(t, [OperatorToken(op)], " " + (b + ")"), [] + (tb + [RParen]), rest);
    ReadsSpace((t + (" " + (b + ")"))) + rest);
    ReadsThen(" ", [], t + (" " + (b + ")")), [OperatorToken(op)] + ([] + (tb + [RParen])), rest);
    ReadsThen(a, ta, " " + (t + (" " + (b + ")"))), [] + ([OperatorToken(op)] + ([] + (tb + [RParen]))), rest);
    var inner := a + (" " + (t + (" " + (b + ")"))));
    ReadsSymbol('(', inner + rest);
    ReadsThen("(", [LParen], inner, ta + ([] + ([OperatorToken(op)] + ([] + (tb + [RParen])))), rest);
    assert [] + (tb + [RParen]) == tb + [RParen];
    assert [] + ([OperatorToken(op)] + (tb + [RParen])) == [OperatorToken(op)] + (tb + [RParen]);
  }

  lemma {:induction false} ReadsExpr(e: Expr, render: real -> string, rest: string)
    requires Lexable(e) && Breaks(rest)
    ensures Reads(ExprText(e, render), ExprTokens(e), rest)
    decreases e, 1
  {
    match e
    case Column(table, column) => ReadsColumn(table, column, rest);
    case Lit(v) => ReadsLiteral(v, render, rest);
    case BinaryOp(l, op, r) => ReadsBinaryExpr(l, op, r, render, rest);
    case UnaryOp(op, x) =>
      ReadsExpr(x, render, rest);
      hide Reads;
      ReadsUnary(op, ExprText(x, render), ExprTokens(x), rest);
    case Function(name, args) => ReadsFunctionExpr(name, args, render, rest);
    case Wildcard => ReadsSymbol('*', rest);
  }

  lemma {:induction false} ReadsBinaryExpr(l: Expr, op: BinaryOperator, r: Expr, render: real -> string, rest: string)
    requires Lexable(l) && Lexable(r)
    ensures Reads(ExprText(BinaryOp(l, op, r), render), ExprTokens(BinaryOp(l, op, r)), rest)
    decreases BinaryOp(l, op, r), 0
  {
    hide Reads, ExprText, OperatorText, Lexable, ExprTokens;
    var a, b := ExprText(l, render), ExprText(r, render);
    ReadsExpr(l, render, " " + (OperatorText(op) + (" " + (b + ")"))) + rest);
    ReadsExpr(r, render, ")" + rest);
    ReadsParenthesised(a, ExprTokens(l), op, b, ExprTokens(r), rest);
    BinaryText(l, op, r, render);
  }

  lemma {:induction false} ReadsFunctionExpr(name: string, args: seq<Expr>, render: real -> string, rest: string)
    requires Lexable(Function(name, args))
    ensures Reads(ExprText(Function(name, args), render), ExprTokens(Function(name, args)), rest)
    decreases args, 3
  {
    hide Reads, Name;
    ReadsList(args, render, ")" + rest);
    ReadsCall(name, ListText(args, render), ListTokens(args), rest);
    assert ExprTokens(Function(name, args)) == [Identifier(name)] + ([LParen] + (ListTokens(args) + [RParen]));
  }

  lemma BinaryText(l: Expr, op: BinaryOperator, r: Expr, render: real -> string)
    ensures ExprText(BinaryOp(l, op, r), render)
         == "(" + (ExprText(l, render) + (" " + (OperatorText(op) + (" " + (ExprText(r, render) + ")")))))
    ensures ExprTokens(BinaryOp(l, op, r))
      == [LParen] + (ExprTokens(l) + ([OperatorToken(op)] + (ExprTokens(r) + [RParen])))
  {
  }

  lemma ReadsUnary(op: UnaryOperator, text: string, ts: Tokens, rest: string)
    requires Reads(text, ts, rest)
    ensures Reads(if op == Not then "NOT" + (" " + text)
                  else "-" + text, [if op == Not then KwNot else Minus] + ts, rest)
  {
    hide Reads, KeywordOf, Word;
    if op == Not {
      ReadsSpace(text + rest);
      ReadsThen(" ", [], text, ts, rest);
      KeywordAnd();
      assert !WordChar(((" " + text) + rest)[0]);
      ReadsKeyword("NOT", KwNot, (" " + text) + rest);
      ReadsThen("NOT", [KwNot], " " + text, [] + ts, rest);
      assert [] + ts == ts;
    } else {
      ReadsSymbol('-', text + rest);
      ReadsThen("-", [Minus], text, ts, rest);
    }
  }

  lemma ReadsCall(name: string, list: string, ts: Tokens, rest: string)
    requires Name(name) && Reads(list, ts, ")" + rest)
    ensures Reads(name + ("(" + (list + ")")), [Identifier(name)] + ([LParen] + (ts + [RParen])), rest)
  {
    hide Reads, Name;
    ReadsSymbol(')', rest);
    ReadsThen(list, ts, ")", [RParen], rest);
    ReadsSymbol('(', (list + ")") + rest);
    ReadsThen("(", [LParen], list + ")", ts + [RParen], rest);
    ReadsName(name, ("(" + (list + ")")) + rest);
    ReadsThen(name, [Identifier(name)], "(" + (list + ")"), [LParen] + (ts + [RParen]), rest);
  }

  // A comma and a space between two pieces.
  lemma ReadsComma(a: string, ta: Tokens, b: string, tb: Tokens, rest: string)
    requires Reads(a, ta, ("," + (" " + b)) + rest) && Reads(b, tb, rest)
    ensures Reads(a + ("," + (" " + b)), ta + ([Comma] + tb), rest)
  {
    hide Reads;
    ReadsSpace(b + rest);
    ReadsThen(" ", [], b, tb, rest);
    ReadsSymbol(',', (" " + b) + rest);
    ReadsThen(",", [Comma], " " + b, [] + tb, rest);
    ReadsThen(a, ta, "," + (" " + b), [Comma] + ([] + tb), rest);
    assert [] + tb == tb;
  }

  lemma ReadsNothing(rest: string)
    ensures Reads("", [], rest)
  {
    assert "" + rest == rest;
    if Lex(rest).Ok? {
      assert [] + Lex(rest).value == Lex(rest).value;
    }
  }

  lemma {:induction false} ReadsList(es: seq<Expr>, render: real -> string, rest: string)
    requires (forall i :: 0 <= i < |es| ==> Lexable(es[i])) && Breaks(rest)
    ensures Reads(ListText(es, render), ListTokens(es), rest)
    decreases es, 2
  {
    hide Reads, ExprText, ExprTokens, Lexable;
    if es == [] {
      ReadsNothing(rest);
    } else if |es| == 1 {
      ReadsExpr(es[0], render, rest);
    } else {
      var a, b := ExprText(es[0], render), ListText(es[1..], render);
      ReadsExpr(es[0], render, ("," + (" " + b)) + rest);
      ReadsList(es[1..], render, rest);
      ReadsComma(a, ExprTokens(es[0]), b, ListTokens(es[1..]), rest);
      assert ListTokens(es) == ExprTokens(es[0]) + ([Comma] + ListTokens(es[1..]));
    }
  }

  // ---- Statements ----

  function ItemText(item: SelectItem, render: real -> string): string
  {
    match item
    case ItemWildcard => "*"
    case ItemQualifiedWildcard(table) => table + ("." + "*")
    case ItemExpression(e, alias) => if alias.Some? then ExprText(e, render) + (" " + ("AS" + (" " + alias.value)))
      else ExprText(e, render)
  }

  function ItemsText(items: seq<SelectItem>, render: real -> string): string
  {
    if items == [] then ""
    else if |items| == 1 then ItemText(items[0], render)
    else ItemText(items[0], render) + ("," + (" " + ItemsText(items[1..], render)))
  }

  function TableText(t: TableRef): string
  {
    if t.alias.Some? then t.table_name + (" " + t.alias.value) else t.table_name
  }

  function JoinWord(t: JoinType): string
  {
    match t
    case Inner => "INNER"
    case Left => "LEFT"
    case Right => "RIGHT"
    case Cross => "CROSS"
  }

  function JoinText(j: JoinClause, render: real -> string): string
  {
    " " + (JoinWord(j.join_type)
           + (" " + ("JOIN" + (" " + (TableText(j.table) + (" " + ("ON" + (" " + ExprText(j.condition, render)))))))))
  }

  function JoinsText(joins: seq<JoinClause>, render: real -> string): string
  {
    if joins == [] then "" else JoinText(joins[0], render) + JoinsText(joins[1..], render)
  }

  function ClauseText(word: string, e: Option<Expr>, render: real -> string): string
  {
    if e.Some? then " " + (word + (" " + ExprText(e.value, render))) else ""
  }

  function GroupText(es: seq<Expr>, render: real -> string): string
  {
    if es == [] then "" else " " + ("GROUP" + (" " + ("BY" + (" " + ListText(es, render)))))
  }

  function OrderItemText(i: OrderByItem, render: real -> string): string
  {
    ExprText(i.expression, render) + (" " + (if i.ascending then "ASC" else "DESC"))
  }

  function OrderListText(items: seq<OrderByItem>, render: real -> string): string
  {
    if items == [] then ""
    else if |items| == 1 then OrderItemText(items[0], render)
    else OrderItemText(items[0], render) + ("," + (" " + OrderListText(items[1..], render)))
  }

  function OrderText(items: seq<OrderByItem>, render: real -> string): string
  {
    if items == [] then "" else " " + ("ORDER" + (" " + ("BY" + (" " + OrderListText(items, render)))))
  }

  function LimitText(limit: Option<nat>): string
  {
    if limit.Some? then " " + ("LIMIT" + (" " + NatText(limit.value))) else ""
  }

  // print_statement
  function StatementText(s: SelectStatement, render: real -> string): string
  {
    "SELECT"
      + (" " + (ItemsText(s.columns, render)
                + (" " + ("FROM" + (" " + (TableText(s.source) + (JoinsText(s.joins, render)
      + (ClauseText("WHERE", s.where_clause, render)
         + (GroupText(s.group_by, render) + (ClauseText("HAVING", s.having, render)
      + (OrderText(s.order_by, render) + LimitText(s.limit))))))))))))
  }

  predicate LexableItem(item: SelectItem)
  {
    match item
    case ItemWildcard => true
    case ItemQualifiedWildcard(table) => Name(table)
    case ItemExpression(e, alias) => Lexable(e) && (alias.Some? ==> Name(alias.value))
  }

  predicate LexableTable(t: TableRef)
  {
    Name(t.table_name) && (t.alias.Some? ==> Name(t.alias.value))
  }

  predicate LexableStatement(s: SelectStatement)
  {
    && (forall i :: 0 <= i < |s.columns| ==> LexableItem(s.columns[i])) && LexableTable(s.source)
    && (forall i :: 0 <= i < |s.joins| ==> LexableTable(s.joins[i].table) && Lexable(s.joins[i].condition))
    && (s.where_clause.Some? ==> Lexable(s.where_clause.value)) && (s.having.Some? ==> Lexable(s.having.value))
    && (forall i :: 0 <= i < |s.group_by| ==> Lexable(s.group_by[i]))
    && (forall i :: 0 <= i < |s.order_by| ==> Lexable(s.order_by[i].expression))
    && (s.limit.Some? ==> s.limit.value <= MAX_INT64)
  }

  lemma KeywordWords()
    ensures Word("SELECT") && KeywordOf(Upper("SELECT")) == Some(KwSelect) && Word("FROM")
      && KeywordOf(Upper("FROM")) == Some(KwFrom)
    ensures Word("JOIN") && KeywordOf(Upper("JOIN")) == Some(KwJoin) && Word("ON")
      && KeywordOf(Upper("ON")) == Some(KwOn)
    ensures Word("AS") && KeywordOf(Upper("AS")) == Some(KwAs) && Word("BY") && KeywordOf(Upper("BY")) == Some(KwBy)
  {
    assert Upper("SELECT") == "SELECT" && Upper("FROM") == "FROM" && Upper("JOIN") == "JOIN";
    assert Upper("ON") == "ON" && Upper("AS") == "AS" && Upper("BY") == "BY";
  }

  lemma KeywordClauses()
    ensures Word("WHERE") && KeywordOf(Upper("WHERE")) == Some(KwWhere) && Word("GROUP")
      && KeywordOf(Upper("GROUP")) == Some(KwGroup)
    ensures Word("HAVING") && KeywordOf(Upper("HAVING")) == Some(KwHaving) && Word("ORDER")
      && KeywordOf(Upper("ORDER")) == Some(KwOrder)
    ensures Word("LIMIT") && KeywordOf(Upper("LIMIT")) == Some(KwLimit)
  {
    hide KeywordOf, Word, Upper;
    KeywordWhere();
    KeywordOrder();
    KeywordLimit();
  }

  lemma KeywordWhere()
    ensures Word("WHERE") && KeywordOf(Upper("WHERE")) == Some(KwWhere) && Word("HAVING")
      && KeywordOf(Upper("HAVING")) == Some(KwHaving)
  {
    assert Upper("WHERE") == "WHERE" && Upper("HAVING") == "HAVING";
  }

  lemma KeywordOrder()
    ensures Word("ORDER") && KeywordOf(Upper("ORDER")) == Some(KwOrder) && Word("GROUP")
      && KeywordOf(Upper("GROUP")) == Some(KwGroup)
  {
    assert Upper("ORDER") == "ORDER" && Upper("GROUP") == "GROUP";
  }

  lemma KeywordLimit()
    ensures Word("LIMIT") && KeywordOf(Upper("LIMIT")) == Some(KwLimit)
  {
    assert Upper("LIMIT") == "LIMIT";
  }

  lemma KeywordOrders()
    ensures Word("ASC") && KeywordOf(Upper("ASC")) == Some(KwAsc) && Word("DESC")
      && KeywordOf(Upper("DESC")) == Some(KwDesc)
  {
    assert Upper("ASC") == "ASC" && Upper("DESC") == "DESC";
  }

  lemma KeywordJoins(t: JoinType)
    ensures Word(JoinWord(t)) && KeywordOf(Upper(JoinWord(t))) == Some(JoinToken(t))
  {
    assert Upper("INNER") == "INNER" && Upper("LEFT") == "LEFT" && Upper("RIGHT") == "RIGHT"
      && Upper("CROSS") == "CROSS";
  }

  // A space, a keyword, and then what reads on.
  lemma ReadsSpaced(text: string, ts: Tokens, rest: string)
    requires Reads(text, ts, rest)
    ensures Reads(" " + text, ts, rest)
  {
    hide Reads;
    ReadsSpace(text + rest);
    ReadsThen(" ", [], text, ts, rest);
    assert [] + ts == ts;
  }

  // A keyword, a space, and then what reads on.
  lemma ReadsAfterKeyword(w: string, t: Token, text: string, ts: Tokens, rest: string)
    requires Word(w) && KeywordOf(Upper(w)) == Some(t) && Reads(text, ts, rest)
    ensures Reads(w + (" " + text), [t] + ts, rest)
  {
    hide Reads, KeywordOf, Word;
    ReadsSpaced(text, ts, rest);
    assert !WordChar(((" " + text) + rest)[0]);
    ReadsKeyword(w, t, (" " + text) + rest);
    ReadsThen(w, [t], " " + text, ts, rest);
  }

  // A piece, a space, and then what reads on.
  lemma ReadsBefore(a: string, ta: Tokens, text: string, ts: Tokens, rest: string)
    requires Reads(a, ta, (" " + text) + rest) && Reads(text, ts, rest)
    ensures Reads(a + (" " + text), ta + ts, rest)
  {
    hide Reads;
    ReadsSpaced(text, ts, rest);
    ReadsThen(a, ta, " " + text, ts, rest);
  }

  lemma ReadsItem(item: SelectItem, render: real -> string, rest: string)
    requires LexableItem(item) && Breaks(rest)
    ensures Reads(ItemText(item, render), ItemTokens(item), rest)
  {
    hide Reads, Name, Lexable, KeywordOf, Word, ExprTokens, ExprText;
    match item
    case ItemWildcard => ReadsSymbol('*', rest);
    case ItemQualifiedWildcard(table) =>
      ReadsSymbol('*', rest);
      ReadsSymbol('.', "*" + rest);
      ReadsThen(".", [Dot], "*", [Star], rest);
      ReadsName(table, ("." + "*") + rest);
      ReadsThen(table, [Identifier(table)], "." + "*", [Dot] + [Star], rest);
      assert ItemTokens(item) == [Identifier(table)] + ([Dot] + [Star]);
    case ItemExpression(e, alias) =>
      if alias.Some? {
        KeywordWords();
        ReadsName(alias.value, rest);
        ReadsAfterKeyword("AS", KwAs, alias.value, [Identifier(alias.value)], rest);
        ReadsExpr(e, render, (" " + ("AS" + (" " + alias.value))) + rest);
        ReadsBefore(ExprText(e, render), ExprTokens(e), "AS" + (" " + alias.value), [KwAs] + [Identifier(alias.value)],
                    rest);
      } else {
        ReadsExpr(e, render, rest);
        assert ItemTokens(item) == ExprTokens(e);
      }
  }

  lemma {:induction false} ReadsItems(items: seq<SelectItem>, render: real -> string, rest: string)
    requires (forall i :: 0 <= i < |items| ==> LexableItem(items[i])) && Breaks(rest)
    ensures Reads(ItemsText(items, render), ItemsTokens(items), rest)
  {
    hide Reads, ItemText, ItemTokens, LexableItem;
    if items == [] {
      ReadsNothing(rest);
    } else if |items| == 1 {
      ReadsItem(items[0], render, rest);
    } else {
      var a, b := ItemText(items[0], render), ItemsText(items[1..], render);
      ReadsItem(items[0], render, ("," + (" " + b)) + rest);
      ReadsItems(items[1..], render, rest);
      ReadsComma(a, ItemTokens(items[0]), b, ItemsTokens(items[1..]), rest);
      assert ItemsTokens(items) == ItemTokens(items[0]) + ([Comma] + ItemsTokens(items[1..]));
    }
  }

  lemma ReadsTable(t: TableRef, rest: string)
    requires LexableTable(t) && Breaks(rest)
    ensures Reads(TableText(t), TableTokens(t), rest)
  {
    hide Reads, Name;
    if t.alias.Some? {
      ReadsName(t.alias.value, rest);
      ReadsName(t.table_name, (" " + t.alias.value) + rest);
      ReadsBefore(t.table_name, [Identifier(t.table_name)], t.alias.value, [Identifier(t.alias.value)], rest);
      assert TableTokens(t) == [Identifier(t.table_name)] + [Identifier(t.alias.value)];
    } else {
      ReadsName(t.table_name, rest);
      assert TableTokens(t) == [Identifier(t.table_name)];
    }
  }

  lemma ReadsJoin(j: JoinClause, render: real -> string, rest: string)
    requires LexableTable(j.table) && Lexable(j.condition) && Breaks(rest)
    ensures Reads(JoinText(j, render), JoinTokens(j), rest)
  {
    hide Reads, Name, Lexable, LexableTable, KeywordOf, Word, ExprTokens, ExprText, TableText, TableTokens;
    var c, tc, t, tt := ExprText(j.condition, render), ExprTokens(j.condition), TableText(j.table),
      TableTokens(j.table);
    KeywordWords();
    KeywordJoins(j.join_type);
    ReadsExpr(j.condition, render, rest);
    ReadsAfterKeyword("ON", KwOn, c, tc, rest);
    ReadsTable(j.table, (" " + ("ON" + (" " + c))) + rest);
    ReadsBefore(t, tt, "ON" + (" " + c), [KwOn] + tc, rest);
    ReadsAfterKeyword("JOIN", KwJoin, t + (" " + ("ON" + (" " + c))), tt + ([KwOn] + tc), rest);
    ReadsAfterKeyword(JoinWord(j.join_type), JoinToken(j.join_type), "JOIN" + (" " + (t + (" " + ("ON" + (" " + c))))),
                      [KwJoin] + (tt + ([KwOn] + tc)), rest);
    ReadsSpaced(JoinWord(j.join_type) + (" " + ("JOIN" + (" " + (t + (" " + ("ON" + (" " + c))))))),
                [JoinToken(j.join_type)] + ([KwJoin] + (tt + ([KwOn] + tc))), rest);
    assert JoinTokens(j) == [JoinToken(j.join_type)] + ([KwJoin] + (tt + ([KwOn] + tc)));
  }

  // Text that begins with a space, or nothing before an end.
  predicate Spaced(text: string)
  {
    text == [] || text[0] == ' '
  }

  lemma {:induction false} ReadsJoins(joins: seq<JoinClause>, render: real -> string, rest: string)
    requires (forall i :: 0 <= i < |joins| ==> LexableTable(joins[i].table) && Lexable(joins[i].condition))
      && Spaced(rest)
    ensures Reads(JoinsText(joins, render), JoinsTokens(joins), rest) && Spaced(JoinsText(joins, render) + rest)
  {
    hide Reads, JoinTokens, LexableTable, Lexable;
    if joins == [] {
      ReadsNothing(rest);
      assert JoinsText(joins, render) + rest == rest;
    } else {
      ReadsJoins(joins[1..], render, rest);
      ReadsJoin(joins[0], render, JoinsText(joins[1..], render) + rest);
      ReadsThen(JoinText(joins[0], render), JoinTokens(joins[0]), JoinsText(joins[1..], render),
                JoinsTokens(joins[1..]), rest);
    }
  }

  lemma ReadsClause(w: string, t: Token, e: Option<Expr>, render: real -> string, rest: string)
    requires Word(w) && KeywordOf(Upper(w)) == Some(t) && (e.Some? ==> Lexable(e.value)) && Spaced(rest)
    ensures Reads(ClauseText(w, e, render), ClauseTokens(t, e), rest) && Spaced(ClauseText(w, e, render) + rest)
  {
    hide Reads, KeywordOf, Word, Lexable, ExprText, ExprTokens;
    if e.Some? {
      ReadsExpr(e.value, render, rest);
      ReadsAfterKeyword(w, t, ExprText(e.value, render), ExprTokens(e.value), rest);
      ReadsSpaced(w + (" " + ExprText(e.value, render)), [t] + ExprTokens(e.value), rest);
    } else {
      ReadsNothing(rest);
      assert ClauseText(w, e, render) + rest == rest;
    }
  }

  // Two keywords before a list.
  lemma ReadsByList(w: string, t: Token, text: string, ts: Tokens, rest: string)
    requires Word(w) && KeywordOf(Upper(w)) == Some(t) && Reads(text, ts, rest)
    ensures Reads(" " + (w + (" " + ("BY" + (" " + text)))), [t, KwBy] + ts, rest)
  {
    hide Reads, KeywordOf, Word;
    KeywordWords();
    ReadsAfterKeyword("BY", KwBy, text, ts, rest);
    ReadsAfterKeyword(w, t, "BY" + (" " + text), [KwBy] + ts, rest);
    ReadsSpaced(w + (" " + ("BY" + (" " + text))), [t] + ([KwBy] + ts), rest);
    assert [t] + ([KwBy] + ts) == [t, KwBy] + ts;
  }

  lemma ReadsGroup(es: seq<Expr>, render: real -> string, rest: string)
    requires (forall i :: 0 <= i < |es| ==> Lexable(es[i])) && Spaced(rest)
    ensures Reads(GroupText(es, render), GroupTokens(es), rest) && Spaced(GroupText(es, render) + rest)
  {
    hide Reads, KeywordOf, Word, Lexable, ListText, ListTokens;
    if es != [] {
      KeywordClauses();
      ReadsList(es, render, rest);
      ReadsByList("GROUP", KwGroup, ListText(es, render), ListTokens(es), rest);
    } else {
      ReadsNothing(rest);
      assert GroupText(es, render) + rest == rest;
    }
  }

  lemma ReadsOrderItem(i: OrderByItem, render: real -> string, rest: string)
    requires Lexable(i.expression) && Breaks(rest)
    ensures Reads(OrderItemText(i, render), OrderItemTokens(i), rest)
  {
    hide Reads, KeywordOf, Word, Lexable, ExprText, ExprTokens;
    KeywordOrders();
    var w, t := (if i.ascending then "ASC" else "DESC"), (if i.ascending then KwAsc else KwDesc);
    ReadsKeyword(w, t, rest);
    ReadsExpr(i.expression, render, (" " + w) + rest);
    ReadsBefore(ExprText(i.expression, render), ExprTokens(i.expression), w, [t], rest);
  }

  lemma {:induction false} ReadsOrderList(items: seq<OrderByItem>, render: real -> string, rest: string)
    requires (forall i :: 0 <= i < |items| ==> Lexable(items[i].expression)) && Breaks(rest)
    ensures Reads(OrderListText(items, render), OrderListTokens(items), rest)
  {
    hide Reads, OrderItemText, OrderItemTokens, Lexable;
    if items == [] {
      ReadsNothing(rest);
    } else if |items| == 1 {
      ReadsOrderItem(items[0], render, rest);
    } else {
      var a, b := OrderItemText(items[0], render), OrderListText(items[1..], render);
      ReadsOrderItem(items[0], render, ("," + (" " + b)) + rest);
      ReadsOrderList(items[1..], render, rest);
      ReadsComma(a, OrderItemTokens(items[0]), b, OrderListTokens(items[1..]), rest);
      assert OrderListTokens(items) == OrderItemTokens(items[0]) + ([Comma] + OrderListTokens(items[1..]));
    }
  }

  lemma ReadsOrder(items: seq<OrderByItem>, render: real -> string, rest: string)
    requires (forall i :: 0 <= i < |items| ==> Lexable(items[i].expression)) && Spaced(rest)
    ensures Reads(OrderText(items, render), OrderTokens(items), rest) && Spaced(OrderText(items, render) + rest)
  {
    hide Reads, KeywordOf, Word, Lexable, OrderListText, OrderListTokens;
    if items != [] {
      KeywordClauses();
      ReadsOrderList(items, render, rest);
      ReadsByList("ORDER", KwOrder, OrderListText(items, render), OrderListTokens(items), rest);
    } else {
      ReadsNothing(rest);
      assert OrderText(items, render) + rest == rest;
    }
  }

  lemma ReadsLimit(limit: Option<nat>, rest: string)
    requires (limit.Some? ==> limit.value <= MAX_INT64) && Spaced(rest)
    ensures Reads(LimitText(limit), LimitTokens(limit), rest) && Spaced(LimitText(limit) + rest)
  {
    hide Reads, KeywordOf, Word, NatText;
    if limit.Some? {
      KeywordClauses();
      ReadsInteger(limit.value, rest);
      ReadsAfterKeyword("LIMIT", KwLimit, NatText(limit.value), [IntegerLit(limit.value)], rest);
      ReadsSpaced("LIMIT" + (" " + NatText(limit.value)), [KwLimit] + [IntegerLit(limit.value)], rest);
      assert LimitTokens(limit) == [KwLimit] + [IntegerLit(limit.value)];
    } else {
      ReadsNothing(rest);
      assert LimitText(limit) + rest == rest;
    }
  }

  function ClausesText(s: SelectStatement, render: real -> string): string
  {
    ClauseText("WHERE", s.where_clause, render)
      + (GroupText(s.group_by, render) + (ClauseText("HAVING", s.having, render)
      + (OrderText(s.order_by, render) + LimitText(s.limit))))
  }

  lemma ReadsClauses(s: SelectStatement, render: real -> string)
    requires LexableStatement(s)
    ensures Reads(ClausesText(s, render), ClausesTokens(s, []), "") && Spaced(ClausesText(s, render))
  {
    hide Reads, KeywordOf, Word, Lexable, LexableItem, LexableTable, ClauseText, ClauseTokens, GroupText, GroupTokens,
         OrderText, OrderTokens, LimitText, LimitTokens;
    var l := LimitText(s.limit);
    var o := OrderText(s.order_by, render) + l;
    var h := ClauseText("HAVING", s.having, render) + o;
    var g := GroupText(s.group_by, render) + h;
    var tl := LimitTokens(s.limit);
    var to := OrderTokens(s.order_by) + tl;
    var th := ClauseTokens(KwHaving, s.having) + to;
    var tg := GroupTokens(s.group_by) + th;
    assert l + "" == l && o + "" == o && h + "" == h && g + "" == g;
    KeywordClauses();
    ReadsLimit(s.limit, "");
    ReadsOrder(s.order_by, render, l);
    ReadsThen(OrderText(s.order_by, render), OrderTokens(s.order_by), l, tl, "");
    ReadsClause("HAVING", KwHaving, s.having, render, o);
    ReadsThen(ClauseText("HAVING", s.having, render), ClauseTokens(KwHaving, s.having), o, to, "");
    ReadsGroup(s.group_by, render, h);
    ReadsThen(GroupText(s.group_by, render), GroupTokens(s.group_by), h, th, "");
    ReadsClause("WHERE", KwWhere, s.where_clause, render, g);
    ReadsThen(ClauseText("WHERE", s.where_clause, render), ClauseTokens(KwWhere, s.where_clause), g, tg, "");
    assert LimitTokens(s.limit) + [] == tl;
  }

  // The canonical text is read as the statement's tokens.
  lemma ReadsStatement(s: SelectStatement, render: real -> string)
    requires LexableStatement(s)
    ensures Lex(StatementText(s, render)) == Ok(StatementTokens(s))
  {
    hide Lex, KeywordOf, Word, LexableItem, LexableTable, Lexable, ClausesText, ClausesTokens, ItemsText, ItemsTokens,
         TableText, TableTokens, JoinsText, JoinsTokens;
    var c, tc := ClausesText(s, render), ClausesTokens(s, []);
    var j, tj := JoinsText(s.joins, render) + c, JoinsTokens(s.joins) + tc;
    var t, tt := TableText(s.source) + j, TableTokens(s.source) + tj;
    var i, ti := ItemsText(s.columns, render), ItemsTokens(s.columns);
    hide Reads;
    assert c + "" == c && j + "" == j && t + "" == t;
    KeywordWords();
    ReadsClauses(s, render);
    ReadsJoins(s.joins, render, c);
    ReadsThen(JoinsText(s.joins, render), JoinsTokens(s.joins), c, tc, "");
    ReadsTable(s.source, j);
    ReadsThen(TableText(s.source), TableTokens(s.source), j, tj, "");
    ReadsAfterKeyword("FROM", KwFrom, t, tt, "");
    ReadsItems(s.columns, render, (" " + ("FROM" + (" " + t))) + "");
    ReadsBefore(i, ti, "FROM" + (" " + t), [KwFrom] + tt, "");
    ReadsAfterKeyword("SELECT", KwSelect, i + (" " + ("FROM" + (" " + t))), ti + ([KwFrom] + tt), "");
    WholeText(s, render);
    WholeRead("SELECT" + (" " + (i + (" " + ("FROM" + (" " + t))))), [KwSelect] + (ti + ([KwFrom] + tt)));
    ClausesEnd(s);
    assert JoinsTokens(s.joins) + tc + [Eof] == JoinsTokens(s.joins) + (tc + [Eof]);
    assert ([KwSelect] + (ti + ([KwFrom] + tt))) + [Eof]
        == [KwSelect] + (ti + ([KwFrom] + (TableTokens(s.source) + (JoinsTokens(s.joins) + (tc + [Eof])))));
  }

  lemma WholeText(s: SelectStatement, render: real -> string)
    ensures StatementText(s, render)
         == "SELECT"
           + (" " + (ItemsText(s.columns, render)
                     + (" " + ("FROM"
                               + (" " + (TableText(s.source)
                                         + (JoinsText(s.joins, render) + ClausesText(s, render))))))))
  {
  }

  lemma WholeRead(text: string, ts: Tokens)
    requires Reads(text, ts, "")
    ensures Lex(text) == Ok(ts + [Eof])
  {
    assert text + "" == text;
    assert Lex("") == Ok([Eof]);
  }

  lemma ClausesEnd(s: SelectStatement)
    ensures ClausesTokens(s, [Eof]) == ClausesTokens(s, []) + [Eof]
  {
    hide ClauseTokens, GroupTokens, OrderTokens, LimitTokens;
  }

  // ---- The round trip ----

  // Lexing and parsing canonical text.
  function Reread(s: SelectStatement, render: real -> string): Result<SelectStatement>
  {
    var ts := Lex(StatementText(s, render));
    if ts.Err? then Err(ts.error) else Parse(ts.value)
  }

  // Canonical text, lexed and parsed, is the statement just when its NOTs are
  // placed.
  lemma SqlRoundTrip(s: SelectStatement, render: real -> string)
    requires ShapedStatement(s) && LexableStatement(s)
    ensures Reread(s, render) == Ok(s) <==> NotsPlaced(s)
  {
    hide Lex, StatementText, StatementTokens, Parse, ShapedStatement, LexableStatement, NotsPlaced;
    ReadsStatement(s, render);
    StatementPrinted(s);
  }

  // So canonical text tells such statements apart.
  lemma CanonicalTextInjective(s: SelectStatement, t: SelectStatement, render: real -> string)
    requires ShapedStatement(s) && LexableStatement(s) && NotsPlaced(s) && ShapedStatement(t) && LexableStatement(t)
      && NotsPlaced(t)
    requires StatementText(s, render) == StatementText(t, render)
    ensures s == t
  {
    hide Lex, StatementText, Parse, ShapedStatement, LexableStatement, NotsPlaced;
    SqlRoundTrip(s, render);
    SqlRoundTrip(t, render);
  }
}
