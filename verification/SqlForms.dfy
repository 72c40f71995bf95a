// Forms of SQL text that the printer never writes (parser/lexer.cpp,
// parser/parser.cpp), each read as the form it does write.
module SqlForms {
  import opened Wrappers
  import opened Ast
  import opened Decimal
  import opened SqlTokens
  import opened SqlStatements
  import opened SqlGrammar
  import opened SqlLexing
  import opened SqlPrinted
  import opened Evaluation
  import opened SqlText
  import opened SqlPrecedence

  // ---- Clauses ----

  // A bare JOIN is an inner join.
  lemma BareJoin(ts: Tokens)
    requires First(ts) != KwJoin
    ensures ParseJoin([KwJoin] + ts) == ParseJoin([KwInner, KwJoin] + ts)
    ensures ParseJoin([KwJoin] + ts).Ok? ==> ParseJoin([KwJoin] + ts).value.0.join_type == Inner
  {
    hide ParseTableRef, ParseOr;
    Cons(KwJoin, ts);
    assert [KwInner, KwJoin] + ts == [KwInner] + ([KwJoin] + ts);
    Cons(KwInner, [KwJoin] + ts);
  }

  // Other joins keep the kind they are written with.
  lemma JoinKinds(t: Token, kind: JoinType, ts: Tokens)
    requires (t, kind) in {(KwInner, Inner), (KwLeft, JoinType.Left), (KwRight, JoinType.Right), (KwCross, Cross)}
    ensures ParseJoin([t] + ts).Ok? ==> ParseJoin([t] + ts).value.0.join_type == kind
  {
    hide ParseTableRef, ParseOr, Rest;
    Cons(t, ts);
  }

  // Without ASC or DESC an item is ascending.
  lemma OrderIsAscending(ts: Tokens, e: Expr, after: Tokens)
    requires ParseOr(ts) == Ok((e, after))
    ensures First(after) !in {KwAsc, KwDesc} ==> ParseOrderItem(ts) == Ok((OrderByItem(e, true), after))
    ensures First(after) == KwAsc ==> ParseOrderItem(ts) == Ok((OrderByItem(e, true), Rest(after)))
    ensures First(after) == KwDesc ==> ParseOrderItem(ts) == Ok((OrderByItem(e, false), Rest(after)))
  {
    hide ParseOr;
  }

  // AS before an alias may be left out.
  lemma AliasWithoutAs(name: string, ts: Tokens)
    ensures ParseAlias([Identifier(name)] + ts) == ParseAlias([KwAs, Identifier(name)] + ts) == Ok((Some(name), ts))
  {
    Cons(Identifier(name), ts);
    assert [KwAs, Identifier(name)] + ts == [KwAs] + ([Identifier(name)] + ts);
    Cons(KwAs, [Identifier(name)] + ts);
  }

  // ---- Text ----

  // Space before a token is not seen, however much of it there is.
  lemma {:induction false} SpaceUnseen(space: string, rest: string)
    requires forall i :: 0 <= i < |space| ==> IsSpace(space[i])
    ensures Lex(space + rest) == Lex(rest)
  {
    if space == [] {
      assert space + rest == rest;
    } else {
      assert (space + rest)[0] == space[0] && (space + rest)[1..] == space[1..] + rest;
      SpaceUnseen(space[1..], rest);
    }
  }

  // Keywords are recognised in any case of their letters.
  lemma KeywordsAnyCase(w: string, keyword: string)
    requires |w| == |keyword| && forall i :: 0 <= i < |w| ==> ToUpper(w[i]) == keyword[i]
    ensures KeywordOf(Upper(w)) == KeywordOf(keyword)
  {
    assert Upper(w) == keyword;
  }

  // Both spellings of "not equal".
  lemma TwoInequalities(rest: string)
    ensures Reads("!=", [OpNeq], rest) && Reads("<>", [OpNeq], rest)
  {
    assert ("!=" + rest)[2..] == rest && ("<>" + rest)[2..] == rest;
    ReadsOne("!=", OpNeq, rest);
    ReadsOne("<>", OpNeq, rest);
  }

  // A number with decimals is that of its digits, divided by ten for each
  // decimal.
  lemma ReadsDecimal(whole: string, decimals: string, rest: string) returns (x: real)
    requires whole != [] && decimals != [] && AllDigits(whole) && AllDigits(decimals)
    requires rest == [] || !IsDigit(rest[0])
    ensures Reads(whole + "." + decimals, [FloatLit(x)], rest)
    ensures Shifted(x, |decimals|) == NatValue(whole + decimals) as real
  {
    hide NatValue, NextToken, Reads, Shifted, Power10;
    var text := whole + "." + decimals;
    x := DecimalOf(whole, decimals);
    DecimalToken(text + rest, whole, decimals, rest);
    assert text[0] == whole[0];
    ReadsOne(text, FloatLit(x), rest);
    ShiftedSum(NatValue(whole), NatValue(decimals), |decimals|);
    DigitsJoined(whole, decimals);
  }

  // What number literals stand for.
  function DecimalOf(whole: string, decimals: string): real
    requires AllDigits(whole) && AllDigits(decimals)
  {
    NatValue(whole) as real + NatValue(decimals) as real / Power10(|decimals|)
  }

  lemma DecimalToken(s: string, whole: string, decimals: string, rest: string)
    requires whole != [] && decimals != [] && AllDigits(whole) && AllDigits(decimals)
    requires (rest == [] || !IsDigit(rest[0])) && s == whole + "." + decimals + rest
    ensures NextToken(s) == Ok((FloatLit(DecimalOf(whole, decimals)), rest))
  {
    hide DecimalOf, DigitLength, NumberToken, NextToken;
    DecimalParts(whole, decimals, rest);
    assert s[0] == whole[0] && IsDigit(s[0]);
    NumberOfParts(s, |whole|, |decimals|, whole, decimals);
    DigitStarts(s);
  }

  lemma DigitStarts(s: string)
    requires s != [] && IsDigit(s[0])
    ensures NextToken(s) == NumberToken(s)
  {
    hide NumberToken, WordToken, StringToken;
  }

  lemma DecimalParts(whole: string, decimals: string, rest: string)
    requires whole != [] && AllDigits(whole) && AllDigits(decimals) && (rest == [] || !IsDigit(rest[0]))
    ensures var s, n := whole + "." + decimals + rest, |whole|;
      && DigitLength(s) == n && s[..n] == whole && s[n] == '.' && DigitLength(s[n + 1..]) == |decimals|
      && s[n + 1..][..|decimals|] == decimals && s[n + 1 + |decimals|..] == rest
  {
    hide DigitLength;
    var s, after := whole + "." + decimals + rest, decimals + rest;
    assert s == whole + ("." + after);
    DigitLengthOf(whole, "." + after);
    assert s[|whole| + 1..] == after;
    DigitLengthOf(decimals, rest);
  }

  lemma NumberOfParts(s: string, n: nat, f: nat, whole: string, decimals: string)
    requires s != [] && IsDigit(s[0]) && DigitLength(s) == n && n + 1 < |s| && s[n] == '.' && s[..n] == whole
    requires DigitLength(s[n + 1..]) == f && f > 0 && s[n + 1..][..f] == decimals
    ensures NumberToken(s) == Ok((FloatLit(DecimalOf(whole, decimals)), s[n + 1 + f..]))
  {
    hide NatValue, DigitLength, Power10;
  }

  // Ten times x, n times over.
  function Shifted(x: real, n: nat): real
    decreases n
  {
    if n == 0 then x else Shifted(10.0 * x, n - 1)
  }

  lemma {:induction false} ShiftedIs(x: real, n: nat)
    ensures Shifted(x, n) == Times(x, Power10(n))
    decreases n
  {
    if n > 0 {
      ShiftedIs(10.0 * x, n - 1);
      Tenfold(x, Power10(n - 1));
    }
  }

  lemma Tenfold(x: real, p: real)
    ensures Times(10.0 * x, p) == Times(x, 10.0 * p) == 10.0 * Times(x, p)
  {
  }

  lemma ShiftedSum(w: nat, d: nat, n: nat)
    ensures Shifted(w as real + d as real / Power10(n), n) == Times(w as real, Power10(n)) + d as real
  {
    ShiftedIs(w as real + d as real / Power10(n), n);
    SumTimes(w as real, d as real, Power10(n));
  }

  lemma SumTimes(w: real, d: real, p: real)
    requires p > 0.0
    ensures Times(w + d / p, p) == Times(w, p) + d
  {
    assert d / p * p == d;
  }

  lemma {:induction false} DigitsJoined(a: string, b: string)
    requires AllDigits(a) && AllDigits(b)
    ensures AllDigits(a + b)
    ensures NatValue(a + b) as real == Times(NatValue(a) as real, Power10(|b|)) + NatValue(b) as real
  {
    if b == [] {
      assert a + b == a;
      assert Times(NatValue(a) as real, 1.0) == NatValue(a) as real;
    } else {
      var front, last := b[..|b| - 1], b[|b| - 1];
      assert (a + b)[..|a + b| - 1] == a + front;
      DigitsJoined(a, front);
      assert Power10(|b|) == 10.0 * Power10(|front|);
      LastDigit(a + b, a + front);
      LastDigit(b, front);
      hide NatValue, Power10, Times;
      Tenfold(NatValue(a) as real, Power10(|front|));
    }
  }

  lemma LastDigit(s: string, front: string)
    requires s != [] && AllDigits(s) && front == s[..|s| - 1]
    ensures AllDigits(front) && NatValue(s) as real == 10.0 * NatValue(front) as real + DigitValue(s[|s| - 1]) as real
  {
    assert NatValue(s) == 10 * NatValue(front) + DigitValue(s[|s| - 1]);
  }

  // ---- Words and operators ----

  lemma Keywords()
    ensures KeywordOf("SELECT") == Some(KwSelect) && KeywordOf("FROM") == Some(KwFrom)
    ensures KeywordOf("WHERE") == Some(KwWhere) && KeywordOf("HAVING") == Some(KwHaving)
    ensures KeywordOf("GROUP") == Some(KwGroup) && KeywordOf("ORDER") == Some(KwOrder) && KeywordOf("BY") == Some(KwBy)
    ensures KeywordOf("LIMIT") == Some(KwLimit) && KeywordOf("ASC") == Some(KwAsc) && KeywordOf("DESC") == Some(KwDesc)
  {
  }

  lemma MoreKeywords()
    ensures KeywordOf("JOIN") == Some(KwJoin) && KeywordOf("INNER") == Some(KwInner)
    ensures KeywordOf("LEFT") == Some(KwLeft)
    ensures KeywordOf("RIGHT") == Some(KwRight) && KeywordOf("CROSS") == Some(KwCross) && KeywordOf("ON") == Some(KwOn)
    ensures KeywordOf("AS") == Some(KwAs) && KeywordOf("NULL") == Some(KwNull)
    ensures KeywordOf("TRUE") == Some(KwTrue) && KeywordOf("FALSE") == Some(KwFalse)
  {
  }

  const OPERATORS := {
    (Eq, "="), (Neq, "<>"), (Lt, "<"), (Gt, ">"), (Lte, "<="), (Gte, ">="),
    (And, "AND"), (Or, "OR"), (Add, "+"), (Sub, "-"), (Mul, "*"), (Div, "/")
  }

  lemma OperatorSpelt(op: BinaryOperator, text: string)
    requires (op, text) in OPERATORS
    ensures OperatorText(op) == text
  {
  }

  lemma InfixTokens(a: string, op: BinaryOperator, b: string)
    requires Name(a) && Name(b)
    ensures Lex(a + (" " + (OperatorText(op) + (" " + b))))
         == Ok([Identifier(a)] + ([OperatorToken(op)] + [Identifier(b)]) + [Eof])
  {
    hide Lex, Reads, Name, OperatorText, OperatorToken;
    ReadsName(b, "");
    ReadsSpaced(b, [Identifier(b)], "");
    ReadsOperator(op, b);
    var tail := OperatorText(op) + (" " + b);
    NothingAfter(" " + b);
    ReadsThen(OperatorText(op), [OperatorToken(op)], " " + b, [Identifier(b)], "");
    ReadsSpaced(tail, [OperatorToken(op)] + [Identifier(b)], "");
    NothingAfter(" " + tail);
    ReadsName(a, " " + tail);
    ReadsThen(a, [Identifier(a)], " " + tail, [OperatorToken(op)] + [Identifier(b)], "");
    WholeRead(a + (" " + tail), [Identifier(a)] + ([OperatorToken(op)] + [Identifier(b)]));
  }

  lemma NothingAfter(s: string)
    ensures s + "" == s
  {
  }

  lemma InfixParsed(a: string, op: BinaryOperator, b: string)
    ensures ParseOr([Identifier(a)] + ([OperatorToken(op)] + [Identifier(b)]) + [Eof])
         == Ok((BinaryOp(Column(None, a), op, Column(None, b)), [Eof]))
  {
    hide ParseOr, Bare, OperatorToken;
    var x, y := Column(None, a), Column(None, b);
    InfixText(a, op, b);
    FlatColumns(x, op, y);
    LeanRoundTrip(BinaryOp(x, op, y), [Eof]);
  }

  lemma InfixText(a: string, op: BinaryOperator, b: string)
    ensures Bare(BinaryOp(Column(None, a), op, Column(None, b)))
         == [Identifier(a)] + ([OperatorToken(op)] + [Identifier(b)])
  {
    hide Bare, OperatorToken;
    OneName(a);
    OneName(b);
    BareBinary(Column(None, a), op, Column(None, b));
  }

  lemma FlatColumns(x: Expr, op: BinaryOperator, y: Expr)
    requires x.Column? && y.Column?
    ensures Shaped(BinaryOp(x, op, y))
  {
  }

  // The text of a binary operation is read as that operation.
  lemma InfixRead(a: string, op: BinaryOperator, text: string, b: string)
    requires Name(a) && Name(b) && (op, text) in OPERATORS
    ensures var tokens := Lex(a + (" " + (text + (" " + b))));
      tokens.Ok? && ParseOr(tokens.value) == Ok((BinaryOp(Column(None, a), op, Column(None, b)), [Eof]))
  {
    hide Lex, ParseOr, Name, OperatorText, OperatorToken;
    OperatorSpelt(op, text);
    InfixTokens(a, op, b);
    InfixParsed(a, op, b);
  }

  // So is that of NOT and of a sign.
  lemma PrefixTokens(a: string)
    requires Name(a)
    ensures Lex("NOT" + (" " + a)) == Ok([KwNot] + [Identifier(a)] + [Eof])
    ensures Lex("-" + a) == Ok([Minus] + [Identifier(a)] + [Eof])
  {
    hide Lex, Reads, Name;
    ReadsName(a, "");
    NothingAfter(a);
    KeywordAnd();
    hide Word, KeywordOf;
    ReadsAfterKeyword("NOT", KwNot, a, [Identifier(a)], "");
    WholeRead("NOT" + (" " + a), [KwNot] + [Identifier(a)]);
    ReadsSymbol('-', a);
    ReadsThen("-", [Minus], a, [Identifier(a)], "");
    WholeRead("-" + a, [Minus] + [Identifier(a)]);
  }

  lemma PrefixRead(a: string)
    ensures ParseOr([KwNot] + [Identifier(a)] + [Eof]) == Ok((UnaryOp(Not, Column(None, a)), [Eof]))
    ensures ParseOr([Minus] + [Identifier(a)] + [Eof]) == Ok((UnaryOp(Neg, Column(None, a)), [Eof]))
  {
    hide ParseOr, Bare;
    SignedName(a);
    LeanRoundTrip(UnaryOp(Not, Column(None, a)), [Eof]);
    LeanRoundTrip(UnaryOp(Neg, Column(None, a)), [Eof]);
  }

  lemma SignedName(a: string)
    ensures Bare(UnaryOp(Not, Column(None, a))) == [KwNot] + [Identifier(a)]
    ensures Bare(UnaryOp(Neg, Column(None, a))) == [Minus] + [Identifier(a)]
  {
    OneName(a);
    var x := Column(None, a);
    assert Lean(x, NOT) == [Identifier(a)] && Lean(x, SIGN) == [Identifier(a)];
  }

  // Canonical text puts a binary operation in parentheses, with one space on
  // either side of its operator.
  lemma CanonicalOperation(render: real -> string)
    ensures ExprText(BinaryOp(Column(Some("a"), "x"), Lt, Lit(Str("b"))), render) == "(a.x < 'b')"
    ensures ExprText(UnaryOp(Not, Lit(Boolean(true))), render) == "NOT TRUE"
    ensures ExprText(Function("F", [Column(None, "a"), Lit(Null)]), render) == "F(a, NULL)"
  {
    var es := [Column(None, "a"), Lit(Null)];
    assert es[1..] == [Lit(Null)];
    assert ListText([Lit(Null)], render) == "NULL";
    assert ListText(es, render) == "a" + ("," + (" " + "NULL"));
  }
}
