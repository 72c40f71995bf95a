// The lexer (parser/lexer.cpp) on text, and what it makes of printed text.
module SqlLexing {
  import opened Wrappers
  import opened Decimal
  import opened SqlTokens
  import opened SqlGrammar

  predicate IsAlpha(c: char) { 'a' <= c <= 'z' || 'A' <= c <= 'Z' }
  predicate WordChar(c: char) { IsAlpha(c) || IsDigit(c) || c == '_' }

  function ToUpper(c: char): char
  {
    if 'a' <= c <= 'z' then (c as int - 32) as char else c
  }

  function Upper(s: string): string
  {
    seq(|s|, i requires 0 <= i < |s| => ToUpper(s[i]))
  }

  // The keywords, by length.
  function KeywordOf(upper: string): Option<Token>
  {
    match |upper|
    case 2 =>
      if upper == "ON" then Some(KwOn)
      else if upper == "OR" then Some(KwOr)
      else if upper == "AS" then Some(KwAs)
      else if upper == "BY" then Some(KwBy)
      else None
    case 3 =>
      if upper == "AND" then Some(KwAnd)
      else if upper == "NOT" then Some(KwNot)
      else if upper == "ASC" then Some(KwAsc)
      else None
    case 4 =>
      if upper == "FROM" then Some(KwFrom)
      else if upper == "JOIN" then Some(KwJoin)
      else if upper == "LEFT" then Some(KwLeft)
      else if upper == "DESC" then Some(KwDesc)
      else if upper == "NULL" then Some(KwNull)
      else if upper == "TRUE" then Some(KwTrue)
      else None
    case 5 =>
      if upper == "WHERE" then Some(KwWhere)
      else if upper == "INNER" then Some(KwInner)
      else if upper == "RIGHT" then Some(KwRight)
      else if upper == "CROSS" then Some(KwCross)
      else if upper == "ORDER" then Some(KwOrder)
      else if upper == "GROUP" then Some(KwGroup)
      else if upper == "LIMIT" then Some(KwLimit)
      else if upper == "FALSE" then Some(KwFalse)
      else None
    case 6 =>
      if upper == "SELECT" then Some(KwSelect)
      else if upper == "HAVING" then Some(KwHaving)
      else None
    case _ => None
  }

  function WordLength(s: string): (n: nat)
    ensures n <= |s|
  {
    if s == [] || !WordChar(s[0]) then 0 else 1 + WordLength(s[1..])
  }

  // Up to the closing quote.
  function QuotedLength(s: string): (n: Option<nat>)
    ensures n.Some? ==> n.value < |s|
  {
    if s == [] then None
    else if s[0] == '\'' then Some(0)
    else
      var n := QuotedLength(s[1..]);
      if n.Some? then Some(n.value + 1) else None
  }

  function Power10(n: nat): (r: real)
    ensures r > 0.0
  {
    if n == 0 then 1.0 else 10.0 * Power10(n - 1)
  }

  function NumberToken(s: string): (r: Result<(Token, string)>)
    requires s != [] && IsDigit(s[0])
    ensures r.Ok? ==> |r.value.1| < |s|
  {
    var n := DigitLength(s);
    var f := if n + 1 < |s| && s[n] == '.' then DigitLength(s[n + 1..]) else 0;
    if f > 0 then
      Ok((FloatLit(NatValue(s[..n]) as real + NatValue(s[n + 1..][..f]) as real / Power10(f)), s[n + 1 + f..]))
    else if NatValue(s[..n]) > MAX_INT64 then Err("invalid integer")
    else Ok((IntegerLit(NatValue(s[..n])), s[n..]))
  }

  function WordToken(s: string): (r: Result<(Token, string)>)
    requires s != [] && WordChar(s[0])
    ensures r.Ok? ==> |r.value.1| < |s|
  {
    var n := WordLength(s);
    var k := KeywordOf(Upper(s[..n]));
    Ok((if k.Some? then k.value else Identifier(s[..n]), s[n..]))
  }

  function StringToken(s: string): (r: Result<(Token, string)>)
    ensures r.Ok? ==> |r.value.1| < |s|
  {
    var n := QuotedLength(s);
    if n.None? then Err("unterminated string literal") else Ok((StringLit(s[..n.value]), s[n.value + 1..]))
  }

  function SymbolOf(c: char): Option<Token>
  {
    match c
    case ',' => Some(Comma)
    case '.' => Some(Dot)
    case '(' => Some(LParen)
    case ')' => Some(RParen)
    case '+' => Some(Plus)
    case '-' => Some(Minus)
    case '*' => Some(Star)
    case '/' => Some(Slash)
    case '=' => Some(OpEq)
    case _ => None
  }

  predicate StartsWith(s: string, i: nat, c: char)
  {
    i < |s| && s[i] == c
  }

  // next_token, at a character that is not a space
  function NextToken(s: string): (r: Result<(Token, string)>)
    requires s != []
    ensures r.Ok? ==> |r.value.1| < |s|
  {
    var c := s[0];
    if SymbolOf(c).Some? then Ok((SymbolOf(c).value, s[1..]))
    else if c == '<' then
      if StartsWith(s, 1, '=') then Ok((OpLte, s[2..]))
      else if StartsWith(s, 1, '>') then Ok((OpNeq, s[2..]))
      else Ok((OpLt, s[1..]))
    else if c == '>' then
      if StartsWith(s, 1, '=') then Ok((OpGte, s[2..])) else Ok((OpGt, s[1..]))
    else if c == '!' then
      if StartsWith(s, 1, '=') then Ok((OpNeq, s[2..])) else Err("expected '=' after '!'")
    else if c == '\'' then StringToken(s[1..])
    else if IsDigit(c) then NumberToken(s)
    else if IsAlpha(c) || c == '_' then WordToken(s)
    else Err("unexpected character")
  }

  // tokenize
  function Lex(s: string): Result<Tokens>
    decreases |s|
  {
    if s == [] then Ok([Eof])
    else if IsSpace(s[0]) then Lex(s[1..])
    else
      var t := NextToken(s);
      if t.Err? then Err(t.error) else Prepend([t.value.0], Lex(t.value.1))
  }

  function Prepend(ts: Tokens, r: Result<Tokens>): Result<Tokens>
  {
    if r.Err? then r else Ok(ts + r.value)
  }

  // ---- Reading printed pieces ----

  // The text is read as these tokens when rest follows it.
  ghost predicate Reads(text: string, ts: Tokens, rest: string)
  {
    Lex(text + rest) == Prepend(ts, Lex(rest))
  }

  lemma ReadsThen(a: string, ta: Tokens, b: string, tb: Tokens, rest: string)
    requires Reads(a, ta, b + rest) && Reads(b, tb, rest)
    ensures Reads(a + b, ta + tb, rest)
  {
    hide Lex;
    assert (a + b) + rest == a + (b + rest);
    var r := Lex(rest);
    if r.Ok? {
      assert (ta + tb) + r.value == ta + (tb + r.value);
    }
  }

  lemma ReadsSpace(rest: string)
    ensures Reads(" ", [], rest)
  {
    assert (" " + rest)[0] == ' ' && (" " + rest)[1..] == rest;
    if Lex(rest).Ok? {
      assert [] + Lex(rest).value == Lex(rest).value;
    }
  }

  lemma ReadsOne(text: string, t: Token, rest: string)
    requires text != [] && !IsSpace(text[0]) && NextToken(text + rest) == Ok((t, rest))
    ensures Reads(text, [t], rest)
  {
    hide NextToken;
    assert (text + rest)[0] == text[0];
  }

  lemma ReadsSymbol(c: char, rest: string)
    requires SymbolOf(c).Some?
    ensures Reads([c], [SymbolOf(c).value], rest)
  {
    assert ([c] + rest)[1..] == rest;
    ReadsOne([c], SymbolOf(c).value, rest);
  }

  // A word cannot go on in what follows, nor a number.
  predicate Breaks(rest: string)
  {
    rest == [] || !(WordChar(rest[0]) || rest[0] == '.')
  }

  lemma {:induction false} WordLengthOf(w: string, rest: string)
    requires (forall i :: 0 <= i < |w| ==> WordChar(w[i])) && (rest == [] || !WordChar(rest[0]))
    ensures WordLength(w + rest) == |w|
  {
    if w == [] {
      assert w + rest == rest;
    } else {
      assert (w + rest)[0] == w[0] && (w + rest)[1..] == w[1..] + rest;
      WordLengthOf(w[1..], rest);
    }
  }

  predicate Word(w: string)
  {
    w != [] && (IsAlpha(w[0]) || w[0] == '_') && forall i :: 0 <= i < |w| ==> WordChar(w[i])
  }

  lemma ReadsWord(w: string, rest: string)
    requires Word(w) && (rest == [] || !WordChar(rest[0]))
    ensures var k := KeywordOf(Upper(w)); Reads(w, [if k.Some? then k.value else Identifier(w)], rest)
  {
    hide KeywordOf;
    WordLengthOf(w, rest);
    var s := w + rest;
    assert s[0] == w[0] && s[..|w|] == w && s[|w|..] == rest;
    var k := KeywordOf(Upper(w));
    assert NextToken(s) == WordToken(s);
    ReadsOne(w, if k.Some? then k.value else Identifier(w), rest);
  }

  // A name: a word that is no keyword.
  predicate Name(w: string)
  {
    Word(w) && KeywordOf(Upper(w)).None?
  }

  lemma ReadsName(w: string, rest: string)
    requires Name(w) && (rest == [] || !WordChar(rest[0]))
    ensures Reads(w, [Identifier(w)], rest)
  {
    hide KeywordOf, Reads, Word;
    ReadsWord(w, rest);
  }

  lemma ReadsInteger(n: nat, rest: string)
    requires n <= MAX_INT64 && Breaks(rest)
    ensures Reads(NatText(n), [IntegerLit(n)], rest)
  {
    hide NatText, NatValue, DigitLength;
    var d := NatText(n);
    var s := d + rest;
    DigitLengthOf(d, rest);
    NatRoundTrip(n);
    assert s[0] == d[0] && IsDigit(d[0]) && s[..|d|] == d && s[|d|..] == rest;
    assert NextToken(s) == NumberToken(s);
    ReadsOne(d, IntegerLit(n), rest);
  }

  lemma {:induction false} QuotedLengthOf(s: string, rest: string)
    requires '\'' !in s
    ensures QuotedLength(s + "'" + rest) == Some(|s|)
  {
    var t := s + "'" + rest;
    if s == [] {
      assert t[0] == '\'';
    } else {
      assert t[0] == s[0] && t[1..] == s[1..] + "'" + rest;
      QuotedLengthOf(s[1..], rest);
    }
  }

  lemma ReadsString(str: string, rest: string)
    requires '\'' !in str
    ensures Reads("'" + str + "'", [StringLit(str)], rest)
  {
    hide QuotedLength;
    var text := "'" + str + "'";
    var s := text + rest;
    QuotedLengthOf(str, rest);
    assert s[0] == '\'' && s[1..] == str + "'" + rest;
    assert s[1..][..|str|] == str && s[1..][|str| + 1..] == rest;
    assert NextToken(s) == StringToken(s[1..]);
    ReadsOne(text, StringLit(str), rest);
  }
}
