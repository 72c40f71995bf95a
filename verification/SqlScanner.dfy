// The cursor-moving lexer (parser/lexer.cpp), proved against the lexing
// functions on text.
module SqlScanner {
  import opened Wrappers
  import opened Decimal
  import opened SqlTokens
  import opened SqlGrammar
  import opened SqlLexing

  // A lexer that returned r and stands before rest did what p says.
  ghost predicate Did(p: Result<(Token, string)>, r: Result<Token>, rest: string)
  {
    if p.Ok? then r == Ok(p.value.0) && rest == p.value.1 else r.Err?
  }

  class Lexer {
    const input: string
    var pos: nat

    constructor (input: string)
      ensures this.input == input && pos == 0 && Valid() && Text() == input
    {
      this.input, pos := input, 0;
    }

    ghost predicate Valid()
      reads this
    {
      pos <= |input|
    }

    ghost function Text(): string
      requires Valid()
      reads this
    {
      input[pos..]
    }

    // peek: whether the next character is there and is c
    function At(c: char): (b: bool)
      requires Valid()
      reads this
      ensures b == StartsWith(Text(), 0, c)
    {
      pos < |input| && input[pos] == c
    }

    method Advance()
      requires Valid() && pos < |input|
      modifies this
      ensures Valid() && pos == old(pos) + 1 && Text() == old(Text())[1..]
    {
      assert input[pos..][1..] == input[pos + 1..];
      pos := pos + 1;
    }

    method SkipWhitespace()
      requires Valid()
      modifies this
      ensures Valid() && pos >= old(pos) && Lex(Text()) == Lex(old(Text())) && (pos < |input| ==> !IsSpace(input[pos]))
    {
      hide NextToken;
      while pos < |input| && IsSpace(input[pos])
        invariant Valid() && pos >= old(pos) && Lex(Text()) == Lex(old(Text()))
      {
        assert Text()[0] == input[pos];
        Advance();
      }
    }

    method ScanDigits() returns (num: string)
      requires Valid()
      modifies this
      ensures Valid() && pos == old(pos) + DigitLength(old(Text())) && num == old(Text())[..DigitLength(old(Text()))]
    {
      num := "";
      ghost var start := Text();
      while pos < |input| && IsDigit(input[pos])
        invariant Valid() && pos >= old(pos) && DigitLength(start) == pos - old(pos) + DigitLength(Text())
        invariant num == input[old(pos)..pos]
      {
        assert Text()[0] == input[pos];
        num := num + [input[pos]];
        Advance();
      }
      assert pos < |input| ==> Text()[0] == input[pos];
      assert start[..pos - old(pos)] == input[old(pos)..pos];
    }

    method ScanWord() returns (word: string)
      requires Valid()
      modifies this
      ensures Valid() && pos == old(pos) + WordLength(old(Text())) && word == old(Text())[..WordLength(old(Text()))]
    {
      word := "";
      ghost var start := Text();
      while pos < |input| && WordChar(input[pos])
        invariant Valid() && pos >= old(pos) && WordLength(start) == pos - old(pos) + WordLength(Text())
        invariant word == input[old(pos)..pos]
      {
        assert Text()[0] == input[pos];
        word := word + [input[pos]];
        Advance();
      }
      assert pos < |input| ==> Text()[0] == input[pos];
      assert start[..pos - old(pos)] == input[old(pos)..pos];
    }

    method ScanString() returns (r: Result<Token>)
      requires Valid()
      modifies this
      ensures Valid() && pos >= old(pos) && Did(StringToken(old(Text())), r, Text())
    {
      var s := "";
      ghost var start := Text();
      while true
        invariant Valid() && pos >= old(pos) && s == input[old(pos)..pos]
        invariant QuotedLength(start).Some? <==> QuotedLength(Text()).Some?
        invariant QuotedLength(Text()).Some? ==>
          QuotedLength(start).value == pos - old(pos) + QuotedLength(Text()).value
        decreases |input| - pos
      {
        if pos >= |input| {
          return Err("unterminated string literal");
        }
        assert Text()[0] == input[pos];
        if input[pos] == '\'' {
          assert start[..pos - old(pos)] == s && start[pos - old(pos) + 1..] == input[pos + 1..];
          Advance();
          return Ok(StringLit(s));
        }
        s := s + [input[pos]];
        Advance();
      }
    }

    method ScanNumber() returns (r: Result<Token>)
      requires Valid() && pos < |input| && IsDigit(input[pos])
      modifies this
      ensures Valid() && pos >= old(pos) && Did(NumberToken(old(Text())), r, Text())
    {
      hide DigitLength, NatValue, Power10;
      ghost var s, start := Text(), pos;
      assert s[0] == input[pos];
      var whole := ScanDigits();
      ghost var n := pos - start;
      assert Text() == s[n..];
      if At('.') && pos + 1 < |input| && IsDigit(input[pos + 1]) {
        assert s[n] == '.' && s[n + 1] == input[pos + 1];
        Advance();
        assert Text() == s[n + 1..];
        SomeDigits(Text());
        var fraction := ScanDigits();
        assert Text() == s[n + 1 + |fraction|..];
        return Ok(FloatLit(NatValue(whole) as real + NatValue(fraction) as real / Power10(|fraction|)));
      }
      if At('.') && pos + 1 < |input| {
        assert s[n + 1] == input[pos + 1];
        SomeDigits(s[n + 1..]);
      }
      r := if NatValue(whole) > MAX_INT64 then Err("invalid integer") else Ok(IntegerLit(NatValue(whole)));
    }

    method ScanOperator() returns (r: Result<Token>)
      requires Valid() && pos < |input| && input[pos] in "<>!"
      modifies this
      ensures Valid() && pos >= old(pos) && Did(NextToken(old(Text())), r, Text())
    {
      hide NumberToken, WordToken, StringToken;
      ghost var s := Text();
      var c := input[pos];
      assert s[0] == c;
      Advance();
      assert forall d: char :: StartsWith(Text(), 0, d) <==> StartsWith(s, 1, d);
      assert |s| > 1 ==> s[1..][1..] == s[2..];
      if At('=') {
        Advance();
        return Ok(if c == '<' then OpLte else if c == '>' then OpGte else OpNeq);
      }
      if c == '<' && At('>') {
        Advance();
        return Ok(OpNeq);
      }
      r := if c == '<' then Ok(OpLt) else if c == '>' then Ok(OpGt) else Err("expected '=' after '!'");
    }

    // next_token after the white space
    method ScanToken() returns (r: Result<Token>)
      requires Valid() && pos < |input|
      modifies this
      ensures Valid() && pos >= old(pos) && Did(NextToken(old(Text())), r, Text())
    {
      hide WordLength, KeywordOf;
      var c := input[pos];
      ghost var s := Text();
      assert s[0] == c;
      if SymbolOf(c).Some? {
        Advance();
        return Ok(SymbolOf(c).value);
      }
      if c == '<' || c == '>' || c == '!' {
        r := ScanOperator();
        return;
      }
      if c == '\'' {
        Advance();
        r := ScanString();
        return;
      }
      if IsDigit(c) {
        r := ScanNumber();
        return;
      }
      if IsAlpha(c) || c == '_' {
        ghost var start := pos;
        var word := ScanWord();
        assert Text() == s[pos - start..];
        var k := KeywordOf(Upper(word));
        return Ok(if k.Some? then k.value else Identifier(word));
      }
      r := Err("unexpected character");
    }

    // tokenize: the end of the text gives the one end-of-input token.
    method Tokenize() returns (r: Result<Tokens>)
      requires Valid()
      modifies this
      ensures Valid() && (r.Ok? <==> Lex(old(Text())).Ok?) && (r.Ok? ==> r == Lex(old(Text())))
    {
      hide NextToken;
      var tokens: Tokens := [];
      ghost var start := Text();
      NoTokens(start);
      while true
        invariant Valid() && Lex(start) == Prepend(tokens, Lex(Text()))
        decreases |input| - pos
      {
        SkipWhitespace();
        if pos == |input| {
          return Ok(tokens + [Eof]);
        }
        ghost var here := Text();
        assert here[0] == input[pos];
        var t := ScanToken();
        if t.Err? {
          return Err(t.error);
        }
        LexStep(here, t.value, Text(), tokens);
        tokens := tokens + [t.value];
      }
    }
  }

  lemma SomeDigits(s: string)
    requires s != []
    ensures IsDigit(s[0]) <==> DigitLength(s) > 0
  {
  }

  lemma NoTokens(s: string)
    ensures Prepend([], Lex(s)) == Lex(s)
  {
    hide Lex;
    if Lex(s).Ok? {
      assert [] + Lex(s).value == Lex(s).value;
    }
  }

  lemma LexOne(s: string, t: Token, rest: string)
    requires s != [] && !IsSpace(s[0]) && NextToken(s) == Ok((t, rest))
    ensures Lex(s) == Prepend([t], Lex(rest))
  {
    hide NextToken;
  }

  lemma LexStep(s: string, t: Token, rest: string, tokens: Tokens)
    requires s != [] && !IsSpace(s[0]) && NextToken(s) == Ok((t, rest))
    ensures Prepend(tokens, Lex(s)) == Prepend(tokens + [t], Lex(rest)) && |rest| < |s|
  {
    hide NextToken, Lex, IsSpace;
    LexOne(s, t, rest);
    var r := Lex(rest);
    if r.Ok? {
      assert tokens + ([t] + r.value) == (tokens + [t]) + r.value;
    }
  }
}
