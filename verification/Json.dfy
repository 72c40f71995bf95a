// JSON values, their text and the reader (util/json.cpp).  A char is a byte;
// numbers are exact reals.
module Json {
  import opened Wrappers
  import opened Decimal

  datatype JsonValue =
    | Null
    | Bool(bool_val: bool)
    | Number(num_val: real)
    | String(str_val: string)
    | Array(array_val: seq<JsonValue>)
    | Object(entries: seq<(string, JsonValue)>)

  // ---- Objects keep insertion order ----

  // JsonObject::operator[] followed by an assignment.
  function Put(entries: seq<(string, JsonValue)>, key: string, v: JsonValue): seq<(string, JsonValue)>
  {
    if entries == [] then [(key, v)]
    else if entries[0].0 == key then [(key, v)] + entries[1..]
    else [entries[0]] + Put(entries[1..], key, v)
  }

  function Find(entries: seq<(string, JsonValue)>, key: string): Option<JsonValue>
  {
    if entries == [] then None
    else if entries[0].0 == key then Some(entries[0].1)
    else Find(entries[1..], key)
  }

  // ---- Strings ----

  const HEX := "0123456789abcdef"

  predicate Control(c: char)
  {
    c as int < 0x20
  }

  function EscapeChar(c: char): string
  {
    if c == '"' then ['\\', '"']
    else if c == '\\' then ['\\', '\\']
    else if c == '\n' then "\\n"
    else if c == '\t' then "\\t"
    else if c == '\r' then "\\r"
    else if Control(c) then ['\\', 'u'] + HexDigits(c)
    else [c]
  }

  // The four digits of \u00XX.
  function HexDigits(c: char): string
    requires Control(c)
  {
    ['0', '0', HEX[c as int / 16], HEX[c as int % 16]]
  }

  function Escape(s: string): string
  {
    if s == [] then "" else EscapeChar(s[0]) + Escape(s[1..])
  }

  function WriteString(s: string): string
  {
    "\"" + Escape(s) + "\""
  }

  function Unescaped(esc: char): char
  {
    if esc == 'n' then '\n' else if esc == 't' then '\t' else esc
  }

  // The text of a string after its opening quote, and what follows it.
  function ReadChars(input: string): (r: Option<(string, string)>)
    ensures r.Some? ==> |r.value.1| < |input|
  {
    if input == [] then None
    else if input[0] == '"' then Some(("", input[1..]))
    else if input[0] == '\\' then
      // at the end of the input advance() gives NUL
      var esc, rest := (if |input| > 1 then input[1] else '\0'), (if |input| > 1 then input[2..] else []);
      var r := ReadChars(rest);
      if r.None? then None else Some(([Unescaped(esc)] + r.value.0, r.value.1))
    else
      var r := ReadChars(input[1..]);
      if r.None? then None else Some(([input[0]] + r.value.0, r.value.1))
  }

  // What one character comes back as.
  function Echo(c: char): string
  {
    if c == '\r' then "r"
    else if Control(c) && c != '\n' && c != '\t' then ['u'] + HexDigits(c)
    else [c]
  }

  function EchoAll(s: string): string
  {
    if s == [] then "" else Echo(s[0]) + EchoAll(s[1..])
  }

  predicate Clean(s: string)
  {
    forall i :: 0 <= i < |s| ==> !Control(s[i]) || s[i] == '\n' || s[i] == '\t'
  }

  lemma ReadPlain(c: char, rest: string)
    requires c != '"' && c != '\\'
    ensures ReadChars([c] + rest) == var r := ReadChars(rest);
                                      if r.None? then None else Some(([c] + r.value.0, r.value.1))
  {
    assert ([c] + rest)[1..] == rest;
  }

  lemma ReadEscaped(c: char, rest: string)
    ensures ReadChars(['\\', c] + rest) == var r := ReadChars(rest);
                                            if r.None? then None else Some(([Unescaped(c)] + r.value.0, r.value.1))
  {
    assert (['\\', c] + rest)[2..] == rest;
  }

  lemma ReadOne(c: char, rest: string)
    requires ReadChars(rest).Some?
    ensures ReadChars(EscapeChar(c) + rest) == Some((Echo(c) + ReadChars(rest).value.0, ReadChars(rest).value.1))
  {
    hide ReadChars;
    if c == '"' || c == '\\' {
      ReadEscaped(c, rest);
    } else if c == '\n' {
      ReadEscaped('n', rest);
    } else if c == '\t' {
      ReadEscaped('t', rest);
    } else if c == '\r' {
      ReadEscaped('r', rest);
    } else if Control(c) {
      ReadHex(c, rest);
    } else {
      ReadPlain(c, rest);
    }
  }

  predicate PlainText(t: string)
  {
    forall i :: 0 <= i < |t| ==> t[i] != '"' && t[i] != '\\'
  }

  lemma {:induction false} ReadPlainText(t: string, rest: string)
    requires PlainText(t) && ReadChars(rest).Some?
    ensures ReadChars(t + rest) == Some((t + ReadChars(rest).value.0, ReadChars(rest).value.1))
  {
    var body := ReadChars(rest).value.0;
    hide ReadChars;
    if t == [] {
      assert t + rest == rest && t + body == body;
    } else {
      ReadPlainText(t[1..], rest);
      ReadPlain(t[0], t[1..] + rest);
      assert t + rest == [t[0]] + (t[1..] + rest);
      assert t + body == [t[0]] + (t[1..] + body);
    }
  }

  lemma HexDigitsPlain(c: char)
    requires Control(c)
    ensures PlainText(HexDigits(c)) && |HexDigits(c)| == 4
  {
    assert forall i :: 0 <= i < |HEX| ==> HEX[i] != '"' && HEX[i] != '\\';
  }

  lemma ReadHex(c: char, rest: string)
    requires Control(c) && ReadChars(rest).Some?
    ensures ReadChars(['\\', 'u'] + HexDigits(c) + rest)
         == Some((['u'] + HexDigits(c) + ReadChars(rest).value.0, ReadChars(rest).value.1))
  {
    hide ReadChars, HexDigits, PlainText;
    HexDigitsPlain(c);
    ReadPlainText(HexDigits(c), rest);
    ReadEscaped('u', HexDigits(c) + rest);
    assert ['\\', 'u'] + HexDigits(c) + rest == ['\\', 'u'] + (HexDigits(c) + rest);
    assert ['u'] + HexDigits(c) + ReadChars(rest).value.0 == ['u'] + (HexDigits(c) + ReadChars(rest).value.0);
  }

  lemma ReadQuote(after: string)
    ensures ReadChars("\"" + after) == Some(("", after))
  {
    assert ("\"" + after)[0] == '"' && ("\"" + after)[1..] == after;
  }

  // Any string written is read as its echo.
  lemma {:induction false} ReadWritten(s: string, after: string)
    ensures ReadChars(Escape(s) + "\"" + after) == Some((EchoAll(s), after))
  {
    hide ReadChars, EscapeChar, Echo;
    if s == [] {
      assert Escape(s) + "\"" + after == "\"" + after;
      ReadQuote(after);
    } else {
      ReadWritten(s[1..], after);
      var rest := Escape(s[1..]) + "\"" + after;
      Associate(EscapeChar(s[0]), Escape(s[1..]), "\"", after);
      ReadOne(s[0], rest);
    }
  }

  lemma Associate(a: string, b: string, c: string, d: string)
    ensures (a + b) + c + d == a + (b + c + d)
  {
  }

  lemma {:induction false} EchoLonger(s: string)
    ensures |EchoAll(s)| >= |s|
  {
    if s != [] {
      EchoLonger(s[1..]);
    }
  }

  // A string survives exactly when its only control characters are newline
  // and tab.
  lemma {:induction false} EchoExact(s: string)
    ensures EchoAll(s) == s <==> Clean(s)
  {
    if s != [] {
      EchoExact(s[1..]);
      EchoLonger(s[1..]);
      var e := Echo(s[0]);
      assert s == [s[0]] + s[1..];
      assert Clean(s) <==> (!Control(s[0]) || s[0] == '\n' || s[0] == '\t') && Clean(s[1..]);
      if |e| == 1 {
        assert EchoAll(s)[0] == e[0] && EchoAll(s)[1..] == EchoAll(s[1..]);
      }
    }
  }

  // ---- Numbers ----

  predicate At(s: string, i: nat, c: char)
  {
    i < |s| && s[i] == c
  }

  function SignedLength(s: string): (n: nat)
    ensures n <= |s|
  {
    if At(s, 0, '-') then 1 + DigitLength(s[1..]) else DigitLength(s)
  }

  function FractionLength(s: string): (n: nat)
    ensures n <= |s|
  {
    if At(s, 0, '.') then 1 + DigitLength(s[1..]) else 0
  }

  function ExponentLength(s: string): (n: nat)
    ensures n <= |s|
  {
    if At(s, 0, 'e') || At(s, 0, 'E') then
      var d := if At(s, 1, '+') || At(s, 1, '-') then 2 else 1;
      d + DigitLength(s[d..])
    else 0
  }

  // The longest number at the start of the text.
  function NumberLength(s: string): (n: nat)
    ensures n <= |s|
  {
    var b := SignedLength(s);
    var c := b + FractionLength(s[b..]);
    c + ExponentLength(s[c..])
  }

  function Power10(n: int): (r: real)
    ensures r > 0.0
    decreases if n < 0 then -n else n
  {
    if n == 0 then 1.0 else if n > 0 then 10.0 * Power10(n - 1) else Power10(n + 1) / 10.0
  }

  // The digits after the point, and a power of ten.
  function Fraction(d: string): real
    requires AllDigits(d)
  {
    if d == [] then 0.0 else NatValue(d) as real / Power10(|d|)
  }

  function Scaled(x: real, exp: int): real
  {
    x * Power10(exp)
  }

  lemma NotScaled(x: real)
    ensures Scaled(x, 0) == x
  {
  }

  // std::stod on such text, exactly; None when there is no digit.
  function NumberValue(t: string): Option<real>
  {
    var a := if At(t, 0, '-') then 1 else 0;
    var b := a + DigitLength(t[a..]);
    var frac := if At(t, b, '.') then DigitLength(t[b + 1..]) else 0;
    var c := if At(t, b, '.') then b + 1 + frac else b;
    if b - a + frac == 0 then None
    else
      var d := if At(t, c + 1, '+') || At(t, c + 1, '-') then c + 2 else c + 1;
      var n := if (At(t, c, 'e') || At(t, c, 'E')) && d <= |t| then DigitLength(t[d..]) else 0;
      var exp := if n == 0 then 0 else (if At(t, c + 1, '-') then -1 else 1) * NatValue(t[d..][..n]);
      var fraction := if frac == 0 then 0.0 else Fraction(t[b + 1..][..frac]);
      var magnitude := Scaled(NatValue(t[a..][..b - a]) as real + fraction, exp);
      Some(if a == 1 then -magnitude else magnitude)
  }

  // A number cannot go on in what follows.
  predicate Stops(after: string)
  {
    after == [] || !(IsDigit(after[0]) || after[0] in {'.', 'e', 'E', '+', '-'})
  }

  // The text is one number.
  predicate Legible(t: string)
  {
    t != [] && NumberLength(t) == |t| && NumberValue(t).Some?
  }

  // The text is one number, and its value is r.
  predicate ReadsAs(t: string, r: real)
  {
    Legible(t) && NumberValue(t) == Some(r)
  }

  lemma {:induction false} DigitsStop(s: string, after: string)
    requires Stops(after)
    ensures DigitLength(s + after) == DigitLength(s)
  {
    if s == [] {
      assert s + after == after;
    } else {
      assert (s + after)[0] == s[0] && (s + after)[1..] == s[1..] + after;
      DigitsStop(s[1..], after);
    }
  }

  lemma SignedStops(s: string, after: string)
    requires Stops(after)
    ensures SignedLength(s + after) == SignedLength(s)
  {
    hide DigitLength;
    DigitsStop(s, after);
    if s != [] {
      assert (s + after)[0] == s[0] && (s + after)[1..] == s[1..] + after;
      DigitsStop(s[1..], after);
    } else {
      assert s + after == after;
    }
  }

  lemma FractionStops(s: string, after: string)
    requires Stops(after)
    ensures FractionLength(s + after) == FractionLength(s)
  {
    hide DigitLength;
    if s != [] {
      assert (s + after)[0] == s[0] && (s + after)[1..] == s[1..] + after;
      DigitsStop(s[1..], after);
    } else {
      assert s + after == after;
    }
  }

  lemma ExponentStops(s: string, after: string)
    requires Stops(after)
    ensures ExponentLength(s + after) == ExponentLength(s)
  {
    hide DigitLength;
    var t := s + after;
    if s == [] {
      assert t == after;
    } else {
      assert t[0] == s[0] && t[1..] == s[1..] + after;
      assert |s| > 1 ==> t[1] == s[1] && t[2..] == s[2..] + after;
      assert |s| == 1 && |t| > 1 ==> t[1] == after[0];
      DigitsStop(s[1..], after);
      if |s| > 1 {
        DigitsStop(s[2..], after);
      }
    }
  }

  // A number ends where it would have ended alone.
  lemma NumberStops(s: string, after: string)
    requires Stops(after)
    ensures NumberLength(s + after) == NumberLength(s)
  {
    hide SignedLength, FractionLength, ExponentLength, Stops;
    SignedStops(s, after);
    var b := SignedLength(s);
    assert (s + after)[b..] == s[b..] + after;
    FractionStops(s[b..], after);
    var c := b + FractionLength(s[b..]);
    assert (s + after)[c..] == s[c..] + after;
    ExponentStops(s[c..], after);
  }

  lemma SignedIs(n: int, after: string)
    requires Stops(after)
    ensures SignedLength(IntText(n) + after) == |IntText(n)|
  {
    hide NatText, DigitLength, AllDigits;
    var t, digits := IntText(n) + after, NatText(if n < 0 then -n else n);
    DigitLengthOf(digits, after);
    if n < 0 {
      assert t[0] == '-' && t[1..] == digits + after;
    } else {
      assert t == digits + after && t[0] == digits[0] && IsDigit(digits[0]);
    }
  }

  lemma NothingMore(after: string)
    requires Stops(after)
    ensures FractionLength(after) == 0 && ExponentLength(after) == 0
  {
  }

  lemma IntegerLength(n: int, after: string)
    requires Stops(after)
    ensures NumberLength(IntText(n) + after) == |IntText(n)|
  {
    hide IntText, SignedLength, FractionLength, ExponentLength;
    var t := IntText(n) + after;
    SignedIs(n, after);
    NothingMore(after);
    assert t[|IntText(n)|..] == after;
  }

  lemma IntegerValue(n: int)
    ensures NumberValue(IntText(n)) == Some(n as real)
  {
    hide NatText, NatValue, Scaled;
    NotScaled((if n < 0 then -n else n) as real);
    var digits := NatText(if n < 0 then -n else n);
    var t := IntText(n);
    NatRoundTrip(if n < 0 then -n else n);
    DigitLengthOf(digits, []);
    assert digits + [] == digits;
    if n < 0 {
      assert t[1..] == digits && digits[..|digits|] == digits;
    } else {
      assert t[0] == digits[0] && t[0..] == digits && digits[..|digits|] == digits;
    }
  }

  // ---- Writing ----

  const DOUBLE_EXACT := 0x20_0000_0000_0000  // 2^53

  predicate ExactInteger(r: real)
  {
    r == r.Floor as real && -DOUBLE_EXACT < r.Floor < DOUBLE_EXACT
  }

  // "%.17g": plain digits for integers a double holds exactly; render stands
  // for the text of other numbers.
  function WriteNumber(r: real, render: real -> string): string
  {
    if ExactInteger(r) then IntText(r.Floor) else render(r)
  }

  function Write(v: JsonValue, render: real -> string): string
  {
    match v
    case Null => "null"
    case Bool(b) => if b then "true" else "false"
    case Number(r) => WriteNumber(r, render)
    case String(s) => WriteString(s)
    case Array(items) => "[" + WriteItems(items, render) + "]"
    case Object(entries) => "{" + WriteMembers(entries, render) + "}"
  }

  function WriteItems(items: seq<JsonValue>, render: real -> string): string
  {
    if items == [] then ""
    else if |items| == 1 then Write(items[0], render)
    else Write(items[0], render) + "," + WriteItems(items[1..], render)
  }

  function WriteMember(e: (string, JsonValue), render: real -> string): string
  {
    WriteString(e.0) + ":" + Write(e.1, render)
  }

  function WriteMembers(entries: seq<(string, JsonValue)>, render: real -> string): string
  {
    if entries == [] then ""
    else if |entries| == 1 then WriteMember(entries[0], render)
    else WriteMember(entries[0], render) + "," + WriteMembers(entries[1..], render)
  }

  // ---- Reading ----

  function ParseNumber(s: string): (r: Result<(JsonValue, string)>)
    ensures r.Ok? ==> |r.value.1| < |s|
  {
    var n := NumberLength(s);
    if n == 0 then Err("json: invalid number")
    else
      var v := NumberValue(s[..n]);
      if v.None? then Err("json: invalid number") else Ok((Number(v.value), s[n..]))
  }

  function ParseWord(s: string, word: string, v: JsonValue): (r: Result<(JsonValue, string)>)
    requires word != []
    ensures r.Ok? ==> |r.value.1| < |s|
  {
    if word <= s then Ok((v, s[|word|..])) else Err("json: invalid literal")
  }

  function ParseValue(input: string): (r: Result<(JsonValue, string)>)
    ensures r.Ok? ==> |r.value.1| < |input|
    decreases |input|, 1
  {
    var s := SkipSpace(input);
    if s == [] then Err("json: invalid number")
    else if s[0] == '{' then
      var t := SkipSpace(s[1..]);
      if At(t, 0, '}') then Ok((Object([]), t[1..])) else ParseMembers(t, [])
    else if s[0] == '[' then
      var t := SkipSpace(s[1..]);
      if At(t, 0, ']') then Ok((Array([]), t[1..])) else ParseItems(t, [])
    else if s[0] == '"' then
      var r := ReadChars(s[1..]);
      if r.None? then Err("json: unterminated string") else Ok((String(r.value.0), r.value.1))
    else if s[0] == 't' then ParseWord(s, "true", Bool(true))
    else if s[0] == 'f' then ParseWord(s, "false", Bool(false))
    else if s[0] == 'n' then ParseWord(s, "null", Null)
    else ParseNumber(s)
  }

  function ParseItems(input: string, items: seq<JsonValue>): (r: Result<(JsonValue, string)>)
    ensures r.Ok? ==> |r.value.1| < |input|
    decreases |input|, 2
  {
    var v := ParseValue(input);
    if v.Err? then Err(v.error)
    else
      var t := SkipSpace(v.value.1);
      if At(t, 0, ',') then ParseItems(SkipSpace(t[1..]), items + [v.value.0])
      else if At(t, 0, ']') then Ok((Array(items + [v.value.0]), t[1..]))
      else Err("json: expected ']'")
  }

  function ParseMembers(input: string, entries: seq<(string, JsonValue)>): (r: Result<(JsonValue, string)>)
    ensures r.Ok? ==> |r.value.1| < |input|
    decreases |input|, 2
  {
    var s := SkipSpace(input);
    if !At(s, 0, '"') then Err("json: expected '\"'")
    else
      var key := ReadChars(s[1..]);
      if key.None? then Err("json: unterminated string")
      else
        var t := SkipSpace(key.value.1);
        if !At(t, 0, ':') then Err("json: expected ':'")
        else
          var v := ParseValue(t[1..]);
          if v.Err? then Err(v.error)
          else
            var u := SkipSpace(v.value.1);
            var entries' := Put(entries, key.value.0, v.value.0);
            if At(u, 0, ',') then ParseMembers(u[1..], entries')
            else if At(u, 0, '}') then Ok((Object(entries'), u[1..]))
            else Err("json: expected '}'")
  }

  // ---- Round trip ----

  ghost predicate UniqueKeys(entries: seq<(string, JsonValue)>)
  {
    forall i, j :: 0 <= i < j < |entries| ==> entries[i].0 != entries[j].0
  }

  // Unique keys, clean strings and numbers whose text carries them throughout.
  ghost predicate Portable(v: JsonValue, render: real -> string)
  {
    match v
    case Number(r) => Carried(r, render)
    case String(s) => Clean(s)
    case Array(items) => forall i :: 0 <= i < |items| ==> Portable(items[i], render)
    case Object(entries) => UniqueKeys(entries) && forall i :: 0 <= i < |entries| ==>
      Clean(entries[i].0) && Portable(entries[i].1, render)
    case _ => true
  }

  // The text of every number in it is one number.
  ghost predicate Readable(v: JsonValue, render: real -> string)
  {
    match v
    case Number(r) => Legible(WriteNumber(r, render))
    case Array(items) => forall i :: 0 <= i < |items| ==> Readable(items[i], render)
    case Object(entries) => forall i :: 0 <= i < |entries| ==> Readable(entries[i].1, render)
    case _ => true
  }

  // What a value comes back as: strings as their echoes, numbers as what their
  // text denotes, and of several members with one key the last.
  function Echoed(v: JsonValue, render: real -> string): JsonValue
    decreases v
  {
    match v
    case Number(r) => var x := NumberValue(WriteNumber(r, render)); if x.Some? then Number(x.value) else v
    case String(s) => String(EchoAll(s))
    case Array(items) => Array(EchoedItems(items, render))
    case Object(entries) => Object(EchoedMembers(entries, [], render))
    case _ => v
  }

  function EchoedItems(items: seq<JsonValue>, render: real -> string): seq<JsonValue>
    decreases items
  {
    if items == [] then [] else [Echoed(items[0], render)] + EchoedItems(items[1..], render)
  }

  function EchoedMembers(entries: seq<(string, JsonValue)>, done: seq<(string, JsonValue)>, render: real -> string)
    : seq<(string, JsonValue)>
    decreases entries
  {
    if entries == [] then done
    else
      var e := EchoedMember(entries[0], render);
      EchoedMembers(entries[1..], Put(done, e.0, e.1), render)
  }

  function EchoedMember(e: (string, JsonValue), render: real -> string): (string, JsonValue)
    decreases e
  {
    (EchoAll(e.0), Echoed(e.1, render))
  }

  lemma StringRead(s: string, after: string)
    ensures WriteString(s) != [] && WriteString(s)[0] == '"'
      && ReadChars((WriteString(s) + after)[1..]) == Some((EchoAll(s), after))
  {
    hide Escape, ReadChars;
    ReadWritten(s, after);
    assert (WriteString(s) + after)[1..] == Escape(s) + "\"" + after;
  }

  // The number survives its own text.
  predicate Carried(r: real, render: real -> string)
  {
    ReadsAs(WriteNumber(r, render), r)
  }

  // Integers a double holds exactly do, however other numbers are rendered.
  lemma IntegersCarried(r: real, render: real -> string)
    requires ExactInteger(r)
    ensures Carried(r, render)
  {
    hide IntText, NumberLength, NumberValue;
    IntegerLength(r.Floor, []);
    assert IntText(r.Floor) + [] == IntText(r.Floor);
    IntegerValue(r.Floor);
  }

  lemma DecimalPieces(w: string, d: string)
    requires w != [] && d != [] && AllDigits(w) && AllDigits(d)
    ensures var t := w + "." + d;
      && !At(t, 0, '-') && At(t, |w|, '.') && |t| == |w| + 1 + |d|
      && DigitLength(t) == |w| && t[..|w|] == w && t[|w| + 1..] == d && DigitLength(d) == |d|
  {
    hide DigitLength;
    var t, rest := w + "." + d, "." + d;
    assert t == w + rest && t[0] == w[0] && t[|w|] == '.';
    DigitLengthOf(w, rest);
    assert d + [] == d;
    DigitLengthOf(d, []);
  }

  lemma DecimalLength(w: string, d: string)
    requires w != [] && d != [] && AllDigits(w) && AllDigits(d)
    ensures var t := w + "." + d; NumberLength(t) == |t|
  {
    hide DigitLength, AllDigits;
    DecimalPieces(w, d);
    var t := w + "." + d;
    assert t[|w|..][0] == '.' && t[|w|..][1..] == d && t[|t|..] == [];
  }

  lemma DecimalValue(w: string, d: string)
    requires w != [] && d != [] && AllDigits(w) && AllDigits(d)
    ensures NumberValue(w + "." + d) == Some(NatValue(w) as real + Fraction(d))
  {
    hide DigitLength, AllDigits, NatValue, Scaled, Fraction;
    DecimalPieces(w, d);
    var t := w + "." + d;
    assert t[0..] == t && t[..|w|] == w && t[|w| + 1..][..|d|] == d;
    NotScaled(NatValue(w) as real + Fraction(d));
  }

  // Decimal text carries its value: digits, a point, digits.
  lemma DecimalsCarried(r: real, render: real -> string, whole: nat, decimals: string)
    requires !ExactInteger(r) && decimals != [] && AllDigits(decimals)
    requires render(r) == NatText(whole) + "." + decimals && r == whole as real + Fraction(decimals)
    ensures Carried(r, render)
  {
    hide NatText, NatValue, NumberLength, NumberValue, Fraction;
    NatRoundTrip(whole);
    DecimalLength(NatText(whole), decimals);
    DecimalValue(NatText(whole), decimals);
  }

  lemma NumberHead(t: string)
    requires t != [] && NumberLength(t) == |t|
    ensures IsDigit(t[0]) || t[0] in {'-', '.', 'e', 'E'}
  {
  }

  // The first character of a written value.
  lemma Head(v: JsonValue, render: real -> string)
    requires Readable(v, render)
    ensures Write(v, render) != [] && !IsSpace(Write(v, render)[0]) && Write(v, render)[0] !in {',', ']', '}', ':'}
  {
    hide IntText, Escape;
    if v.Number? {
      NumberHead(Write(v, render));
    }
  }

  lemma NumberWritten(r: real, render: real -> string, after: string)
    requires Legible(WriteNumber(r, render)) && Stops(after)
    ensures ParseValue(Write(Number(r), render) + after) == Ok((Echoed(Number(r), render), after))
  {
    hide WriteNumber, NumberLength, NumberValue;
    var t := WriteNumber(r, render);
    NumberHead(t);
    NumberStops(t, after);
    assert (t + after)[0] == t[0] && (t + after)[..|t|] == t && (t + after)[|t|..] == after;
    assert SkipSpace(t + after) == t + after;
  }

  lemma WordWritten(v: JsonValue, render: real -> string, after: string)
    requires v.Null? || v.Bool?
    ensures ParseValue(Write(v, render) + after) == Ok((v, after))
  {
    var w := Write(v, render);
    assert (w + after)[0] == w[0] && (w + after)[|w|..] == after && w <= w + after;
    assert SkipSpace(w + after) == w + after;
  }

  lemma StringWritten(str: string, render: real -> string, after: string)
    ensures ParseValue(Write(String(str), render) + after) == Ok((Echoed(String(str), render), after))
  {
    hide WriteString, ReadChars;
    StringRead(str, after);
    assert (WriteString(str) + after)[0] == '"';
  }

  // A written value reads as its echo, and the reader stands after it.
  lemma {:induction false} ParseWritten(v: JsonValue, render: real -> string, after: string)
    requires Readable(v, render) && Stops(after)
    ensures ParseValue(Write(v, render) + after) == Ok((Echoed(v, render), after))
    decreases v, 3
  {
    hide Write, ParseValue, Stops;
    match v
    case Null => WordWritten(v, render, after);
    case Bool(_) => WordWritten(v, render, after);
    case Number(r) => NumberWritten(r, render, after);
    case String(str) => StringWritten(str, render, after);
    case Array(items) => ArrayWritten(items, render, after);
    case Object(entries) => ObjectWritten(entries, render, after);
  }

  lemma {:induction false} ArrayWritten(items: seq<JsonValue>, render: real -> string, after: string)
    requires Readable(Array(items), render)
    ensures ParseValue(Write(Array(items), render) + after) == Ok((Echoed(Array(items), render), after))
    decreases items, 1
  {
    hide *;
    ContainerText(items, [], render);
    ReadableItems(items, render);
    if items == [] {
      EmptyWritten("[", "]", after);
    } else {
      var rest := WriteItems(items, render) + "]" + after;
      ItemsHead(items, render, "]" + after);
      assert WriteItems(items, render) + ("]" + after) == rest;
      ItemsWritten(items, [], render, after);
      OpensArray(rest);
      assert Write(Array(items), render) + after == "[" + rest;
      assert [] + EchoedItems(items, render) == EchoedItems(items, render);
    }
  }

  lemma ContainerText(items: seq<JsonValue>, entries: seq<(string, JsonValue)>, render: real -> string)
    ensures Write(Array(items), render) == "[" + WriteItems(items, render) + "]"
    ensures Write(Object(entries), render) == "{" + WriteMembers(entries, render) + "}"
    ensures WriteItems([], render) == "" && WriteMembers([], render) == ""
    ensures EchoedItems([], render) == [] && EchoedMembers([], [], render) == []
  {
  }

  lemma {:induction false} ObjectWritten(entries: seq<(string, JsonValue)>, render: real -> string, after: string)
    requires Readable(Object(entries), render)
    ensures ParseValue(Write(Object(entries), render) + after) == Ok((Echoed(Object(entries), render), after))
    decreases entries, 1
  {
    hide *;
    ContainerText([], entries, render);
    ReadableMembers(entries, render);
    if entries == [] {
      EmptyWritten("{", "}", after);
    } else {
      var rest := WriteMembers(entries, render) + "}" + after;
      MembersHead(entries, render, "}" + after);
      assert WriteMembers(entries, render) + ("}" + after) == rest;
      MembersWritten(entries, [], render, after);
      OpensObject(rest);
      assert Write(Object(entries), render) + after == "{" + rest;
    }
  }

  lemma ReadableItems(items: seq<JsonValue>, render: real -> string)
    requires Readable(Array(items), render)
    ensures Echoed(Array(items), render) == Array(EchoedItems(items, render))
    ensures forall i :: 0 <= i < |items| ==> Readable(items[i], render)
  {
  }

  lemma ReadableMembers(entries: seq<(string, JsonValue)>, render: real -> string)
    requires Readable(Object(entries), render)
    ensures Echoed(Object(entries), render) == Object(EchoedMembers(entries, [], render))
    ensures forall i :: 0 <= i < |entries| ==> Readable(entries[i].1, render)
  {
  }

  lemma EmptyWritten(open_: string, close_: string, after: string)
    requires (open_ == "[" && close_ == "]") || (open_ == "{" && close_ == "}")
    ensures ParseValue(open_ + "" + close_ + after) == Ok((if open_ == "[" then Array([]) else Object([]), after))
  {
    var s := open_ + "" + close_ + after;
    assert s[0] == open_[0] && s[1..] == close_ + after && s[1..][0] == close_[0] && s[1..][1..] == after;
    assert SkipSpace(s) == s && SkipSpace(s[1..]) == s[1..];
  }

  lemma OpensArray(rest: string)
    requires rest != [] && !IsSpace(rest[0]) && rest[0] != ']'
    ensures ParseValue("[" + rest) == ParseItems(rest, [])
  {
    hide ParseItems;
    var s := "[" + rest;
    assert s[1..] == rest && SkipSpace(s) == s && SkipSpace(rest) == rest;
  }

  lemma OpensObject(rest: string)
    requires rest != [] && !IsSpace(rest[0]) && rest[0] != '}'
    ensures ParseValue("{" + rest) == ParseMembers(rest, [])
  {
    hide ParseMembers;
    var s := "{" + rest;
    assert s[1..] == rest && SkipSpace(s) == s && SkipSpace(rest) == rest;
  }

  lemma ItemsHead(items: seq<JsonValue>, render: real -> string, after: string)
    requires items != [] && Readable(items[0], render)
    ensures var t := WriteItems(items, render) + after; t != [] && !IsSpace(t[0]) && t[0] != ']'
  {
    hide Write, Readable;
    Head(items[0], render);
  }

  lemma MembersHead(entries: seq<(string, JsonValue)>, render: real -> string, after: string)
    requires entries != []
    ensures var t := WriteMembers(entries, render) + after; t != [] && t[0] == '"' && !IsSpace(t[0])
  {
    hide Write, Escape;
    assert WriteMember(entries[0], render)[0] == '"';
  }

  lemma StopsAt(after: string, tail: string)
    ensures Stops("]" + after) && Stops("," + tail)
  {
  }

  // One item, then a separator.
  lemma ItemThen(input: string, v: JsonValue, rest: string, items: seq<JsonValue>)
    requires ParseValue(input) == Ok((v, rest)) && rest != []
    ensures rest[0] == ']' ==> ParseItems(input, items) == Ok((Array(items + [v]), rest[1..]))
    ensures rest[0] == ',' && |rest| > 1 && !IsSpace(rest[1]) ==>
      ParseItems(input, items) == ParseItems(rest[1..], items + [v])
  {
    hide ParseValue;
    if rest[0] == ']' || rest[0] == ',' {
      assert SkipSpace(rest) == rest;
    }
  }

  // The first item, and what is written after it.
  lemma ItemsText(items: seq<JsonValue>, done: seq<JsonValue>, render: real -> string, after: string)
    requires items != []
    ensures var first, echo := Write(items[0], render), Echoed(items[0], render);
      if |items| == 1 then
        && WriteItems(items, render) + "]" + after == first + ("]" + after)
        && done + [echo] == done + EchoedItems(items, render)
      else
        && WriteItems(items, render) + "]" + after == first + ("," + (WriteItems(items[1..], render) + "]" + after))
        && (done + [echo]) + EchoedItems(items[1..], render) == done + EchoedItems(items, render)
  {
    hide Write, Echoed;
    var first, echo := Write(items[0], render), Echoed(items[0], render);
    assert EchoedItems(items, render) == [echo] + EchoedItems(items[1..], render);
    Regrouped(done, [echo], EchoedItems(items[1..], render));
    if |items| == 1 {
      assert EchoedItems(items[1..], render) == [];
      Regrouped(first, "]", after);
    } else {
      SeparatedText(first, ",", WriteItems(items[1..], render), "]", after);
    }
  }

  lemma Regrouped<T>(a: seq<T>, b: seq<T>, c: seq<T>)
    ensures (a + b) + c == a + (b + c)
  {
  }

  lemma SeparatedText(a: string, b: string, c: string, d: string, e: string)
    ensures (a + b + c) + d + e == a + (b + (c + d + e))
  {
  }

  lemma {:induction false} ItemsWritten(items: seq<JsonValue>, done: seq<JsonValue>, render: real -> string,
                                        after: string)
    requires items != [] && forall i :: 0 <= i < |items| ==> Readable(items[i], render)
    ensures ParseItems(WriteItems(items, render) + "]" + after, done)
         == Ok((Array(done + EchoedItems(items, render)), after))
    decreases items, 0
  {
    hide Write, ParseValue, Readable, ParseItems, Echoed, Stops, WriteItems, EchoedItems;
    var tail := WriteItems(items[1..], render) + "]" + after;
    StopsAt(after, tail);
    ItemsText(items, done, render, after);
    var first, echo := Write(items[0], render), Echoed(items[0], render);
    var rest := if |items| == 1 then "]" + after else "," + tail;
    ParseWritten(items[0], render, rest);
    if |items| == 1 {
      ItemThen(first + rest, echo, rest, done);
      assert rest[1..] == after;
    } else {
      ItemsHead(items[1..], render, "]" + after);
      assert WriteItems(items[1..], render) + ("]" + after) == tail;
      ItemThen(first + rest, echo, rest, done);
      ItemsWritten(items[1..], done + [echo], render, after);
      assert rest[1..] == tail;
    }
  }

  lemma MemberThen(input: string, key: string, v: JsonValue, value: string, rest: string,
                   entries: seq<(string, JsonValue)>)
    requires input != [] && input[0] == '"' && ReadChars(input[1..]) == Some((key, ":" + value))
    requires ParseValue(value) == Ok((v, rest)) && rest != []
    ensures rest[0] == '}' ==> ParseMembers(input, entries) == Ok((Object(Put(entries, key, v)), rest[1..]))
    ensures rest[0] == ',' ==> ParseMembers(input, entries) == ParseMembers(rest[1..], Put(entries, key, v))
  {
    hide ParseValue, ReadChars, Put;
    var t := ":" + value;
    assert SkipSpace(input) == input && SkipSpace(t) == t && t[1..] == value;
    if rest[0] == '}' || rest[0] == ',' {
      assert SkipSpace(rest) == rest;
    }
  }

  lemma {:induction false} MemberWritten(e: (string, JsonValue), render: real -> string, rest: string)
    requires Readable(e.1, render) && Stops(rest)
    ensures WriteString(e.0) != [] && WriteString(e.0)[0] == '"'
    ensures ReadChars((WriteString(e.0) + (":" + (Write(e.1, render) + rest)))[1..])
      == Some((EchoAll(e.0), ":" + (Write(e.1, render) + rest)))
    ensures ParseValue(Write(e.1, render) + rest) == Ok((Echoed(e.1, render), rest))
    decreases e, 0
  {
    hide *;
    StringRead(e.0, ":" + (Write(e.1, render) + rest));
    ParseWritten(e.1, render, rest);
  }

  lemma {:induction false} MembersWritten(entries: seq<(string, JsonValue)>, done: seq<(string, JsonValue)>,
                                          render: real -> string, after: string)
    requires entries != [] && forall i :: 0 <= i < |entries| ==> Readable(entries[i].1, render)
    ensures ParseMembers(WriteMembers(entries, render) + "}" + after, done)
         == Ok((Object(EchoedMembers(entries, done, render)), after))
    decreases entries, 0
  {
    hide Write, ParseValue, Readable, ParseMembers, WriteString, ReadChars, Echoed, EchoAll, Put;
    var e := entries[0];
    var key, echo, value := EchoAll(e.0), Echoed(e.1, render), Write(e.1, render);
    var tail := if |entries| == 1 then after else WriteMembers(entries[1..], render) + "}" + after;
    var rest := (if |entries| == 1 then "}" else ",") + tail;
    var input := WriteString(e.0) + (":" + (value + rest));
    assert WriteMembers(entries, render) + "}" + after == input;
    MemberWritten(e, render, rest);
    MemberThen(input, key, echo, value + rest, rest, done);
    assert rest[1..] == tail;
    if |entries| > 1 {
      MembersWritten(entries[1..], Put(done, key, echo), render, after);
    }
  }

  // parse_json(to_json(v)): the value, whatever follows being ignored.
  function ParseText(text: string): Result<JsonValue>
  {
    var r := ParseValue(SkipSpace(text));
    if r.Err? then Err(r.error) else Ok(r.value.0)
  }

  // ---- Which values are their own echo ----

  lemma {:induction false} ItemsEcho(items: seq<JsonValue>, render: real -> string)
    ensures |EchoedItems(items, render)| == |items|
    ensures forall i :: 0 <= i < |items| ==> EchoedItems(items, render)[i] == Echoed(items[i], render)
  {
    hide Echoed;
    if items != [] {
      ItemsEcho(items[1..], render);
    }
  }

  lemma {:induction false} PutLonger(entries: seq<(string, JsonValue)>, key: string, v: JsonValue)
    ensures |Put(entries, key, v)| == if Listed(entries, key) then |entries| else |entries| + 1
    ensures !Listed(entries, key) ==> Put(entries, key, v) == entries + [(key, v)]
  {
    if entries != [] {
      PutLonger(entries[1..], key, v);
      assert entries == [entries[0]] + entries[1..];
      if entries[0].0 != key {
        assert Listed(entries, key) <==> Listed(entries[1..], key) by {
          if i :| 0 <= i < |entries| && entries[i].0 == key { assert entries[1..][i - 1].0 == key; }
        }
      }
    }
  }

  ghost predicate Listed(entries: seq<(string, JsonValue)>, key: string)
  {
    exists i :: 0 <= i < |entries| && entries[i].0 == key
  }

  function MemberEchoes(entries: seq<(string, JsonValue)>, render: real -> string): seq<(string, JsonValue)>
  {
    seq(|entries|, i requires 0 <= i < |entries| => EchoedMember(entries[i], render))
  }

  // Members come back as many exactly when the echoes of their keys differ,
  // and then each as its own echo.
  lemma {:induction false} MembersEcho(entries: seq<(string, JsonValue)>, done: seq<(string, JsonValue)>,
                                       render: real -> string)
    requires UniqueKeys(done)
    ensures |EchoedMembers(entries, done, render)| <= |done| + |entries|
    ensures |EchoedMembers(entries, done, render)| == |done| + |entries|
       <==> UniqueKeys(done + MemberEchoes(entries, render))
    ensures UniqueKeys(done + MemberEchoes(entries, render)) ==>
      EchoedMembers(entries, done, render) == done + MemberEchoes(entries, render)
  {
    hide Echoed, EchoAll, Put;
    var echoes := MemberEchoes(entries, render);
    if entries == [] {
      assert done + echoes == done;
    } else {
      var e := EchoedMember(entries[0], render);
      PutLonger(done, e.0, e.1);
      var done' := Put(done, e.0, e.1);
      assert echoes == [e] + MemberEchoes(entries[1..], render);
      if Listed(done, e.0) {
        PutUnique(done, e.0, e.1);
        MembersEcho(entries[1..], done', render);
        var i :| 0 <= i < |done| && done[i].0 == e.0;
        assert (done + echoes)[i].0 == (done + echoes)[|done|].0;
      } else {
        MembersEcho(entries[1..], done', render);
        assert done' + MemberEchoes(entries[1..], render) == done + echoes;
      }
    }
  }

  lemma {:induction false} PutKeepsKeys(entries: seq<(string, JsonValue)>, key: string, v: JsonValue)
    requires Listed(entries, key)
    ensures |Put(entries, key, v)| == |entries|
    ensures forall i :: 0 <= i < |entries| ==> Put(entries, key, v)[i].0 == entries[i].0
  {
    if entries[0].0 != key {
      var rest := entries[1..];
      var i :| 0 <= i < |entries| && entries[i].0 == key;
      assert rest[i - 1].0 == key;
      PutKeepsKeys(rest, key, v);
      var put := Put(rest, key, v);
      assert Put(entries, key, v) == [entries[0]] + put;
      forall i | 0 <= i < |entries| ensures Put(entries, key, v)[i].0 == entries[i].0 {
        if i > 0 {
          assert put[i - 1].0 == rest[i - 1].0;
        }
      }
    }
  }

  lemma PutUnique(entries: seq<(string, JsonValue)>, key: string, v: JsonValue)
    requires UniqueKeys(entries) && Listed(entries, key)
    ensures UniqueKeys(Put(entries, key, v)) && |Put(entries, key, v)| == |entries|
    ensures forall i :: 0 <= i < |entries| ==> Put(entries, key, v)[i].0 == entries[i].0
  {
    hide Put, Listed;
    PutKeepsKeys(entries, key, v);
  }

  // A readable value is its own echo exactly when it is portable.
  lemma {:induction false} EchoedIff(v: JsonValue, render: real -> string)
    requires Readable(v, render)
    ensures Echoed(v, render) == v <==> Portable(v, render)
  {
    match v
    case Null =>
    case Bool(_) =>
    case Number(r) =>
    case String(s) => EchoExact(s);
    case Array(items) =>
      ItemsEcho(items, render);
      forall i | 0 <= i < |items| ensures Echoed(items[i], render) == items[i] <==> Portable(items[i], render) {
        EchoedIff(items[i], render);
      }
    case Object(entries) =>
      forall i | 0 <= i < |entries|
        ensures EchoedMember(entries[i], render) == entries[i] <==>
          Clean(entries[i].0) && Portable(entries[i].1, render)
      {
        EchoExact(entries[i].0);
        EchoedIff(entries[i].1, render);
      }
      ObjectEchoedIff(entries, render);
  }

  ghost predicate OwnEchoes(entries: seq<(string, JsonValue)>, render: real -> string)
  {
    forall i :: 0 <= i < |entries| ==> EchoedMember(entries[i], render) == entries[i]
  }

  lemma ObjectEchoedIff(entries: seq<(string, JsonValue)>, render: real -> string)
    requires forall i :: 0 <= i < |entries| ==>
      (EchoedMember(entries[i], render) == entries[i] <==> Clean(entries[i].0) && Portable(entries[i].1, render))
    ensures EchoedMembers(entries, [], render) == entries <==> Portable(Object(entries), render)
  {
    hide Clean, EchoedMembers, EchoedMember;
    MembersOwnEcho(entries, render);
    assert OwnEchoes(entries, render) <==>
      forall i :: 0 <= i < |entries| ==> Clean(entries[i].0) && Portable(entries[i].1, render);
  }

  lemma MembersOwnEcho(entries: seq<(string, JsonValue)>, render: real -> string)
    ensures EchoedMembers(entries, [], render) == entries <==> UniqueKeys(entries) && OwnEchoes(entries, render)
  {
    hide EchoedMembers, EchoedMember, UniqueKeys;
    var echoes := MemberEchoes(entries, render);
    UniqueEmpty();
    MembersEcho(entries, [], render);
    assert [] + echoes == echoes;
    assert echoes == entries <==> OwnEchoes(entries, render);
  }

  lemma UniqueEmpty()
    ensures UniqueKeys([])
  {
  }

  lemma {:induction false} PortableIsReadable(v: JsonValue, render: real -> string)
    requires Portable(v, render)
    ensures Readable(v, render)
  {
    match v
    case Array(items) =>
      forall i | 0 <= i < |items| ensures Readable(items[i], render) { PortableIsReadable(items[i], render); }
    case Object(entries) =>
      forall i | 0 <= i < |entries| ensures Readable(entries[i].1, render) { PortableIsReadable(entries[i].1, render); }
    case _ =>
  }

  // Where every number is written as one number, written text parses to the
  // echo of the value; it parses to the value exactly when that is portable.
  lemma JsonRoundTrip(v: JsonValue, render: real -> string)
    ensures Readable(v, render) ==> ParseText(Write(v, render)) == Ok(Echoed(v, render))
    ensures Readable(v, render) ==> (ParseText(Write(v, render)) == Ok(v) <==> Portable(v, render))
    ensures Portable(v, render) ==> ParseText(Write(v, render)) == Ok(v)
  {
    hide Write, ParseValue, Portable, Readable, Echoed;
    if Portable(v, render) {
      PortableIsReadable(v, render);
    }
    if Readable(v, render) {
      Head(v, render);
      assert Write(v, render) + [] == Write(v, render);
      ParseWritten(v, render, []);
      EchoedIff(v, render);
    }
  }
}
