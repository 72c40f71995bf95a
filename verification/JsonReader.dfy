// The cursor-moving JSON reader and the stream writer of util/json.cpp, each
// proved against its definition on text.
module JsonReader {
  import opened Wrappers
  import opened Decimal
  import opened Json

  // A reader that returned r and stands before rest did what p says.
  ghost predicate Did(p: Result<(JsonValue, string)>, r: Result<JsonValue>, rest: string)
  {
    if p.Ok? then r == Ok(p.value.0) && rest == p.value.1 else r.Err?
  }

  function Prefixed(s: string, r: Option<(string, string)>): Option<(string, string)>
  {
    if r.None? then None else Some((s + r.value.0, r.value.1))
  }

  lemma PrefixedOnce(s: string, c: char, r: Option<(string, string)>)
    ensures Prefixed(s + [c], r) == if r.None? then None else Some((s + ([c] + r.value.0), r.value.1))
  {
    if r.Some? {
      assert (s + [c]) + r.value.0 == s + ([c] + r.value.0);
    }
  }

  class JsonParser {
    const text: string
    var pos: nat

    constructor (text: string)
      ensures this.text == text && pos == 0 && Valid()
    {
      this.text, pos := text, 0;
    }

    ghost predicate Valid()
      reads this
    {
      pos <= |text|
    }

    ghost function Rest(): string
      requires Valid()
      reads this
    {
      text[pos..]
    }

    function Peek(): char
      reads this
    {
      if pos < |text| then text[pos] else '\0'
    }

    method SkipWhitespace()
      requires Valid()
      modifies this
      ensures Valid() && pos >= old(pos) && Rest() == SkipSpace(old(Rest()))
    {
      while pos < |text| && IsSpace(text[pos])
        invariant Valid() && pos >= old(pos) && SkipSpace(Rest()) == SkipSpace(old(Rest()))
      {
        assert text[pos..][0] == text[pos] && text[pos..][1..] == text[pos + 1..];
        pos := pos + 1;
      }
      assert pos < |text| ==> text[pos..][0] == text[pos];
    }

    // expect
    method Expect(c: char) returns (ok: bool)
      requires Valid() && c != '\0'
      modifies this
      ensures Valid() && ok == At(old(Rest()), 0, c)
      ensures ok ==> pos == old(pos) + 1 && Rest() == old(Rest())[1..]
      ensures !ok ==> pos == old(pos)
    {
      assert pos < |text| ==> Rest()[0] == text[pos];
      if Peek() != c {
        return false;
      }
      assert text[pos..][1..] == text[pos + 1..];
      pos := pos + 1;
      ok := true;
    }

    // parse_raw_string after its opening quote
    method ParseChars() returns (r: Option<string>)
      requires Valid()
      modifies this
      ensures Valid() && pos >= old(pos) && (r.Some? ==> pos > old(pos))
      ensures r.Some? <==> ReadChars(old(Rest())).Some?
      ensures r.Some? ==> r.value == ReadChars(old(Rest())).value.0 && Rest() == ReadChars(old(Rest())).value.1
    {
      var s := "";
      ghost var start := Rest();
      assert ReadChars(start).Some? ==> "" + ReadChars(start).value.0 == ReadChars(start).value.0;
      while true
        invariant Valid() && pos >= old(pos) && ReadChars(start) == Prefixed(s, ReadChars(Rest()))
        decreases |text| - pos
      {
        if pos >= |text| {
          return None;
        }
        var c := text[pos];
        ghost var here := Rest();
        assert here[0] == c && here[1..] == text[pos + 1..];
        pos := pos + 1;
        if c == '"' {
          assert s + "" == s;
          return Some(s);
        }
        if c == '\\' {
          assert pos < |text| ==> here[1] == text[pos] && here[2..] == text[pos + 1..];
          var esc := if pos < |text| then text[pos] else '\0';
          pos := if pos < |text| then pos + 1 else pos;
          PrefixedOnce(s, Unescaped(esc), ReadChars(Rest()));
          s := s + [Unescaped(esc)];
        } else {
          PrefixedOnce(s, c, ReadChars(Rest()));
          s := s + [c];
        }
      }
    }

    method SkipDigits()
      requires Valid()
      modifies this
      ensures Valid() && pos == old(pos) + DigitLength(old(Rest()))
    {
      ghost var start := Rest();
      while pos < |text| && IsDigit(text[pos])
        invariant Valid() && pos >= old(pos) && DigitLength(start) == pos - old(pos) + DigitLength(Rest())
      {
        assert text[pos..][0] == text[pos] && text[pos..][1..] == text[pos + 1..];
        pos := pos + 1;
      }
      assert pos < |text| ==> text[pos..][0] == text[pos];
    }

    method ScanSigned()
      requires Valid()
      modifies this
      ensures Valid() && pos == old(pos) + SignedLength(old(Rest()))
    {
      hide DigitLength;
      assert pos < |text| ==> Rest()[0] == text[pos] && Rest()[1..] == text[pos + 1..];
      if Peek() == '-' {
        pos := pos + 1;
      }
      SkipDigits();
    }

    method ScanFraction()
      requires Valid()
      modifies this
      ensures Valid() && pos == old(pos) + FractionLength(old(Rest()))
    {
      hide DigitLength;
      assert pos < |text| ==> Rest()[0] == text[pos] && Rest()[1..] == text[pos + 1..];
      if Peek() == '.' {
        pos := pos + 1;
        SkipDigits();
      }
    }

    method ScanExponent()
      requires Valid()
      modifies this
      ensures Valid() && pos == old(pos) + ExponentLength(old(Rest()))
    {
      hide DigitLength;
      assert pos < |text| ==> Rest()[0] == text[pos] && Rest()[1..] == text[pos + 1..];
      assert pos + 1 < |text| ==> Rest()[1] == text[pos + 1] && Rest()[2..] == text[pos + 2..];
      if Peek() == 'e' || Peek() == 'E' {
        pos := pos + 1;
        if Peek() == '+' || Peek() == '-' {
          pos := pos + 1;
        }
        SkipDigits();
      }
    }

    // The scanning half of parse_number.
    method ScanNumber()
      requires Valid()
      modifies this
      ensures Valid() && pos == old(pos) + NumberLength(old(Rest()))
    {
      hide SignedLength, FractionLength, ExponentLength;
      ghost var s, start := Rest(), pos;
      ScanSigned();
      assert text[pos..] == s[pos - start..];
      ScanFraction();
      assert text[pos..] == s[pos - start..];
      ScanExponent();
    }

    method ParseNumberHere() returns (r: Result<JsonValue>)
      requires Valid()
      modifies this
      ensures Valid() && pos >= old(pos) && (r.Ok? ==> pos > old(pos)) && Did(ParseNumber(old(Rest())), r, Rest())
    {
      hide NumberLength, NumberValue;
      var start := pos;
      ghost var s := Rest();
      ScanNumber();
      assert s[..pos - start] == text[start..pos] && s[pos - start..] == text[pos..];
      if pos == start {
        return Err("json: invalid number");
      }
      var v := NumberValue(text[start..pos]);
      r := if v.None? then Err("json: invalid number") else Ok(Number(v.value));
    }

    // parse_bool and parse_null
    method ParseWordHere(word: string, v: JsonValue) returns (r: Result<JsonValue>)
      requires Valid() && word != []
      modifies this
      ensures Valid() && pos >= old(pos) && (r.Ok? ==> pos > old(pos))
        && Did(ParseWord(old(Rest()), word, v), r, Rest())
    {
      assert |word| <= |Rest()| ==>
        Rest()[..|word|] == text[pos..pos + |word|] && Rest()[|word|..] == text[pos + |word|..];
      assert word <= Rest() <==> |word| <= |Rest()| && Rest()[..|word|] == word;
      if pos + |word| <= |text| && text[pos..pos + |word|] == word {
        pos := pos + |word|;
        return Ok(v);
      }
      r := Err("json: invalid literal");
    }

    // parse_value
    method Parse() returns (r: Result<JsonValue>)
      requires Valid()
      modifies this
      ensures Valid() && pos >= old(pos) && (r.Ok? ==> pos > old(pos)) && Did(ParseValue(old(Rest())), r, Rest())
      decreases |text| - pos, 1
    {
      hide ParseItems, ParseMembers, ParseNumber, ParseWord, ReadChars;
      SkipWhitespace();
      ghost var s := Rest();
      if pos == |text| {
        return Err("json: invalid number");
      }
      assert s[0] == text[pos] && s[1..] == text[pos + 1..];
      var c := text[pos];
      if c == '{' {
        pos := pos + 1;
        SkipWhitespace();
        var empty := Expect('}');
        if empty {
          return Ok(Object([]));
        }
        r := ParseObjectMembers();
      } else if c == '[' {
        pos := pos + 1;
        SkipWhitespace();
        var empty := Expect(']');
        if empty {
          return Ok(Array([]));
        }
        r := ParseArrayItems();
      } else if c == '"' {
        pos := pos + 1;
        var str := ParseChars();
        r := if str.None? then Err("json: unterminated string") else Ok(String(str.value));
      } else if c == 't' {
        r := ParseWordHere("true", Bool(true));
      } else if c == 'f' {
        r := ParseWordHere("false", Bool(false));
      } else if c == 'n' {
        r := ParseWordHere("null", Null);
      } else {
        r := ParseNumberHere();
      }
    }

    method ParseArrayItems() returns (r: Result<JsonValue>)
      requires Valid()
      modifies this
      ensures Valid() && pos >= old(pos) && Did(ParseItems(old(Rest()), []), r, Rest())
      decreases |text| - pos, 2
    {
      hide ParseValue;
      var items: seq<JsonValue> := [];
      ghost var start := Rest();
      while true
        invariant Valid() && pos >= old(pos) && ParseItems(start, []) == ParseItems(Rest(), items)
        decreases |text| - pos
      {
        var v := Parse();
        if v.Err? {
          return Err(v.error);
        }
        items := items + [v.value];
        SkipWhitespace();
        var more := Expect(',');
        if !more {
          break;
        }
        SkipWhitespace();
      }
      SkipWhitespace();
      var closed := Expect(']');
      r := if closed then Ok(Array(items)) else Err("json: expected ']'");
    }

    // One member: its key, the colon, its value and the spaces around them.
    method ParseMember() returns (r: Result<(string, JsonValue)>)
      requires Valid()
      modifies this
      ensures Valid() && pos >= old(pos) && (r.Ok? ==> pos > old(pos)) && DidMember(old(Rest()), r, Rest())
      decreases |text| - pos, 2
    {
      hide ParseValue, ReadChars;
      SkipWhitespace();
      var quoted := Expect('"');
      if !quoted {
        return Err("json: expected '\"'");
      }
      var key := ParseChars();
      if key.None? {
        return Err("json: unterminated string");
      }
      SkipWhitespace();
      var colon := Expect(':');
      if !colon {
        return Err("json: expected ':'");
      }
      var v := Parse();
      if v.Err? {
        return Err(v.error);
      }
      SkipWhitespace();
      r := Ok((key.value, v.value));
    }

    method ParseObjectMembers() returns (r: Result<JsonValue>)
      requires Valid()
      modifies this
      ensures Valid() && pos >= old(pos) && Did(ParseMembers(old(Rest()), []), r, Rest())
      decreases |text| - pos, 3
    {
      hide ParseValue, ReadChars, DidMember, Put, ParseMembers;
      var entries: seq<(string, JsonValue)> := [];
      ghost var start := Rest();
      while true
        invariant Valid() && pos >= old(pos) && ParseMembers(start, []) == ParseMembers(Rest(), entries)
        decreases |text| - pos
      {
        ghost var here, before := Rest(), entries;
        var e := ParseMember();
        MemberStep(here, e, Rest(), before);
        if e.Err? {
          return Err(e.error);
        }
        entries := Put(entries, e.value.0, e.value.1);
        var more := Expect(',');
        if !more {
          break;
        }
      }
      SkipWhitespace();
      var closed := Expect('}');
      r := if closed then Ok(Object(entries)) else Err("json: expected '}'");
    }
  }

  // What ParseMember leaves: the definition's own steps up to the separator.
  ghost predicate DidMember(input: string, r: Result<(string, JsonValue)>, rest: string)
  {
    var s := SkipSpace(input);
    if !At(s, 0, '"') then r.Err?
    else
      var key := ReadChars(s[1..]);
      if key.None? then r.Err?
      else
        var t := SkipSpace(key.value.1);
        if !At(t, 0, ':') then r.Err?
        else
          var v := ParseValue(t[1..]);
          if v.Err? then r.Err? else r == Ok((key.value.0, v.value.0)) && rest == SkipSpace(v.value.1)
  }

  lemma MemberStep(input: string, r: Result<(string, JsonValue)>, rest: string, entries: seq<(string, JsonValue)>)
    requires DidMember(input, r, rest)
    ensures r.Err? ==> ParseMembers(input, entries).Err?
    ensures r.Ok? ==> SkipSpace(rest) == rest
    ensures r.Ok? && At(rest, 0, ',') ==>
      ParseMembers(input, entries) == ParseMembers(rest[1..], Put(entries, r.value.0, r.value.1))
    ensures r.Ok? && At(rest, 0, '}') ==>
      ParseMembers(input, entries) == Ok((Object(Put(entries, r.value.0, r.value.1)), rest[1..]))
    ensures r.Ok? && !At(rest, 0, ',') && !At(rest, 0, '}') ==> ParseMembers(input, entries).Err?
  {
    hide ParseValue, ReadChars, Put;
  }

  // ---- The writer ----

  class JsonWriter {
    var out: string

    constructor ()
      ensures out == ""
    {
      out := "";
    }

    // write_escaped_string
    method WriteEscapedString(s: string)
      modifies this
      ensures out == old(out) + WriteString(s)
    {
      hide EscapeChar;
      out := out + "\"";
      ghost var head := out;
      for i := 0 to |s|
        invariant out == head + Escape(s[..i])
      {
        EscapeSnoc(s[..i], s[i]);
        assert s[..i + 1] == s[..i] + [s[i]];
        out := out + EscapeChar(s[i]);
      }
      assert s[..|s|] == s;
      out := out + "\"";
    }

    // write_json
    method WriteJson(v: JsonValue, render: real -> string)
      modifies this
      ensures out == old(out) + Write(v, render)
      decreases v, 1
    {
      match v
      case Null => out := out + "null";
      case Bool(b) => out := out + (if b then "true" else "false");
      case Number(r) => out := out + WriteNumber(r, render);
      case String(s) => WriteEscapedString(s);
      case Array(items) =>
        out := out + "[";
        WriteArrayItems(items, render);
        out := out + "]";
      case Object(entries) =>
        out := out + "{";
        WriteObjectMembers(entries, render);
        out := out + "}";
    }

    method WriteArrayItems(items: seq<JsonValue>, render: real -> string)
      modifies this
      ensures out == old(out) + WriteItems(items, render)
      decreases items, 0
    {
      hide Write;
      for i := 0 to |items|
        invariant out == old(out) + WriteItems(items[..i], render)
      {
        ghost var before := out;
        if i > 0 {
          out := out + ",";
        }
        WriteJson(items[i], render);
        assert items[..i + 1] == items[..i] + [items[i]];
        ItemsSnoc(items[..i], items[i], render);
        assert out == before + ((if i > 0 then "," else "") + Write(items[i], render));
      }
      assert items[..|items|] == items;
    }

    method WriteObjectMembers(entries: seq<(string, JsonValue)>, render: real -> string)
      modifies this
      ensures out == old(out) + WriteMembers(entries, render)
      decreases entries, 1
    {
      hide Write, WriteString;
      var first := true;
      for i := 0 to |entries|
        invariant out == old(out) + WriteMembers(entries[..i], render) && first == (i == 0)
      {
        ghost var before := out;
        if !first {
          out := out + ",";
        }
        first := false;
        WriteMemberHere(entries[i], render);
        assert entries[..i + 1] == entries[..i] + [entries[i]];
        MembersSnoc(entries[..i], entries[i], render);
        assert out == before + ((if i > 0 then "," else "") + WriteMember(entries[i], render));
      }
      assert entries[..|entries|] == entries;
    }

    method WriteMemberHere(e: (string, JsonValue), render: real -> string)
      modifies this
      ensures out == old(out) + WriteMember(e, render)
      decreases e, 0
    {
      hide Write, WriteString;
      WriteEscapedString(e.0);
      out := out + ":";
      WriteJson(e.1, render);
    }
  }

  lemma {:induction false} EscapeSnoc(s: string, c: char)
    ensures Escape(s + [c]) == Escape(s) + EscapeChar(c)
  {
    hide EscapeChar;
    if s == [] {
      assert s + [c] == [c];
      assert Escape([c]) == EscapeChar(c) + Escape([]);
    } else {
      assert (s + [c])[0] == s[0] && (s + [c])[1..] == s[1..] + [c];
      EscapeSnoc(s[1..], c);
    }
  }

  lemma {:induction false} ItemsSnoc(items: seq<JsonValue>, v: JsonValue, render: real -> string)
    ensures WriteItems(items + [v], render)
      == WriteItems(items, render) + ((if items == [] then "" else ",") + Write(v, render))
  {
    hide Write;
    if items == [] {
      assert items + [v] == [v];
    } else {
      assert (items + [v])[0] == items[0] && (items + [v])[1..] == items[1..] + [v];
      ItemsSnoc(items[1..], v, render);
    }
  }

  lemma {:induction false} MembersSnoc(entries: seq<(string, JsonValue)>, e: (string, JsonValue),
                                       render: real -> string)
    ensures WriteMembers(entries + [e], render)
      == WriteMembers(entries, render) + ((if entries == [] then "" else ",") + WriteMember(e, render))
  {
    hide WriteMember;
    if entries == [] {
      assert entries + [e] == [e];
    } else {
      assert (entries + [e])[0] == entries[0] && (entries + [e])[1..] == entries[1..] + [e];
      MembersSnoc(entries[1..], e, render);
    }
  }
}
