// The wire protocol (cache/internal/resp/parser.go and encoder.go, and the
// command encoder of integration/cache_client.cpp): RESP2 values as bytes,
// one char per byte.
module Resp {
  import opened Wrappers
  import opened Decimal

  datatype RespValue =
    | SimpleString(text: string)
    | Error(text: string)
    | Integer(value: int)
    | Bulk(bytes: string)
    | Array(items: seq<RespValue>)
    | Null

  const MAX_BULK_LENGTH := 512 * 1024 * 1024
  const MAX_ARRAY_LENGTH := 1024 * 1024

  // ---- Encoding ----

  function Encode(v: RespValue): string
  {
    match v
    case SimpleString(s) => "+" + s + "\r\n"
    case Error(s) => "-" + s + "\r\n"
    case Integer(n) => ":" + IntText(n) + "\r\n"
    case Bulk(b) => "$" + IntText(|b|) + "\r\n" + b + "\r\n"
    case Array(items) => "*" + IntText(|items|) + "\r\n" + EncodeAll(items)
    case Null => "$-1\r\n"
  }

  function EncodeAll(items: seq<RespValue>): string
  {
    if items == [] then "" else Encode(items[0]) + EncodeAll(items[1..])
  }

  // ---- Parsing ----

  predicate LineEnd(c: char)
  {
    c == '\r' || c == '\n'
  }

  // strings.TrimRight(line, "\r\n")
  function TrimRight(s: string): string
  {
    if s != [] && LineEnd(s[|s| - 1]) then TrimRight(s[..|s| - 1]) else s
  }

  // Up to and with the first line feed.
  function FirstFeed(input: string): Option<nat>
  {
    if input == [] then None
    else if input[0] == '\n' then Some(0)
    else
      var i := FirstFeed(input[1..]);
      if i.Some? then Some(i.value + 1) else None
  }

  lemma {:induction false} FirstFeedBounds(input: string)
    ensures FirstFeed(input).Some? ==> FirstFeed(input).value < |input| && input[FirstFeed(input).value] == '\n'
    ensures FirstFeed(input).Some? ==> '\n' !in input[..FirstFeed(input).value]
    ensures FirstFeed(input).None? ==> '\n' !in input
  {
    if input != [] && input[0] != '\n' {
      FirstFeedBounds(input[1..]);
      assert input == [input[0]] + input[1..];
      var i := FirstFeed(input[1..]);
      if i.Some? {
        assert input[..i.value + 1] == [input[0]] + input[1..][..i.value];
      }
    }
  }

  function SplitLine(input: string): (r: Option<(string, string)>)
    ensures r.Some? ==> |r.value.1| < |input|
  {
    var i := FirstFeed(input);
    FirstFeedBounds(input);
    if i.None? then None else Some((TrimRight(input[..i.value + 1]), input[i.value + 1..]))
  }

  function Parse(input: string): (r: Result<(RespValue, string)>)
    ensures r.Ok? ==> |r.value.1| < |input|
    decreases |input|, 2
  {
    var l := SplitLine(input);
    if l.None? then Err("resp: unexpected EOF") else ParseLine(l.value.0, l.value.1)
  }

  // A line, and the input after it.
  function ParseLine(line: string, after: string): (r: Result<(RespValue, string)>)
    ensures r.Ok? ==> |r.value.1| <= |after|
    decreases |after| + 1, 1
  {
    if line == [] then Err("resp: empty line")
    else
      var body := line[1..];
      match line[0]
      case '+' => Ok((SimpleString(body), after))
      case '-' => Ok((Error(body), after))
      case ':' =>
        var n := ParseInt64(body);
        if n.None? then Err("resp: invalid integer") else Ok((Integer(n.value), after))
      case '$' => BulkBody(ParseInt64(body), after)
      case '*' => ArrayBody(ParseInt64(body), after)
      case _ => Err("resp: unknown type byte")
  }

  function BulkBody(n: Option<int>, after: string): (r: Result<(RespValue, string)>)
    ensures r.Ok? ==> |r.value.1| <= |after|
  {
    if n.None? || n.value < -1 then Err("resp: invalid bulk length")
    else if n.value == -1 then Ok((Null, after))
    else if n.value > MAX_BULK_LENGTH then Err("resp: bulk length exceeds max")
    else if |after| < n.value + 2 then Err("resp: unexpected EOF")
    else Ok((Bulk(after[..n.value]), after[n.value + 2..]))
  }

  function ArrayBody(n: Option<int>, after: string): (r: Result<(RespValue, string)>)
    ensures r.Ok? ==> |r.value.1| <= |after|
    decreases |after| + 1, 0
  {
    if n.None? || n.value < -1 then Err("resp: invalid array length")
    else if n.value == -1 then Ok((Null, after))
    else if n.value > MAX_ARRAY_LENGTH then Err("resp: array length exceeds max")
    else
      var items := ParseItems(after, n.value);
      if items.Err? then Err(items.error) else Ok((Array(items.value.0), items.value.1))
  }

  function ParseItems(input: string, n: nat): (r: Result<(seq<RespValue>, string)>)
    ensures r.Ok? ==> |r.value.1| <= |input| && |r.value.0| == n
    decreases |input|, n + 3
  {
    if n == 0 then Ok(([], input))
    else
      var first := Parse(input);
      if first.Err? then Err(first.error)
      else Prepended([first.value.0], ParseItems(first.value.1, n - 1))
  }

  function Prepended(items: seq<RespValue>, r: Result<(seq<RespValue>, string)>): Result<(seq<RespValue>, string)>
  {
    if r.Err? then Err(r.error) else Ok((items + r.value.0, r.value.1))
  }

  // ParseCommand: the array must hold bulk strings only.
  function CommandOf(p: Result<(RespValue, string)>): Result<(seq<string>, string)>
  {
    if p.Err? then Err(p.error)
    else if !p.value.0.Array? then Err("resp: expected a command array")
    else if exists i :: 0 <= i < |p.value.0.items| && !p.value.0.items[i].Bulk? then
      Err("resp: expected bulk string command arguments")
    else Ok((Texts(p.value.0.items), p.value.1))
  }

  function Texts(items: seq<RespValue>): seq<string>
    requires forall i :: 0 <= i < |items| ==> items[i].Bulk?
  {
    seq(|items|, i requires 0 <= i < |items| => items[i].bytes)
  }

  // EncodeCommand, as a value.
  function Bulks(args: seq<string>): seq<RespValue>
  {
    seq(|args|, i requires 0 <= i < |args| => Bulk(args[i]))
  }

  // ---- Which values the protocol carries ----

  predicate LineText(s: string)
  {
    '\n' !in s && (s == [] || s[|s| - 1] != '\r')
  }

  predicate InBounds(v: RespValue)
  {
    match v
    case SimpleString(s) => LineText(s)
    case Error(s) => LineText(s)
    case Integer(n) => MIN_INT64 <= n <= MAX_INT64
    case Bulk(b) => |b| <= MAX_BULK_LENGTH
    case Array(items) => |items| <= MAX_ARRAY_LENGTH && forall i :: 0 <= i < |items| ==> InBounds(items[i])
    case Null => true
  }

  lemma {:induction false} FeedAt(line: string, after: string)
    requires '\n' !in line
    ensures FirstFeed(line + "\n" + after) == Some(|line|)
  {
    var s := line + "\n" + after;
    if line == [] {
      assert s[0] == '\n';
    } else {
      assert s[0] == line[0] && s[1..] == line[1..] + "\n" + after;
      FeedAt(line[1..], after);
    }
  }

  lemma TrimLineEnd(s: string)
    requires s == [] || !LineEnd(s[|s| - 1])
    ensures TrimRight(s + "\r\n") == s
  {
    var t := s + "\r\n";
    var u := s + "\r";
    assert t[|t| - 1] == '\n' && t[..|t| - 1] == u;
    assert u[|u| - 1] == '\r' && u[..|u| - 1] == s;
    assert TrimRight(t) == TrimRight(u) == TrimRight(s);
  }

  // A written line reads back, and the reader stands after it.
  lemma ReadWrittenLine(line: string, after: string)
    requires line != [] && LineText(line)
    ensures SplitLine(line + "\r\n" + after) == Some((line, after))
  {
    hide FirstFeed, TrimRight;
    var s := line + "\r\n" + after;
    assert s == (line + "\r") + "\n" + after;
    FeedAt(line + "\r", after);
    assert s[..|line| + 2] == line + "\r\n" && s[|line| + 2..] == after;
    assert line[|line| - 1] in line;
    TrimLineEnd(line);
  }

  lemma {:induction false} DigitsAreText(n: nat)
    ensures LineText(NatText(n)) && '\r' !in NatText(n)
  {
    hide NatText;
    assert forall c :: c in NatText(n) ==> IsDigit(c);
  }

  lemma IntIsText(prefix: char, n: int)
    requires !LineEnd(prefix)
    ensures LineText([prefix] + IntText(n)) && ([prefix] + IntText(n))[1..] == IntText(n)
  {
    hide NatText;
    DigitsAreText(if n < 0 then -n else n);
    var s := [prefix] + IntText(n);
    assert '\n' !in s;
    assert s[|s| - 1] == IntText(n)[|IntText(n)| - 1];
  }

  lemma ReadNumberLine(prefix: char, n: int, after: string)
    requires !LineEnd(prefix) && MIN_INT64 <= n <= MAX_INT64
    ensures SplitLine([prefix] + IntText(n) + "\r\n" + after) == Some(([prefix] + IntText(n), after))
    ensures ParseInt64(IntText(n)) == Some(n) && ([prefix] + IntText(n))[1..] == IntText(n)
  {
    hide NatText, IntText, IntValue, FirstFeed, TrimRight, LineText;
    IntIsText(prefix, n);
    ReadWrittenLine([prefix] + IntText(n), after);
    IntRoundTrip(n);
  }

  lemma {:induction false} ParseEncoded(v: RespValue, after: string)
    requires InBounds(v)
    ensures Parse(Encode(v) + after) == Ok((v, after))
  {
    hide SplitLine, IntText, ParseInt64;
    match v
    case SimpleString(s) =>
      ReadWrittenLine("+" + s, after);
      assert ("+" + s)[1..] == s;
      assert Encode(v) + after == "+" + s + "\r\n" + after;
    case Error(s) =>
      ReadWrittenLine("-" + s, after);
      assert ("-" + s)[1..] == s;
      assert Encode(v) + after == "-" + s + "\r\n" + after;
    case Integer(n) =>
      ReadNumberLine(':', n, after);
      assert Encode(v) + after == [':'] + IntText(n) + "\r\n" + after;
    case Bulk(b) => ParseEncodedBulk(b, after);
    case Array(items) =>
      var rest := EncodeAll(items) + after;
      ReadNumberLine('*', |items|, rest);
      assert Encode(v) + after == ['*'] + IntText(|items|) + "\r\n" + rest;
      ParseEncodedAll(items, after);
      ParsesArray(Encode(v) + after, ['*'] + IntText(|items|), rest, |items|);
    case Null => ParseNull(after);
  }

  // What an array line stands for.
  lemma ParsesArray(input: string, line: string, after: string, n: nat)
    requires SplitLine(input) == Some((line, after)) && line != [] && line[0] == '*' && ParseInt64(line[1..]) == Some(n)
    ensures Parse(input) == ArrayBody(Some(n), after)
  {
    assert Parse(input) == ParseLine(line, after);
    assert ParseLine(line, after) == ArrayBody(ParseInt64(line[1..]), after);
  }

  lemma ParseNull(after: string)
    ensures Parse(Encode(Null) + after) == Ok((Null, after))
  {
    hide SplitLine, ParseInt64;
    ReadNumberLine('$', -1, after);
    assert IntText(-1) == "-1";
    assert Encode(Null) + after == ['$'] + IntText(-1) + "\r\n" + after;
  }

  lemma ParseEncodedBulk(b: string, after: string)
    requires |b| <= MAX_BULK_LENGTH
    ensures Parse(Encode(Bulk(b)) + after) == Ok((Bulk(b), after))
  {
    hide SplitLine, IntText, ParseInt64;
    var rest := b + "\r\n" + after;
    ReadNumberLine('$', |b|, rest);
    assert Encode(Bulk(b)) + after == ['$'] + IntText(|b|) + "\r\n" + rest;
    assert rest[..|b|] == b && rest[|b| + 2..] == after;
  }

  // Pipelined values: repeated parsing gives back the list and leaves the rest.
  lemma {:induction false} ParseEncodedAll(items: seq<RespValue>, after: string)
    requires forall i :: 0 <= i < |items| ==> InBounds(items[i])
    ensures ParseItems(EncodeAll(items) + after, |items|) == Ok((items, after))
  {
    if items == [] {
      assert EncodeAll(items) + after == after;
    } else {
      var rest := EncodeAll(items[1..]) + after;
      assert EncodeAll(items) + after == Encode(items[0]) + rest;
      hide *;
      ParseEncoded(items[0], rest);
      ParseEncodedAll(items[1..], after);
      OneItem(Encode(items[0]) + rest, items[0], rest, items[1..], after);
      assert items == [items[0]] + items[1..];
    }
  }

  lemma OneItem(input: string, v: RespValue, rest: string, vs: seq<RespValue>, after: string)
    requires Parse(input) == Ok((v, rest)) && ParseItems(rest, |vs|) == Ok((vs, after))
    ensures ParseItems(input, |vs| + 1) == Ok(([v] + vs, after))
  {
    hide Parse;
  }

  // ---- Only such values are ever parsed ----

  lemma {:induction false} Trimmed(s: string)
    ensures TrimRight(s) <= s && (TrimRight(s) == [] || !LineEnd(TrimRight(s)[|TrimRight(s)| - 1]))
  {
    if s != [] && LineEnd(s[|s| - 1]) {
      Trimmed(s[..|s| - 1]);
    }
  }

  lemma TrimFeed(s: string)
    requires s != [] && s[|s| - 1] == '\n'
    ensures TrimRight(s) == TrimRight(s[..|s| - 1])
  {
  }

  lemma ReadLineText(input: string)
    ensures SplitLine(input).Some? ==> LineText(SplitLine(input).value.0)
  {
    hide TrimRight, FirstFeed;
    var i := FirstFeed(input);
    FirstFeedBounds(input);
    if i.Some? {
      var raw, text := input[..i.value + 1], input[..i.value];
      assert raw[|raw| - 1] == '\n' && raw[..|raw| - 1] == text;
      TrimFeed(raw);
      Trimmed(text);
      assert forall j :: 0 <= j < |TrimRight(text)| ==> TrimRight(text)[j] == text[j];
    }
  }

  lemma {:induction false} ParsedInBounds(input: string)
    ensures Parse(input).Ok? ==> InBounds(Parse(input).value.0)
    decreases |input|, 2
  {
    hide SplitLine, ParseInt64, BulkBody, ArrayBody;
    ReadLineText(input);
    var l := SplitLine(input);
    if l.Some? && l.value.0 != [] {
      var line, after := l.value.0, l.value.1;
      var body := line[1..];
      assert forall j :: 0 <= j < |body| ==> body[j] == line[j + 1];
      assert LineText(body);
      ParsedInt(body);
      BulkInBounds(ParseInt64(body), after);
      ArrayInBounds(ParseInt64(body), after);
      assert Parse(input) == ParseLine(line, after);
    }
  }

  lemma BulkInBounds(n: Option<int>, after: string)
    ensures BulkBody(n, after).Ok? ==> InBounds(BulkBody(n, after).value.0)
  {
  }

  lemma {:induction false} ArrayInBounds(n: Option<int>, after: string)
    ensures ArrayBody(n, after).Ok? ==> InBounds(ArrayBody(n, after).value.0)
    decreases |after| + 1, 0
  {
    if n.Some? && 0 <= n.value <= MAX_ARRAY_LENGTH {
      ItemsInBounds(after, n.value);
    }
  }

  lemma ParsedInt(s: string)
    ensures ParseInt64(s).Some? ==> MIN_INT64 <= ParseInt64(s).value <= MAX_INT64
  {
  }

  lemma {:induction false} ItemsInBounds(input: string, n: nat)
    ensures ParseItems(input, n).Ok? ==> forall i :: 0 <= i < n ==> InBounds(ParseItems(input, n).value.0[i])
    decreases |input|, n + 3
  {
    hide Parse, InBounds;
    if n > 0 && Parse(input).Ok? {
      ParsedInBounds(input);
      ItemsInBounds(Parse(input).value.1, n - 1);
    }
  }

  // The framing is exact: a value survives the wire if and only if it is in
  // bounds.
  lemma FramingExact(v: RespValue, after: string)
    ensures Parse(Encode(v) + after) == Ok((v, after)) <==> InBounds(v)
  {
    hide Parse, Encode, InBounds;
    ParsedInBounds(Encode(v) + after);
    if InBounds(v) {
      ParseEncoded(v, after);
    }
  }

  // A command survives the wire when its arguments are not too many or too long.
  lemma CommandRoundTrip(args: seq<string>, after: string)
    requires |args| <= MAX_ARRAY_LENGTH && forall i :: 0 <= i < |args| ==> |args[i]| <= MAX_BULK_LENGTH
    ensures CommandOf(Parse(Encode(Array(Bulks(args))) + after)) == Ok((args, after))
  {
    hide Parse, Encode;
    ParseEncoded(Array(Bulks(args)), after);
    assert Texts(Bulks(args)) == args;
  }

  // ---- The reader and the writer ----

  function ShiftedBy(i: Option<nat>, n: nat): Option<nat>
  {
    if i.Some? then Some(i.value + n) else None
  }

  lemma PrependedNone(r: Result<(seq<RespValue>, string)>)
    ensures Prepended([], r) == r
  {
    if r.Ok? {
      assert [] + r.value.0 == r.value.0;
    }
  }

  lemma PrependedTwice(items: seq<RespValue>, v: RespValue, r: Result<(seq<RespValue>, string)>)
    ensures Prepended(items, Prepended([v], r)) == Prepended(items + [v], r)
  {
    if r.Ok? {
      assert items + ([v] + r.value.0) == (items + [v]) + r.value.0;
    }
  }

  // A reader that returned r and stands before rest did what p says.
  ghost predicate Did<T(!new)>(p: Result<(T, string)>, r: Result<T>, rest: string)
  {
    if p.Ok? then r == Ok(p.value.0) && rest == p.value.1 else r == Err(p.error)
  }

  lemma WithoutLast<T>(s: seq<T>, start: nat, end: nat)
    requires start < end <= |s|
    ensures s[start..end][..end - start - 1] == s[start..end - 1]
  {
  }

  class Reader {
    const data: string
    var pos: nat

    constructor (data: string)
      ensures this.data == data && pos == 0
    {
      this.data, pos := data, 0;
    }

    ghost predicate Valid()
      reads this
    {
      pos <= |data|
    }

    ghost function Rest(): string
      requires Valid()
      reads this
    {
      data[pos..]
    }

    // bufio.Reader.ReadString('\n'): past the feed, or to the end.
    method FindFeed() returns (found: bool)
      requires Valid()
      modifies this
      ensures Valid() && pos >= old(pos)
      ensures found <==> FirstFeed(old(Rest())).Some?
      ensures found ==> pos == old(pos) + FirstFeed(old(Rest())).value + 1
    {
      var start := pos;
      while pos < |data| && data[pos] != '\n'
        invariant start <= pos <= |data|
        invariant FirstFeed(data[start..]) == ShiftedBy(FirstFeed(data[pos..]), pos - start)
      {
        assert data[pos..][0] == data[pos] && data[pos..][1..] == data[pos + 1..];
        pos := pos + 1;
      }
      found := pos < |data|;
      if found {
        assert data[pos..][0] == '\n';
        pos := pos + 1;
      }
    }

    // strings.TrimRight on part of the data
    method TrimmedEnd(start: nat, stop: nat) returns (end: nat)
      requires start <= stop <= |data|
      ensures start <= end <= stop && data[start..end] == TrimRight(data[start..stop])
    {
      end := stop;
      while end > start && LineEnd(data[end - 1])
        invariant start <= end <= stop
        invariant TrimRight(data[start..stop]) == TrimRight(data[start..end])
      {
        WithoutLast(data, start, end);
        end := end - 1;
      }
    }

    // readLine
    method ReadLine() returns (line: Option<string>)
      requires Valid()
      modifies this
      ensures Valid() && pos >= old(pos) && (line.Some? ==> pos > old(pos))
      ensures line == (if SplitLine(old(Rest())).Some? then Some(SplitLine(old(Rest())).value.0) else None)
      ensures line.Some? ==> Rest() == SplitLine(old(Rest())).value.1
    {
      hide FirstFeed, TrimRight;
      var start := pos;
      var found := FindFeed();
      if !found {
        return None;
      }
      var end := TrimmedEnd(start, pos);
      assert data[start..][..pos - start] == data[start..pos] && data[start..][pos - start..] == data[pos..];
      line := Some(data[start..end]);
    }

    // io.ReadFull
    method ReadFull(n: nat) returns (bytes: Option<string>)
      requires Valid()
      modifies this
      ensures Valid() && pos >= old(pos)
      ensures n <= |old(Rest())| ==> bytes == Some(old(Rest())[..n]) && Rest() == old(Rest())[n..]
      ensures n > |old(Rest())| ==> bytes == None
    {
      if pos + n > |data| {
        pos := |data|;
        return None;
      }
      assert data[pos..][..n] == data[pos..pos + n] && data[pos..][n..] == data[pos + n..];
      bytes := Some(data[pos..pos + n]);
      pos := pos + n;
    }

    // ParseRESP
    method ParseValue() returns (r: Result<RespValue>)
      requires Valid()
      modifies this
      ensures Valid() && pos >= old(pos) && (r.Ok? ==> pos > old(pos))
      ensures Did(Parse(old(Rest())), r, Rest())
      decreases |data| - pos, 2
    {
      hide FirstFeed, TrimRight, ParseInt64, BulkBody, ArrayBody;
      var l := ReadLine();
      if l.None? {
        return Err("resp: unexpected EOF");
      }
      var line := l.value;
      if line == [] {
        return Err("resp: empty line");
      }
      var body := line[1..];
      match line[0]
      case '+' => r := Ok(SimpleString(body));
      case '-' => r := Ok(Error(body));
      case ':' =>
        var n := ParseInt64(body);
        r := if n.None? then Err("resp: invalid integer") else Ok(Integer(n.value));
      case '$' => r := ParseBulk(ParseInt64(body));
      case '*' => r := ParseArray(ParseInt64(body));
      case _ => r := Err("resp: unknown type byte");
    }

    method ParseBulk(n: Option<int>) returns (r: Result<RespValue>)
      requires Valid()
      modifies this
      ensures Valid() && pos >= old(pos)
      ensures Did(BulkBody(n, old(Rest())), r, Rest())
    {
      if n.None? || n.value < -1 {
        return Err("resp: invalid bulk length");
      }
      if n.value == -1 {
        return Ok(Null);
      }
      if n.value > MAX_BULK_LENGTH {
        return Err("resp: bulk length exceeds max");
      }
      ghost var before := Rest();
      var buf := ReadFull(n.value + 2);
      if buf.None? {
        return Err("resp: unexpected EOF");
      }
      assert before[..n.value + 2][..n.value] == before[..n.value];
      r := Ok(Bulk(buf.value[..n.value]));
    }

    method ParseArray(n: Option<int>) returns (r: Result<RespValue>)
      requires Valid()
      modifies this
      ensures Valid() && pos >= old(pos)
      ensures Did(ArrayBody(n, old(Rest())), r, Rest())
      decreases |data| - pos, 3
    {
      hide Parse;
      if n.None? || n.value < -1 {
        return Err("resp: invalid array length");
      }
      if n.value == -1 {
        return Ok(Null);
      }
      if n.value > MAX_ARRAY_LENGTH {
        return Err("resp: array length exceeds max");
      }
      ghost var start := Rest();
      var items: seq<RespValue> := [];
      PrependedNone(ParseItems(start, n.value));
      for i := 0 to n.value
        invariant Valid() && pos >= old(pos) && |items| == i
        invariant ParseItems(start, n.value) == Prepended(items, ParseItems(Rest(), n.value - i))
      {
        var item := ParseValue();
        if item.Err? {
          return Err(item.error);
        }
        PrependedTwice(items, item.value, ParseItems(Rest(), n.value - i - 1));
        items := items + [item.value];
      }
      assert items + [] == items;
      r := Ok(Array(items));
    }

    method ParseCommand() returns (r: Result<seq<string>>)
      requires Valid()
      modifies this
      ensures Valid() && Did(CommandOf(Parse(old(Rest()))), r, if r.Ok? then Rest() else "")
    {
      hide Parse;
      var v := ParseValue();
      if v.Err? {
        return Err(v.error);
      }
      if !v.value.Array? {
        return Err("resp: expected a command array");
      }
      var args: seq<string> := [];
      for i := 0 to |v.value.items|
        invariant |args| == i && forall j :: 0 <= j < i ==> v.value.items[j] == Bulk(args[j])
      {
        if !v.value.items[i].Bulk? {
          return Err("resp: expected bulk string command arguments");
        }
        args := args + [v.value.items[i].bytes];
      }
      assert Texts(v.value.items) == args;
      r := Ok(args);
    }
  }

  class Writer {
    var out: string

    constructor ()
      ensures out == ""
    {
      out := "";
    }

    // WriteRESP
    method WriteValue(v: RespValue)
      modifies this
      ensures out == old(out) + Encode(v)
      decreases v
    {
      hide IntText;
      match v
      case SimpleString(s) => out := out + ("+" + s + "\r\n");
      case Error(s) => out := out + ("-" + s + "\r\n");
      case Integer(n) => out := out + (":" + IntText(n) + "\r\n");
      case Bulk(b) =>
        out := out + ("$" + IntText(|b|) + "\r\n");
        out := out + b;
        out := out + "\r\n";
      case Array(items) =>
        out := out + ("*" + IntText(|items|) + "\r\n");
        ghost var head := out;
        for i := 0 to |items|
          invariant out == head + EncodeAll(items[..i])
        {
          WriteValue(items[i]);
          EncodeSnoc(items[..i], items[i]);
          assert items[..i + 1] == items[..i] + [items[i]];
        }
        assert items[..|items|] == items;
      case Null => out := out + "$-1\r\n";
    }
  }

  lemma {:induction false} EncodeSnoc(items: seq<RespValue>, v: RespValue)
    ensures EncodeAll(items + [v]) == EncodeAll(items) + Encode(v)
  {
    hide Encode;
    if items == [] {
      assert items + [v] == [v];
      assert EncodeAll([v]) == Encode(v) + EncodeAll([]);
    } else {
      assert (items + [v])[0] == items[0] && (items + [v])[1..] == items[1..] + [v];
      EncodeSnoc(items[1..], v);
    }
  }

  // The C++ client's encode_command writes the bytes of the Go encoder's
  // command value.
  method EncodeCommand(args: seq<string>) returns (out: string)
    ensures out == Encode(Array(Bulks(args)))
  {
    hide IntText;
    out := "*" + IntText(|args|) + "\r\n";
    ghost var head := out;
    for i := 0 to |args|
      invariant out == head + EncodeAll(Bulks(args[..i]))
    {
      out := out + ("$" + IntText(|args[i]|) + "\r\n");
      out := out + args[i];
      out := out + "\r\n";
      assert Bulks(args[..i + 1]) == Bulks(args[..i]) + [Bulk(args[i])];
      EncodeSnoc(Bulks(args[..i]), Bulk(args[i]));
    }
    assert args[..|args|] == args;
  }
}
