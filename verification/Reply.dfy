// The C++ client's reader of replies (integration/cache_client.cpp), against
// the Go server's encoder.
module Replies {
  import opened Wrappers
  import opened Decimal
  import opened Resp

  const MIN_INT := -0x8000_0000
  const MAX_INT := 0x7fff_ffff

  // std::stoll and std::stoi: white space, a sign, digits; what follows is
  // ignored, and a value out of range throws.
  function LeadingInt(s: string, least: int, greatest: int): Option<int>
  {
    var t := SkipSpace(s);
    var signed := t != [] && (t[0] == '-' || t[0] == '+');
    var digits := if signed then t[1..] else t;
    var n := DigitLength(digits);
    var value := if signed && t[0] == '-' then -(NatValue(digits[..n]) as int) else NatValue(digits[..n]) as int;
    if n == 0 || value < least || value > greatest then None else Some(value)
  }

  // read_line: up to the first line feed, one carriage return dropped.
  function ReplyLine(input: string): (r: Option<(string, string)>)
    ensures r.Some? ==> |r.value.1| < |input|
  {
    var i := FirstFeed(input);
    FirstFeedBounds(input);
    if i.None? then None
    else
      var line := input[..i.value];
      Some((if line != [] && line[|line| - 1] == '\r' then line[..|line| - 1] else line, input[i.value + 1..]))
  }

  function ReplyBulk(n: Option<int>, after: string): Result<(RespValue, string)>
  {
    if n.None? || n.value < -1 then Err("resp: negative bulk length")
    else if n.value == -1 then Ok((Null, after))
    else if n.value > MAX_BULK_LENGTH then Err("resp: bulk length exceeds max")
    else if n.value + 2 > |after| then Err("resp: unexpected EOF reading exact bytes")
    else Ok((Bulk(after[..n.value]), after[n.value + 2..]))
  }

  function ReplyOf(line: string, after: string): Result<(RespValue, string)>
  {
    if line == [] then Err("resp: empty reply line")
    else
      var body := line[1..];
      match line[0]
      case '+' => Ok((SimpleString(body), after))
      case '-' => Ok((Error(body), after))
      case ':' =>
        var n := LeadingInt(body, MIN_INT64, MAX_INT64);
        if n.None? then Err("stoll") else Ok((Integer(n.value), after))
      case '$' => ReplyBulk(LeadingInt(body, MIN_INT, MAX_INT), after)
      case _ => Err("resp: unknown reply type byte")
  }

  // parse_reply
  function ReadReply(input: string): Result<(RespValue, string)>
  {
    var l := ReplyLine(input);
    if l.None? then Err("resp: unexpected EOF reading line") else ReplyOf(l.value.0, l.value.1)
  }

  // ---- Reading what the server writes ----

  // What the client reads back: no arrays, and a simple string may end in a
  // carriage return, which the Go reader would trim.
  predicate Readable(v: RespValue)
  {
    match v
    case SimpleString(s) => '\n' !in s
    case Error(s) => '\n' !in s
    case Integer(n) => MIN_INT64 <= n <= MAX_INT64
    case Bulk(b) => |b| <= MAX_BULK_LENGTH
    case Array(_) => false
    case Null => true
  }

  lemma WrittenLine(line: string, after: string)
    requires '\n' !in line
    ensures ReplyLine(line + "\r\n" + after) == Some((line, after))
  {
    hide FirstFeed;
    var s := line + "\r\n" + after;
    assert s == (line + "\r") + "\n" + after;
    FeedAt(line + "\r", after);
    assert s[..|line| + 1] == line + "\r" && s[|line| + 2..] == after;
    assert (line + "\r")[..|line|] == line;
  }

  lemma LeadingIntOf(n: int, least: int, greatest: int)
    ensures LeadingInt(IntText(n), least, greatest) == if least <= n <= greatest then Some(n) else None
  {
    hide NatText, NatValue, DigitLength;
    var s, digits := IntText(n), NatText(if n < 0 then -n else n);
    NatRoundTrip(if n < 0 then -n else n);
    DigitLengthOf(digits, []);
    assert digits + [] == digits && digits[..|digits|] == digits;
    assert n < 0 ==> s[0] == '-' && s[1..] == digits;
    assert n >= 0 ==> s == digits && IsDigit(s[0]);
    assert SkipSpace(s) == s;
  }

  // Lines never hold a line feed.
  lemma LineHasNoFeed(input: string)
    ensures ReplyLine(input).Some? ==> '\n' !in ReplyLine(input).value.0
  {
    FirstFeedBounds(input);
  }

  lemma TextRead(prefix: char, s: string, after: string)
    requires prefix != '\n'
    ensures var l := ReplyLine([prefix] + s + "\r\n" + after); l == Some(([prefix] + s, after)) <==> '\n' !in s
  {
    hide ReplyLine;
    var line := [prefix] + s;
    if '\n' !in s {
      assert '\n' !in line;
      WrittenLine(line, after);
    } else {
      LineHasNoFeed(line + "\r\n" + after);
      assert '\n' in line;
    }
  }

  lemma NumberLineRead(prefix: char, n: int, after: string)
    requires !LineEnd(prefix)
    ensures ReplyLine([prefix] + IntText(n) + "\r\n" + after) == Some(([prefix] + IntText(n), after))
    ensures ([prefix] + IntText(n))[1..] == IntText(n)
  {
    hide ReplyLine, IntText;
    IntIsText(prefix, n);
    WrittenLine([prefix] + IntText(n), after);
  }

  lemma NumberReply(prefix: char, n: int, after: string)
    requires !LineEnd(prefix)
    ensures ReadReply([prefix] + IntText(n) + "\r\n" + after) == ReplyOf([prefix] + IntText(n), after)
  {
    hide ReplyLine, IntText, ReplyOf;
    NumberLineRead(prefix, n, after);
  }

  lemma ArrayUnread(items: seq<RespValue>, after: string)
    ensures ReadReply(Encode(Array(items)) + after).Err?
  {
    var rest := EncodeAll(items) + after;
    assert Encode(Array(items)) + after == ['*'] + IntText(|items|) + "\r\n" + rest;
    hide IntText, Encode, EncodeAll, ReadReply, ReplyLine;
    NumberReply('*', |items|, rest);
  }

  lemma BulkRead(b: string, after: string)
    ensures ReadReply(Encode(Bulk(b)) + after) == Ok((Bulk(b), after)) <==> |b| <= MAX_BULK_LENGTH
  {
    var rest := b + "\r\n" + after;
    assert Encode(Bulk(b)) + after == ['$'] + IntText(|b|) + "\r\n" + rest;
    hide IntText, Encode, ReadReply, LeadingInt;
    NumberReply('$', |b|, rest);
    LeadingIntOf(|b|, MIN_INT, MAX_INT);
    assert (['$'] + IntText(|b|))[1..] == IntText(|b|);
    assert rest[..|b|] == b && rest[|b| + 2..] == after;
  }

  lemma IntegerRead(n: int, after: string)
    ensures ReadReply(Encode(Integer(n)) + after) == Ok((Integer(n), after)) <==> MIN_INT64 <= n <= MAX_INT64
  {
    assert Encode(Integer(n)) + after == [':'] + IntText(n) + "\r\n" + after;
    hide IntText, Encode, ReadReply, LeadingInt;
    NumberReply(':', n, after);
    LeadingIntOf(n, MIN_INT64, MAX_INT64);
    assert ([':'] + IntText(n))[1..] == IntText(n);
  }

  lemma StringRead(prefix: char, s: string, after: string)
    requires prefix == '+' || prefix == '-'
    ensures var v := if prefix == '+' then SimpleString(s) else Error(s);
      ReadReply([prefix] + s + "\r\n" + after) == Ok((v, after)) <==> '\n' !in s
  {
    TextRead(prefix, s, after);
    var input := [prefix] + s + "\r\n" + after;
    var l := ReplyLine(input);
    LineHasNoFeed(input);
    hide ReplyLine;
    assert ([prefix] + s)[1..] == s;
    if l.Some? && l.value.0 != [] {
      assert l.value.0[1..] == s ==> l.value.0 == [l.value.0[0]] + s;
    }
  }

  lemma NullRead(after: string)
    ensures ReadReply("$-1\r\n" + after) == Ok((Null, after))
  {
    assert NatText(1) == "1";
    assert IntText(-1) == "-1" && "$-1\r\n" + after == ['$'] + IntText(-1) + "\r\n" + after;
    hide ReadReply, IntText, LeadingInt;
    NumberReply('$', -1, after);
    LeadingIntOf(-1, MIN_INT, MAX_INT);
    assert (['$'] + IntText(-1))[1..] == IntText(-1);
  }

  // The client reads back exactly the readable values, leaving what follows.
  lemma ReplyExact(v: RespValue, after: string)
    ensures ReadReply(Encode(v) + after) == Ok((v, after)) <==> Readable(v)
  {
    hide ReadReply;
    match v
    case SimpleString(s) =>
      assert Encode(v) + after == ['+'] + s + "\r\n" + after;
      StringRead('+', s, after);
    case Error(s) =>
      assert Encode(v) + after == ['-'] + s + "\r\n" + after;
      StringRead('-', s, after);
    case Integer(n) => IntegerRead(n, after);
    case Bulk(b) => BulkRead(b, after);
    case Array(items) => ArrayUnread(items, after);
    case Null => NullRead(after);
  }

  // On what the Go reader also takes, the two readers agree.
  lemma ReadersAgree(v: RespValue, after: string)
    requires InBounds(v) && !v.Array?
    ensures ReadReply(Encode(v) + after) == Parse(Encode(v) + after)
  {
    hide ReadReply, Parse, Encode;
    ReplyExact(v, after);
    FramingExact(v, after);
  }

  // ---- The reader ----

  class StringByteReader {
    const data: string
    var pos: nat

    constructor (data: string)
      ensures this.data == data && pos == 0 && Valid() && Left() == data
    {
      this.data, pos := data, 0;
    }

    ghost predicate Valid()
      reads this
    {
      pos <= |data|
    }

    ghost function Left(): string
      requires Valid()
      reads this
    {
      data[pos..]
    }

    method ReadLine() returns (line: Option<string>)
      requires Valid()
      modifies this
      ensures Valid() && (line.Some? <==> ReplyLine(old(Left())).Some?)
      ensures line.Some? ==> line.value == ReplyLine(old(Left())).value.0 && Left() == ReplyLine(old(Left())).value.1
    {
      hide FirstFeed;
      ghost var input := Left();
      var nl := pos;
      while nl < |data| && data[nl] != '\n'
        invariant pos <= nl <= |data| && pos == old(pos)
          && FirstFeed(input) == ShiftedBy(FirstFeed(data[nl..]), nl - pos)
      {
        FeedStep(data, nl);
        nl := nl + 1;
      }
      FeedStep(data, nl);
      if nl == |data| {
        return None;
      }
      var end := if nl > pos && data[nl - 1] == '\r' then nl - 1 else nl;
      LineCut(data, pos, nl);
      line := Some(data[pos..end]);
      pos := nl + 1;
    }

    method ReadExact(n: nat) returns (bytes: Option<string>)
      requires Valid()
      modifies this
      ensures Valid() && (bytes.Some? <==> n <= |old(Left())|)
      ensures bytes.Some? ==> bytes.value == old(Left())[..n] && Left() == old(Left())[n..]
    {
      if pos + n > |data| {
        return None;
      }
      assert data[pos..][..n] == data[pos..pos + n] && data[pos..][n..] == data[pos + n..];
      bytes := Some(data[pos..pos + n]);
      pos := pos + n;
    }

    method ParseReply() returns (r: Result<RespValue>)
      requires Valid()
      modifies this
      ensures Valid() && (r.Ok? <==> ReadReply(old(Left())).Ok?)
      ensures r.Ok? ==> ReadReply(old(Left())) == Ok((r.value, Left()))
    {
      hide ReplyLine, LeadingInt;
      var l := ReadLine();
      if l.None? || l.value == [] {
        return Err("resp: no reply line");
      }
      var body := l.value[1..];
      match l.value[0]
      case '+' => r := Ok(SimpleString(body));
      case '-' => r := Ok(Error(body));
      case ':' =>
        var n := LeadingInt(body, MIN_INT64, MAX_INT64);
        r := if n.None? then Err("stoll") else Ok(Integer(n.value));
      case '$' => r := ParseBulk(LeadingInt(body, MIN_INT, MAX_INT));
      case _ => r := Err("resp: unknown reply type byte");
    }

    method ParseBulk(n: Option<int>) returns (r: Result<RespValue>)
      requires Valid()
      modifies this
      ensures Valid() && (r.Ok? <==> ReplyBulk(n, old(Left())).Ok?)
      ensures r.Ok? ==> ReplyBulk(n, old(Left())) == Ok((r.value, Left()))
    {
      if n.None? || n.value < -1 {
        return Err("resp: negative bulk length");
      }
      if n.value == -1 {
        return Ok(Null);
      }
      if n.value > MAX_BULK_LENGTH {
        return Err("resp: bulk length exceeds max");
      }
      ghost var before := Left();
      var payload := ReadExact(n.value + 2);
      if payload.None? {
        return Err("resp: unexpected EOF reading exact bytes");
      }
      assert before[..n.value + 2][..n.value] == before[..n.value];
      r := Ok(Bulk(payload.value[..n.value]));
    }
  }

  lemma LineCut(data: string, pos: nat, nl: nat)
    requires pos <= nl < |data|
    ensures data[pos..][..nl - pos] == data[pos..nl] && data[pos..][nl - pos + 1..] == data[nl + 1..]
    ensures pos < nl ==>
      data[pos..nl][nl - pos - 1] == data[nl - 1] && data[pos..nl][..nl - pos - 1] == data[pos..nl - 1]
  {
    if pos < nl {
      var line := data[pos..nl];
      assert |line| == nl - pos;
      assert line == data[pos..nl - 1] + [data[nl - 1]];
    }
  }

  lemma FeedStep(data: string, nl: nat)
    requires nl <= |data|
    ensures nl == |data| ==> FirstFeed(data[nl..]).None?
    ensures nl < |data| && data[nl] == '\n' ==> FirstFeed(data[nl..]) == Some(0)
    ensures nl < |data| && data[nl] != '\n' ==> FirstFeed(data[nl..]) == ShiftedBy(FirstFeed(data[nl + 1..]), 1)
  {
    if nl < |data| {
      assert data[nl..][0] == data[nl] && data[nl..][1..] == data[nl + 1..];
    }
  }
}
