// The bytes and texts of the formats, spelled out.
module Formats {
  import opened Wrappers
  import opened Decimal
  import J = Json
  import R = Resp
  import S = SnapshotFormat
  import C = CacheModel
  import A = Ast
  import Q = SqlStatements
  import T = SqlText

  // ---- RESP (cache/internal/resp/encoder.go:11-52) ----

  lemma RespBytes()
    ensures R.Encode(R.SimpleString("OK")) == "+OK\r\n"
    ensures R.Encode(R.Error("ERR no")) == "-ERR no\r\n"
    ensures R.Encode(R.Integer(-7)) == ":-7\r\n"
    ensures R.Encode(R.Bulk("ab")) == "$2\r\nab\r\n"
    ensures R.Encode(R.Null) == "$-1\r\n"
  {
    assert IntText(2) == "2" && IntText(-7) == "-7";
  }

  // An array is its length, then its items.
  lemma CommandBytes()
    ensures R.Encode(R.Array([R.Bulk("GET"), R.Bulk("k")])) == "*2\r\n" + ("$3\r\nGET\r\n" + "$1\r\nk\r\n")
  {
    BulkBytes();
    var items := [R.Bulk("GET"), R.Bulk("k")];
    assert items[1..] == [R.Bulk("k")];
    assert R.EncodeAll([R.Bulk("k")]) == R.Encode(R.Bulk("k"));
    assert R.EncodeAll(items) == R.Encode(items[0]) + R.EncodeAll(items[1..]);
    assert IntText(2) == "2";
  }

  lemma BulkBytes()
    ensures R.Encode(R.Bulk("GET")) == "$3\r\nGET\r\n" && R.Encode(R.Bulk("k")) == "$1\r\nk\r\n"
  {
    assert IntText(3) == "3" && IntText(1) == "1";
  }

  // ---- Snapshots (cache/internal/persistence/snapshot.go:50-83) ----

  lemma {:induction false} Zeroed(n: nat, width: nat)
    requires width >= 1 && n < 256
    ensures S.BigEndian(n, width) == seq(width - 1, i => 0 as char) + [n as char]
  {
    if width > 1 {
      Zeroed(0, width - 1);
      assert n / 256 == 0;
    }
  }

  // Magic, version and count; all numbers have their highest byte first.
  lemma HeaderBytes()
    ensures S.Header(1) == "GOCACHE1" + Bytes([0, 0, 0, 1]) + Bytes([0, 0, 0, 0, 0, 0, 0, 1])
  {
    hide S.BigEndian;
    Zeroed(1, 4);
    Zeroed(1, 8);
    assert S.BigEndian(1, 4) == Bytes([0, 0, 0, 1]);
    assert S.BigEndian(1, 8) == Bytes([0, 0, 0, 0, 0, 0, 0, 1]);
  }

  // Key and value after their lengths, then flag and deadline.
  lemma EntryBytes(size: nat)
    ensures S.EncodeEntry(("k", C.CacheEntry("vw", None, size)))
         == (Bytes([0, 0, 0, 1]) + "k") + (Bytes([0, 0, 0, 2]) + "vw") + Bytes([0, 0, 0, 0, 0, 0, 0, 0, 0])
  {
    hide S.BigEndian;
    Zeroed(1, 4);
    Zeroed(2, 4);
    Zeroed(0, 8);
    assert S.BigEndian(1, 4) == Bytes([0, 0, 0, 1]);
    assert S.BigEndian(2, 4) == Bytes([0, 0, 0, 2]);
    assert [0 as char] + S.BigEndian(0, 8) == Bytes([0, 0, 0, 0, 0, 0, 0, 0, 0]);
  }

  // The checksum is of everything before it.
  lemma ChecksumBytes(payload: string, crc: string -> nat)
    requires crc(payload) == 7
    ensures S.Checked(payload, crc) == payload + Bytes([0, 0, 0, 7])
  {
    hide S.BigEndian;
    Zeroed(7, 4);
    assert S.BigEndian(7, 4) == Bytes([0, 0, 0, 7]);
  }

  // A deadline is 64 bits, two's complement, after a flag.
  lemma DeadlineBytes(size: nat)
    ensures S.Deadline(C.CacheEntry("v", Some(258), size)) == Bytes([1, 0, 0, 0, 0, 0, 0, 1, 2])
    ensures S.Deadline(C.CacheEntry("v", Some(-1), size)) == Bytes([1, 255, 255, 255, 255, 255, 255, 255, 255])
  {
    EightOnes();
    TwoBytes();
    hide S.BigEndian, Ones;
    assert [1 as char] + S.BigEndian(258, 8) == Bytes([1, 0, 0, 0, 0, 0, 0, 1, 2]);
    assert [1 as char] + S.BigEndian(0xffff_ffff_ffff_ffff, 8) == Bytes([1, 255, 255, 255, 255, 255, 255, 255, 255]);
  }

  lemma TwoBytes()
    ensures S.BigEndian(258, 8) == Bytes([0, 0, 0, 0, 0, 0, 1, 2])
  {
    Zeroed(1, 7);
    assert S.BigEndian(258, 8) == S.BigEndian(1, 7) + [2 as char];
  }

  lemma EightOnes()
    ensures S.BigEndian(0xffff_ffff_ffff_ffff, 8) == Bytes([255, 255, 255, 255, 255, 255, 255, 255])
  {
    AllOnes(8);
    assert Ones(4) == 0xffff_ffff;
    assert Ones(8) == 0xffff_ffff_ffff_ffff;
    hide S.BigEndian;
  }

  function Ones(width: nat): nat
  {
    if width == 0 then 0 else 256 * Ones(width - 1) + 255
  }

  lemma {:induction false} AllOnes(width: nat)
    ensures S.BigEndian(Ones(width), width) == seq(width, i => 255 as char)
  {
    if width > 0 {
      AllOnes(width - 1);
      assert Ones(width) / 256 == Ones(width - 1) && Ones(width) % 256 == 255;
    }
  }

  function Bytes(values: seq<nat>): string
  {
    seq(|values|, i requires 0 <= i < |values| => if values[i] < 256 then values[i] as char else '?')
  }

  // Nothing is loaded from data whose checksum, magic or version is wrong.
  lemma NothingUnchecked(data: string, crc: string -> nat)
    ensures var r := S.Load(data, crc);
      r.error.None? || r.entries != [] ==>
        && |data| >= 24 && S.Number(data[|data| - 4..]) == crc(data[..|data| - 4]) % 0x1_0000_0000
        && data[..8] == "GOCACHE1" && S.Number(data[8..12]) == 1
  {
    hide S.Number, S.DecodeEntries;
  }

  // ---- JSON (util/json.cpp:67-286) ----

  // Values and members separated by commas, a key and its value by a colon, no
  // space, and a quote escaped.
  lemma JsonText(render: real -> string)
    ensures J.Write(J.Array([J.Number(1.0), J.Bool(true), J.Null]), render) == "[1,true,null]"
    ensures J.Write(J.Object([("a", J.Bool(false)), ("b", J.String("x\"y"))]), render)
         == "{" + ("\"a\":false" + "," + "\"b\":\"x\\\"y\"") + "}"
  {
    hide J.WriteItems, J.WriteMembers;
    ArrayText(render);
    ObjectText(render);
  }

  lemma ArrayText(render: real -> string)
    ensures J.WriteItems([J.Number(1.0), J.Bool(true), J.Null], render) == "1,true,null"
  {
    assert IntText(1) == "1" && J.Write(J.Number(1.0), render) == "1";
    var two := [J.Bool(true), J.Null];
    assert two[1..] == [J.Null] && ([J.Number(1.0)] + two)[1..] == two;
    assert J.WriteItems(two, render) == "true" + "," + "null";
    assert [J.Number(1.0), J.Bool(true), J.Null] == [J.Number(1.0)] + two;
  }

  lemma ObjectText(render: real -> string)
    ensures J.WriteMembers([("a", J.Bool(false)), ("b", J.String("x\"y"))], render)
         == "\"a\":false" + "," + "\"b\":\"x\\\"y\""
  {
    Quoted();
    var second := ("b", J.String("x\"y"));
    var entries := [("a", J.Bool(false)), second];
    assert entries[1..] == [second];
    assert J.Escape("") == "" && J.Escape("a") == "a" && J.Escape("b") == "b";
    hide J.Escape;
    assert J.WriteMember(second, render) == "\"b\":\"x\\\"y\"";
    assert J.WriteMember(entries[0], render) == "\"a\":false";
  }

  lemma Quoted()
    ensures J.WriteString("x\"y") == "\"x\\\"y\""
  {
    assert J.Escape("y") == "y";
    assert "\"y"[1..] == "y" && "x\"y"[1..] == "\"y";
    assert J.Escape("\"y") == "\\\"y";
    assert J.Escape("x\"y") == "x\\\"y";
  }

  // What is escaped, and how.
  lemma EscapesText()
    ensures J.WriteString("\\") == "\"\\\\\"" && J.WriteString("\n") == "\"\\n\""
    ensures J.WriteString("\t") == "\"\\t\"" && J.WriteString("\r") == "\"\\r\""
    ensures J.WriteString([27 as char]) == "\"\\u001b\""
  {
    var esc := 27 as char;
    assert J.HexDigits(esc) == ['0', '0', J.HEX[1], J.HEX[11]] == "001b";
    assert J.Escape([esc]) == J.EscapeChar(esc) + J.Escape([esc][1..]) == "\\u001b";
  }

  // Space on either side of a separator is not seen.
  lemma SpaceInArray(a: string, b: string, space: string, v: J.JsonValue, rest: string, items: seq<J.JsonValue>)
    requires forall i :: 0 <= i < |space| ==> IsSpace(space[i])
    requires J.ParseValue(a) == Ok((v, space + rest)) && J.ParseValue(b) == Ok((v, rest))
    ensures J.ParseItems(a, items) == J.ParseItems(b, items)
  {
    hide J.ParseValue;
    SpaceSkipped(space, rest);
  }

  lemma SpaceInObject(key: string, before: string, colon: string, space: string, rest: string,
                      entries: seq<(string, J.JsonValue)>)
    requires forall i :: 0 <= i < |before| ==> IsSpace(before[i])
    requires forall i :: 0 <= i < |colon| ==> IsSpace(colon[i])
    requires forall i :: 0 <= i < |space| ==> IsSpace(space[i])
    ensures J.ParseMembers(before + (J.WriteString(key) + (colon + (":" + (space + rest)))), entries)
         == J.ParseMembers(J.WriteString(key) + (":" + rest), entries)
  {
    hide SkipSpace, J.ParseValue, J.ReadChars, J.Escape, J.EchoAll, J.ParseMembers;
    var after, after' := colon + (":" + (space + rest)), ":" + rest;
    KeyText(key, after);
    KeyText(key, after');
    SpaceSkipped(before, J.WriteString(key) + after);
    SpaceSkipped(colon, ":" + (space + rest));
    ColonText(space + rest);
    ColonText(rest);
    SpaceBeforeValue(space, rest);
    MemberAfter(before + (J.WriteString(key) + after), J.WriteString(key) + after', J.EchoAll(key), after, after',
                entries);
  }

  lemma KeyText(key: string, after: string)
    ensures var t := J.WriteString(key) + after;
      SkipSpace(t) == t && J.At(t, 0, '"') && J.ReadChars(t[1..]) == Some((J.EchoAll(key), after))
  {
    hide J.ReadChars, J.Escape, J.EchoAll;
    var t := J.WriteString(key) + after;
    J.ReadWritten(key, after);
    assert t[0] == '"' && t[1..] == J.Escape(key) + "\"" + after;
  }

  lemma ColonText(rest: string)
    ensures SkipSpace(":" + rest) == ":" + rest && (":" + rest)[1..] == rest && J.At(":" + rest, 0, ':')
  {
  }

  lemma MemberAfter(a: string, b: string, key: string, x: string, y: string, entries: seq<(string, J.JsonValue)>)
    requires J.At(SkipSpace(a), 0, '"') && J.ReadChars(SkipSpace(a)[1..]) == Some((key, x))
    requires J.At(SkipSpace(b), 0, '"') && J.ReadChars(SkipSpace(b)[1..]) == Some((key, y))
    requires J.At(SkipSpace(x), 0, ':') && J.At(SkipSpace(y), 0, ':')
    requires J.ParseValue(SkipSpace(x)[1..]) == J.ParseValue(SkipSpace(y)[1..])
    ensures J.ParseMembers(a, entries) == J.ParseMembers(b, entries)
  {
    hide SkipSpace, J.ParseValue, J.ReadChars, J.Put;
  }

  // Nor is it after a value.
  lemma SpaceAfterMember(a: string, b: string, key: string, x: string, space: string, v: J.JsonValue, rest: string,
                         entries: seq<(string, J.JsonValue)>)
    requires forall i :: 0 <= i < |space| ==> IsSpace(space[i])
    requires J.ParseValue(a) == Ok((v, space + rest)) && J.ParseValue(b) == Ok((v, rest))
    ensures J.ParseMembers(J.WriteString(key) + (":" + a), entries)
         == J.ParseMembers(J.WriteString(key) + (":" + b), entries)
  {
    hide SkipSpace, J.ParseValue, J.ReadChars, J.Put, J.Escape, J.EchoAll, J.ParseMembers;
    KeyText(key, ":" + a);
    KeyText(key, ":" + b);
    ColonText(a);
    ColonText(b);
    SpaceSkipped(space, rest);
    MemberStep(J.WriteString(key) + (":" + a), J.EchoAll(key), a, v, space + rest, entries);
    MemberStep(J.WriteString(key) + (":" + b), J.EchoAll(key), b, v, rest, entries);
  }

  // One member read, and what is made of what follows.
  lemma MemberStep(t: string, key: string, a: string, v: J.JsonValue, after: string,
                   entries: seq<(string, J.JsonValue)>)
    requires SkipSpace(t) == t && J.At(t, 0, '"') && J.ReadChars(t[1..]) == Some((key, ":" + a))
    requires SkipSpace(":" + a) == ":" + a && (":" + a)[1..] == a && J.ParseValue(a) == Ok((v, after))
    ensures J.ParseMembers(t, entries) == var u := SkipSpace(after);
      if J.At(u, 0, ',') then J.ParseMembers(u[1..], J.Put(entries, key, v))
      else if J.At(u, 0, '}') then Ok((J.Object(J.Put(entries, key, v)), u[1..]))
      else Err("json: expected '}'")
  {
    hide SkipSpace, J.ParseValue, J.ReadChars, J.Put;
  }

  // An exponent shifts the point.
  lemma Exponents()
    ensures J.NumberValue("12e2") == Some(1200.0) && J.NumberValue("12E-1") == Some(1.2)
  {
    hide J.NumberValue;
    UpwardExponent();
    DownwardExponent();
  }

  lemma UpwardExponent()
    ensures J.NumberValue("12e2") == Some(1200.0)
  {
    assert "12e2"[0..] == "12e2";
    DigitLengthOf("12", "e2");
    assert "12" + "e2" == "12e2" && "12e2"[..2] == "12";
    DigitLengthOf("2", "");
    assert "2" + "" == "2" && "12e2"[3..] == "2" && "2"[..1] == "2";
    Twelve();
    hide DigitLength, NatValue;
    assert J.Power10(2) == 100.0;
  }

  lemma DownwardExponent()
    ensures J.NumberValue("12E-1") == Some(1.2)
  {
    assert "12E-1"[0..] == "12E-1";
    DigitLengthOf("12", "E-1");
    assert "12" + "E-1" == "12E-1" && "12E-1"[..2] == "12";
    DigitLengthOf("1", "");
    assert "1" + "" == "1" && "12E-1"[4..] == "1" && "1"[..1] == "1";
    Twelve();
    hide DigitLength, NatValue;
    assert J.Power10(-1) == 0.1;
  }

  lemma Twelve()
    ensures NatValue("12") == 12 && NatValue("2") == 2 && NatValue("1") == 1
  {
    assert "12"[..1] == "1" && "1"[..0] == "" && "2"[..0] == "";
    assert NatValue("") == 0;
  }

  // Space before a value is not seen.
  lemma {:induction false} SpaceBeforeValue(space: string, input: string)
    requires forall i :: 0 <= i < |space| ==> IsSpace(space[i])
    ensures J.ParseValue(space + input) == J.ParseValue(input)
  {
    SpaceSkipped(space, input);
  }

  lemma {:induction false} SpaceSkipped(space: string, input: string)
    requires forall i :: 0 <= i < |space| ==> IsSpace(space[i])
    ensures SkipSpace(space + input) == SkipSpace(input)
  {
    if space == [] {
      assert space + input == input;
    } else {
      assert (space + input)[0] == space[0] && (space + input)[1..] == space[1..] + input;
      SpaceSkipped(space[1..], input);
    }
  }
}
