// The text of a double by which joins hash and groups are keyed
// (execution/value_ops.cpp:22, std::to_string).
module FloatTexts {
  import opened Wrappers
  import opened Decimal
  import opened Values
  import Ast

  function Magnitude(f: real): real
  {
    if f < 0.0 then -f else f
  }

  lemma {:induction false} ZerosValue(n: nat, d: string)
    requires AllDigits(d)
    ensures AllDigits(Zeros(n) + d) && NatValue(Zeros(n) + d) == NatValue(d) && |Zeros(n)| == n
  {
    if n == 0 {
      assert Zeros(n) + d == d;
    } else {
      ZerosValue(n - 1, d);
      assert Zeros(n) + d == "0" + (Zeros(n - 1) + d);
      ZeroInFront(Zeros(n - 1) + d);
    }
  }

  lemma {:induction false} ZeroInFront(d: string)
    requires AllDigits(d)
    ensures AllDigits("0" + d) && NatValue("0" + d) == NatValue(d)
  {
    if d == [] {
      assert "0" + d == "0" && "0"[..0] == [];
      assert NatValue("0") == 10 * NatValue([]) + DigitValue('0');
    } else {
      var front := d[..|d| - 1];
      assert ("0" + d)[..|d|] == "0" + front;
      ZeroInFront(front);
    }
  }

  lemma {:induction false} DigitCount(n: nat, k: nat)
    requires k >= 1 && n < Ten(k)
    ensures |NatText(n)| <= k
    decreases k
  {
    if n >= 10 {
      assert Ten(k) == 10 * Ten(k - 1);
      DigitCount(n / 10, k - 1);
    }
  }

  function Ten(k: nat): nat
  {
    if k == 0 then 1 else 10 * Ten(k - 1)
  }

  // Whole part, point and six decimals of the nearest millionth.
  lemma FloatTextIs(f: real) returns (whole: nat, decimals: string)
    ensures |decimals| == 6 && AllDigits(decimals)
    ensures FloatText(f) == (if f < 0.0 then "-" else "") + NatText(whole) + "." + decimals
    ensures var millionths := (1000000 * whole + NatValue(decimals)) as real;
      millionths - 0.5 <= Magnitude(f) * 1000000.0 < millionths + 0.5
  {
    hide NatText, NatValue, Zeros, Ten;
    var scaled := (Magnitude(f) * 1000000.0 + 0.5).Floor;
    var digits := NatText(scaled % 1000000);
    whole, decimals := scaled / 1000000, Zeros(6 - |digits|) + digits;
    TenSix();
    DigitCount(scaled % 1000000, 6);
    ZerosValue(6 - |digits|, digits);
    NatRoundTrip(scaled % 1000000);
    Nearest(Magnitude(f) * 1000000.0);
    assert FloatText(f) == (if f < 0.0 then "-" else "") + NatText(whole) + "." + Zeros(6 - |digits|) + digits;
  }

  lemma Nearest(x: real)
    ensures var n := (x + 0.5).Floor; n as real - 0.5 <= x < n as real + 0.5
  {
  }

  lemma TenSix()
    ensures Ten(6) == 1000000
  {
    assert Ten(3) == 1000;
    assert Ten(6) == 10 * 10 * 10 * Ten(3);
  }

  // Equal texts are of numbers of one sign, at most a millionth apart.
  lemma FloatTextNear(f: real, g: real)
    requires FloatText(f) == FloatText(g)
    ensures (f < 0.0 <==> g < 0.0) && Magnitude(f - g) <= 0.000001
  {
    var w, d := FloatTextIs(f);
    var v, e := FloatTextIs(g);
    SameNumbers(f < 0.0, w, d, g < 0.0, v, e);
  }

  lemma SameNumbers(s: bool, w: nat, d: string, t: bool, v: nat, e: string)
    requires |d| == |e| == 6 && AllDigits(d) && AllDigits(e)
    requires (if s then "-" else "") + NatText(w) + "." + d == (if t then "-" else "") + NatText(v) + "." + e
    ensures s == t && w == v && d == e
  {
    hide NatText;
    var a, b := (if s then "-" else "") + NatText(w), (if t then "-" else "") + NatText(v);
    assert (a + "." + d)[0] == a[0] && (b + "." + e)[0] == b[0];
    assert s <==> a[0] == '-';
    assert t <==> b[0] == '-';
    assert |a| == |b|;
    assert a == (a + "." + d)[..|a|] && b == (b + "." + e)[..|b|];
    assert d == (a + "." + d)[|a| + 1..] && e == (b + "." + e)[|b| + 1..];
    if s {
      assert NatText(w) == a[1..] && NatText(v) == b[1..];
    } else {
      assert NatText(w) == a && NatText(v) == b;
    }
    NatRoundTrip(w);
    NatRoundTrip(v);
  }

  // So Floats more than a millionth apart are keyed apart.
  lemma FarFloatsKeyedApart(f: real, g: real)
    requires Magnitude(f - g) > 0.000001
    ensures LiteralText(Ast.Float(f)) != LiteralText(Ast.Float(g))
  {
    if FloatText(f) == FloatText(g) {
      FloatTextNear(f, g);
    }
  }
}
