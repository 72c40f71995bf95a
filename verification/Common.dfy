// Shared vocabulary: optional values, results, and facts about sequences
// read as bags.
module Wrappers {
  datatype Option<+T> = None | Some(value: T)

  datatype Result<+T> = Ok(value: T) | Err(error: string)
}

// Sequences as bags: what filtering, concatenating and pairing do to the
// number of times an element occurs.
module Bags {
  function Filter<T>(keep: T -> bool, s: seq<T>): seq<T>
  {
    if s == [] then []
    else (if keep(s[0]) then [s[0]] else []) + Filter(keep, s[1..])
  }

  function Concat<T>(parts: seq<seq<T>>): seq<T>
  {
    if parts == [] then [] else Concat(parts[..|parts| - 1]) + parts[|parts| - 1]
  }

  lemma {:induction false} FilterAppend<T>(keep: T -> bool, a: seq<T>, b: seq<T>)
    ensures Filter(keep, a + b) == Filter(keep, a) + Filter(keep, b)
  {
    if a == [] {
      assert a + b == b;
    } else {
      var head := if keep(a[0]) then [a[0]] else [];
      assert (a + b)[0] == a[0] && (a + b)[1..] == a[1..] + b;
      FilterAppend(keep, a[1..], b);
      assert Filter(keep, a + b) == head + Filter(keep, a[1..] + b);
      assert head + (Filter(keep, a[1..]) + Filter(keep, b)) == (head + Filter(keep, a[1..])) + Filter(keep, b);
    }
  }

  // Filtering keeps every copy of an element that passes and none of one that fails.
  lemma {:induction false} FilterCount<T>(keep: T -> bool, s: seq<T>, x: T)
    ensures multiset(Filter(keep, s))[x] == if keep(x) then multiset(s)[x] else 0
  {
    if s != [] {
      FilterCount(keep, s[1..], x);
      assert s == [s[0]] + s[1..];
      assert multiset(s) == multiset([s[0]]) + multiset(s[1..]);
    }
  }

  lemma {:induction false} FilterMembers<T>(keep: T -> bool, s: seq<T>)
    ensures forall x :: x in Filter(keep, s) <==> x in s && keep(x)
  {
    if s != [] {
      FilterMembers(keep, s[1..]);
      assert s == [s[0]] + s[1..];
    }
  }

  lemma FilterStep<T>(keep: T -> bool, s: seq<T>)
    requires s != []
    ensures keep(s[0]) ==>
      Filter(keep, s) == [s[0]] + Filter(keep, s[1..]) && Filter(keep, s)[1..] == Filter(keep, s[1..])
    ensures !keep(s[0]) ==> Filter(keep, s) == Filter(keep, s[1..])
  {
  }

  // Filtering by what all pass, or none.
  lemma {:induction false} AllPass<T>(p: T -> bool, s: seq<T>)
    requires forall x :: x in s ==> p(x)
    ensures Filter(p, s) == s
  {
    if s != [] {
      AllPass(p, s[1..]);
    }
  }

  lemma {:induction false} NonePass<T>(p: T -> bool, s: seq<T>)
    requires forall x :: x in s ==> !p(x)
    ensures Filter(p, s) == []
  {
    if s != [] {
      NonePass(p, s[1..]);
    }
  }

  // No element occurs twice.
  ghost predicate NoRepeats<T>(s: seq<T>)
  {
    forall i, j :: 0 <= i < j < |s| ==> s[i] != s[j]
  }

  // Permutations have the same elements.
  lemma SameElements<T>(a: seq<T>, b: seq<T>)
    requires multiset(a) == multiset(b)
    ensures forall x :: x in a <==> x in b
    ensures forall i :: 0 <= i < |a| ==> a[i] in b
  {
    forall x ensures x in a <==> x in b {
      assert x in a <==> x in multiset(a);
      assert x in b <==> x in multiset(b);
    }
  }

  lemma {:induction false} FilterCongruence<T>(p: T -> bool, q: T -> bool, s: seq<T>)
    requires forall x :: x in s ==> p(x) == q(x)
    ensures Filter(p, s) == Filter(q, s)
  {
    if s != [] {
      FilterCongruence(p, q, s[1..]);
    }
  }

  lemma {:induction false} FilterTwice<T>(p: T -> bool, q: T -> bool, both: T -> bool, s: seq<T>)
    requires forall x :: x in s ==> both(x) == (p(x) && q(x))
    ensures Filter(q, Filter(p, s)) == Filter(both, s)
  {
    if s != [] {
      FilterTwice(p, q, both, s[1..]);
      FilterAppend(q, if p(s[0]) then [s[0]] else [], Filter(p, s[1..]));
    }
  }

  lemma {:induction false} ConcatMembers<T>(parts: seq<seq<T>>)
    ensures forall x :: x in Concat(parts) <==> exists i :: 0 <= i < |parts| && x in parts[i]
  {
    if parts != [] {
      var front, last := parts[..|parts| - 1], parts[|parts| - 1];
      ConcatMembers(front);
      assert forall i :: 0 <= i < |front| ==> parts[i] == front[i];
      assert parts[|front|] == last;
    }
  }

  // How often x occurs in all the parts together.
  function PartCount<T(==)>(parts: seq<seq<T>>, x: T): nat
  {
    if parts == [] then 0 else PartCount(parts[..|parts| - 1], x) + multiset(parts[|parts| - 1])[x]
  }

  lemma {:induction false} ConcatCount<T>(parts: seq<seq<T>>, x: T)
    ensures multiset(Concat(parts))[x] == PartCount(parts, x)
  {
    if parts != [] {
      var front, last := parts[..|parts| - 1], parts[|parts| - 1];
      ConcatCount(front, x);
      assert multiset(Concat(parts)) == multiset(Concat(front)) + multiset(last);
    }
  }

  lemma BagEquality<T>(a: multiset<T>, b: multiset<T>)
    requires forall x :: a[x] == b[x]
    ensures a == b
  {
  }

  // Moving one element from one bag of a sum to another.
  lemma BagMoves<T>(a: multiset<T>, x: T, from: multiset<T>, rest: multiset<T>, sum: multiset<T>)
    requires from == multiset{x} + rest && a + from == sum
    ensures (a + multiset{x}) + rest == sum
  {
    assert (a + multiset{x}) + rest == a + (multiset{x} + rest);
  }

  lemma BagGrows<T>(a: multiset<T>, b: multiset<T>, c: multiset<T>, d: multiset<T>, x: T)
    requires a + b == c + d
    ensures (a + multiset{x}) + b == c + (d + multiset{x})
  {
    assert (a + multiset{x}) + b == (a + b) + multiset{x};
    assert c + (d + multiset{x}) == (c + d) + multiset{x};
  }

  lemma BagSwap<T>(a: multiset<T>, b: multiset<T>, c: multiset<T>)
    ensures a + (b + c) == c + (b + a)
  {
  }

  lemma {:induction false} MultisetSplit<T>(s: seq<T>, i: nat)
    requires i < |s|
    ensures multiset(s) == multiset{s[i]} + multiset(s[..i] + s[i + 1..])
  {
    assert s == s[..i] + [s[i]] + s[i + 1..];
  }

  // Two sequences with the same bag of elements: the head of one can be
  // taken out of the other.
  lemma PermutationStep<T>(a: seq<T>, b: seq<T>) returns (i: nat)
    requires multiset(a) == multiset(b) && a != []
    ensures i < |b| && b[i] == a[0]
    ensures multiset(a[1..]) == multiset(b[..i] + b[i + 1..])
  {
    assert a[0] in multiset(a);
    assert a[0] in b;
    i :| 0 <= i < |b| && b[i] == a[0];
    MultisetSplit(b, i);
    assert a == [a[0]] + a[1..];
    assert multiset(a[1..]) == multiset(a) - multiset{a[0]};
    assert multiset(b[..i] + b[i + 1..]) == multiset(b) - multiset{b[i]};
  }
}

// Index sequences: picking elements of a sequence by position.
module Indexing {
  import opened Bags

  ghost predicate Within(order: seq<nat>, n: nat)
  {
    forall i :: 0 <= i < |order| ==> order[i] < n
  }

  ghost function Gather<T>(s: seq<T>, order: seq<nat>): seq<T>
    requires Within(order, |s|)
  {
    seq(|order|, i requires 0 <= i < |order| => s[order[i]])
  }

  ghost function Elements(s: seq<nat>): (e: set<nat>)
    ensures forall x :: x in e <==> x in s
    ensures NoRepeats(s) ==> |e| == |s|
  {
    if s == [] then {}
    else
      var front, last := s[..|s| - 1], s[|s| - 1];
      assert s == front + [last];
      Elements(front) + {last}
  }

  ghost function Below(n: nat): (e: set<nat>)
    ensures |e| == n && forall i: nat :: i in e <==> i < n
  {
    if n == 0 then {} else Below(n - 1) + {n - 1}
  }

  // Distinct positions below n are all of them exactly when there are n.
  lemma Pigeonhole(s: seq<nat>, n: nat)
    requires NoRepeats(s) && Within(s, n)
    ensures (forall i: nat :: i < n ==> i in s) <==> |s| == n
  {
    var a, b := Elements(s), Below(n);
    assert a <= b;
    if |s| == n {
      SubsetOfSameSize(a, b);
    }
    if forall i: nat :: i < n ==> i in s {
      assert a == b;
    }
  }

  lemma SubsetOfSameSize(a: set<nat>, b: set<nat>)
    requires a <= b && |a| == |b|
    ensures a == b
  {
    assert b == a + (b - a);
    assert |b| == |a| + |b - a|;
  }

  // Picking every position once, in any order, permutes the sequence.
  lemma {:induction false} GatherPermutes<T>(s: seq<T>, order: seq<nat>)
    requires NoRepeats(order) && Within(order, |s|) && |order| == |s|
    ensures multiset(Gather(s, order)) == multiset(s)
  {
    if s != [] {
      var n := |s| - 1;
      Pigeonhole(order, |s|);
      assert n in order;
      var j :| 0 <= j < |order| && order[j] == n;
      var rest := order[..j] + order[j + 1..];
      WithoutPosition(order, j, n);
      GatherPermutes(s[..n], rest);
      MultisetSplit(Gather(s, order), j);
      GatherWithout(s, order, j);
      MultisetSplit(s, n);
      assert s[..n] + s[n + 1..] == s[..n];
    }
  }

  lemma GatherWithout<T>(s: seq<T>, order: seq<nat>, j: nat)
    requires |s| > 0 && Within(order, |s|) && j < |order| && Within(order[..j] + order[j + 1..], |s| - 1)
    ensures Gather(s, order)[..j] + Gather(s, order)[j + 1..] == Gather(s[..|s| - 1], order[..j] + order[j + 1..])
  {
    var a, b := Gather(s, order)[..j] + Gather(s, order)[j + 1..], Gather(s[..|s| - 1], order[..j] + order[j + 1..]);
    assert |a| == |b|;
    forall i | 0 <= i < |a| ensures a[i] == b[i] {
      assert (order[..j] + order[j + 1..])[i] == order[if i < j then i else i + 1];
    }
  }

  lemma WithoutPosition(order: seq<nat>, j: nat, n: nat)
    requires j < |order| && NoRepeats(order) && Within(order, n + 1) && order[j] == n
    ensures NoRepeats(order[..j] + order[j + 1..]) && Within(order[..j] + order[j + 1..], n)
  {
    var rest := order[..j] + order[j + 1..];
    assert forall i :: 0 <= i < |rest| ==> rest[i] == order[if i < j then i else i + 1];
  }
}

// Decimal text of integers.
module Decimal {
  import opened Wrappers

  function Digit(d: nat): char
    requires d < 10
  {
    "0123456789"[d]
  }

  predicate IsDigit(c: char)
  {
    '0' <= c <= '9'
  }

  function DigitValue(c: char): nat
    requires IsDigit(c)
  {
    c as int - '0' as int
  }

  // std::to_string / strconv.Itoa on a non-negative integer.
  function NatText(n: nat): (s: string)
    ensures |s| > 0 && forall i :: 0 <= i < |s| ==> IsDigit(s[i])
  {
    if n < 10 then [Digit(n)] else NatText(n / 10) + [Digit(n % 10)]
  }

  function IntText(n: int): (s: string)
    ensures |s| > 0
  {
    if n < 0 then "-" + NatText(-n) else NatText(n)
  }

  predicate AllDigits(s: string)
  {
    forall i :: 0 <= i < |s| ==> IsDigit(s[i])
  }

  function NatValue(s: string): nat
    requires AllDigits(s)
  {
    if s == [] then 0 else 10 * NatValue(s[..|s| - 1]) + DigitValue(s[|s| - 1])
  }

  // std::isspace
  predicate IsSpace(c: char)
  {
    c == ' ' || 9 <= c as int <= 13
  }

  function SkipSpace(s: string): (r: string)
    ensures |r| <= |s| && (r == [] || !IsSpace(r[0]))
  {
    if s != [] && IsSpace(s[0]) then SkipSpace(s[1..]) else s
  }

  // How many digits the text begins with.
  function DigitLength(s: string): (n: nat)
    ensures n <= |s| && AllDigits(s[..n])
  {
    if s == [] || !IsDigit(s[0]) then 0
    else
      var n := DigitLength(s[1..]);
      assert s[..n + 1] == [s[0]] + s[1..][..n];
      n + 1
  }

  lemma {:induction false} DigitLengthOf(d: string, rest: string)
    requires AllDigits(d) && (rest == [] || !IsDigit(rest[0]))
    ensures DigitLength(d + rest) == |d|
  {
    if d == [] {
      assert d + rest == rest;
    } else {
      assert (d + rest)[0] == d[0] && (d + rest)[1..] == d[1..] + rest;
      DigitLengthOf(d[1..], rest);
    }
  }

  // strconv.ParseInt restricted to an optional sign and at least one digit.
  function IntValue(s: string): Option<int>
  {
    if s != [] && AllDigits(s) then Some(NatValue(s) as int)
    else if |s| > 1 && s[0] == '-' && AllDigits(s[1..]) then Some(-(NatValue(s[1..]) as int))
    else if |s| > 1 && s[0] == '+' && AllDigits(s[1..]) then Some(NatValue(s[1..]) as int)
    else None
  }

  const MIN_INT64 := -0x8000_0000_0000_0000
  const MAX_INT64 := 0x7fff_ffff_ffff_ffff

  // strconv.ParseInt(s, 10, 64)
  function ParseInt64(s: string): Option<int>
  {
    var n := IntValue(s);
    if n.Some? && MIN_INT64 <= n.value <= MAX_INT64 then n else None
  }

  // int64 arithmetic wraps around.
  function WrapInt64(n: int): int
  {
    (n - MIN_INT64) % 0x1_0000_0000_0000_0000 + MIN_INT64
  }

  lemma {:induction false} NatRoundTrip(n: nat)
    ensures NatValue(NatText(n)) == n
  {
    if n >= 10 {
      NatRoundTrip(n / 10);
      assert NatText(n)[..|NatText(n)| - 1] == NatText(n / 10);
    }
  }

  lemma IntRoundTrip(n: int)
    ensures IntValue(IntText(n)) == Some(n)
  {
    hide NatText, NatValue;
    if n < 0 {
      NatRoundTrip(-n);
      assert !IsDigit(IntText(n)[0]);
      assert IntText(n)[1..] == NatText(-n);
    } else {
      NatRoundTrip(n);
    }
  }

  lemma IntTextInjective(a: int, b: int)
    requires IntText(a) == IntText(b)
    ensures a == b
  {
    IntRoundTrip(a);
    IntRoundTrip(b);
  }
}
