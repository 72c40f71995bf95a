// HashAggregateExec (execution/operators.cpp) and the coordinator's merge of
// per-worker partial aggregates (distributed/coordinator.cpp).
module Grouping {
  import opened Bags

  // The distinct elements in the order of their first occurrence.
  function FirstSeen(s: seq<string>): (r: seq<string>)
    ensures forall x :: x in r <==> x in s
  {
    if s == [] then []
    else
      var front, last := s[..|s| - 1], s[|s| - 1];
      assert s == front + [last];
      if last in front then FirstSeen(front) else FirstSeen(front) + [last]
  }

  lemma {:induction false} FirstSeenDistinct(s: seq<string>)
    ensures NoRepeats(FirstSeen(s))
  {
    if s != [] {
      FirstSeenDistinct(s[..|s| - 1]);
    }
  }

  function New(a: seq<string>): string -> bool
  {
    x => x !in a
  }

  lemma {:induction false} FirstSeenAppend(a: seq<string>, b: seq<string>)
    ensures FirstSeen(a + b) == FirstSeen(a) + Filter(New(a), FirstSeen(b))
  {
    if b == [] {
      assert a + b == a;
    } else {
      var front, last := b[..|b| - 1], b[|b| - 1];
      assert b == front + [last];
      assert (a + b)[..|a + b| - 1] == a + front && (a + b)[|a + b| - 1] == last;
      FirstSeenAppend(a, front);
      FilterAppend(New(a), FirstSeen(front), [last]);
      assert Filter(New(a), [last]) == if last in a then [] else [last];
      assert FirstSeen(b) == if last in front then FirstSeen(front) else FirstSeen(front) + [last];
    }
  }

  lemma {:induction false} FirstSeenFixed(s: seq<string>)
    requires NoRepeats(s)
    ensures FirstSeen(s) == s
  {
    if s != [] {
      FirstSeenFixed(s[..|s| - 1]);
      assert s == s[..|s| - 1] + [s[|s| - 1]];
    }
  }

  // Summarising the second part first changes nothing.
  lemma FirstSeenSummary(a: seq<string>, b: seq<string>)
    ensures FirstSeen(a + FirstSeen(b)) == FirstSeen(a + b)
  {
    FirstSeenAppend(a, b);
    FirstSeenAppend(a, FirstSeen(b));
    FirstSeenDistinct(b);
    FirstSeenFixed(FirstSeen(b));
  }

  lemma FirstSeenCongruence(a: seq<string>, a': seq<string>, b: seq<string>)
    requires FirstSeen(a) == FirstSeen(a')
    ensures FirstSeen(a + b) == FirstSeen(a' + b)
  {
    FirstSeenAppend(a, b);
    FirstSeenAppend(a', b);
    assert forall x :: x in a <==> x in FirstSeen(a);
    assert forall x :: x in a' <==> x in FirstSeen(a');
    FilterCongruence(New(a), New(a'), FirstSeen(b));
  }

  lemma FirstSeenApart(a: seq<string>, b: seq<string>)
    requires forall x :: x in b ==> x !in a
    ensures FirstSeen(a + b) == FirstSeen(a) + FirstSeen(b)
  {
    FirstSeenAppend(a, b);
    AllPass(New(a), FirstSeen(b));
  }

  // Two duplicate-free sequences of the same elements are permutations.
  lemma {:induction false} DistinctCount(s: seq<string>, x: string)
    requires NoRepeats(s)
    ensures multiset(s)[x] == if x in s then 1 else 0
  {
    if s != [] {
      DistinctCount(s[1..], x);
      assert s == [s[0]] + s[1..];
      assert s[0] !in s[1..];
    }
  }

  // ---- Elements grouped by a text ----

  function Texts<T>(text: T -> string, rows: seq<T>): seq<string>
  {
    seq(|rows|, i requires 0 <= i < |rows| => text(rows[i]))
  }

  function InGroup<T>(text: T -> string, k: string): T -> bool
  {
    row => text(row) == k
  }

  function Group<T>(text: T -> string, k: string, rows: seq<T>): seq<T>
  {
    Filter(InGroup(text, k), rows)
  }

  function Keys<T>(text: T -> string, rows: seq<T>): seq<string>
  {
    FirstSeen(Texts(text, rows))
  }

  lemma GroupAppend<T>(text: T -> string, a: seq<T>, b: seq<T>, k: string)
    ensures Group(text, k, a + b) == Group(text, k, a) + Group(text, k, b)
    ensures Texts(text, a + b) == Texts(text, a) + Texts(text, b)
  {
    FilterAppend(InGroup(text, k), a, b);
  }

  lemma GroupSnoc<T>(text: T -> string, rows: seq<T>, row: T, k: string)
    ensures Group(text, k, rows + [row]) == Group(text, k, rows) + (if text(row) == k then [row] else [])
    ensures Texts(text, rows + [row]) == Texts(text, rows) + [text(row)]
  {
    GroupAppend(text, rows, [row], k);
    assert Filter(InGroup(text, k), [row]) == if text(row) == k then [row] else [];
  }

  lemma KeysSnoc<T>(text: T -> string, rows: seq<T>, row: T)
    ensures Keys(text, rows + [row]) == if text(row) in Texts(text, rows) then Keys(text, rows)
      else Keys(text, rows) + [text(row)]
  {
    GroupSnoc(text, rows, row, "");
    var texts := Texts(text, rows);
    assert (texts + [text(row)])[..|texts|] == texts;
  }

  lemma {:induction false} NoGroup<T>(text: T -> string, rows: seq<T>, k: string)
    ensures Group(text, k, rows) == [] <==> k !in Texts(text, rows)
  {
    if rows == [] {
      assert Texts(text, rows) == [];
    } else {
      var front, last := rows[..|rows| - 1], rows[|rows| - 1];
      assert rows == front + [last];
      NoGroup(text, front, k);
      GroupSnoc(text, front, last, k);
    }
  }

  // When no two rows share a text, each is a group of its own.
  lemma {:induction false} GroupOfOne<T>(text: T -> string, rows: seq<T>, i: nat)
    requires NoRepeats(Texts(text, rows)) && i < |rows|
    ensures Group(text, text(rows[i]), rows) == [rows[i]]
  {
    var k, before, after := text(rows[i]), rows[..i], rows[i + 1..];
    assert rows == before + [rows[i]] + after;
    GroupAppend(text, before + [rows[i]], after, k);
    GroupSnoc(text, before, rows[i], k);
    forall j | 0 <= j < |rows| && j != i ensures text(rows[j]) != k {
      assert Texts(text, rows)[j] != Texts(text, rows)[i];
    }
    NonePass(InGroup(text, k), before);
    NonePass(InGroup(text, k), after);
  }
}

module Aggregation {
  import opened Wrappers
  import opened Ast
  import opened Values
  import opened Evaluation
  import opened Bags
  import opened Relational
  import opened Grouping

  datatype Func = Count | Sum | Avg | Min | Max

  datatype Agg = Agg(func: Func, arg: Expr)

  const SEPARATOR := '\U{1f}'

  // literal_to_string of every column, each followed by the separator.
  function KeyText(key: Row): string
  {
    if key == [] then "" else LiteralText(key[0]) + [SEPARATOR] + KeyText(key[1..])
  }

  // An evaluation that throws has no value; see Aggregable.
  function ValueOf(e: Expr, schema: Schema, row: Row): Literal
  {
    var v := Evaluate(e, FlatLook(schema, row));
    if v.Some? then v.value else Null
  }

  datatype GroupBy = GroupBy(group_by: seq<Expr>, schema: Schema) {
    function Key(row: Row): Row
    {
      seq(|group_by|, i requires 0 <= i < |group_by| => ValueOf(group_by[i], schema, row))
    }

    function Text(row: Row): string
    {
      KeyText(Key(row))
    }
  }

  // The value an aggregate sees in a row; COUNT(*) sees something in each.
  function ArgOf(a: Agg, schema: Schema, row: Row): Literal
  {
    if a.func == Count && a.arg == Wildcard then Boolean(true) else ValueOf(a.arg, schema, row)
  }

  function Args(a: Agg, schema: Schema, rows: seq<Row>): seq<Literal>
  {
    seq(|rows|, i requires 0 <= i < |rows| => ArgOf(a, schema, rows[i]))
  }

  datatype Acc = Acc(sum: real, count: nat, min: Option<Literal>, max: Option<Literal>)

  const ZERO := Acc(0.0, 0, None, None)

  predicate Less(a: Literal, b: Literal)
  {
    LiteralLess(a, b) == Some(true)
  }

  function Number(v: Literal): real
  {
    if IsNumeric(v) then AsReal(v) else 0.0
  }

  // One value added to an accumulator.
  function Step(f: Func, acc: Acc, v: Literal): Acc
  {
    if v.Null? then acc else
    match f
    case Count => acc.(count := acc.count + 1)
    case Min => if acc.min.None? || Less(v, acc.min.value) then acc.(min := Some(v)) else acc
    case Max => if acc.max.None? || Less(acc.max.value, v) then acc.(max := Some(v)) else acc
    case _ => acc.(sum := acc.sum + Number(v), count := acc.count + 1)
  }

  function Fold(f: Func, vs: seq<Literal>): Acc
  {
    if vs == [] then ZERO else Step(f, Fold(f, vs[..|vs| - 1]), vs[|vs| - 1])
  }

  function OrNull(v: Option<Literal>): Literal
  {
    if v.Some? then v.value else Null
  }

  function Final(f: Func, acc: Acc): Literal
  {
    match f
    case Count => Integer(acc.count)
    case Sum => Float(acc.sum)
    case Avg => Float(if acc.count > 0 then acc.sum / acc.count as real else 0.0)
    case Min => OrNull(acc.min)
    case Max => OrNull(acc.max)
  }

  // ---- What the accumulated values mean ----

  predicate AllNumeric(vs: seq<Literal>)
  {
    forall v :: v in vs ==> v.Null? || IsNumeric(v)
  }

  predicate AllText(vs: seq<Literal>)
  {
    forall v :: v in vs ==> v.Null? || v.Str?
  }

  // Values literal_less can order, or one value only, beside NULLs.
  predicate Orderable(vs: seq<Literal>)
  {
    || AllNumeric(vs) || AllText(vs)
    || (forall v, w :: v in vs && w in vs && !v.Null? && !w.Null? ==> v == w)
  }

  predicate Fits(f: Func, vs: seq<Literal>)
  {
    f == Min || f == Max ==> Orderable(vs)
  }

  function NonNulls(vs: seq<Literal>): seq<Literal>
  {
    Filter((v: Literal) => !v.Null?, vs)
  }

  function Total(vs: seq<Literal>): real
  {
    if vs == [] then 0.0 else Number(vs[0]) + Total(vs[1..])
  }

  lemma {:induction false} TotalAppend(a: seq<Literal>, b: seq<Literal>)
    ensures Total(a + b) == Total(a) + Total(b)
  {
    if a == [] {
      assert a + b == b;
    } else {
      assert (a + b)[0] == a[0] && (a + b)[1..] == a[1..] + b;
      TotalAppend(a[1..], b);
    }
  }

  // No value comes before the least one, and the least one is among them.
  ghost predicate IsLeast(m: Option<Literal>, vs: seq<Literal>)
  {
    if m.None? then forall v :: v in vs ==> v.Null?
    else m.value in vs && !m.value.Null? && forall v :: v in vs && !v.Null? ==> !Less(v, m.value)
  }

  ghost predicate IsGreatest(m: Option<Literal>, vs: seq<Literal>)
  {
    if m.None? then forall v :: v in vs ==> v.Null?
    else m.value in vs && !m.value.Null? && forall v :: v in vs && !v.Null? ==> !Less(m.value, v)
  }

  // !Less is transitive on values of one kind.
  lemma LessWeakOrder(a: Literal, b: Literal, c: Literal)
    requires Orderable([a, b, c]) && !a.Null? && !b.Null? && !c.Null?
    ensures !Less(a, b) && !Less(b, c) ==> !Less(a, c)
    ensures Less(a, b) ==> !Less(b, a)
  {
    assert a in [a, b, c] && b in [a, b, c] && c in [a, b, c];
    if a.Str? {
      LexLessTotal(a.str_val, b.str_val);
      LexLessTotal(b.str_val, c.str_val);
      LexLessTotal(a.str_val, c.str_val);
      if LexLess(a.str_val, c.str_val) {
        if LexLess(b.str_val, a.str_val) { LexLessTransitive(b.str_val, a.str_val, c.str_val); }
        if LexLess(c.str_val, b.str_val) { LexLessTransitive(a.str_val, c.str_val, b.str_val); }
      }
    }
  }

  lemma WeakOrder(vs: seq<Literal>, a: Literal, b: Literal, c: Literal)
    requires Orderable(vs) && a in vs && b in vs && c in vs && !a.Null? && !b.Null? && !c.Null?
    ensures !Less(a, b) && !Less(b, c) ==> !Less(a, c)
    ensures Less(a, b) ==> !Less(b, a)
  {
    assert Orderable([a, b, c]);
    LessWeakOrder(a, b, c);
  }

  // COUNT counts the values, SUM adds them, MIN and MAX pick extreme ones.
  lemma {:induction false} FoldMeaning(f: Func, vs: seq<Literal>)
    requires Fits(f, vs)
    ensures f in {Count, Sum, Avg} ==> Fold(f, vs).count == |NonNulls(vs)|
    ensures f in {Sum, Avg} ==> Fold(f, vs).sum == Total(NonNulls(vs))
    ensures f == Min ==> IsLeast(Fold(f, vs).min, vs)
    ensures f == Max ==> IsGreatest(Fold(f, vs).max, vs)
  {
    if vs != [] {
      var front, v := vs[..|vs| - 1], vs[|vs| - 1];
      assert vs == front + [v];
      FoldMeaning(f, front);
      FilterAppend((v: Literal) => !v.Null?, front, [v]);
      TotalAppend(NonNulls(front), NonNulls([v]));
      assert NonNulls([v]) == if v.Null? then [] else [v];
      assert !v.Null? ==> Total([v]) == Number(v) + Total([]);
      if f == Min {
        LeastGrows(Fold(f, front).min, front, v);
      }
      if f == Max {
        GreatestGrows(Fold(f, front).max, front, v);
      }
    }
  }

  lemma LeastGrows(m: Option<Literal>, front: seq<Literal>, v: Literal)
    requires Orderable(front + [v]) && IsLeast(m, front)
    ensures IsLeast(if v.Null? || (m.Some? && !Less(v, m.value)) then m else Some(v), front + [v])
  {
    var vs := front + [v];
    if m.None? || Less(v, m.value) {
      forall w | w in vs && !w.Null? && !v.Null? ensures !Less(w, v) {
        WeakOrder(vs, v, w, w);
        WeakOrder(vs, w, v, w);
        if m.Some? && w in front {
          WeakOrder(vs, v, w, m.value);
        }
      }
    }
  }

  lemma GreatestGrows(m: Option<Literal>, front: seq<Literal>, v: Literal)
    requires Orderable(front + [v]) && IsGreatest(m, front)
    ensures IsGreatest(if v.Null? || (m.Some? && !Less(m.value, v)) then m else Some(v), front + [v])
  {
    var vs := front + [v];
    if m.None? || Less(m.value, v) {
      forall w | w in vs && !w.Null? && !v.Null? ensures !Less(v, w) {
        WeakOrder(vs, v, w, w);
        WeakOrder(vs, w, v, w);
        if m.Some? && w in front {
          WeakOrder(vs, m.value, w, v);
        }
      }
    }
  }

  // ---- Accumulating in parts ----

  function BetterMin(x: Option<Literal>, y: Option<Literal>): Option<Literal>
  {
    if x.None? then y else if y.Some? && Less(y.value, x.value) then y else x
  }

  function BetterMax(x: Option<Literal>, y: Option<Literal>): Option<Literal>
  {
    if x.None? then y else if y.Some? && Less(x.value, y.value) then y else x
  }

  function Combine(x: Acc, y: Acc): Acc
  {
    Acc(x.sum + y.sum, x.count + y.count, BetterMin(x.min, y.min), BetterMax(x.max, y.max))
  }

  ghost predicate Held(v: Option<Literal>, vs: seq<Literal>)
  {
    v.Some? ==> v.value in vs && !v.value.Null?
  }

  lemma {:induction false} FoldHolds(f: Func, vs: seq<Literal>)
    ensures Held(Fold(f, vs).min, vs) && Held(Fold(f, vs).max, vs)
    ensures f != Min ==> Fold(f, vs).min == None
    ensures f != Max ==> Fold(f, vs).max == None
  {
    if vs != [] {
      FoldHolds(f, vs[..|vs| - 1]);
      assert vs == vs[..|vs| - 1] + [vs[|vs| - 1]];
    }
  }

  lemma StepCombine(f: Func, vs: seq<Literal>, x: Acc, y: Acc, v: Literal)
    requires Fits(f, vs) && v in vs && Held(x.min, vs) && Held(x.max, vs) && Held(y.min, vs) && Held(y.max, vs)
    ensures Combine(x, Step(f, y, v)) == Step(f, Combine(x, y), v)
  {
    if f == Min && !v.Null? && x.min.Some? && y.min.Some? {
      WeakOrder(vs, v, y.min.value, x.min.value);
      WeakOrder(vs, y.min.value, v, x.min.value);
      WeakOrder(vs, y.min.value, x.min.value, v);
      WeakOrder(vs, v, x.min.value, y.min.value);
    }
    if f == Max && !v.Null? && x.max.Some? && y.max.Some? {
      WeakOrder(vs, x.max.value, y.max.value, v);
      WeakOrder(vs, x.max.value, v, y.max.value);
      WeakOrder(vs, y.max.value, x.max.value, v);
      WeakOrder(vs, v, x.max.value, y.max.value);
      WeakOrder(vs, v, y.max.value, x.max.value);
    }
  }

  lemma FitsParts(f: Func, a: seq<Literal>, b: seq<Literal>)
    requires Fits(f, a + b)
    ensures Fits(f, a) && Fits(f, b)
  {
    assert forall v :: v in a || v in b ==> v in a + b;
  }

  lemma FoldsHeld(f: Func, a: seq<Literal>, b: seq<Literal>)
    ensures Held(Fold(f, a).min, a + b) && Held(Fold(f, a).max, a + b)
    ensures Held(Fold(f, b).min, a + b) && Held(Fold(f, b).max, a + b)
  {
    FoldHolds(f, a);
    FoldHolds(f, b);
  }

  lemma FoldSnoc(f: Func, vs: seq<Literal>, v: Literal)
    ensures Fold(f, vs + [v]) == Step(f, Fold(f, vs), v)
  {
    assert (vs + [v])[..|vs + [v]| - 1] == vs;
  }

  lemma {:induction false} FoldAppend(f: Func, a: seq<Literal>, b: seq<Literal>)
    requires Fits(f, a + b)
    ensures Fold(f, a + b) == Combine(Fold(f, a), Fold(f, b))
  {
    if b == [] {
      assert a + b == a;
    } else {
      hide *;
      var front, v := b[..|b| - 1], b[|b| - 1];
      var all := a + front;
      assert a + b == all + [v] && b == front + [v];
      FitsParts(f, all, [v]);
      FoldAppend(f, a, front);
      FoldsHeld(f, a, front);
      HeldMore(Fold(f, a), all, v);
      HeldMore(Fold(f, front), all, v);
      StepCombine(f, all + [v], Fold(f, a), Fold(f, front), v);
      FoldSnoc(f, all, v);
      FoldSnoc(f, front, v);
    }
  }

  lemma HeldMore(x: Acc, vs: seq<Literal>, v: Literal)
    requires Held(x.min, vs) && Held(x.max, vs)
    ensures Held(x.min, vs + [v]) && Held(x.max, vs + [v])
  {
  }

  // ---- Accumulating in another order ----

  // No two different values rank the same, as an Integer and an equal Float do.
  predicate NoTies(vs: seq<Literal>)
  {
    forall v, w :: v in vs && w in vs && !v.Null? && !w.Null? && !Less(v, w) && !Less(w, v) ==> v == w
  }

  predicate FitsAnyOrder(f: Func, vs: seq<Literal>)
  {
    f == Min || f == Max ==> Orderable(vs) && NoTies(vs)
  }

  lemma StepsCommute(f: Func, vs: seq<Literal>, x: Acc, v: Literal, w: Literal)
    requires FitsAnyOrder(f, vs) && v in vs && w in vs && Held(x.min, vs) && Held(x.max, vs)
    ensures Step(f, Step(f, x, v), w) == Step(f, Step(f, x, w), v)
  {
    if f in {Min, Max} && !v.Null? && !w.Null? {
      WeakOrder(vs, v, w, v);
      WeakOrder(vs, w, v, w);
      if f == Min && x.min.Some? {
        WeakOrder(vs, v, x.min.value, w);
        WeakOrder(vs, w, x.min.value, v);
        WeakOrder(vs, v, w, x.min.value);
        WeakOrder(vs, w, v, x.min.value);
      }
      if f == Max && x.max.Some? {
        WeakOrder(vs, v, x.max.value, w);
        WeakOrder(vs, w, x.max.value, v);
        WeakOrder(vs, x.max.value, v, w);
        WeakOrder(vs, x.max.value, w, v);
      }
    }
  }

  lemma RestWithoutLast<T>(s: seq<T>, i: nat)
    requires i < |s| - 1
    ensures var front, rest := s[..|s| - 1], s[..i] + s[i + 1..];
      rest[..|rest| - 1] == front[..i] + front[i + 1..] && rest[|rest| - 1] == s[|s| - 1]
  {
  }

  // The last value may as well have come at position i.
  lemma {:induction false} FoldRotates(f: Func, vs: seq<Literal>, i: nat)
    requires FitsAnyOrder(f, vs) && i < |vs|
    ensures Fold(f, vs) == Step(f, Fold(f, vs[..i] + vs[i + 1..]), vs[i])
  {
    var front, v := vs[..|vs| - 1], vs[|vs| - 1];
    var rest := vs[..i] + vs[i + 1..];
    if i == |vs| - 1 {
      assert rest == front;
    } else {
      FoldRotates(f, front, i);
      var shorter := front[..i] + front[i + 1..];
      RestWithoutLast(vs, i);
      FoldHolds(f, shorter);
      assert Held(Fold(f, shorter).min, vs) && Held(Fold(f, shorter).max, vs);
      StepsCommute(f, vs, Fold(f, shorter), vs[i], v);
    }
  }

  lemma FitsPermuted(f: Func, a: seq<Literal>, b: seq<Literal>)
    requires FitsAnyOrder(f, a) && forall w :: w in b ==> w in a
    ensures FitsAnyOrder(f, b)
  {
  }

  // Taking the last element of a out of b, wherever it is there.
  lemma PermutationLast<T>(a: seq<T>, b: seq<T>) returns (i: nat)
    requires multiset(a) == multiset(b) && a != []
    ensures i < |b| && b[i] == a[|a| - 1]
    ensures multiset(a[..|a| - 1]) == multiset(b[..i] + b[i + 1..])
  {
    var front, v := a[..|a| - 1], a[|a| - 1];
    assert a == front + [v];
    assert v in multiset(a);
    i :| 0 <= i < |b| && b[i] == v;
    MultisetSplit(b, i);
    assert multiset(front) == multiset(a) - multiset{v};
    assert multiset(b[..i] + b[i + 1..]) == multiset(b) - multiset{v};
  }

  lemma {:induction false} FoldPermutes(f: Func, a: seq<Literal>, b: seq<Literal>)
    requires multiset(a) == multiset(b) && FitsAnyOrder(f, a)
    ensures Fold(f, a) == Fold(f, b)
  {
    hide *;
    if a == [] {
      assert |b| == |multiset(b)| == 0;
    } else {
      var front, v := a[..|a| - 1], a[|a| - 1];
      assert a == front + [v];
      var i := PermutationLast(a, b);
      var rest := b[..i] + b[i + 1..];
      forall w | w in b ensures w in a { assert w in multiset(b); }
      FitsPermuted(f, a, b);
      FitsPermuted(f, a, front);
      FoldRotates(f, b, i);
      FoldPermutes(f, front, rest);
      FoldSnoc(f, front, v);
    }
  }

  // ---- Grouping ----

  function Results(aggs: seq<Agg>, schema: Schema, group: seq<Row>): Row
  {
    seq(|aggs|, i requires 0 <= i < |aggs| => Final(aggs[i].func, Fold(aggs[i].func, Args(aggs[i], schema, group))))
  }

  // The output row of one group: the key of its first row, then the results.
  function AggRow(gr: GroupBy, aggs: seq<Agg>, k: string, rows: seq<Row>): Row
  {
    var group := Group(gr.Text, k, rows);
    (if group == [] then [] else gr.Key(group[0])) + Results(aggs, gr.schema, group)
  }

  function AggRows(gr: GroupBy, aggs: seq<Agg>, rows: seq<Row>): seq<Row>
  {
    var keys := Keys(gr.Text, rows);
    seq(|keys|, i requires 0 <= i < |keys| => AggRow(gr, aggs, keys[i], rows))
  }

  function EmptyResult(f: Func): Literal
  {
    if f == Count then Integer(0) else if f == Sum then Float(0.0) else Null
  }

  // Without GROUP BY there is one row even over no input.
  function HashAggregate(gr: GroupBy, aggs: seq<Agg>, rows: seq<Row>): seq<Row>
  {
    if gr.group_by == [] && rows == []
    then [seq(|aggs|, i requires 0 <= i < |aggs| => EmptyResult(aggs[i].func))]
    else AggRows(gr, aggs, rows)
  }

  // ---- The executor's loop ----

  predicate StepRuns(f: Func, acc: Acc, v: Literal)
  {
    v.Null? ||
    match f
    case Count => true
    case Min => acc.min.None? || LiteralLess(v, acc.min.value).Some?
    case Max => acc.max.None? || LiteralLess(acc.max.value, v).Some?
    case _ => IsNumeric(v)
  }

  predicate AggRuns(a: Agg, schema: Schema, acc: Acc, row: Row)
  {
    (a.func == Count && a.arg == Wildcard)
    || (Evaluate(a.arg, FlatLook(schema, row)).Some? && StepRuns(a.func, acc, ArgOf(a, schema, row)))
  }

  predicate KeyRuns(gr: GroupBy, row: Row)
  {
    forall i :: 0 <= i < |gr.group_by| ==> Evaluate(gr.group_by[i], FlatLook(gr.schema, row)).Some?
  }

  // Neither the keys nor the arguments of a row throw after the rows before it.
  predicate RowRuns(gr: GroupBy, aggs: seq<Agg>, before: seq<Row>, row: Row)
  {
    && KeyRuns(gr, row)
    && forall i :: 0 <= i < |aggs| ==>
      AggRuns(aggs[i], gr.schema, Accs(aggs, gr.schema, Group(gr.Text, gr.Text(row), before))[i], row)
  }

  predicate Aggregable(gr: GroupBy, aggs: seq<Agg>, rows: seq<Row>)
  {
    forall n :: 0 <= n < |rows| ==> RowRuns(gr, aggs, rows[..n], rows[n])
  }

  function Accs(aggs: seq<Agg>, schema: Schema, group: seq<Row>): (accs: seq<Acc>)
    ensures |accs| == |aggs|
  {
    seq(|aggs|, i requires 0 <= i < |aggs| => Fold(aggs[i].func, Args(aggs[i], schema, group)))
  }

  // ---- When a whole input runs, in whatever order ----

  // Accumulating these values, in any order, does not throw.
  predicate ValuesRun(f: Func, vs: seq<Literal>)
  {
    match f
    case Count => true
    case Min => |NonNulls(vs)| <= 1 || AllNumeric(vs) || AllText(vs)
    case Max => |NonNulls(vs)| <= 1 || AllNumeric(vs) || AllText(vs)
    case _ => AllNumeric(vs)
  }

  lemma NonNullsSnoc(vs: seq<Literal>, v: Literal)
    ensures NonNulls(vs + [v]) == NonNulls(vs) + (if v.Null? then [] else [v])
    ensures forall w :: w in NonNulls(vs) <==> w in vs && !w.Null?
  {
    var some := (v: Literal) => !v.Null?;
    FilterAppend(some, vs, [v]);
    FilterMembers(some, vs);
    assert Filter(some, [v]) == if v.Null? then [] else [v];
  }

  lemma {:induction false} BestRuns(f: Func, vs: seq<Literal>)
    requires f in {Min, Max}
    ensures var best := if f == Min then Fold(f, vs).min else Fold(f, vs).max;
      (best.None? <==> NonNulls(vs) == []) && (best.Some? ==> best.value in NonNulls(vs))
  {
    if vs != [] {
      var front, v := vs[..|vs| - 1], vs[|vs| - 1];
      assert vs == front + [v];
      BestRuns(f, front);
      NonNullsSnoc(front, v);
    }
  }

  // One more value runs after values that do exactly when all run together.
  lemma ValuesRunSnoc(f: Func, vs: seq<Literal>, v: Literal)
    ensures ValuesRun(f, vs + [v]) <==> ValuesRun(f, vs) && StepRuns(f, Fold(f, vs), v)
  {
    hide Fold;
    NonNullsSnoc(vs, v);
    var all := vs + [v];
    assert v in all && forall w :: w in vs ==> w in all;
    if f in {Min, Max} {
      BestRuns(f, vs);
      var best := if f == Min then Fold(f, vs).min else Fold(f, vs).max;
      hide NonNulls;
      if best.Some? && !v.Null? {
        assert |NonNulls(all)| >= 2 && best.value in vs && !best.value.Null?;
        assert |NonNulls(vs)| <= 1 ==> NonNulls(vs) == [best.value];
      }
    }
  }

  // Neither its keys nor its arguments throw.
  predicate RowEvaluates(gr: GroupBy, aggs: seq<Agg>, row: Row)
  {
    && KeyRuns(gr, row)
    && forall i :: 0 <= i < |aggs| ==> ArgRuns(aggs[i], gr.schema, row)
  }

  predicate ArgRuns(a: Agg, schema: Schema, row: Row)
  {
    (a.func == Count && a.arg == Wildcard) || Evaluate(a.arg, FlatLook(schema, row)).Some?
  }

  ghost predicate GroupRuns(gr: GroupBy, aggs: seq<Agg>, rows: seq<Row>, k: string)
  {
    forall i :: 0 <= i < |aggs| ==> ValuesRun(aggs[i].func, Args(aggs[i], gr.schema, Group(gr.Text, k, rows)))
  }

  ghost predicate AllRun(gr: GroupBy, aggs: seq<Agg>, rows: seq<Row>)
  {
    (forall r :: r in rows ==> RowEvaluates(gr, aggs, r)) && forall k :: GroupRuns(gr, aggs, rows, k)
  }

  lemma ArgsSnoc(a: Agg, schema: Schema, group: seq<Row>, row: Row)
    ensures Args(a, schema, group + [row]) == Args(a, schema, group) + [ArgOf(a, schema, row)]
  {
  }

  // One more row: its own group decides.
  lemma GroupRunsSnoc(gr: GroupBy, aggs: seq<Agg>, rows: seq<Row>, row: Row)
    requires RowEvaluates(gr, aggs, row) && forall k :: GroupRuns(gr, aggs, rows, k)
    ensures (forall k :: GroupRuns(gr, aggs, rows + [row], k)) <==> RowRuns(gr, aggs, rows, row)
  {
    hide ValuesRun, Fold, Args, KeyRuns, StepRuns, ArgOf;
    var own := gr.Text(row);
    forall k ensures k != own ==> GroupRuns(gr, aggs, rows + [row], k) {
      GroupSnoc(gr.Text, rows, row, k);
      assert GroupRuns(gr, aggs, rows, k);
      assert Group(gr.Text, k, rows) + [] == Group(gr.Text, k, rows);
    }
    GroupSnoc(gr.Text, rows, row, own);
    var group := Group(gr.Text, own, rows);
    assert GroupRuns(gr, aggs, rows, own);
    forall i | 0 <= i < |aggs|
      ensures ValuesRun(aggs[i].func, Args(aggs[i], gr.schema, group + [row]))
        <==> AggRuns(aggs[i], gr.schema, Accs(aggs, gr.schema, group)[i], row)
    {
      OneMoreArg(aggs[i], gr.schema, group, row);
    }
    assert Group(gr.Text, own, rows + [row]) == group + [row];
    if RowRuns(gr, aggs, rows, row) {
      assert GroupRuns(gr, aggs, rows + [row], own);
    }
    if forall k :: GroupRuns(gr, aggs, rows + [row], k) {
      assert GroupRuns(gr, aggs, rows + [row], own);
    }
  }

  lemma OneMoreArg(a: Agg, schema: Schema, group: seq<Row>, row: Row)
    requires ArgRuns(a, schema, row) && ValuesRun(a.func, Args(a, schema, group))
    ensures ValuesRun(a.func, Args(a, schema, group + [row]))
      <==> AggRuns(a, schema, Fold(a.func, Args(a, schema, group)), row)
  {
    hide ValuesRun, Fold, Args;
    ArgsSnoc(a, schema, group, row);
    ValuesRunSnoc(a.func, Args(a, schema, group), ArgOf(a, schema, row));
  }

  // Aggregating throws on no row exactly when every row evaluates and every
  // group's values can be accumulated: the order of the rows does not matter.
  lemma {:induction false} AggregableIff(gr: GroupBy, aggs: seq<Agg>, rows: seq<Row>)
    ensures Aggregable(gr, aggs, rows) <==> AllRun(gr, aggs, rows)
  {
    if rows == [] {
      forall k ensures GroupRuns(gr, aggs, rows, k) {
        NothingRuns(gr, aggs, k);
      }
    } else {
      hide RowRuns, RowEvaluates, GroupRuns;
      var front, last := rows[..|rows| - 1], rows[|rows| - 1];
      assert rows == front + [last];
      AggregableIff(gr, aggs, front);
      AggregableSnoc(gr, aggs, front, last);
      RunsEvaluates(gr, aggs, front, last);
      FewerRun(gr, aggs, front, last);
      if RowEvaluates(gr, aggs, last) && AllRun(gr, aggs, front) {
        GroupRunsSnoc(gr, aggs, front, last);
      }
    }
  }

  lemma NothingRuns(gr: GroupBy, aggs: seq<Agg>, k: string)
    ensures GroupRuns(gr, aggs, [], k)
  {
    forall i | 0 <= i < |aggs| ensures ValuesRun(aggs[i].func, Args(aggs[i], gr.schema, Group(gr.Text, k, []))) {
      assert Args(aggs[i], gr.schema, []) == [];
    }
  }

  lemma AggregableSnoc(gr: GroupBy, aggs: seq<Agg>, front: seq<Row>, last: Row)
    ensures Aggregable(gr, aggs, front + [last]) <==> Aggregable(gr, aggs, front) && RowRuns(gr, aggs, front, last)
  {
    hide RowRuns;
    var rows := front + [last];
    assert rows[..|front|] == front && rows[|front|] == last;
    forall n | 0 <= n < |front| ensures rows[..n] == front[..n] && rows[n] == front[n] {
    }
    if Aggregable(gr, aggs, rows) {
      forall n | 0 <= n < |front| ensures RowRuns(gr, aggs, front[..n], front[n]) {
        assert RowRuns(gr, aggs, rows[..n], rows[n]);
      }
      assert RowRuns(gr, aggs, rows[..|front|], rows[|front|]);
    }
  }

  lemma RunsEvaluates(gr: GroupBy, aggs: seq<Agg>, before: seq<Row>, row: Row)
    ensures RowRuns(gr, aggs, before, row) ==> RowEvaluates(gr, aggs, row)
  {
    hide KeyRuns, Accs;
    if RowRuns(gr, aggs, before, row) {
      forall i | 0 <= i < |aggs| ensures ArgRuns(aggs[i], gr.schema, row) {
        assert AggRuns(aggs[i], gr.schema, Accs(aggs, gr.schema, Group(gr.Text, gr.Text(row), before))[i], row);
      }
    }
  }

  lemma FewerRun(gr: GroupBy, aggs: seq<Agg>, front: seq<Row>, last: Row)
    ensures AllRun(gr, aggs, front + [last]) ==> AllRun(gr, aggs, front) && RowEvaluates(gr, aggs, last)
  {
    hide RowEvaluates, ValuesRun, Args, Fold;
    if AllRun(gr, aggs, front + [last]) {
      assert last in front + [last] && forall r :: r in front ==> r in front + [last];
      forall k ensures GroupRuns(gr, aggs, front, k) {
        GroupSnoc(gr.Text, front, last, k);
        assert GroupRuns(gr, aggs, front + [last], k);
        var group := Group(gr.Text, k, front);
        forall i | 0 <= i < |aggs| ensures ValuesRun(aggs[i].func, Args(aggs[i], gr.schema, group)) {
          if gr.Text(last) == k {
            ArgsSnoc(aggs[i], gr.schema, group, last);
            ValuesRunSnoc(aggs[i].func, Args(aggs[i], gr.schema, group), ArgOf(aggs[i], gr.schema, last));
          } else {
            assert group + [] == group;
          }
        }
      }
    }
  }

  datatype AccState = AccState(group_key: Row, accs: seq<Acc>)

  ghost predicate Tracks(st: AccState, gr: GroupBy, aggs: seq<Agg>, group: seq<Row>)
  {
    group != [] && st.group_key == gr.Key(group[0]) && st.accs == Accs(aggs, gr.schema, group)
  }

  ghost predicate TracksAll(groups: map<string, AccState>, gr: GroupBy, aggs: seq<Agg>, rows: seq<Row>)
  {
    && (forall k :: k in groups <==> k in Texts(gr.Text, rows))
    && forall k :: k in groups ==> Tracks(groups[k], gr, aggs, Group(gr.Text, k, rows))
  }

  lemma AccsSnoc(aggs: seq<Agg>, schema: Schema, group: seq<Row>, row: Row, i: nat)
    requires i < |aggs|
    ensures Accs(aggs, schema, group + [row])[i]
      == Step(aggs[i].func, Accs(aggs, schema, group)[i], ArgOf(aggs[i], schema, row))
  {
    hide Step;
    assert Args(aggs[i], schema, group + [row]) == Args(aggs[i], schema, group) + [ArgOf(aggs[i], schema, row)];
    FoldSnoc(aggs[i].func, Args(aggs[i], schema, group), ArgOf(aggs[i], schema, row));
  }

  // The accumulators of a row's group after the row; None when it throws.
  method AddRow(aggs: seq<Agg>, schema: Schema, accs: seq<Acc>, ghost group: seq<Row>, row: Row)
    returns (r: Option<seq<Acc>>)
    requires accs == Accs(aggs, schema, group)
    ensures r.Some? <==> forall i :: 0 <= i < |aggs| ==> AggRuns(aggs[i], schema, accs[i], row)
    ensures r.Some? ==> r.value == Accs(aggs, schema, group + [row])
  {
    hide Step, Accs, AggRuns;
    var done: seq<Acc> := [];
    for i := 0 to |aggs|
      invariant forall j :: 0 <= j < i ==> AggRuns(aggs[j], schema, accs[j], row)
      invariant |done| == i && done == Accs(aggs, schema, group + [row])[..i]
    {
      if !AggRuns(aggs[i], schema, accs[i], row) {
        return None;
      }
      AccsSnoc(aggs, schema, group, row, i);
      done := done + [Step(aggs[i].func, accs[i], ArgOf(aggs[i], schema, row))];
    }
    r := Some(done);
  }

  lemma TracksMore(groups: map<string, AccState>, gr: GroupBy, aggs: seq<Agg>, rows: seq<Row>, row: Row, st: AccState)
    requires TracksAll(groups, gr, aggs, rows) && Tracks(st, gr, aggs, Group(gr.Text, gr.Text(row), rows) + [row])
    ensures TracksAll(groups[gr.Text(row) := st], gr, aggs, rows + [row])
  {
    hide Tracks;
    var groups' := groups[gr.Text(row) := st];
    GroupSnoc(gr.Text, rows, row, gr.Text(row));
    forall k | k in groups' ensures Tracks(groups'[k], gr, aggs, Group(gr.Text, k, rows + [row])) {
      GroupSnoc(gr.Text, rows, row, k);
      assert Group(gr.Text, k, rows) + [] == Group(gr.Text, k, rows);
    }
  }

  // The state of a row's group before the row, new groups starting empty.
  method StateFor(groups: map<string, AccState>, ghost rows: seq<Row>, gr: GroupBy, aggs: seq<Agg>, row: Row)
    returns (st: AccState)
    requires TracksAll(groups, gr, aggs, rows)
    ensures var group := Group(gr.Text, gr.Text(row), rows) + [row];
      st.group_key == gr.Key(group[0]) && st.accs == Accs(aggs, gr.schema, Group(gr.Text, gr.Text(row), rows))
  {
    NoGroup(gr.Text, rows, gr.Text(row));
    if gr.Text(row) in groups {
      st := groups[gr.Text(row)];
    } else {
      assert Group(gr.Text, gr.Text(row), rows) == [];
      st := AccState(gr.Key(row), seq(|aggs|, i => ZERO));
      assert st.accs == Accs(aggs, gr.schema, []);
    }
  }

  // The groups and their order after one more row; None when it throws.
  method Absorb(groups: map<string, AccState>, group_order: seq<string>, ghost before: seq<Row>,
                gr: GroupBy, aggs: seq<Agg>, row: Row)
    returns (r: Option<(map<string, AccState>, seq<string>)>)
    requires TracksAll(groups, gr, aggs, before) && group_order == Keys(gr.Text, before)
    ensures r.Some? <==> RowRuns(gr, aggs, before, row)
    ensures r.Some? ==> TracksAll(r.value.0, gr, aggs, before + [row]) && r.value.1 == Keys(gr.Text, before + [row])
  {
    hide Tracks, TracksAll, AggRuns, KeyRuns, Accs, AggRow, Keys;
    if !KeyRuns(gr, row) {
      return None;
    }
    var key_str := gr.Text(row);
    var st := StateFor(groups, before, gr, aggs, row);
    var accs := AddRow(aggs, gr.schema, st.accs, Group(gr.Text, key_str, before), row);
    if accs.None? {
      return None;
    }
    Seen(groups, gr, aggs, before, row);
    Tracked(AccState(st.group_key, accs.value), gr, aggs, Group(gr.Text, key_str, before) + [row]);
    TracksMore(groups, gr, aggs, before, row, AccState(st.group_key, accs.value));
    r := Some((groups[key_str := AccState(st.group_key, accs.value)],
               if key_str in groups then group_order else group_order + [key_str]));
  }

  method HashAggregateOpen(gr: GroupBy, aggs: seq<Agg>, rows: seq<Row>) returns (result: Result<seq<Row>>)
    ensures result.Ok? <==> Aggregable(gr, aggs, rows)
    ensures result.Ok? ==> result.value == HashAggregate(gr, aggs, rows)
  {
    hide TracksAll, Keys, AggRows, RowRuns;
    var groups: map<string, AccState>, group_order: seq<string> := map[], [];
    NothingTracked(gr, aggs);
    for n := 0 to |rows|
      invariant TracksAll(groups, gr, aggs, rows[..n]) && group_order == Keys(gr.Text, rows[..n])
      invariant forall m :: 0 <= m < n ==> RowRuns(gr, aggs, rows[..m], rows[m])
    {
      var r := Absorb(groups, group_order, rows[..n], gr, aggs, rows[n]);
      if r.None? {
        return Err("execution: cannot aggregate this row");
      }
      assert rows[..n + 1] == rows[..n] + [rows[n]];
      groups, group_order := r.value.0, r.value.1;
    }
    assert rows[..|rows|] == rows;
    var results := EmitGroups(groups, group_order, gr, aggs, rows);
    NoRows(gr, aggs, rows);
    if gr.group_by == [] && results == [] {
      results := [seq(|aggs|, i requires 0 <= i < |aggs| => EmptyResult(aggs[i].func))];
    }
    result := Ok(results);
  }

  lemma NothingTracked(gr: GroupBy, aggs: seq<Agg>)
    ensures TracksAll(map[], gr, aggs, []) && Keys(gr.Text, []) == []
  {
  }

  lemma Tracked(st: AccState, gr: GroupBy, aggs: seq<Agg>, group: seq<Row>)
    requires group != [] && st.group_key == gr.Key(group[0]) && st.accs == Accs(aggs, gr.schema, group)
    ensures Tracks(st, gr, aggs, group)
  {
  }

  lemma Seen(groups: map<string, AccState>, gr: GroupBy, aggs: seq<Agg>, rows: seq<Row>, row: Row)
    requires TracksAll(groups, gr, aggs, rows)
    ensures Keys(gr.Text, rows + [row]) == if gr.Text(row) in groups then Keys(gr.Text, rows)
      else Keys(gr.Text, rows) + [gr.Text(row)]
  {
    KeysSnoc(gr.Text, rows, row);
  }

  lemma NoRows(gr: GroupBy, aggs: seq<Agg>, rows: seq<Row>)
    ensures AggRows(gr, aggs, rows) == [] <==> rows == []
  {
    if rows != [] {
      assert Texts(gr.Text, rows)[0] in Texts(gr.Text, rows);
      assert Texts(gr.Text, rows)[0] in Keys(gr.Text, rows);
    }
  }

  function OutRow(st: AccState, aggs: seq<Agg>): Row
  {
    st.group_key
    + seq(|aggs|, i requires 0 <= i < |aggs| => if i < |st.accs| then Final(aggs[i].func, st.accs[i]) else Null)
  }

  lemma Emitted(groups: map<string, AccState>, gr: GroupBy, aggs: seq<Agg>, k: string, rows: seq<Row>)
    requires TracksAll(groups, gr, aggs, rows) && k in Keys(gr.Text, rows)
    ensures k in groups && AggRow(gr, aggs, k, rows) == OutRow(groups[k], aggs)
  {
    hide FirstSeen;
    var st := groups[k];
    assert Tracks(st, gr, aggs, Group(gr.Text, k, rows));
    assert Results(aggs, gr.schema, Group(gr.Text, k, rows))
        == seq(|aggs|, i requires 0 <= i < |aggs| => if i < |st.accs| then Final(aggs[i].func, st.accs[i]) else Null);
  }

  method EmitGroups(groups: map<string, AccState>, order: seq<string>, gr: GroupBy, aggs: seq<Agg>,
                    ghost rows: seq<Row>)
    returns (results: seq<Row>)
    requires TracksAll(groups, gr, aggs, rows) && order == Keys(gr.Text, rows)
    ensures results == AggRows(gr, aggs, rows)
  {
    hide TracksAll, OutRow, AggRow, Keys;
    results := [];
    for n := 0 to |order|
      invariant |results| == n && forall m :: 0 <= m < n ==> results[m] == AggRow(gr, aggs, order[m], rows)
    {
      Emitted(groups, gr, aggs, order[n], rows);
      results := results + [OutRow(groups[order[n]], aggs)];
    }
  }
}
