// What the aggregates of a group are (execution/operators.cpp:246-334), in
// counts, sums and comparisons of the group's values.
module AggregateMeaning {
  import opened Wrappers
  import opened Ast
  import opened Values
  import opened Evaluation
  import opened EvaluationLaws
  import opened Bags
  import opened Relational
  import opened Aggregation

  // The non-NULL values e has on the rows.
  function ValuesOn(e: Expr, schema: Schema, group: seq<Row>): seq<Literal>
  {
    if group == [] then []
    else
      var front, v := ValuesOn(e, schema, group[..|group| - 1]), Evaluate(e, FlatLook(schema, group[|group| - 1]));
      if v.Some? && !v.value.Null? then front + [v.value] else front
  }

  function SumOf(vs: seq<Literal>): real
  {
    if vs == [] then 0.0
    else SumOf(vs[..|vs| - 1]) + if NumberOf(vs[|vs| - 1]).Some? then NumberOf(vs[|vs| - 1]).value else 0.0
  }

  lemma {:induction false} ArgsAreValues(a: Agg, schema: Schema, group: seq<Row>)
    requires !(a.func == Count && a.arg == Wildcard)
    ensures NonNulls(Args(a, schema, group)) == ValuesOn(a.arg, schema, group)
  {
    if group != [] {
      var front, row := group[..|group| - 1], group[|group| - 1];
      ArgsAreValues(a, schema, front);
      assert Args(a, schema, group) == Args(a, schema, front) + [ArgOf(a, schema, row)];
      FilterAppend((v: Literal) => !v.Null?, Args(a, schema, front), [ArgOf(a, schema, row)]);
      OneArg(ArgOf(a, schema, row));
    }
  }

  lemma OneArg(v: Literal)
    ensures NonNulls([v]) == if v.Null? then [] else [v]
  {
    var keep := (v: Literal) => !v.Null?;
    FilterStep(keep, [v]);
    assert [v][1..] == [] && Filter(keep, []) == [];
  }

  lemma {:induction false} TotalIsSum(vs: seq<Literal>)
    ensures Total(vs) == SumOf(vs)
  {
    if vs != [] {
      var front, last := vs[..|vs| - 1], vs[|vs| - 1];
      TotalIsSum(front);
      assert vs == front + [last];
      TotalAppend(front, [last]);
      assert Total([last]) == Number(last) + Total([]);
    }
  }

  lemma {:induction false} StarCounts(schema: Schema, group: seq<Row>)
    ensures |NonNulls(Args(Agg(Count, Wildcard), schema, group))| == |group|
  {
    var a := Agg(Count, Wildcard);
    if group != [] {
      var front := group[..|group| - 1];
      StarCounts(schema, front);
      assert Args(a, schema, group) == Args(a, schema, front) + [Boolean(true)];
      FilterAppend((v: Literal) => !v.Null?, Args(a, schema, front), [Boolean(true)]);
      OneArg(Boolean(true));
    }
  }

  function ResultOf(a: Agg, schema: Schema, group: seq<Row>): Literal
  {
    Results([a], schema, group)[0]
  }

  lemma ResultsAreOf(aggs: seq<Agg>, schema: Schema, group: seq<Row>)
    ensures |Results(aggs, schema, group)| == |aggs|
    ensures forall i :: 0 <= i < |aggs| ==> Results(aggs, schema, group)[i] == ResultOf(aggs[i], schema, group)
  {
  }

  // COUNT(*) counts the rows, COUNT the rows on which its argument is not NULL.
  lemma CountMeans(e: Expr, schema: Schema, group: seq<Row>)
    ensures ResultOf(Agg(Count, Wildcard), schema, group) == Integer(|group|)
    ensures e != Wildcard ==> ResultOf(Agg(Count, e), schema, group) == Integer(|ValuesOn(e, schema, group)|)
  {
    FoldMeaning(Count, Args(Agg(Count, Wildcard), schema, group));
    StarCounts(schema, group);
    if e != Wildcard {
      FoldMeaning(Count, Args(Agg(Count, e), schema, group));
      ArgsAreValues(Agg(Count, e), schema, group);
    }
  }

  // SUM adds the values, and AVG is the sum divided by their number; over no
  // value both are zero.
  lemma SumMeans(e: Expr, schema: Schema, group: seq<Row>)
    ensures ResultOf(Agg(Sum, e), schema, group) == Float(SumOf(ValuesOn(e, schema, group)))
  {
    FoldMeaning(Sum, Args(Agg(Sum, e), schema, group));
    ArgsAreValues(Agg(Sum, e), schema, group);
    TotalIsSum(ValuesOn(e, schema, group));
  }

  lemma AvgMeans(e: Expr, schema: Schema, group: seq<Row>)
    ensures var vs, avg := ValuesOn(e, schema, group), ResultOf(Agg(Avg, e), schema, group);
      avg.Float? && (if vs == [] then avg.float_val == 0.0 else Times(avg.float_val, |vs| as real) == SumOf(vs))
  {
    var vs := ValuesOn(e, schema, group);
    FoldMeaning(Avg, Args(Agg(Avg, e), schema, group));
    ArgsAreValues(Agg(Avg, e), schema, group);
    TotalIsSum(vs);
    if vs != [] {
      var q :| q == SumOf(vs) / |vs| as real;
      Divided(q, SumOf(vs), |vs| as real);
    }
  }

  // x comes before y as numbers, or as strings.
  ghost predicate Before(x: Literal, y: Literal)
  {
    || (NumberOf(x).Some? && NumberOf(y).Some? && NumberOf(x).value < NumberOf(y).value)
    || (x.Str? && y.Str? && Precedes(x.str_val, y.str_val))
  }

  // MIN is one of the values, with none before it, and MAX one with none after
  // it; over no value both are NULL.
  lemma MinMeans(e: Expr, schema: Schema, group: seq<Row>)
    requires Orderable(ValuesOn(e, schema, group))
    ensures var vs, least := ValuesOn(e, schema, group), ResultOf(Agg(Min, e), schema, group);
      if vs == [] then least == Null else least in vs && forall v :: v in vs ==> !Before(v, least)
  {
    var a := Agg(Min, e);
    ArgsAreValues(a, schema, group);
    NullsOrderable(Args(a, schema, group));
    FoldMeaning(Min, Args(a, schema, group));
    FilterMembers((v: Literal) => !v.Null?, Args(a, schema, group));
    forall v, w ensures Less(v, w) <==> Before(v, w) { LessIsBefore(v, w); }
  }

  lemma MaxMeans(e: Expr, schema: Schema, group: seq<Row>)
    requires Orderable(ValuesOn(e, schema, group))
    ensures var vs, greatest := ValuesOn(e, schema, group), ResultOf(Agg(Max, e), schema, group);
      if vs == [] then greatest == Null else greatest in vs && forall v :: v in vs ==> !Before(greatest, v)
  {
    var a := Agg(Max, e);
    ArgsAreValues(a, schema, group);
    NullsOrderable(Args(a, schema, group));
    FoldMeaning(Max, Args(a, schema, group));
    FilterMembers((v: Literal) => !v.Null?, Args(a, schema, group));
    forall v, w ensures Less(v, w) <==> Before(v, w) { LessIsBefore(v, w); }
  }

  lemma LessIsBefore(v: Literal, w: Literal)
    ensures Less(v, w) <==> Before(v, w)
  {
    hide Precedes;
    if v.Str? && w.Str? {
      LexLessPrecedes(v.str_val, w.str_val);
    }
  }

  lemma NullsOrderable(vs: seq<Literal>)
    requires Orderable(NonNulls(vs))
    ensures Orderable(vs)
  {
    FilterMembers((v: Literal) => !v.Null?, vs);
  }

  // Over no row at all and without GROUP BY, counts and sums are zero, and
  // AVG, MIN and MAX are NULL.
  lemma NothingMeans(aggs: seq<Agg>, schema: Schema)
    ensures var out := HashAggregate(GroupBy([], schema), aggs, []);
      && |out| == 1 && |out[0]| == |aggs|
      && forall i :: 0 <= i < |aggs| ==>
           out[0][i] == match aggs[i].func case Count => Integer(0) case Sum => Float(0.0) case _ => Null
  {
  }
}
