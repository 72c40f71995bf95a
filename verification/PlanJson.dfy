// Plan trees as JSON (integration/plan_serializer.cpp).  The records have the
// source's flat fields; a conversion that throws is Err.
module PlanJson {
  import opened Wrappers
  import opened Json
  import Ast
  import SqlStatements

  type Binary = Ast.BinaryOperator
  type Unary = Ast.UnaryOperator
  type JoinKind = SqlStatements.JoinType

  datatype LiteralKind = IntegerKind | FloatKind | StrKind | BooleanKind | NullKind
  datatype ExprKind = ColumnKind | LiteralExpr | BinaryKind | UnaryKind | FunctionKind | WildcardKind
  datatype PlanKind =
    | SeqScan | IndexScan | Filter | NestedLoopJoin | HashJoin | IndexNestedLoopJoin
    | HashAggregate | Project | Sort | Limit | ExternalRows

  datatype LiteralRecord = LiteralRecord(kind: LiteralKind, int_val: int, float_val: real, str_val: string,
                                         bool_val: bool)

  datatype ExprRecord = ExprRecord(
    kind: ExprKind, table: Option<string>, column: string, literal: LiteralRecord, left: Option<ExprRecord>,
    binary_op: Binary, right: Option<ExprRecord>, unary_op: Unary, operand: Option<ExprRecord>, func_name: string,
    args: seq<ExprRecord>)

  datatype AggregateRecord = AggregateRecord(func: string, arg: ExprRecord, alias: Option<string>)
  datatype OrderRecord = OrderRecord(expression: ExprRecord, ascending: bool)
  datatype Named = Named(expr: ExprRecord, alias: Option<string>)
  datatype CostRecord = CostRecord(cpu: real, io: real, memory: real)

  datatype PlanRecord = PlanRecord(
    kind: PlanKind, estimated_cost: CostRecord, estimated_rows: nat, cardinality_reasoning: string,
    cardinality_confidence: real, table_name: string, alias: Option<string>, projected_columns: seq<string>,
    index_column: string, index_probe_value: ExprRecord,
    filter: ExprRecord, input: Option<PlanRecord>, join_type: JoinKind, condition: ExprRecord, left: Option<PlanRecord>,
    right: Option<PlanRecord>, group_by: seq<ExprRecord>, aggregates: seq<AggregateRecord>, expressions: seq<Named>,
    order_by: seq<OrderRecord>, count: nat)

  // The default-constructed records.
  const NO_LITERAL := LiteralRecord(NullKind, 0, 0.0, "", false)
  const NO_EXPR := ExprRecord(WildcardKind, None, "", NO_LITERAL, None, Ast.Eq, None, Ast.Not, None, "", [])
  const NO_COST := CostRecord(0.0, 0.0, 0.0)

  // ---- Names of enumerators ----

  function LiteralKindName(k: LiteralKind): string
  {
    match k
    case IntegerKind => "Integer"
    case FloatKind => "Float"
    case StrKind => "Str"
    case BooleanKind => "Boolean"
    case NullKind => "Null"
  }

  function LiteralKindOf(s: string): Result<LiteralKind>
  {
    if s == "Integer" then Ok(IntegerKind)
    else if s == "Float" then Ok(FloatKind)
    else if s == "Str" then Ok(StrKind)
    else if s == "Boolean" then Ok(BooleanKind)
    else if s == "Null" then Ok(NullKind)
    else Err("unknown Literal::Kind")
  }

  function ExprKindName(k: ExprKind): string
  {
    match k
    case ColumnKind => "Column"
    case LiteralExpr => "Literal"
    case BinaryKind => "BinaryOp"
    case UnaryKind => "UnaryOp"
    case FunctionKind => "Function"
    case WildcardKind => "Wildcard"
  }

  function ExprKindOf(s: string): Result<ExprKind>
  {
    if s == "Column" then Ok(ColumnKind)
    else if s == "Literal" then Ok(LiteralExpr)
    else if s == "BinaryOp" then Ok(BinaryKind)
    else if s == "UnaryOp" then Ok(UnaryKind)
    else if s == "Function" then Ok(FunctionKind)
    else if s == "Wildcard" then Ok(WildcardKind)
    else Err("unknown Expression::Kind")
  }

  function BinaryName(op: Binary): string
  {
    match op
    case Eq => "Eq"
    case Neq => "Neq"
    case Lt => "Lt"
    case Gt => "Gt"
    case Lte => "Lte"
    case Gte => "Gte"
    case And => "And"
    case Or => "Or"
    case Add => "Add"
    case Sub => "Sub"
    case Mul => "Mul"
    case Div => "Div"
  }

  function BinaryOf(s: string): Result<Binary>
  {
    if s == "Eq" then Ok(Ast.Eq)
    else if s == "Neq" then Ok(Ast.Neq)
    else if s == "Lt" then Ok(Ast.Lt)
    else if s == "Gt" then Ok(Ast.Gt)
    else if s == "Lte" then Ok(Ast.Lte)
    else if s == "Gte" then Ok(Ast.Gte)
    else if s == "And" then Ok(Ast.And)
    else if s == "Or" then Ok(Ast.Or)
    else if s == "Add" then Ok(Ast.Add)
    else if s == "Sub" then Ok(Ast.Sub)
    else if s == "Mul" then Ok(Ast.Mul)
    else if s == "Div" then Ok(Ast.Div)
    else Err("unknown BinaryOperator")
  }

  function UnaryName(op: Unary): string
  {
    match op
    case Not => "Not"
    case Neg => "Neg"
  }

  function UnaryOf(s: string): Result<Unary>
  {
    if s == "Not" then Ok(Ast.Not) else if s == "Neg" then Ok(Ast.Neg) else Err("unknown UnaryOperator")
  }

  function JoinName(j: JoinKind): string
  {
    match j
    case Inner => "Inner"
    case Left => "Left"
    case Right => "Right"
    case Cross => "Cross"
  }

  function JoinOf(s: string): Result<JoinKind>
  {
    if s == "Inner" then Ok(SqlStatements.Inner)
    else if s == "Left" then Ok(SqlStatements.JoinType.Left)
    else if s == "Right" then Ok(SqlStatements.JoinType.Right)
    else if s == "Cross" then Ok(SqlStatements.Cross)
    else Err("unknown JoinType")
  }

  function PlanKindName(k: PlanKind): string
  {
    match k
    case SeqScan => "SeqScan"
    case IndexScan => "IndexScan"
    case Filter => "Filter"
    case NestedLoopJoin => "NestedLoopJoin"
    case HashJoin => "HashJoin"
    case IndexNestedLoopJoin => "IndexNestedLoopJoin"
    case HashAggregate => "HashAggregate"
    case Project => "Project"
    case Sort => "Sort"
    case Limit => "Limit"
    case ExternalRows => "ExternalRows"
  }

  function PlanKindOf(s: string): Result<PlanKind>
  {
    if s == "SeqScan" then Ok(SeqScan)
    else if s == "IndexScan" then Ok(IndexScan)
    else if s == "Filter" then Ok(Filter)
    else if s == "NestedLoopJoin" then Ok(NestedLoopJoin)
    else if s == "HashJoin" then Ok(HashJoin)
    else if s == "IndexNestedLoopJoin" then Ok(IndexNestedLoopJoin)
    else if s == "HashAggregate" then Ok(HashAggregate)
    else if s == "Project" then Ok(Project)
    else if s == "Sort" then Ok(Sort)
    else if s == "Limit" then Ok(Limit)
    else if s == "ExternalRows" then Ok(ExternalRows)
    else Err("unknown PhysicalPlan::Kind")
  }

  // ---- Fields ----

  function Zip(keys: seq<string>, values: seq<JsonValue>): (entries: seq<(string, JsonValue)>)
    requires |keys| == |values|
    ensures |entries| == |keys| && forall i :: 0 <= i < |keys| ==> entries[i] == (keys[i], values[i])
  {
    seq(|keys|, i requires 0 <= i < |keys| => (keys[i], values[i]))
  }

  lemma {:induction false} FindMember(entries: seq<(string, JsonValue)>, key: string)
    requires Find(entries, key).Some?
    ensures exists i :: 0 <= i < |entries| && entries[i] == (key, Find(entries, key).value)
  {
    if entries[0].0 == key {
      assert entries[0] == (key, Find(entries, key).value);
    } else {
      FindMember(entries[1..], key);
      var i :| 0 <= i < |entries[1..]| && entries[1..][i] == (key, Find(entries[1..], key).value);
      assert entries[i + 1] == (key, Find(entries, key).value);
    }
  }

  // JsonValue::find
  function Get(j: JsonValue, key: string): (r: Option<JsonValue>)
    ensures r.Some? ==> r.value < j
  {
    if !j.Object? then None
    else
      var r := Find(j.entries, key);
      if r.None? then None
      else
        FindMember(j.entries, key);
        r
  }

  ghost predicate Distinct(keys: seq<string>)
  {
    forall i, j :: 0 <= i < j < |keys| ==> keys[i] != keys[j]
  }

  lemma {:induction false} FindAt(entries: seq<(string, JsonValue)>, i: nat)
    requires i < |entries| && forall j :: 0 <= j < i ==> entries[j].0 != entries[i].0
    ensures Find(entries, entries[i].0) == Some(entries[i].1)
  {
    if i > 0 {
      assert entries[0].0 != entries[i].0;
      FindAt(entries[1..], i - 1);
    }
  }

  lemma GetZipped(keys: seq<string>, values: seq<JsonValue>, i: nat)
    requires |keys| == |values| && i < |keys| && Distinct(keys)
    ensures Get(Object(Zip(keys, values)), keys[i]) == Some(values[i])
  {
    FindAt(Zip(keys, values), i);
  }

  // as_string, as_number and as_bool of a field, with the record's default.
  function StringAt(j: JsonValue, key: string): string
  {
    var v := Get(j, key);
    if v.Some? && v.value.String? then v.value.str_val else ""
  }

  function NumberAt(j: JsonValue, key: string, default_: real): real
  {
    var v := Get(j, key);
    if v.None? then default_ else if v.value.Number? then v.value.num_val else 0.0
  }

  function BoolAt(j: JsonValue, key: string): bool
  {
    var v := Get(j, key);
    v.Some? && v.value.Bool? && v.value.bool_val
  }

  function OptionalAt(j: JsonValue, key: string): Option<string>
  {
    var v := Get(j, key);
    if v.Some? && v.value.String? then Some(v.value.str_val) else None
  }

  function OptionalJson(s: Option<string>): JsonValue
  {
    if s.Some? then String(s.value) else Null
  }

  // An enumerator: the default when the field is missing.
  function NameAt<T>(j: JsonValue, key: string, of: string -> Result<T>, default_: T): Result<T>
  {
    if Get(j, key).None? then Ok(default_) else of(StringAt(j, key))
  }

  // static_cast from double to an integer: towards zero.
  function Truncated(r: real): int
  {
    if r >= 0.0 then r.Floor else -((-r).Floor)
  }

  function Size(r: real): nat
  {
    if r >= 0.0 then r.Floor else 0
  }

  lemma TruncatedWhole(n: int)
    ensures Truncated(n as real) == n && (n >= 0 ==> Size(n as real) == n)
  {
    assert (n as real).Floor == n && (-(n as real)) == (-n) as real;
  }

  // ---- Expressions ----

  const LITERAL_KEYS := ["kind", "int_val", "float_val", "str_val", "bool_val"]

  function LiteralValues(v: LiteralRecord): (values: seq<JsonValue>)
    ensures |values| == 5
  {
    [String(LiteralKindName(v.kind)), Number(v.int_val as real), Number(v.float_val), String(v.str_val),
     Bool(v.bool_val)]
  }

  function LiteralToJson(v: LiteralRecord): JsonValue
  {
    Object(Zip(LITERAL_KEYS, LiteralValues(v)))
  }

  function LiteralFromJson(j: JsonValue): Result<LiteralRecord>
  {
    var kind := NameAt(j, "kind", LiteralKindOf, NullKind);
    if kind.Err? then Err(kind.error)
    else Ok(LiteralRecord(kind.value, Truncated(NumberAt(j, "int_val", 0.0)), NumberAt(j, "float_val", 0.0),
                          StringAt(j, "str_val"), BoolAt(j, "bool_val")))
  }

  const EXPR_KEYS :=
    ["kind", "table", "column", "literal", "left", "binary_op", "right", "unary_op", "operand", "func_name", "args"]

  function ExprValues(e: ExprRecord): (values: seq<JsonValue>)
    ensures |values| == 11
    decreases e, 0
  {
    [String(ExprKindName(e.kind)), OptionalJson(e.table), String(e.column), LiteralToJson(e.literal),
     ChildToJson(e.left), String(BinaryName(e.binary_op)), ChildToJson(e.right), String(UnaryName(e.unary_op)),
     ChildToJson(e.operand), String(e.func_name), Array(ArgsToJson(e.args))]
  }

  function ExprToJson(e: ExprRecord): JsonValue
    decreases e, 1
  {
    Object(Zip(EXPR_KEYS, ExprValues(e)))
  }

  function ChildToJson(e: Option<ExprRecord>): JsonValue
    decreases e, 0
  {
    if e.Some? then ExprToJson(e.value) else Null
  }

  function ArgsToJson(es: seq<ExprRecord>): (items: seq<JsonValue>)
    decreases es, 0
  {
    if es == [] then [] else [ExprToJson(es[0])] + ArgsToJson(es[1..])
  }

  function LiteralAt(j: JsonValue, key: string): Result<LiteralRecord>
  {
    var v := Get(j, key);
    if v.None? then Ok(NO_LITERAL) else LiteralFromJson(v.value)
  }

  function ExprFromJson(j: JsonValue): Result<ExprRecord>
    decreases j, 1
  {
    var kind := NameAt(j, "kind", ExprKindOf, WildcardKind);
    var literal := LiteralAt(j, "literal");
    var left := ChildAt(j, "left");
    var binary_op := NameAt(j, "binary_op", BinaryOf, Ast.Eq);
    var right := ChildAt(j, "right");
    var unary_op := NameAt(j, "unary_op", UnaryOf, Ast.Not);
    var operand := ChildAt(j, "operand");
    var args := ArgsAt(j, "args");
    if kind.Err? || literal.Err? || left.Err? || binary_op.Err? || right.Err? || unary_op.Err? || operand.Err?
      || args.Err? then
      Err("plan_serializer: unknown name")
    else
      Ok(ExprRecord(kind.value, OptionalAt(j, "table"), StringAt(j, "column"), literal.value, left.value,
                    binary_op.value, right.value, unary_op.value, operand.value, StringAt(j, "func_name"), args.value))
  }

  function ChildAt(j: JsonValue, key: string): Result<Option<ExprRecord>>
    decreases j, 0
  {
    var v := Get(j, key);
    if v.None? || !v.value.Object? then Ok(None)
    else
      var e := ExprFromJson(v.value);
      if e.Err? then Err(e.error) else Ok(Some(e.value))
  }

  function ArgsAt(j: JsonValue, key: string): Result<seq<ExprRecord>>
    decreases j, 0
  {
    var v := Get(j, key);
    if v.None? || !v.value.Array? then Ok([]) else ArgsFromJson(v.value.array_val)
  }

  function ArgsFromJson(items: seq<JsonValue>): Result<seq<ExprRecord>>
    decreases items, 2
  {
    if items == [] then Ok([])
    else
      var e := ExprFromJson(items[0]);
      if e.Err? then Err(e.error)
      else
        var rest := ArgsFromJson(items[1..]);
        if rest.Err? then rest else Ok([e.value] + rest.value)
  }

  // ---- Lists of other records ----

  function EncodeAll<T>(encode: T -> JsonValue, xs: seq<T>): (items: seq<JsonValue>)
    ensures |items| == |xs| && forall i :: 0 <= i < |xs| ==> items[i] == encode(xs[i])
  {
    if xs == [] then [] else [encode(xs[0])] + EncodeAll(encode, xs[1..])
  }

  function DecodeAll<T>(decode: JsonValue -> Result<T>, items: seq<JsonValue>): Result<seq<T>>
  {
    if items == [] then Ok([])
    else
      var x := decode(items[0]);
      if x.Err? then Err(x.error)
      else
        var rest := DecodeAll(decode, items[1..]);
        if rest.Err? then rest else Ok([x.value] + rest.value)
  }

  lemma {:induction false} DecodeEncodeAll<T>(encode: T -> JsonValue, decode: JsonValue -> Result<T>, xs: seq<T>)
    requires forall x :: decode(encode(x)) == Ok(x)
    ensures DecodeAll(decode, EncodeAll(encode, xs)) == Ok(xs)
  {
    if xs != [] {
      DecodeEncodeAll(encode, decode, xs[1..]);
      var items := EncodeAll(encode, xs);
      assert items[0] == encode(xs[0]) && items[1..] == EncodeAll(encode, xs[1..]);
      assert xs == [xs[0]] + xs[1..];
    }
  }

  function ListAt<T>(j: JsonValue, key: string, decode: JsonValue -> Result<T>): Result<seq<T>>
  {
    var v := Get(j, key);
    if v.None? || !v.value.Array? then Ok([]) else DecodeAll(decode, v.value.array_val)
  }

  // A required expression field.
  function ExprAt(j: JsonValue, key: string): Result<ExprRecord>
  {
    var v := Get(j, key);
    if v.None? then Ok(NO_EXPR) else ExprFromJson(v.value)
  }

  function AggregateToJson(a: AggregateRecord): JsonValue
  {
    Object([("func", String(a.func)), ("arg", ExprToJson(a.arg)), ("alias", OptionalJson(a.alias))])
  }

  function AggregateFromJson(j: JsonValue): Result<AggregateRecord>
  {
    var arg := ExprAt(j, "arg");
    if arg.Err? then Err(arg.error) else Ok(AggregateRecord(StringAt(j, "func"), arg.value, OptionalAt(j, "alias")))
  }

  function NamedToJson(n: Named): JsonValue
  {
    Object([("expr", ExprToJson(n.expr)), ("alias", OptionalJson(n.alias))])
  }

  function NamedFromJson(j: JsonValue): Result<Named>
  {
    var e := ExprAt(j, "expr");
    if e.Err? then Err(e.error) else Ok(Named(e.value, OptionalAt(j, "alias")))
  }

  function OrderToJson(o: OrderRecord): JsonValue
  {
    Object([("expression", ExprToJson(o.expression)), ("ascending", Bool(o.ascending))])
  }

  // A missing "ascending" is uninitialised in the source; here false.
  function OrderFromJson(j: JsonValue): Result<OrderRecord>
  {
    var e := ExprAt(j, "expression");
    if e.Err? then Err(e.error) else Ok(OrderRecord(e.value, BoolAt(j, "ascending")))
  }

  function CostToJson(c: CostRecord): JsonValue
  {
    Object([("cpu", Number(c.cpu)), ("io", Number(c.io)), ("memory", Number(c.memory))])
  }

  function CostAt(j: JsonValue, key: string): CostRecord
  {
    var v := Get(j, key);
    if v.None? then NO_COST
    else CostRecord(NumberAt(v.value, "cpu", 0.0), NumberAt(v.value, "io", 0.0), NumberAt(v.value, "memory", 0.0))
  }

  function StringToJson(s: string): JsonValue { String(s) }

  function StringFromJson(j: JsonValue): Result<string>
  {
    Ok(if j.String? then j.str_val else "")
  }

  // ---- Plans ----

  const PLAN_KEYS :=
    ["kind", "estimated_cost", "estimated_rows", "cardinality_reasoning", "cardinality_confidence", "table_name",
     "alias", "projected_columns", "index_column", "index_probe_value", "predicate", "input", "join_type", "condition",
     "left", "right", "group_by", "aggregates", "expressions", "order_by", "count"]

  function PlanValues(p: PlanRecord): (values: seq<JsonValue>)
    ensures |values| == 21
    decreases p, 0
  {
    [String(PlanKindName(p.kind)), CostToJson(p.estimated_cost), Number(p.estimated_rows as real),
     String(p.cardinality_reasoning), Number(p.cardinality_confidence), String(p.table_name), OptionalJson(p.alias),
     Array(EncodeAll(StringToJson, p.projected_columns)), String(p.index_column), ExprToJson(p.index_probe_value),
     ExprToJson(p.filter), SubplanToJson(p.input), String(JoinName(p.join_type)), ExprToJson(p.condition),
     SubplanToJson(p.left), SubplanToJson(p.right), Array(EncodeAll(ExprToJson, p.group_by)),
     Array(EncodeAll(AggregateToJson, p.aggregates)), Array(EncodeAll(NamedToJson, p.expressions)),
     Array(EncodeAll(OrderToJson, p.order_by)), Number(p.count as real)]
  }

  function PlanToJson(p: PlanRecord): JsonValue
    decreases p, 1
  {
    Object(Zip(PLAN_KEYS, PlanValues(p)))
  }

  function SubplanToJson(p: Option<PlanRecord>): JsonValue
    decreases p, 0
  {
    if p.Some? then PlanToJson(p.value) else Null
  }

  // The fields that need no recursion on plans.
  function LocalFromJson(j: JsonValue): Result<PlanRecord>
  {
    var kind := NameAt(j, "kind", PlanKindOf, SeqScan);
    var probe := ExprAt(j, "index_probe_value");
    var filter := ExprAt(j, "predicate");
    var join_type := NameAt(j, "join_type", JoinOf, SqlStatements.Inner);
    var condition := ExprAt(j, "condition");
    var columns := ListAt(j, "projected_columns", StringFromJson);
    var group_by := ListAt(j, "group_by", ExprFromJson);
    var aggregates := ListAt(j, "aggregates", AggregateFromJson);
    var expressions := ListAt(j, "expressions", NamedFromJson);
    var order_by := ListAt(j, "order_by", OrderFromJson);
    if kind.Err? || probe.Err? || filter.Err? || join_type.Err? || condition.Err? || columns.Err? || group_by.Err?
       || aggregates.Err? || expressions.Err? || order_by.Err? then
      Err("plan_serializer: unknown name")
    else
      Ok(PlanRecord(kind.value, CostAt(j, "estimated_cost"), Size(NumberAt(j, "estimated_rows", 0.0)),
                    StringAt(j, "cardinality_reasoning"), NumberAt(j, "cardinality_confidence", 1.0),
                    StringAt(j, "table_name"), OptionalAt(j, "alias"), columns.value,
                    StringAt(j, "index_column"), probe.value, filter.value, None, join_type.value, condition.value,
                    None, None, group_by.value, aggregates.value, expressions.value, order_by.value,
                    Size(NumberAt(j, "count", 0.0))))
  }

  function PlanFromJson(j: JsonValue): Result<PlanRecord>
    decreases j, 1
  {
    var local := LocalFromJson(j);
    var input := SubplanAt(j, "input");
    var left := SubplanAt(j, "left");
    var right := SubplanAt(j, "right");
    if local.Err? || input.Err? || left.Err? || right.Err? then Err("plan_serializer: unknown name")
    else Ok(local.value.(input := input.value, left := left.value, right := right.value))
  }

  function SubplanAt(j: JsonValue, key: string): Result<Option<PlanRecord>>
    decreases j, 0
  {
    var v := Get(j, key);
    if v.None? || !v.value.Object? then Ok(None)
    else
      var p := PlanFromJson(v.value);
      if p.Err? then Err(p.error) else Ok(Some(p.value))
  }

  function SerializePlan(p: PlanRecord, render: real -> string): string
  {
    Write(PlanToJson(p), render)
  }

  function DeserializePlan(text: string): Result<PlanRecord>
  {
    var j := ParseText(text);
    if j.Err? then Err(j.error) else PlanFromJson(j.value)
  }
}

// Deserialising a serialised plan.
module PlanJsonRoundTrip {
  import opened Wrappers
  import opened Json
  import opened PlanJson
  import Ast
  import SqlStatements

  // ---- Names ----

  lemma LiteralKindBack(k: LiteralKind)
    ensures LiteralKindOf(LiteralKindName(k)) == Ok(k)
  {
  }

  lemma ExprKindBack(k: ExprKind)
    ensures ExprKindOf(ExprKindName(k)) == Ok(k)
  {
  }

  lemma BinaryNameBack(op: Binary)
    ensures BinaryOf(BinaryName(op)) == Ok(op)
  {
  }

  lemma JoinNameBack(j: JoinKind)
    ensures JoinOf(JoinName(j)) == Ok(j)
  {
  }

  lemma PlanKindBack(k: PlanKind)
    ensures PlanKindOf(PlanKindName(k)) == Ok(k)
  {
  }

  // A name is read exactly when it is that of an enumerator.
  lemma UnknownNamesThrow(s: string)
    ensures LiteralKindOf(s).Ok? <==> exists k :: LiteralKindName(k) == s
    ensures ExprKindOf(s).Ok? <==> exists k :: ExprKindName(k) == s
    ensures BinaryOf(s).Ok? <==> exists op :: BinaryName(op) == s
    ensures UnaryOf(s).Ok? <==> exists op :: UnaryName(op) == s
    ensures JoinOf(s).Ok? <==> exists j :: JoinName(j) == s
    ensures PlanKindOf(s).Ok? <==> exists k :: PlanKindName(k) == s
  {
    hide *;
    forall k: LiteralKind ensures LiteralKindOf(LiteralKindName(k)) == Ok(k) { LiteralKindBack(k); }
    forall k: ExprKind ensures ExprKindOf(ExprKindName(k)) == Ok(k) { ExprKindBack(k); }
    forall op: Binary ensures BinaryOf(BinaryName(op)) == Ok(op) { BinaryNameBack(op); }
    forall op: Unary ensures UnaryOf(UnaryName(op)) == Ok(op) { UnaryNameBack(op); }
    forall j: JoinKind ensures JoinOf(JoinName(j)) == Ok(j) { JoinNameBack(j); }
    forall k: PlanKind ensures PlanKindOf(PlanKindName(k)) == Ok(k) { PlanKindBack(k); }
    KindsRead(s);
    OperatorsRead(s);
    PlanKindsRead(s);
  }

  lemma UnaryNameBack(op: Unary)
    ensures UnaryOf(UnaryName(op)) == Ok(op)
  {
  }

  lemma KindsRead(s: string)
    ensures LiteralKindOf(s).Ok? ==> LiteralKindName(LiteralKindOf(s).value) == s
    ensures ExprKindOf(s).Ok? ==> ExprKindName(ExprKindOf(s).value) == s
    ensures UnaryOf(s).Ok? ==> UnaryName(UnaryOf(s).value) == s
    ensures JoinOf(s).Ok? ==> JoinName(JoinOf(s).value) == s
  {
  }

  lemma OperatorsRead(s: string)
    ensures BinaryOf(s).Ok? ==> BinaryName(BinaryOf(s).value) == s
  {
  }

  lemma PlanKindsRead(s: string)
    ensures PlanKindOf(s).Ok? ==> PlanKindName(PlanKindOf(s).value) == s
  {
  }

  // Missing fields keep their defaults.
  lemma NoExprFields()
    ensures ExprFromJson(Object([])) == Ok(NO_EXPR)
  {
    hide LiteralKindOf, ExprKindOf, BinaryOf, UnaryOf;
    var none := Object([]);
    assert forall key :: Get(none, key) == None;
    hide Get;
  }

  lemma NoPlanFields()
    ensures PlanFromJson(Object([])) == Ok(PlanRecord(
      SeqScan, NO_COST, 0, "", 1.0, "", None, [], "", NO_EXPR, NO_EXPR, None, SqlStatements.Inner, NO_EXPR, None, None,
      [], [], [], [], 0))
  {
    hide ExprFromJson, JoinOf, PlanKindOf;
    var none := Object([]);
    assert forall key :: Get(none, key) == None;
    hide Get;
  }

  // ---- Keys: length and first letters tell them apart ----

  function ExprKeyPosition(k: string): nat
  {
    match |k|
    case 4 => if k[0] == 'k' then 0 else if k[0] == 'l' then 4 else 10
    case 5 => if k[0] == 't' then 1 else 6
    case 6 => 2
    case 7 => if k[0] == 'l' then 3 else 8
    case 8 => 7
    case 9 => if k[0] == 'b' then 5 else 9
    case _ => 11
  }

  lemma ExprKeysDistinct()
    ensures Distinct(EXPR_KEYS)
  {
    assert forall i :: 0 <= i < 11 ==> ExprKeyPosition(EXPR_KEYS[i]) == i;
  }

  function LiteralKeyPosition(k: string): nat
  {
    match |k|
    case 4 => 0
    case 7 => if k[0] == 'i' then 1 else 3
    case 9 => 2
    case _ => 4
  }

  lemma LiteralKeysDistinct()
    ensures Distinct(LITERAL_KEYS)
  {
    assert forall i :: 0 <= i < 5 ==> LiteralKeyPosition(LITERAL_KEYS[i]) == i;
  }

  function PlanKeyPosition(k: string): nat
  {
    match |k|
    case 4 => if k[0] == 'k' then 0 else 14
    case 5 => if k[0] == 'a' then 6 else if k[0] == 'i' then 11 else if k[0] == 'r' then 15 else 20
    case 8 => if k[0] == 'g' then 16 else 19
    case 9 => if k[0] == 'p' then 10 else if k[0] == 'j' then 12 else 13
    case 10 => if k[0] == 't' then 5 else 17
    case 11 => 18
    case 12 => 8
    case 14 => if k[13] == 't' then 1 else 2
    case 17 => if k[0] == 'p' then 7 else 9
    case 21 => 3
    case _ => 4
  }

  lemma PlanKeysDistinct()
    ensures Distinct(PLAN_KEYS)
  {
    assert forall i :: 0 <= i < 21 ==> PlanKeyPosition(PLAN_KEYS[i]) == i;
  }

  // ---- Values: every record comes back from its JSON ----

  lemma GetsAll(keys: seq<string>, values: seq<JsonValue>)
    requires |keys| == |values| && Distinct(keys)
    ensures forall i :: 0 <= i < |keys| ==> Get(Object(Zip(keys, values)), keys[i]) == Some(values[i])
  {
    hide Get, Distinct;
    forall i | 0 <= i < |keys| ensures Get(Object(Zip(keys, values)), keys[i]) == Some(values[i]) {
      GetZipped(keys, values, i);
    }
  }

  lemma LiteralBack(v: LiteralRecord)
    ensures LiteralFromJson(LiteralToJson(v)) == Ok(v)
  {
    hide Get, LiteralKindOf, LiteralKindName;
    LiteralKeysDistinct();
    GetsAll(LITERAL_KEYS, LiteralValues(v));
    LiteralKindBack(v.kind);
    TruncatedWhole(v.int_val);
    var j := LiteralToJson(v);
    assert Get(j, LITERAL_KEYS[0]) == Some(String(LiteralKindName(v.kind)))
      && Get(j, LITERAL_KEYS[1]) == Some(Number(v.int_val as real));
    assert Get(j, LITERAL_KEYS[2]) == Some(Number(v.float_val)) && Get(j, LITERAL_KEYS[3]) == Some(String(v.str_val));
    assert Get(j, LITERAL_KEYS[4]) == Some(Bool(v.bool_val));
  }

  lemma ExprFields(e: ExprRecord)
    ensures var j := ExprToJson(e);
      && Get(j, "kind") == Some(String(ExprKindName(e.kind))) && Get(j, "table") == Some(OptionalJson(e.table))
      && Get(j, "column") == Some(String(e.column)) && Get(j, "literal") == Some(LiteralToJson(e.literal))
      && Get(j, "left") == Some(ChildToJson(e.left)) && Get(j, "binary_op") == Some(String(BinaryName(e.binary_op)))
      && Get(j, "right") == Some(ChildToJson(e.right)) && Get(j, "unary_op") == Some(String(UnaryName(e.unary_op)))
      && Get(j, "operand") == Some(ChildToJson(e.operand)) && Get(j, "func_name") == Some(String(e.func_name))
      && Get(j, "args") == Some(Array(ArgsToJson(e.args)))
  {
    hide Get, ChildToJson, ArgsToJson, LiteralToJson, OptionalJson, ExprKindName, BinaryName, UnaryName;
    ExprKeysDistinct();
    GetsAll(EXPR_KEYS, ExprValues(e));
    var j, values := ExprToJson(e), ExprValues(e);
    assert forall i :: 0 <= i < 11 ==> Get(j, EXPR_KEYS[i]) == Some(values[i]);
    assert Get(j, EXPR_KEYS[0]) == Some(values[0]) && Get(j, EXPR_KEYS[1]) == Some(values[1])
      && Get(j, EXPR_KEYS[2]) == Some(values[2]);
    assert Get(j, EXPR_KEYS[3]) == Some(values[3]) && Get(j, EXPR_KEYS[4]) == Some(values[4])
      && Get(j, EXPR_KEYS[5]) == Some(values[5]);
    assert Get(j, EXPR_KEYS[6]) == Some(values[6]) && Get(j, EXPR_KEYS[7]) == Some(values[7])
      && Get(j, EXPR_KEYS[8]) == Some(values[8]);
    assert Get(j, EXPR_KEYS[9]) == Some(values[9]) && Get(j, EXPR_KEYS[10]) == Some(values[10]);
  }

  lemma {:induction false} ExprBack(e: ExprRecord)
    ensures ExprFromJson(ExprToJson(e)) == Ok(e)
    decreases e, 1
  {
    hide Get, ExprToJson, ChildToJson, ArgsToJson, LiteralToJson, ChildAt, ArgsFromJson, LiteralFromJson, ExprKindOf,
         ExprKindName, BinaryOf, BinaryName;
    var j := ExprToJson(e);
    ExprFields(e);
    ExprKindBack(e.kind);
    BinaryNameBack(e.binary_op);
    LiteralBack(e.literal);
    ChildBack(e.left, j, "left");
    ChildBack(e.right, j, "right");
    ChildBack(e.operand, j, "operand");
    ArgsBack(e.args);
  }

  lemma {:induction false} ChildBack(e: Option<ExprRecord>, j: JsonValue, key: string)
    requires Get(j, key) == Some(ChildToJson(e))
    ensures ChildAt(j, key) == Ok(e)
    decreases e, 0
  {
    hide Get, ExprFromJson, ExprValues;
    if e.Some? {
      ExprBack(e.value);
    }
  }

  lemma {:induction false} ArgsBack(es: seq<ExprRecord>)
    ensures ArgsFromJson(ArgsToJson(es)) == Ok(es)
    decreases es, 0
  {
    hide ExprFromJson, ExprToJson;
    if es != [] {
      ExprBack(es[0]);
      ArgsBack(es[1..]);
      var items := ArgsToJson(es);
      assert items[0] == ExprToJson(es[0]) && items[1..] == ArgsToJson(es[1..]);
      assert es == [es[0]] + es[1..];
    }
  }

  lemma AggregateBack(a: AggregateRecord)
    ensures AggregateFromJson(AggregateToJson(a)) == Ok(a)
  {
    hide ExprFromJson, ExprToJson;
    ExprBack(a.arg);
    FindThree("func", String(a.func), "arg", ExprToJson(a.arg), "alias", OptionalJson(a.alias));
  }

  lemma FindThree(k0: string, v0: JsonValue, k1: string, v1: JsonValue, k2: string, v2: JsonValue)
    requires k0 != k1 && k0 != k2 && k1 != k2
    ensures var j := Object([(k0, v0), (k1, v1), (k2, v2)]);
      Get(j, k0) == Some(v0) && Get(j, k1) == Some(v1) && Get(j, k2) == Some(v2)
  {
    var entries := [(k0, v0), (k1, v1), (k2, v2)];
    FindAt(entries, 0);
    FindAt(entries, 1);
    FindAt(entries, 2);
  }

  lemma FindTwo(k0: string, v0: JsonValue, k1: string, v1: JsonValue)
    requires k0 != k1
    ensures var j := Object([(k0, v0), (k1, v1)]); Get(j, k0) == Some(v0) && Get(j, k1) == Some(v1)
  {
    var entries := [(k0, v0), (k1, v1)];
    FindAt(entries, 0);
    FindAt(entries, 1);
  }

  lemma NamedBack(n: Named)
    ensures NamedFromJson(NamedToJson(n)) == Ok(n)
  {
    hide ExprFromJson, ExprToJson, Get;
    ExprBack(n.expr);
    FindTwo("expr", ExprToJson(n.expr), "alias", OptionalJson(n.alias));
  }

  lemma OrderBack(o: OrderRecord)
    ensures OrderFromJson(OrderToJson(o)) == Ok(o)
  {
    hide ExprFromJson, ExprToJson, Get;
    ExprBack(o.expression);
    FindTwo("expression", ExprToJson(o.expression), "ascending", Bool(o.ascending));
  }

  lemma CostBack(c: CostRecord, j: JsonValue, key: string)
    requires Get(j, key) == Some(CostToJson(c))
    ensures CostAt(j, key) == c
  {
    hide Get;
    FindThree("cpu", Number(c.cpu), "io", Number(c.io), "memory", Number(c.memory));
  }

  lemma PlanFields(p: PlanRecord, i: nat)
    requires i < 21
    ensures Get(PlanToJson(p), PLAN_KEYS[i]) == Some(PlanValues(p)[i])
  {
    hide Get, PlanValues;
    PlanKeysDistinct();
    GetZipped(PLAN_KEYS, PlanValues(p), i);
  }

  // The fields of one plan node, a few at a time.
  lemma PlanNames(p: PlanRecord)
    ensures var j := PlanToJson(p);
      && Get(j, "kind") == Some(String(PlanKindName(p.kind)))
      && Get(j, "estimated_cost") == Some(CostToJson(p.estimated_cost))
      && Get(j, "estimated_rows") == Some(Number(p.estimated_rows as real))
      && Get(j, "cardinality_reasoning") == Some(String(p.cardinality_reasoning))
      && Get(j, "cardinality_confidence") == Some(Number(p.cardinality_confidence))
      && Get(j, "table_name") == Some(String(p.table_name))
      && Get(j, "alias") == Some(OptionalJson(p.alias)) && Get(j, "index_column") == Some(String(p.index_column))
      && Get(j, "join_type") == Some(String(JoinName(p.join_type))) && Get(j, "count") == Some(Number(p.count as real))
  {
    hide Get, PlanToJson, CostToJson, ExprToJson, SubplanToJson, EncodeAll;
    PlanFields(p, 0);
    PlanFields(p, 1);
    PlanFields(p, 2);
    PlanFields(p, 3);
    PlanFields(p, 4);
    PlanFields(p, 5);
    PlanFields(p, 6);
    PlanFields(p, 8);
    PlanFields(p, 12);
    PlanFields(p, 20);
  }

  lemma PlanTrees(p: PlanRecord)
    ensures var j := PlanToJson(p);
      && Get(j, "index_probe_value") == Some(ExprToJson(p.index_probe_value))
      && Get(j, "predicate") == Some(ExprToJson(p.filter))
      && Get(j, "input") == Some(SubplanToJson(p.input)) && Get(j, "condition") == Some(ExprToJson(p.condition))
      && Get(j, "left") == Some(SubplanToJson(p.left)) && Get(j, "right") == Some(SubplanToJson(p.right))
  {
    hide Get, PlanToJson, CostToJson, ExprToJson, SubplanToJson, EncodeAll;
    PlanFields(p, 9);
    PlanFields(p, 10);
    PlanFields(p, 11);
    PlanFields(p, 13);
    PlanFields(p, 14);
    PlanFields(p, 15);
  }

  lemma PlanLists(p: PlanRecord)
    ensures var j := PlanToJson(p);
      && Get(j, "projected_columns") == Some(Array(EncodeAll(StringToJson, p.projected_columns)))
      && Get(j, "group_by") == Some(Array(EncodeAll(ExprToJson, p.group_by)))
      && Get(j, "aggregates") == Some(Array(EncodeAll(AggregateToJson, p.aggregates)))
      && Get(j, "expressions") == Some(Array(EncodeAll(NamedToJson, p.expressions)))
      && Get(j, "order_by") == Some(Array(EncodeAll(OrderToJson, p.order_by)))
  {
    hide Get, PlanToJson, CostToJson, ExprToJson, SubplanToJson, EncodeAll;
    PlanFields(p, 7);
    PlanFields(p, 16);
    PlanFields(p, 17);
    PlanFields(p, 18);
    PlanFields(p, 19);
  }

  lemma ListsBack(p: PlanRecord)
    ensures var j := PlanToJson(p);
      && ListAt(j, "projected_columns", StringFromJson) == Ok(p.projected_columns)
      && ListAt(j, "group_by", ExprFromJson) == Ok(p.group_by)
      && ListAt(j, "aggregates", AggregateFromJson) == Ok(p.aggregates)
      && ListAt(j, "expressions", NamedFromJson) == Ok(p.expressions)
      && ListAt(j, "order_by", OrderFromJson) == Ok(p.order_by)
  {
    PlanLists(p);
    hide Get, PlanToJson, ExprToJson, ExprFromJson, EncodeAll, DecodeAll, AggregateToJson, AggregateFromJson,
         NamedToJson, NamedFromJson, OrderToJson, OrderFromJson;
    forall e: ExprRecord ensures ExprFromJson(ExprToJson(e)) == Ok(e) { ExprBack(e); }
    forall a: AggregateRecord ensures AggregateFromJson(AggregateToJson(a)) == Ok(a) { AggregateBack(a); }
    forall n: Named ensures NamedFromJson(NamedToJson(n)) == Ok(n) { NamedBack(n); }
    forall o: OrderRecord ensures OrderFromJson(OrderToJson(o)) == Ok(o) { OrderBack(o); }
    DecodeEncodeAll(StringToJson, StringFromJson, p.projected_columns);
    DecodeEncodeAll(ExprToJson, ExprFromJson, p.group_by);
    DecodeEncodeAll(AggregateToJson, AggregateFromJson, p.aggregates);
    DecodeEncodeAll(NamedToJson, NamedFromJson, p.expressions);
    DecodeEncodeAll(OrderToJson, OrderFromJson, p.order_by);
  }

  lemma LocalBack(p: PlanRecord)
    ensures LocalFromJson(PlanToJson(p)) == Ok(p.(input := None, left := None, right := None))
  {
    hide Get, PlanToJson, ExprToJson, ExprFromJson, SubplanToJson, ListAt, CostAt, CostToJson, PlanKindOf, PlanKindName,
         JoinOf, JoinName;
    PlanNames(p);
    PlanTrees(p);
    ListsBack(p);
    PlanKindBack(p.kind);
    JoinNameBack(p.join_type);
    CostBack(p.estimated_cost, PlanToJson(p), "estimated_cost");
    ExprBack(p.index_probe_value);
    ExprBack(p.filter);
    ExprBack(p.condition);
    TruncatedWhole(p.estimated_rows);
    TruncatedWhole(p.count);
  }

  lemma {:induction false} PlanBack(p: PlanRecord)
    ensures PlanFromJson(PlanToJson(p)) == Ok(p)
    decreases p, 1
  {
    hide Get, PlanToJson, SubplanToJson, SubplanAt, LocalFromJson, ExprToJson;
    var j := PlanToJson(p);
    LocalBack(p);
    PlanTrees(p);
    SubplanBack(p.input, j, "input");
    SubplanBack(p.left, j, "left");
    SubplanBack(p.right, j, "right");
  }

  lemma {:induction false} SubplanBack(p: Option<PlanRecord>, j: JsonValue, key: string)
    requires Get(j, key) == Some(SubplanToJson(p))
    ensures SubplanAt(j, key) == Ok(p)
    decreases p, 0
  {
    hide Get, PlanFromJson, PlanValues;
    if p.Some? {
      PlanBack(p.value);
    }
  }

  // ---- Text: clean strings and carried numbers survive ----

  predicate CleanOption(s: Option<string>)
  {
    s.Some? ==> Clean(s.value)
  }

  predicate PortableLiteral(v: LiteralRecord, render: real -> string)
  {
    Carried(v.int_val as real, render) && Carried(v.float_val, render) && Clean(v.str_val)
  }

  predicate PortableExpr(e: ExprRecord, render: real -> string)
  {
    && CleanOption(e.table) && Clean(e.column) && PortableLiteral(e.literal, render) && Clean(e.func_name)
    && (e.left.Some? ==> PortableExpr(e.left.value, render)) && (e.right.Some? ==> PortableExpr(e.right.value, render))
    && (e.operand.Some? ==> PortableExpr(e.operand.value, render)) && forall i :: 0 <= i < |e.args| ==>
      PortableExpr(e.args[i], render)
  }

  predicate PortableAggregate(a: AggregateRecord, render: real -> string)
  {
    Clean(a.func) && PortableExpr(a.arg, render) && CleanOption(a.alias)
  }
  predicate PortableNamed(n: Named, render: real -> string) { PortableExpr(n.expr, render) && CleanOption(n.alias) }
  predicate PortableCost(c: CostRecord, render: real -> string)
  {
    Carried(c.cpu, render) && Carried(c.io, render) && Carried(c.memory, render)
  }

  predicate PortableNode(p: PlanRecord, render: real -> string)
  {
    && PortableCost(p.estimated_cost, render) && Carried(p.estimated_rows as real, render)
    && Clean(p.cardinality_reasoning)
    && Carried(p.cardinality_confidence, render) && Clean(p.table_name) && CleanOption(p.alias)
    && (forall i :: 0 <= i < |p.projected_columns| ==> Clean(p.projected_columns[i])) && Clean(p.index_column)
    && PortableExpr(p.index_probe_value, render) && PortableExpr(p.filter, render) && PortableExpr(p.condition, render)
    && (forall i :: 0 <= i < |p.group_by| ==> PortableExpr(p.group_by[i], render))
    && (forall i :: 0 <= i < |p.aggregates| ==> PortableAggregate(p.aggregates[i], render))
    && (forall i :: 0 <= i < |p.expressions| ==> PortableNamed(p.expressions[i], render))
    && (forall i :: 0 <= i < |p.order_by| ==> PortableExpr(p.order_by[i].expression, render))
    && Carried(p.count as real, render)
  }

  predicate PortablePlan(p: PlanRecord, render: real -> string)
  {
    && PortableNode(p, render) && (p.input.Some? ==> PortablePlan(p.input.value, render))
    && (p.left.Some? ==> PortablePlan(p.left.value, render)) && (p.right.Some? ==> PortablePlan(p.right.value, render))
  }

  lemma ZipPortable(keys: seq<string>, values: seq<JsonValue>, render: real -> string)
    requires |keys| == |values| && Distinct(keys) && (forall i :: 0 <= i < |keys| ==> Clean(keys[i]))
    requires forall i :: 0 <= i < |values| ==> Portable(values[i], render)
    ensures Portable(Object(Zip(keys, values)), render)
  {
    hide Clean;
  }

  lemma KeysClean()
    ensures forall i :: 0 <= i < 11 ==> Clean(EXPR_KEYS[i])
    ensures forall i :: 0 <= i < 5 ==> Clean(LITERAL_KEYS[i])
  {
  }

  lemma FirstKeysClean()
    ensures forall i :: 0 <= i < 8 ==> Clean(PLAN_KEYS[i])
  {
  }

  lemma MiddleKeysClean()
    ensures forall i :: 8 <= i < 15 ==> Clean(PLAN_KEYS[i])
  {
  }

  lemma LastKeysClean()
    ensures forall i :: 15 <= i < 21 ==> Clean(PLAN_KEYS[i])
  {
  }

  lemma PlanKeysClean()
    ensures forall i :: 0 <= i < 21 ==> Clean(PLAN_KEYS[i])
  {
    hide Clean;
    FirstKeysClean();
    MiddleKeysClean();
    LastKeysClean();
  }

  lemma NamesClean(e: ExprKind, b: Binary, u: Unary)
    ensures Clean(ExprKindName(e)) && Clean(BinaryName(b)) && Clean(UnaryName(u))
  {
  }

  lemma LiteralNameClean(k: LiteralKind)
    ensures Clean(LiteralKindName(k))
  {
  }

  lemma PlanNameClean(k: PlanKind)
    ensures Clean(PlanKindName(k))
  {
  }

  lemma JoinNameClean(j: JoinKind)
    ensures Clean(JoinName(j))
  {
  }

  lemma LiteralPortable(v: LiteralRecord, render: real -> string)
    requires PortableLiteral(v, render)
    ensures Portable(LiteralToJson(v), render)
  {
    hide Clean, Carried;
    LiteralKeysDistinct();
    KeysClean();
    LiteralNameClean(v.kind);
    ZipPortable(LITERAL_KEYS, LiteralValues(v), render);
  }

  lemma {:induction false} ExprPortable(e: ExprRecord, render: real -> string)
    requires PortableExpr(e, render)
    ensures Portable(ExprToJson(e), render)
    decreases e, 1
  {
    hide Clean, Carried, LiteralToJson, ChildToJson, ArgsToJson, Portable;
    ExprKeysDistinct();
    KeysClean();
    NamesClean(e.kind, e.binary_op, e.unary_op);
    LiteralPortable(e.literal, render);
    ChildPortable(e.left, render);
    ChildPortable(e.right, render);
    ChildPortable(e.operand, render);
    ArgsPortable(e.args, render);
    ScalarsPortable(e.table, e.column, render);
    ScalarsPortable(None, e.func_name, render);
    ScalarsPortable(None, ExprKindName(e.kind), render);
    ScalarsPortable(None, BinaryName(e.binary_op), render);
    ScalarsPortable(None, UnaryName(e.unary_op), render);
    ZipPortable(EXPR_KEYS, ExprValues(e), render);
  }

  lemma ScalarsPortable(o: Option<string>, s: string, render: real -> string)
    requires CleanOption(o) && Clean(s)
    ensures Portable(OptionalJson(o), render) && Portable(String(s), render)
  {
  }

  lemma NumberPortable(r: real, render: real -> string)
    requires Carried(r, render)
    ensures Portable(Number(r), render)
  {
  }

  lemma {:induction false} ChildPortable(e: Option<ExprRecord>, render: real -> string)
    requires e.Some? ==> PortableExpr(e.value, render)
    ensures Portable(ChildToJson(e), render)
    decreases e, 0
  {
    hide ExprToJson, PortableExpr;
    if e.Some? {
      ExprPortable(e.value, render);
    }
  }

  lemma {:induction false} ArgsPortable(es: seq<ExprRecord>, render: real -> string)
    requires forall i :: 0 <= i < |es| ==> PortableExpr(es[i], render)
    ensures Portable(Array(ArgsToJson(es)), render)
    decreases es, 0
  {
    hide ExprToJson, PortableExpr;
    if es != [] {
      ExprPortable(es[0], render);
      ArgsPortable(es[1..], render);
      var rest := ArgsToJson(es[1..]);
      assert Portable(Array(rest), render);
    }
  }

  lemma AllPortable<T>(encode: T -> JsonValue, xs: seq<T>, render: real -> string)
    requires forall i :: 0 <= i < |xs| ==> Portable(encode(xs[i]), render)
    ensures Portable(Array(EncodeAll(encode, xs)), render)
  {
    hide EncodeAll;
  }

  lemma RecordPortable(k0: string, v0: JsonValue, k1: string, v1: JsonValue, render: real -> string)
    requires k0 != k1 && Clean(k0) && Clean(k1) && Portable(v0, render) && Portable(v1, render)
    ensures Portable(Object([(k0, v0), (k1, v1)]), render)
  {
    hide Clean, Portable;
    assert [(k0, v0), (k1, v1)] == Zip([k0, k1], [v0, v1]);
    ZipPortable([k0, k1], [v0, v1], render);
  }

  lemma TriplePortable(k0: string, v0: JsonValue, k1: string, v1: JsonValue, k2: string, v2: JsonValue,
                       render: real -> string)
    requires k0 != k1 && k0 != k2 && k1 != k2 && Clean(k0) && Clean(k1) && Clean(k2)
    requires Portable(v0, render) && Portable(v1, render) && Portable(v2, render)
    ensures Portable(Object([(k0, v0), (k1, v1), (k2, v2)]), render)
  {
    hide Clean, Portable;
    assert [(k0, v0), (k1, v1), (k2, v2)] == Zip([k0, k1, k2], [v0, v1, v2]);
    ZipPortable([k0, k1, k2], [v0, v1, v2], render);
  }

  lemma AggregatePortable(a: AggregateRecord, render: real -> string)
    requires PortableAggregate(a, render)
    ensures Portable(AggregateToJson(a), render)
  {
    hide ExprToJson, Portable, OptionalJson, PortableExpr;
    ScalarsPortable(a.alias, a.func, render);
    ExprPortable(a.arg, render);
    TriplePortable("func", String(a.func), "arg", ExprToJson(a.arg), "alias", OptionalJson(a.alias), render);
  }

  lemma NamedPortable(n: Named, render: real -> string)
    requires PortableNamed(n, render)
    ensures Portable(NamedToJson(n), render)
  {
    hide ExprToJson, Portable, OptionalJson, PortableExpr;
    ScalarsPortable(n.alias, "", render);
    ExprPortable(n.expr, render);
    RecordPortable("expr", ExprToJson(n.expr), "alias", OptionalJson(n.alias), render);
  }

  lemma OrderPortable(o: OrderRecord, render: real -> string)
    requires PortableExpr(o.expression, render)
    ensures Portable(OrderToJson(o), render)
  {
    hide ExprToJson, PortableExpr;
    ExprPortable(o.expression, render);
    assert Portable(Bool(o.ascending), render);
    hide Portable;
    RecordPortable("expression", ExprToJson(o.expression), "ascending", Bool(o.ascending), render);
  }

  lemma CostPortable(c: CostRecord, render: real -> string)
    requires PortableCost(c, render)
    ensures Portable(CostToJson(c), render)
  {
    hide Portable, Carried;
    NumberPortable(c.cpu, render);
    NumberPortable(c.io, render);
    NumberPortable(c.memory, render);
    TriplePortable("cpu", Number(c.cpu), "io", Number(c.io), "memory", Number(c.memory), render);
  }

  lemma ListsPortable(p: PlanRecord, render: real -> string)
    requires PortableNode(p, render)
    ensures Portable(Array(EncodeAll(StringToJson, p.projected_columns)), render)
      && Portable(Array(EncodeAll(ExprToJson, p.group_by)), render)
    ensures Portable(Array(EncodeAll(AggregateToJson, p.aggregates)), render)
      && Portable(Array(EncodeAll(NamedToJson, p.expressions)), render)
    ensures Portable(Array(EncodeAll(OrderToJson, p.order_by)), render)
  {
    hide ExprToJson, AggregateToJson, NamedToJson, OrderToJson, Clean, PortableExpr, PortableAggregate, PortableNamed,
         EncodeAll, Carried, PortableCost, CleanOption;
    forall i | 0 <= i < |p.projected_columns| ensures Portable(StringToJson(p.projected_columns[i]), render) {
      ScalarsPortable(None, p.projected_columns[i], render);
    }
    forall i | 0 <= i < |p.group_by| ensures Portable(ExprToJson(p.group_by[i]), render) {
      ExprPortable(p.group_by[i], render);
    }
    forall i | 0 <= i < |p.aggregates| ensures Portable(AggregateToJson(p.aggregates[i]), render) {
      AggregatePortable(p.aggregates[i], render);
    }
    forall i | 0 <= i < |p.expressions| ensures Portable(NamedToJson(p.expressions[i]), render) {
      NamedPortable(p.expressions[i], render);
    }
    forall i | 0 <= i < |p.order_by| ensures Portable(OrderToJson(p.order_by[i]), render) {
      OrderPortable(p.order_by[i], render);
    }
    hide Portable;
    AllPortable(StringToJson, p.projected_columns, render);
    AllPortable(ExprToJson, p.group_by, render);
    AllPortable(AggregateToJson, p.aggregates, render);
    AllPortable(NamedToJson, p.expressions, render);
    AllPortable(OrderToJson, p.order_by, render);
  }

  lemma {:induction false} PlanPortable(p: PlanRecord, render: real -> string)
    requires PortablePlan(p, render)
    ensures Portable(PlanToJson(p), render)
    decreases p, 1
  {
    hide Clean, Carried, Portable, ExprToJson, SubplanToJson, CostToJson, PortableExpr, EncodeAll, OptionalJson,
         PlanKindName, JoinName, Distinct, PortableAggregate, PortableNamed;
    PlanKeysDistinct();
    PlanKeysClean();
    PlanNameClean(p.kind);
    JoinNameClean(p.join_type);
    CostPortable(p.estimated_cost, render);
    NumberPortable(p.estimated_rows as real, render);
    NumberPortable(p.cardinality_confidence, render);
    NumberPortable(p.count as real, render);
    ScalarsPortable(p.alias, p.table_name, render);
    ScalarsPortable(None, p.cardinality_reasoning, render);
    ScalarsPortable(None, p.index_column, render);
    ScalarsPortable(None, PlanKindName(p.kind), render);
    ScalarsPortable(None, JoinName(p.join_type), render);
    ExprPortable(p.index_probe_value, render);
    ExprPortable(p.filter, render);
    ExprPortable(p.condition, render);
    ListsPortable(p, render);
    SubplanPortable(p.input, render);
    SubplanPortable(p.left, render);
    SubplanPortable(p.right, render);
    ZipPortable(PLAN_KEYS, PlanValues(p), render);
  }

  lemma {:induction false} SubplanPortable(p: Option<PlanRecord>, render: real -> string)
    requires p.Some? ==> PortablePlan(p.value, render)
    ensures Portable(SubplanToJson(p), render)
    decreases p, 0
  {
    hide PlanToJson, PortablePlan;
    if p.Some? {
      PlanPortable(p.value, render);
    }
  }

  // deserialize_plan(serialize_plan(p)) is p.
  lemma PlanRoundTrip(p: PlanRecord, render: real -> string)
    requires PortablePlan(p, render)
    ensures DeserializePlan(SerializePlan(p, render)) == Ok(p)
  {
    hide PortablePlan, PlanToJson, PlanFromJson, Write, ParseText, Portable;
    PlanPortable(p, render);
    JsonRoundTrip(PlanToJson(p), render);
    PlanBack(p);
  }
}
