// The pull iterators of execution/operators.cpp.  A child executor is a
// source of rows; the joins advance it as they go.
module Executors {
  import opened Wrappers
  import opened Ast
  import opened Values
  import opened Evaluation
  import opened Bags
  import opened Relational
  import opened Execution

  // An opened child: the rows it will give, and how many it has given.
  class RowSource {
    const rows: seq<Row>
    var pos: nat

    constructor (rows: seq<Row>)
      ensures this.rows == rows && pos == 0
    {
      this.rows := rows;
      pos := 0;
    }

    ghost predicate Valid()
      reads this
    {
      pos <= |rows|
    }

    method Open()
      modifies this
      ensures Valid() && pos == 0
    {
      pos := 0;
    }

    method Next() returns (row: Option<Row>)
      requires Valid()
      modifies this
      ensures Valid()
      ensures old(pos) == |rows| ==> row == None && pos == old(pos)
      ensures old(pos) < |rows| ==> row == Some(rows[old(pos)]) && pos == old(pos) + 1
    {
      if pos >= |rows| {
        return None;
      }
      row := Some(rows[pos]);
      pos := pos + 1;
    }

    // The materialising loop of the joins' open.
    method DrainAll() returns (all: seq<Row>)
      requires Valid() && pos == 0
      modifies this
      ensures Valid() && all == rows
    {
      all := [];
      while true
        invariant Valid() && all == rows[..pos]
        decreases |rows| - pos
      {
        var r := Next();
        if r.None? {
          break;
        }
        all := all + [r.value];
      }
    }
  }

  ghost predicate AllBoolean(e: Expr, schema: Schema, left: seq<Row>, right: seq<Row>)
  {
    forall l, r :: l in left && r in right ==> GivesBoolean(e, FlatLook(schema, l + r))
  }

  lemma PrefixedHead(l: Row, right: seq<Row>, i: nat, keep: Row -> bool)
    requires i < |right|
    ensures Filter(keep, Prefixed(l, right[i..]))
         == (if keep(l + right[i]) then [l + right[i]] else []) + Filter(keep, Prefixed(l, right[i + 1..]))
  {
    assert right[i..][0] == right[i] && right[i..][1..] == right[i + 1..];
    assert Prefixed(l, right[i..])[0] == l + right[i] && Prefixed(l, right[i..])[1..] == Prefixed(l, right[i + 1..]);
  }

  lemma JoinHead(left: seq<Row>, right: seq<Row>, i: nat, keep: Row -> bool)
    requires i < |left|
    ensures JoinRows(left[i..], right, keep)
      == Filter(keep, Prefixed(left[i], right)) + JoinRows(left[i + 1..], right, keep)
  {
    assert left[i..][0] == left[i] && left[i..][1..] == left[i + 1..];
  }

  lemma NoPairsLeft(l: Row, right: seq<Row>, keep: Row -> bool)
    ensures Filter(keep, Prefixed(l, right[|right|..])) == []
  {
  }

  lemma NoLeftRows(left: seq<Row>, right: seq<Row>, keep: Row -> bool)
    ensures JoinRows(left[|left|..], right, keep) == []
  {
  }

  // A left row whose pairs all gave a boolean joins those before it.
  lemma RowChecked(e: Expr, schema: Schema, left: seq<Row>, right: seq<Row>, pos: nat)
    requires pos <= |left|
      && (pos > 0 ==> AllBoolean(e, schema, left[..pos - 1], right) && AllBoolean(e, schema, [left[pos - 1]], right))
    ensures AllBoolean(e, schema, left[..pos], right)
    ensures pos == |left| ==> AllBoolean(e, schema, left, right)
  {
    hide Evaluate, FlatLook;
    forall l, r | l in left[..pos] && r in right ensures GivesBoolean(e, FlatLook(schema, l + r)) {
      assert l in left[..pos - 1] || l in [left[pos - 1]];
    }
    assert pos == |left| ==> left[..pos] == left;
  }

  lemma NoneChecked(e: Expr, schema: Schema, left: seq<Row>, right: seq<Row>)
    ensures AllBoolean(e, schema, left, right[..0])
  {
  }

  lemma PairChecked(e: Expr, schema: Schema, l: Row, right: seq<Row>, pos: nat)
    requires 0 < pos <= |right| && AllBoolean(e, schema, [l], right[..pos - 1])
      && GivesBoolean(e, FlatLook(schema, l + right[pos - 1]))
    ensures AllBoolean(e, schema, [l], right[..pos])
  {
    hide Evaluate, FlatLook;
    assert right[..pos] == right[..pos - 1] + [right[pos - 1]];
  }

  lemma NotBoolean(e: Expr, schema: Schema, left: seq<Row>, right: seq<Row>, l: Row, r: Row)
    requires l in left && r in right && !GivesBoolean(e, FlatLook(schema, l + r))
    ensures !AllBoolean(e, schema, left, right)
  {
  }

  class NestedLoopJoinExec {
    const condition: Expr
    const schema: Schema
    const left: RowSource
    const right: RowSource
    var right_rows: seq<Row>
    var current_left: Option<Row>
    var right_pos: nat
    var left_exhausted: bool

    constructor (condition: Expr, schema: Schema, left: RowSource, right: RowSource)
      ensures this.condition == condition && this.schema == schema && this.left == left && this.right == right
    {
      this.condition, this.schema, this.left, this.right := condition, schema, left, right;
      right_rows, current_left, right_pos, left_exhausted := [], None, 0, false;
    }

    ghost predicate Valid()
      reads this, left
    {
      && left.Valid() && right_pos <= |right_rows| && right_rows == right.rows
      && (left_exhausted ==> left.pos == |left.rows|)
      && (current_left.None? ==> right_pos == 0 && left.pos == 0)
      && (current_left.Some? ==> left.pos > 0 && current_left.value == left.rows[left.pos - 1])
      && (current_left.Some? && left_exhausted ==> right_pos == |right_rows|)
      && Checked()
    }

    // Every pair passed so far gave a boolean.
    ghost predicate Checked()
      requires left.Valid() && right_pos <= |right_rows|
      reads this, left
    {
      && AllBoolean(condition, schema, left.rows[..if left.pos > 0 then left.pos - 1 else 0], right_rows)
      && (left.pos > 0 ==> AllBoolean(condition, schema, [left.rows[left.pos - 1]], right_rows[..right_pos]))
    }

    // The rows still to come.
    ghost function Remaining(): seq<Row>
      requires Valid()
      reads this, left
    {
      var keep := Keeps(condition, schema);
      if left_exhausted then []
      else (if current_left.Some? then Filter(keep, Prefixed(current_left.value, right_rows[right_pos..])) else [])
           + JoinRows(left.rows[left.pos..], right_rows, keep)
    }

    method Open()
      requires left != right
      modifies this, left, right
      ensures Valid() && Remaining() == JoinRows(left.rows, right.rows, Keeps(condition, schema))
    {
      left.Open();
      right.Open();
      right_rows := right.DrainAll();
      right_pos, left_exhausted, current_left := 0, false, None;
      assert left.rows[0..] == left.rows && left.rows[..0] == [];
    }

    // Moves to the next left row; nothing still to come is lost.
    method AdvanceLeft() returns (more: bool)
      requires Valid() && !left_exhausted && (current_left.Some? ==> right_pos == |right_rows|)
      modifies this`current_left, this`right_pos, this`left_exhausted, left
      ensures Valid() && Remaining() == old(Remaining())
      ensures more <==> !left_exhausted
      ensures more ==> current_left.Some? && left.pos == old(left.pos) + 1
      ensures !more ==> Remaining() == [] && AllBoolean(condition, schema, left.rows, right.rows)
    {
      hide Filter, Prefixed, JoinRows, Evaluate, FlatLook, AllBoolean;
      assert right_rows[..|right_rows|] == right_rows;
      RowChecked(condition, schema, left.rows, right_rows, left.pos);
      if current_left.Some? {
        NoPairsLeft(current_left.value, right_rows, Keeps(condition, schema));
      }
      NoLeftRows(left.rows, right_rows, Keeps(condition, schema));
      var l := left.Next();
      if l.None? {
        left_exhausted := true;
        return false;
      }
      JoinHead(left.rows, right_rows, left.pos - 1, Keeps(condition, schema));
      current_left := l;
      right_pos := 0;
      assert right_rows[0..] == right_rows;
      NoneChecked(condition, schema, [l.value], right_rows);
      return true;
    }

    // The next matching pair for the current left row, if it has one.
    method ScanRight() returns (r: Result<Option<Row>>)
      requires Valid() && !left_exhausted && current_left.Some?
      modifies this`right_pos
      ensures r.Ok? ==> Valid()
      ensures r.Err? ==> !AllBoolean(condition, schema, left.rows, right.rows)
      ensures r.Ok? && r.value.Some? ==> old(Remaining()) == [r.value.value] + Remaining()
      ensures r.Ok? && r.value.None? ==> Remaining() == old(Remaining()) && right_pos == |right_rows|
    {
      hide Filter, Prefixed, JoinRows, Evaluate, FlatLook, AllBoolean;
      while right_pos < |right_rows|
        invariant Valid() && Remaining() == old(Remaining())
      {
        var combined := current_left.value + right_rows[right_pos];
        PrefixedHead(current_left.value, right_rows, right_pos, Keeps(condition, schema));
        right_pos := right_pos + 1;
        var v := Evaluate(condition, FlatLook(schema, combined));
        if v.None? || !v.value.Boolean? {
          NotBoolean(condition, schema, left.rows, right_rows, current_left.value, right_rows[right_pos - 1]);
          return Err("execution: expected a boolean value");
        }
        PairChecked(condition, schema, current_left.value, right_rows, right_pos);
        if v.value.bool_val {
          return Ok(Some(combined));
        }
      }
      r := Ok(None);
    }

    method Next() returns (r: Result<Option<Row>>)
      requires Valid()
      modifies this`current_left, this`right_pos, this`left_exhausted, left
      ensures r.Ok? ==> Valid()
      ensures r.Err? ==> !AllBoolean(condition, schema, left.rows, right.rows)
      ensures r.Ok? && r.value.Some? ==> old(Remaining()) == [r.value.value] + Remaining()
      ensures r.Ok? && r.value.None? ==>
        old(Remaining()) == [] == Remaining() && AllBoolean(condition, schema, left.rows, right.rows)
    {
      hide AllBoolean, Filter, Prefixed, JoinRows;
      if current_left.None? && !left_exhausted {
        var more := AdvanceLeft();
        if !more {
          return Ok(None);
        }
      }
      while !left_exhausted
        invariant Valid() && Remaining() == old(Remaining()) && (!left_exhausted ==> current_left.Some?)
        decreases |left.rows| - left.pos, !left_exhausted
      {
        r := ScanRight();
        if r.Err? || r.value.Some? {
          return;
        }
        var more := AdvanceLeft();
        if !more {
          return Ok(None);
        }
      }
      AllChecked();
      r := Ok(None);
    }

    lemma AllChecked()
      requires Valid() && left_exhausted
      ensures AllBoolean(condition, schema, left.rows, right.rows)
    {
      hide AllBoolean;
      assert right_rows[..|right_rows|] == right_rows;
      RowChecked(condition, schema, left.rows, right_rows, left.pos);
    }

    // open and next until nothing comes: exactly the matching pairs, left-major.
    method Drain() returns (r: Result<seq<Row>>)
      requires left != right
      modifies this, left, right
      ensures r.Ok? <==> AllBoolean(condition, schema, left.rows, right.rows)
      ensures r.Ok? ==> r.value == JoinRows(left.rows, right.rows, Keeps(condition, schema))
    {
      hide *;
      Open();
      var out: seq<Row> := [];
      while true
        invariant Valid() && out + Remaining() == JoinRows(left.rows, right.rows, Keeps(condition, schema))
        decreases |Remaining()|
      {
        var x := Next();
        if x.Err? {
          return Err(x.error);
        }
        if x.value.None? {
          break;
        }
        assert out + ([x.value.value] + Remaining()) == (out + [x.value.value]) + Remaining();
        out := out + [x.value.value];
      }
      r := Ok(out);
    }
  }

  // ---- HashJoinExec ----

  function KeyIs(key: nat, text: string): Row -> bool
  {
    (row: Row) => key < |row| && LiteralText(row[key]) == text
  }

  function Bucket(build: map<string, seq<Row>>, text: string): seq<Row>
  {
    if text in build then build[text] else []
  }

  // The buckets hold the right rows by the text of their key, each bucket in
  // some order.
  ghost predicate Built(build: map<string, seq<Row>>, key: nat, rows: seq<Row>)
  {
    forall text :: multiset(Bucket(build, text)) == multiset(Filter(KeyIs(key, text), rows))
  }

  lemma BuiltMore(build: map<string, seq<Row>>, key: nat, rows: seq<Row>, row: Row, at: nat)
    requires Built(build, key, rows) && key < |row| && at <= |Bucket(build, LiteralText(row[key]))|
    ensures var text := LiteralText(row[key]); var b := Bucket(build, text);
      Built(build[text := b[..at] + [row] + b[at..]], key, rows + [row])
  {
    hide LiteralText, Filter;
    var text := LiteralText(row[key]);
    var b := Bucket(build, text);
    var build' := build[text := b[..at] + [row] + b[at..]];
    InsertedBag(b, at, row);
    forall t ensures multiset(Bucket(build', t)) == multiset(Filter(KeyIs(key, t), rows + [row])) {
      FilterSnoc(KeyIs(key, t), rows, row);
    }
  }

  lemma InsertedBag<T>(b: seq<T>, at: nat, x: T)
    requires at <= |b|
    ensures multiset(b[..at] + [x] + b[at..]) == multiset(b) + multiset{x}
  {
    assert b == b[..at] + b[at..];
  }

  lemma FilterSnoc<T>(keep: T -> bool, s: seq<T>, x: T)
    ensures multiset(Filter(keep, s + [x])) == multiset(Filter(keep, s)) + (if keep(x) then multiset{x} else multiset{})
  {
    FilterAppend(keep, s, [x]);
    assert Filter(keep, [x]) == if keep(x) then [x] else [];
  }

  // The pairs kept for a left row are the row before its bucket.
  lemma KeptPairs(l: Row, right: seq<Row>, i: nat, j: nat)
    requires i < |l|
    ensures Filter(SameText(i, |l| + j), Prefixed(l, right)) == Prefixed(l, Filter(KeyIs(j, LiteralText(l[i])), right))
  {
    hide LiteralText, Filter, Prefixed;
    forall r | r in right ensures SameText(i, |l| + j)(l + r) == KeyIs(j, LiteralText(l[i]))(r) {
      assert (l + r)[i] == l[i] && (j < |r| ==> (l + r)[|l| + j] == r[j]);
    }
    FilterPrefixed(l, right, KeyIs(j, LiteralText(l[i])), SameText(i, |l| + j));
  }

  lemma {:induction false} PrefixedPermutes(l: Row, a: seq<Row>, b: seq<Row>)
    requires multiset(a) == multiset(b)
    ensures multiset(Prefixed(l, a)) == multiset(Prefixed(l, b))
  {
    forall x ensures multiset(Prefixed(l, a))[x] == multiset(Prefixed(l, b))[x] {
      if |x| >= |l| {
        PrefixedCount(l, a, x);
        PrefixedCount(l, b, x);
      } else {
        TooShort(l, a, x);
        TooShort(l, b, x);
      }
    }
  }

  lemma {:induction false} TooShort(l: Row, rows: seq<Row>, x: Row)
    requires |x| < |l|
    ensures multiset(Prefixed(l, rows))[x] == 0
  {
    if rows != [] {
      TooShort(l, rows[1..], x);
      assert |l + rows[0]| >= |l|;
    }
  }

  lemma LeftRowProbes(l: Row, left: seq<Row>, right: seq<Row>, n: nat, i: nat, j: nat, build: map<string, seq<Row>>)
    requires Built(build, j, right) && n < |left| && left[n] == l && i < |l|
    ensures multiset(JoinRows(left[n..], right, SameText(i, |l| + j)))
         == multiset(Prefixed(l, Bucket(build, LiteralText(l[i]))))
           + multiset(JoinRows(left[n + 1..], right, SameText(i, |l| + j)))
  {
    hide LiteralText, Filter, Prefixed, JoinRows;
    JoinHead(left, right, n, SameText(i, |l| + j));
    KeptPairs(l, right, i, j);
    PrefixedPermutes(l, Filter(KeyIs(j, LiteralText(l[i])), right), Bucket(build, LiteralText(l[i])));
  }

  lemma ProbeStep(l: Row, bucket: seq<Row>, n: nat)
    requires n < |bucket|
    ensures multiset(Prefixed(l, bucket[n..])) == multiset{l + bucket[n]} + multiset(Prefixed(l, bucket[n + 1..]))
  {
    assert bucket[n..][0] == bucket[n] && bucket[n..][1..] == bucket[n + 1..];
  }

  class HashJoinExec {
    const left_key: nat
    const right_key: nat
    const left_width: nat
    const left: RowSource
    const right: RowSource
    var build: map<string, seq<Row>>
    var current_left: Row
    var probe: seq<Row>
    var probe_pos: nat
    var probing: bool

    // The constructor's choice of keys.
    constructor (condition: Expr, left_schema: Schema, right_schema: Schema, left: RowSource, right: RowSource)
      requires HashKeys(condition, left_schema, right_schema).Some?
      ensures left_key == HashKeys(condition, left_schema, right_schema).value.0
      ensures right_key == HashKeys(condition, left_schema, right_schema).value.1
      ensures left_width == |left_schema| && this.left == left && this.right == right
    {
      var keys := HashKeys(condition, left_schema, right_schema).value;
      this.left_key, this.right_key, this.left_width := keys.0, keys.1, |left_schema|;
      this.left, this.right := left, right;
      build, current_left, probe, probe_pos, probing := map[], [], [], 0, false;
    }

    // Rows are as wide as the schemas the keys were resolved in.
    ghost predicate Fits()
    {
      && left_key < left_width
      && (forall r :: r in left.rows ==> |r| == left_width)
      && forall r :: r in right.rows ==> right_key < |r|
    }

    ghost predicate Valid()
      reads this, left
    {
      && Fits() && left.Valid() && Built(build, right_key, right.rows) && probe_pos <= |probe|
    }

    // The pairs still to come, in no particular order.
    ghost function Remaining(): multiset<Row>
      requires Valid()
      reads this, left
    {
      (if probing then multiset(Prefixed(current_left, probe[probe_pos..])) else multiset{})
      + multiset(JoinRows(left.rows[left.pos..], right.rows, SameText(left_key, left_width + right_key)))
    }

    method Open()
      requires left != right && Fits()
      modifies this, left, right
      ensures Valid()
        && Remaining() == multiset(JoinRows(left.rows, right.rows, SameText(left_key, left_width + right_key)))
    {
      hide LiteralText, JoinRows, Prefixed;
      left.Open();
      right.Open();
      build := map[];
      while true
        invariant right.Valid() && left.Valid() && left.pos == 0 && Built(build, right_key, right.rows[..right.pos])
        decreases |right.rows| - right.pos
      {
        var r := right.Next();
        if r.None? {
          break;
        }
        assert r.value in right.rows && right.rows[..right.pos] == right.rows[..right.pos - 1] + [r.value];
        var text := LiteralText(r.value[right_key]);
        var bucket := Bucket(build, text);
        // where the new entry lands among equal keys is the container's choice
        var at: nat :| at <= |bucket|;
        BuiltMore(build, right_key, right.rows[..right.pos - 1], r.value, at);
        build := build[text := bucket[..at] + [r.value] + bucket[at..]];
      }
      assert right.rows[..right.pos] == right.rows && left.rows[0..] == left.rows;
      probing := false;
      probe, probe_pos := [], 0;
    }

    // Moves to the next left row and its bucket.
    method AdvanceLeft() returns (more: bool)
      requires Valid() && !probing
      modifies this`current_left, this`probe, this`probe_pos, this`probing, left
      ensures Valid() && Remaining() == old(Remaining())
      ensures more ==> left.pos == old(left.pos) + 1
      ensures !more ==> Remaining() == multiset{}
    {
      hide LiteralText, JoinRows, Prefixed, Built;
      var l := left.Next();
      if l.None? {
        NoLeftRows(left.rows, right.rows, SameText(left_key, left_width + right_key));
        return false;
      }
      assert l.value in left.rows;
      LeftRowProbes(l.value, left.rows, right.rows, left.pos - 1, left_key, right_key, build);
      current_left := l.value;
      probe := Bucket(build, LiteralText(l.value[left_key]));
      assert probe[0..] == probe;
      probe_pos, probing := 0, true;
      return true;
    }

    // The next pair of the current left row; past the last, probing ends.
    method TakeFromBucket() returns (row: Option<Row>)
      requires Valid() && probing
      modifies this`probe_pos, this`probing
      ensures Valid()
      ensures row.Some? ==> old(Remaining()) == multiset{row.value} + Remaining()
      ensures row.None? ==> old(Remaining()) == Remaining() && !probing
    {
      hide JoinRows, Prefixed, Built, SameText;
      if probe_pos < |probe| {
        ProbeStep(current_left, probe, probe_pos);
        row := Some(current_left + probe[probe_pos]);
        probe_pos := probe_pos + 1;
        return;
      }
      NothingLeft(current_left, probe);
      probing := false;
      row := None;
    }

    method Next() returns (row: Option<Row>)
      requires Valid()
      modifies this`current_left, this`probe, this`probe_pos, this`probing, left
      ensures Valid()
      ensures row.Some? ==> old(Remaining()) == multiset{row.value} + Remaining()
      ensures row.None? ==> old(Remaining()) == multiset{} == Remaining()
    {
      hide JoinRows, Prefixed, Built, SameText, Remaining, Fits;
      while true
        invariant Valid() && Remaining() == old(Remaining())
        decreases |left.rows| - left.pos
      {
        if probing {
          row := TakeFromBucket();
          if row.Some? {
            return;
          }
        }
        var more := AdvanceLeft();
        if !more {
          return None;
        }
      }
    }

    // open and next until nothing comes: the pairs with keys of one text.
    method Drain() returns (out: seq<Row>)
      requires left != right && Fits()
      modifies this, left, right
      ensures multiset(out) == multiset(JoinRows(left.rows, right.rows, SameText(left_key, left_width + right_key)))
    {
      hide *;
      Open();
      out := [];
      while true
        invariant Valid()
        invariant multiset(out) + Remaining()
          == multiset(JoinRows(left.rows, right.rows, SameText(left_key, left_width + right_key)))
        decreases |Remaining()|
      {
        var x := Next();
        if x.None? {
          break;
        }
        out := out + [x.value];
      }
    }
  }

  lemma NothingLeft(l: Row, bucket: seq<Row>)
    ensures Prefixed(l, bucket[|bucket|..]) == []
  {
  }

  // ---- The two joins agree ----

  // Text and value agree on the keys of every pair.
  ghost predicate KeysAgree(left: seq<Row>, right: seq<Row>, i: nat, j: nat)
  {
    forall l, r :: l in left && r in right ==> i < |l| && j < |r| && TextAgrees(l[i], r[j])
  }

  lemma PairKept(condition: Expr, left: Schema, right: Schema, l: Row, r: Row)
    requires HashKeys(condition, left, right).Some? && |l| == |left| && |r| == |right|
    requires var keys := HashKeys(condition, left, right).value; Compares(condition, left, right, keys.0, keys.1)
    ensures var keys := HashKeys(condition, left, right).value;
      && Keeps(condition, left + right)(l + r) == LiteralEqual(l[keys.0], r[keys.1])
      && SameText(keys.0, |left| + keys.1)(l + r) == (LiteralText(l[keys.0]) == LiteralText(r[keys.1]))
  {
    hide LiteralText, LiteralEqual, Resolve;
    var keys, x := HashKeys(condition, left, right).value, l + r;
    assert x[keys.0] == l[keys.0] && x[|left| + keys.1] == r[keys.1];
    var look := FlatLook(left + right, x);
    assert Evaluate(condition.left, look) == look(condition.left.table, condition.left.column);
    assert Evaluate(condition.right, look) == look(condition.right.table, condition.right.column);
    EqualitySymmetric(l[keys.0], r[keys.1]);
  }

  // The two joins give the same bag exactly when text and value agree on the
  // keys of every pair; then they give the same rows in the same order.
  lemma JoinsAgree(condition: Expr, left_schema: Schema, right_schema: Schema, left: seq<Row>, right: seq<Row>)
    requires HashKeys(condition, left_schema, right_schema).Some?
    requires (forall l :: l in left ==> |l| == |left_schema|) && forall r :: r in right ==> |r| == |right_schema|
    requires var keys := HashKeys(condition, left_schema, right_schema).value;
      Compares(condition, left_schema, right_schema, keys.0, keys.1)
    ensures var keys := HashKeys(condition, left_schema, right_schema).value;
      var nested, hashed := JoinRows(left, right, Keeps(condition, left_schema + right_schema)),
        JoinRows(left, right, SameText(keys.0, |left_schema| + keys.1));
      && (multiset(nested) == multiset(hashed) <==> KeysAgree(left, right, keys.0, keys.1))
      && (KeysAgree(left, right, keys.0, keys.1) ==> nested == hashed)
  {
    hide LiteralText, LiteralEqual, JoinRows, HashKeys, Keeps, SameText, TextAgrees;
    var keys := HashKeys(condition, left_schema, right_schema).value;
    var keep, same := Keeps(condition, left_schema + right_schema), SameText(keys.0, |left_schema| + keys.1);
    KeysWithin(condition, left_schema, right_schema);
    forall l, r | l in left && r in right ensures keep(l + r) == same(l + r) <==> TextAgrees(l[keys.0], r[keys.1]) {
      PairKept(condition, left_schema, right_schema, l, r);
      TextDecidesEquality(l[keys.0], r[keys.1]);
    }
    if KeysAgree(left, right, keys.0, keys.1) {
      JoinCongruence(left, right, keep, same);
    } else {
      var l, r :| l in left && r in right && !TextAgrees(l[keys.0], r[keys.1]);
      DifferentBags(left, right, keep, same, l, r);
    }
  }

  lemma KeysWithin(e: Expr, left: Schema, right: Schema)
    requires HashKeys(e, left, right).Some?
    ensures HashKeys(e, left, right).value.0 < |left| && HashKeys(e, left, right).value.1 < |right|
  {
  }

  // Joins that differ on a pair differ as bags.
  lemma DifferentBags(left: seq<Row>, right: seq<Row>, p: Row -> bool, q: Row -> bool, l: Row, r: Row)
    requires l in left && r in right && p(l + r) != q(l + r) && forall a :: a in left ==> |a| == |l|
    ensures multiset(JoinRows(left, right, p)) != multiset(JoinRows(left, right, q))
  {
    hide JoinRows;
    var x := l + r;
    assert x[..|l|] == l && x[|l|..] == r;
    JoinCount(left, right, p, |l|, x);
    JoinCount(left, right, q, |l|, x);
    assert multiset(left)[l] > 0 && multiset(right)[r] > 0;
    Positive(multiset(left)[l], multiset(right)[r]);
  }

  lemma Positive(a: nat, b: nat)
    requires a > 0 && b > 0
    ensures a * b > 0
  {
  }

  // The two sides of the condition name the two key columns of a joined row.
  ghost predicate Compares(e: Expr, left: Schema, right: Schema, i: nat, j: nat)
    requires HashKeys(e, left, right).Some?
  {
    var a, b := Resolve(left + right, e.left.table, e.left.column),
      Resolve(left + right, e.right.table, e.right.column);
    (a == Some(i) && b == Some(|left| + j)) || (b == Some(i) && a == Some(|left| + j))
  }
}
