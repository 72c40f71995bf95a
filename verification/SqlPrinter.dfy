// The stream printer (parser/sql_printer.cpp), proved to write canonical text.
module SqlPrinter {
  import opened Wrappers
  import opened Decimal
  import opened Ast
  import opened SqlStatements
  import opened SqlText

  function Separator(first: bool): string
  {
    if first then "" else ", "
  }

  class Printer {
    var out: string

    constructor ()
      ensures out == ""
    {
      out := "";
    }

    // print_expr
    method PrintExpr(e: Expr, render: real -> string)
      modifies this
      ensures out == old(out) + ExprText(e, render)
      decreases e, 1
    {
      match e
      case Column(table, column) =>
        if table.Some? {
          out := out + table.value + ".";
        }
        out := out + column;
      case Lit(v) => out := out + LiteralText(v, render);
      case BinaryOp(l, op, r) =>
        out := out + "(";
        PrintExpr(l, render);
        out := out + " " + OperatorText(op) + " ";
        PrintExpr(r, render);
        out := out + ")";
      case UnaryOp(op, x) =>
        out := out + (if op == Not then "NOT " else "-");
        PrintExpr(x, render);
      case Function(name, args) =>
        out := out + name + "(";
        PrintList(args, render);
        out := out + ")";
      case Wildcard => out := out + "*";
    }

    method PrintList(es: seq<Expr>, render: real -> string)
      modifies this
      ensures out == old(out) + ListText(es, render)
      decreases es, 0
    {
      hide ExprText, ListText;
      NothingListed(render);
      for i := 0 to |es|
        invariant out == old(out) + ListText(es[..i], render)
      {
        ghost var before := out;
        if i > 0 {
          out := out + ", ";
        }
        PrintExpr(es[i], render);
        assert es[..i + 1] == es[..i] + [es[i]];
        ListSnoc(es[..i], es[i], render);
        assert out == before + (Separator(i == 0) + ExprText(es[i], render));
      }
      assert es[..|es|] == es;
    }

    method PrintItem(item: SelectItem, render: real -> string)
      modifies this
      ensures out == old(out) + ItemText(item, render)
    {
      hide ExprText;
      match item
      case ItemWildcard => out := out + "*";
      case ItemQualifiedWildcard(table) => out := out + table + ".*";
      case ItemExpression(e, alias) =>
        PrintExpr(e, render);
        if alias.Some? {
          out := out + " AS " + alias.value;
        }
    }

    method PrintItems(items: seq<SelectItem>, render: real -> string)
      modifies this
      ensures out == old(out) + ItemsText(items, render)
    {
      hide ItemText, ItemsText;
      NothingListed(render);
      for i := 0 to |items|
        invariant out == old(out) + ItemsText(items[..i], render)
      {
        ghost var before := out;
        if i > 0 {
          out := out + ", ";
        }
        PrintItem(items[i], render);
        assert items[..i + 1] == items[..i] + [items[i]];
        ItemsSnoc(items[..i], items[i], render);
        assert out == before + (Separator(i == 0) + ItemText(items[i], render));
      }
      assert items[..|items|] == items;
    }

    method PrintTable(t: TableRef)
      modifies this
      ensures out == old(out) + TableText(t)
    {
      out := out + t.table_name;
      if t.alias.Some? {
        out := out + " " + t.alias.value;
      }
    }

    method PrintJoins(joins: seq<JoinClause>, render: real -> string)
      modifies this
      ensures out == old(out) + JoinsText(joins, render)
    {
      hide ExprText, TableText, JoinWord, JoinsText;
      NothingListed(render);
      for i := 0 to |joins|
        invariant out == old(out) + JoinsText(joins[..i], render)
      {
        ghost var before := out;
        out := out + " " + JoinWord(joins[i].join_type) + " JOIN ";
        PrintTable(joins[i].table);
        out := out + " ON ";
        PrintExpr(joins[i].condition, render);
        assert joins[..i + 1] == joins[..i] + [joins[i]];
        JoinsSnoc(joins[..i], joins[i], render);
        assert out == before + JoinText(joins[i], render);
      }
      assert joins[..|joins|] == joins;
    }

    method PrintClause(word: string, e: Option<Expr>, render: real -> string)
      modifies this
      ensures out == old(out) + ClauseText(word, e, render)
    {
      hide ExprText;
      if e.Some? {
        out := out + " " + word + " ";
        PrintExpr(e.value, render);
      }
    }

    method PrintGroupBy(es: seq<Expr>, render: real -> string)
      modifies this
      ensures out == old(out) + GroupText(es, render)
    {
      hide ListText;
      if es != [] {
        out := out + " GROUP BY ";
        PrintList(es, render);
        Spelled(ListText(es, render));
      }
    }

    method PrintOrderItem(i: OrderByItem, render: real -> string)
      modifies this
      ensures out == old(out) + OrderItemText(i, render)
    {
      hide ExprText;
      PrintExpr(i.expression, render);
      out := out + (if i.ascending then " ASC" else " DESC");
    }

    method PrintOrderList(items: seq<OrderByItem>, render: real -> string)
      modifies this
      ensures out == old(out) + OrderListText(items, render)
    {
      hide OrderItemText, OrderListText;
      NothingListed(render);
      for i := 0 to |items|
        invariant out == old(out) + OrderListText(items[..i], render)
      {
        ghost var before := out;
        if i > 0 {
          out := out + ", ";
        }
        PrintOrderItem(items[i], render);
        assert items[..i + 1] == items[..i] + [items[i]];
        OrderSnoc(items[..i], items[i], render);
        assert out == before + (Separator(i == 0) + OrderItemText(items[i], render));
      }
      assert items[..|items|] == items;
    }

    method PrintOrderBy(items: seq<OrderByItem>, render: real -> string)
      modifies this
      ensures out == old(out) + OrderText(items, render)
    {
      hide OrderListText;
      if items != [] {
        out := out + " ORDER BY ";
        PrintOrderList(items, render);
        Spelled(OrderListText(items, render));
      }
    }

    method PrintLimit(limit: Option<nat>)
      modifies this
      ensures out == old(out) + LimitText(limit)
    {
      hide NatText;
      if limit.Some? {
        out := out + " LIMIT " + NatText(limit.value);
        Spelled(NatText(limit.value));
      }
    }

    // The clauses after the joins.
    method PrintClauses(s: SelectStatement, render: real -> string)
      modifies this
      ensures out == old(out) + ClausesText(s, render)
    {
      hide ClauseText, GroupText, OrderText, LimitText;
      PrintClause("WHERE", s.where_clause, render);
      PrintGroupBy(s.group_by, render);
      PrintClause("HAVING", s.having, render);
      PrintOrderBy(s.order_by, render);
      PrintLimit(s.limit);
    }

    // print_statement and to_canonical_sql
    method PrintStatement(s: SelectStatement, render: real -> string)
      modifies this
      ensures out == old(out) + StatementText(s, render)
    {
      hide ItemsText, TableText, JoinsText, ClausesText, StatementText;
      out := out + "SELECT ";
      PrintItems(s.columns, render);
      out := out + " FROM ";
      PrintTable(s.source);
      PrintJoins(s.joins, render);
      PrintClauses(s, render);
      WholeText(s, render);
      ghost var after := TableText(s.source) + (JoinsText(s.joins, render) + ClausesText(s, render));
      Spelled(after);
      SpelledSelect(ItemsText(s.columns, render) + (" FROM " + after));
    }
  }

  lemma Spelled(x: string)
    ensures " " + ("GROUP" + (" " + ("BY" + (" " + x)))) == " GROUP BY " + x
    ensures " " + ("ORDER" + (" " + ("BY" + (" " + x)))) == " ORDER BY " + x
    ensures " " + ("LIMIT" + (" " + x)) == " LIMIT " + x
    ensures " " + ("FROM" + (" " + x)) == " FROM " + x
  {
    assert " " + "GROUP" == " GROUP" && " GROUP" + " " == " GROUP " && " GROUP " + "BY" == " GROUP BY"
      && " GROUP BY" + " " == " GROUP BY ";
    assert " " + "ORDER" == " ORDER" && " ORDER" + " " == " ORDER " && " ORDER " + "BY" == " ORDER BY"
      && " ORDER BY" + " " == " ORDER BY ";
    assert " " + "LIMIT" == " LIMIT" && " LIMIT" + " " == " LIMIT ";
    assert " " + "FROM" == " FROM" && " FROM" + " " == " FROM ";
  }

  lemma SpelledSelect(x: string)
    ensures "SELECT" + (" " + x) == "SELECT " + x
  {
    assert "SELECT" + " " == "SELECT ";
  }

  lemma NothingListed(render: real -> string)
    ensures ListText([], render) == "" && ItemsText([], render) == "" && JoinsText([], render) == ""
      && OrderListText([], render) == ""
  {
  }

  lemma {:induction false} ListSnoc(es: seq<Expr>, e: Expr, render: real -> string)
    ensures ListText(es + [e], render) == ListText(es, render) + (Separator(es == []) + ExprText(e, render))
  {
    hide ExprText;
    if es == [] {
      assert es + [e] == [e];
    } else {
      assert (es + [e])[0] == es[0] && (es + [e])[1..] == es[1..] + [e];
      ListSnoc(es[1..], e, render);
    }
  }

  lemma {:induction false} ItemsSnoc(items: seq<SelectItem>, e: SelectItem, render: real -> string)
    ensures ItemsText(items + [e], render) == ItemsText(items, render) + (Separator(items == []) + ItemText(e, render))
  {
    hide ItemText;
    if items == [] {
      assert items + [e] == [e];
    } else {
      assert (items + [e])[0] == items[0] && (items + [e])[1..] == items[1..] + [e];
      ItemsSnoc(items[1..], e, render);
    }
  }

  lemma {:induction false} JoinsSnoc(joins: seq<JoinClause>, j: JoinClause, render: real -> string)
    ensures JoinsText(joins + [j], render) == JoinsText(joins, render) + JoinText(j, render)
  {
    hide JoinText;
    if joins == [] {
      assert joins + [j] == [j];
      assert JoinsText([j], render) == JoinText(j, render) + JoinsText([], render);
    } else {
      assert (joins + [j])[0] == joins[0] && (joins + [j])[1..] == joins[1..] + [j];
      JoinsSnoc(joins[1..], j, render);
    }
  }

  lemma {:induction false} OrderSnoc(items: seq<OrderByItem>, e: OrderByItem, render: real -> string)
    ensures OrderListText(items + [e], render)
      == OrderListText(items, render) + (Separator(items == []) + OrderItemText(e, render))
  {
    hide OrderItemText;
    if items == [] {
      assert items + [e] == [e];
    } else {
      assert (items + [e])[0] == items[0] && (items + [e])[1..] == items[1..] + [e];
      OrderSnoc(items[1..], e, render);
    }
  }
}
