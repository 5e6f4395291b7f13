// The fluent SQL text builders. Each builder keeps its clauses in fields that
// the fluent calls overwrite or extend; `build` concatenates them in a fixed
// order. The text of a WHERE condition produced by the i/j/t helpers is tied
// to the condition datatype of the offer repositories, whose meaning is given
// there.

module SqlBuilders {
  import opened Wrappers
  import opened Text
  import opened Repositories
  import opened Seqs

  /** A column argument: Python accepts a list (joined with ", ") or a plain string. */
  datatype Columns = ColumnList(names: seq<string>) | ColumnText(text: string)

  function ColumnsText(c: Columns): (r: string)
    ensures c.ColumnText? ==> r == c.text
    ensures c.ColumnList? && |c.names| == 1 ==> r == c.names[0]
  {
    match c
    case ColumnList(names) => Join(", ", names)
    case ColumnText(t) => t
  }

  function GroupByText(c: Columns): string { "GROUP BY " + ColumnsText(c) }

  function OrderByText(column: string, ascending: bool): string
  {
    "ORDER BY " + column + " " + (if ascending then "ASC" else "DESC")
  }

  function LimitText(n: int): string { "LIMIT " + IntToString(n) }

  /** The body after WHERE: the conditions joined by " AND ", or the tautology 1=1. */
  function WhereBody(conds: seq<string>): (r: string)
    ensures conds == [] ==> r == "1=1"
    ensures |conds| == 1 ==> r == conds[0]
  {
    if conds == [] then "1=1" else Join(" AND ", conds)
  }

  /** Appending a condition appends " AND " and its text to a non-empty body. */
  lemma WhereBodySnoc(conds: seq<string>, c: string)
    requires conds != []
    ensures WhereBody(conds + [c]) == WhereBody(conds) + " AND " + c
  {
    assert (conds + [c])[..|conds + [c]| - 1] == conds;
  }

  /** The body of the conditions `where` received in call order, each one kept in full. */
  lemma {:induction false} WhereBodyContainsEach(conds: seq<string>, i: int)
    requires 0 <= i < |conds|
    ensures exists a, b :: WhereBody(conds) == a + conds[i] + b
  {
    if |conds| == 1 {
      assert WhereBody(conds) == "" + conds[i] + "";
    } else {
      var init := conds[..|conds| - 1];
      var last := conds[|conds| - 1];
      assert conds == init + [last];
      WhereBodySnoc(init, last);
      if i == |conds| - 1 {
        assert WhereBody(conds) == (WhereBody(init) + " AND ") + conds[i] + "";
      } else {
        WhereBodyContainsEach(init, i);
        var a, b :| WhereBody(init) == a + init[i] + b;
        assert init[i] == conds[i];
        AppendAssoc(a + conds[i] + b, " AND ", last);
        AppendAssoc(a + conds[i], b, " AND " + last);
        assert WhereBody(conds) == a + conds[i] + (b + (" AND " + last));
      }
    }
  }

  /** The SQL text of one offer-table condition. */
  function CondText(c: Cond): string
  {
    match c
    case ProductIs(p) => "produkt_id = '" + p + "'"
    case FirmIs(f) => "haendler_bez = '" + f + "'"
    case Overlaps(s, e) => "(dtimebegin <= " + IntToString(e) + " AND dtimeend >= " + IntToString(s) + ")"
    case EndsFrom(s) => "dtimeend >= " + IntToString(s)
    case BeginsBy(e) => "dtimebegin <= " + IntToString(e)
  }

  function CondTexts(cs: seq<Cond>): (r: seq<string>)
    ensures |r| == |cs| && forall i :: 0 <= i < |cs| ==> r[i] == CondText(cs[i])
  {
    seq(|cs|, i requires 0 <= i < |cs| => CondText(cs[i]))
  }

  /** Python truthiness of an optional string argument: None and "" are false. */
  predicate Truthy(s: Option<string>) { s.Some? && s.value != "" }

  /** The product condition, present when the product is truthy. */
  function ProductFilterText(product: Option<string>): (r: seq<string>)
    ensures |r| == if Truthy(product) then 1 else 0
  {
    if Truthy(product) then ["produkt_id = '" + product.value + "'"] else []
  }

  /** The firm condition, present when the firm is truthy. */
  function FirmFilterText(firm: Option<string>): (r: seq<string>)
    ensures |r| == if Truthy(firm) then 1 else 0
  {
    if Truthy(firm) then ["haendler_bez = '" + firm.value + "'"] else []
  }

  /** One time condition chosen by which bounds are not None. */
  function PeriodFilterText(start: Option<int>, end: Option<int>): (r: seq<string>)
    ensures |r| == if start.None? && end.None? then 0 else 1
  {
    if start.Some? && end.Some? then
      ["(dtimebegin <= " + IntToString(end.value) + " AND dtimeend >= " + IntToString(start.value) + ")"]
    else if start.Some? then ["dtimeend >= " + IntToString(start.value)]
    else if end.Some? then ["dtimebegin <= " + IntToString(end.value)]
    else []
  }

  /**
   * The conditions the i/j/t helpers append, as text: product and firm only
   * when truthy, then one time condition chosen by which bounds are not None.
   */
  function IjtConditionTexts(product: Option<string>, firm: Option<string>,
                             start: Option<int>, end: Option<int>): (r: seq<string>)
    ensures |r| <= 3
    ensures start.None? && end.None? ==> |r| == (if Truthy(product) then 1 else 0) + (if Truthy(firm) then 1 else 0)
  {
    ProductFilterText(product) + FirmFilterText(firm) + PeriodFilterText(start, end)
  }

  /**
   * The text the helper appends is the rendering of the repository conditions,
   * so its meaning is `Repositories.IjtCondsMeaning`: an absent filter is dropped.
   */
  lemma IjtConditionTextsRender(product: Option<string>, firm: Option<string>,
                                start: Option<int>, end: Option<int>)
    ensures IjtConditionTexts(product, firm, start, end)
         == CondTexts(IjtConds(product.GetOr(""), firm.GetOr(""), start, end))
  {
    var p, f := product.GetOr(""), firm.GetOr("");
    var a := if p != "" then [ProductIs(p)] else [];
    var b := if f != "" then [FirmIs(f)] else [];
    var c := if start.Some? && end.Some? then [Overlaps(start.value, end.value)]
             else if start.Some? then [EndsFrom(start.value)]
             else if end.Some? then [BeginsBy(end.value)]
             else [];
    assert IjtConds(p, f, start, end) == a + b + c;
    assert ProductFilterText(product) == CondTexts(a);
    assert FirmFilterText(firm) == CondTexts(b);
    assert PeriodFilterText(start, end) == CondTexts(c);
    CondTextsAppend(a, b);
    CondTextsAppend(a + b, c);
  }

  lemma CondTextsAppend(a: seq<Cond>, b: seq<Cond>)
    ensures CondTexts(a + b) == CondTexts(a) + CondTexts(b)
  {
  }

  /** A full set of clauses, as held by the full builders. */
  datatype Clauses = Clauses(
    table: string, columns: string, distinct: bool, conditions: seq<string>,
    groupBy: string, orderBy: string, limit: string, join: string,
    window: string, with: string, having: string)

  /** SELECT [DISTINCT] cols FROM table joins WHERE body, with the builder's own spacing. */
  function SelectCore(c: Clauses): string
  {
    "SELECT " + (if c.distinct then "DISTINCT" else "") + " " + c.columns
    + " FROM " + c.table + " " + c.join + " WHERE " + WhereBody(c.conditions)
  }

  /** The clauses after WHERE, each preceded by one space. */
  function TailClauses(c: Clauses): string
  {
    " " + c.groupBy + " " + c.having + " " + c.orderBy + " " + c.limit + " " + c.window
  }

  /** The text before the surrounding whitespace is removed: the CTE, one space, the core and the tail. */
  function RawQuery(c: Clauses): string
  {
    c.with + " " + SelectCore(c) + TailClauses(c)
  }

  /** `build`: the clauses in fixed order, with only the two ends stripped. */
  function RenderQuery(c: Clauses): (r: string)
    ensures exists i, j :: 0 <= i <= j <= |RawQuery(c)| && r == RawQuery(c)[i..j]
  {
    Strip(RawQuery(c))
  }

  function EndsClean(s: string): bool
  {
    s != [] && !IsSpace(s[0]) && !IsSpace(s[|s| - 1])
  }

  /**
   * A plain SELECT: with no CTE and no clause after WHERE the text is the
   * core alone, so the double spaces inside it ("SELECT  *" without DISTINCT,
   * "t  WHERE" without joins) are kept and only the padding at the ends goes.
   */
  lemma RenderPlainSelect(c: Clauses)
    requires c.with == "" && c.groupBy == "" && c.having == "" && c.orderBy == ""
    requires c.limit == "" && c.window == ""
    requires c.conditions == [] || EndsClean(WhereBody(c.conditions))
    ensures RenderQuery(c) == SelectCore(c)
  {
    var w := WhereBody(c.conditions);
    var core := SelectCore(c);
    assert w != [] && !IsSpace(w[|w| - 1]);
    assert core[0] == 'S';
    assert core[|core| - 1] == w[|w| - 1];
    assert TailClauses(c) == "     ";
    assert RawQuery(c) == " " + core + "     ";
    StripPadded(" ", core, "     ");
  }

  /** With a CTE first and a window last, nothing is stripped: the text is exactly the raw concatenation. */
  lemma RenderKeepsAll(c: Clauses)
    requires EndsClean(c.with) && EndsClean(c.window)
    ensures RenderQuery(c) == RawQuery(c)
  {
    var raw := RawQuery(c);
    assert raw == [] + raw + [];
    StripPadded([], raw, []);
  }

  /**
   * SimpleSQLBaseQueryBuilder (impl/db/simple_sql_base_query_builder.py) and
   * QueryBuilder (impl/db/querybuilder.py): the same class under two names;
   * only the i/j/t helper is named differently (`build_ijt_where_clause`,
   * `build_where_clause`). Fluent calls return the receiver, so chaining is a
   * sequence of calls here.
   */
  class QueryBuilder {
    var table: string
    var columns: string
    var distinct: bool
    var conditions: seq<string>
    var groupBy: string
    var orderBy: string
    var limit: string
    var join: string
    var window: string
    var with: string
    var having: string

    function State(): Clauses
      reads this
    {
      Clauses(table, columns, distinct, conditions, groupBy, orderBy, limit, join, window, with, having)
    }

    /** The constructor with every keyword argument at its default. */
    constructor (tableName: string)
      ensures State() == Clauses(tableName, "*", false, [], "", "", "", "", "", "", "")
    {
      table, columns, distinct, conditions := tableName, "*", false, [];
      groupBy, orderBy, limit, join, window, with, having := "", "", "", "", "", "", "";
    }

    /** The constructor with keyword arguments; a falsy condition list (None or []) becomes []. */
    constructor WithClauses(tableName: string, selectColumns: string, isDistinct: bool,
                            initial: Option<seq<string>>, groupByClause: string,
                            orderByClause: string, limitClause: string, joinClause: string,
                            windowClause: string, withClause: string, havingClause: string)
      ensures State() == Clauses(tableName, selectColumns, isDistinct, initial.GetOr([]),
                                 groupByClause, orderByClause, limitClause, joinClause,
                                 windowClause, withClause, havingClause)
    {
      table, columns, distinct, conditions := tableName, selectColumns, isDistinct, initial.GetOr([]);
      groupBy, orderBy, limit, join := groupByClause, orderByClause, limitClause, joinClause;
      window, with, having := windowClause, withClause, havingClause;
    }

    method Select(cols: Columns)
      modifies this`columns
      ensures State() == old(State()).(columns := ColumnsText(cols))
    {
      columns := ColumnsText(cols);
    }

    method Distinct()
      modifies this`distinct
      ensures State() == old(State()).(distinct := true)
    {
      distinct := true;
    }

    /** Appends one condition; earlier conditions stay in call order. */
    method Where(condition: string)
      modifies this`conditions
      ensures State() == old(State()).(conditions := old(conditions) + [condition])
    {
      conditions := conditions + [condition];
    }

    method GroupBy(cols: Columns)
      modifies this`groupBy
      ensures State() == old(State()).(groupBy := GroupByText(cols))
    {
      groupBy := GroupByText(cols);
    }

    method Having(condition: string)
      modifies this`having
      ensures State() == old(State()).(having := "HAVING " + condition)
    {
      having := "HAVING " + condition;
    }

    method OrderBy(column: string, ascending: bool)
      modifies this`orderBy
      ensures State() == old(State()).(orderBy := OrderByText(column, ascending))
    {
      orderBy := OrderByText(column, ascending);
    }

    method Limit(n: int)
      modifies this`limit
      ensures State() == old(State()).(limit := LimitText(n))
    {
      limit := LimitText(n);
    }

    /** Joins accumulate; the join type is upper-cased and every join ends in a space. */
    method Join(joinType: string, otherTable: string, onCondition: string)
      modifies this`join
      ensures State() == old(State()).(join := old(join) + Upper(joinType) + " JOIN " + otherTable + " ON " + onCondition + " ")
    {
      join := join + Upper(joinType) + " JOIN " + otherTable + " ON " + onCondition + " ";
    }

    method Window(definition: string)
      modifies this`window
      ensures State() == old(State()).(window := definition)
    {
      window := definition;
    }

    /** The first CTE opens "WITH"; later ones are chained with ", ". */
    method WithCte(name: string, query: string)
      modifies this`with
      ensures old(with) == "" ==> State() == old(State()).(with := "WITH " + name + " AS (" + query + ")")
      ensures old(with) != "" ==> State() == old(State()).(with := old(with) + ", " + name + " AS (" + query + ")")
    {
      if with != "" {
        with := with + ", " + name + " AS (" + query + ")";
      } else {
        with := "WITH " + name + " AS (" + query + ")";
      }
    }

    /** `build_ijt_where_clause` / `build_where_clause`: appends the i/j/t conditions in order. */
    method BuildIjtWhereClause(product: Option<string>, firm: Option<string>,
                               start: Option<int>, end: Option<int>)
      modifies this`conditions
      ensures State() == old(State()).(conditions := old(conditions) + IjtConditionTexts(product, firm, start, end))
    {
      conditions := conditions + IjtConditionTexts(product, firm, start, end);
    }

    /** `build` reads the fields only, so calling it twice gives the same text. */
    function Build(): string
      reads this
    {
      RenderQuery(State())
    }

    function InsertInto(target: string): (r: string)
      reads this
      ensures |r| == 13 + |target| + |Build()|
      ensures r[..12] == "INSERT INTO " && r[12..12 + |target|] == target && r[|r| - |Build()|..] == Build()
    {
      var b := Build();
      var r := "INSERT INTO " + target + " " + b;
      assert r[|r| - |b|..] == b;
      r
    }
  }

  /** The reduced builder's `build`: no stripping, so empty trailing clauses leave spaces. */
  function ReducedQuery(table: string, columns: string, conditions: seq<string>,
                        groupBy: string, orderBy: string, limit: string): string
  {
    "SELECT " + columns + " FROM " + table + " WHERE " + WhereBody(conditions)
    + " " + groupBy + " " + orderBy + " " + limit
  }

  /** With no GROUP BY, ORDER BY or LIMIT the reduced text ends in three spaces. */
  lemma ReducedQueryTrailingSpaces(table: string, columns: string, conditions: seq<string>)
    ensures var q := ReducedQuery(table, columns, conditions, "", "", "");
            |q| >= 3 && q[|q| - 3..] == "   "
            && q[..|q| - 3] == "SELECT " + columns + " FROM " + table + " WHERE " + WhereBody(conditions)
  {
  }

  /** The minimal builder's `build`: no GROUP BY and no stripping. */
  function MinimalQuery(table: string, columns: string, conditions: seq<string>,
                        orderBy: string, limit: string): string
  {
    "SELECT " + columns + " FROM " + table + " WHERE " + WhereBody(conditions) + " " + orderBy + " " + limit
  }

  /** QueryBuilder of impl/db/query_builder.py. */
  class ReducedQueryBuilder {
    var table: string
    var columns: string
    var conditions: seq<string>
    var groupBy: string
    var orderBy: string
    var limit: string

    constructor (tableName: string)
      ensures table == tableName && columns == "*" && conditions == []
      ensures groupBy == "" && orderBy == "" && limit == ""
    {
      table, columns, conditions := tableName, "*", [];
      groupBy, orderBy, limit := "", "", "";
    }

    method Select(cols: Columns)
      modifies this`columns
      ensures columns == ColumnsText(cols)
    {
      columns := ColumnsText(cols);
    }

    method Where(condition: string)
      modifies this`conditions
      ensures conditions == old(conditions) + [condition]
    {
      conditions := conditions + [condition];
    }

    method GroupBy(cols: Columns)
      modifies this`groupBy
      ensures groupBy == GroupByText(cols)
    {
      groupBy := GroupByText(cols);
    }

    method OrderBy(column: string, ascending: bool)
      modifies this`orderBy
      ensures orderBy == OrderByText(column, ascending)
    {
      orderBy := OrderByText(column, ascending);
    }

    method Limit(n: int)
      modifies this`limit
      ensures limit == LimitText(n)
    {
      limit := LimitText(n);
    }

    /** `build_where_clause_i_j_t`: the same presence and overlap rules as the full builders. */
    method BuildWhereClauseIjt(product: Option<string>, firm: Option<string>,
                               start: Option<int>, end: Option<int>)
      modifies this`conditions
      ensures conditions == old(conditions) + IjtConditionTexts(product, firm, start, end)
    {
      ghost var c0 := conditions;
      if Truthy(product) {
        conditions := conditions + ["produkt_id = '" + product.value + "'"];
      }
      assert conditions == c0 + ProductFilterText(product);
      ghost var c1 := conditions;
      if Truthy(firm) {
        conditions := conditions + ["haendler_bez = '" + firm.value + "'"];
      }
      assert conditions == c1 + FirmFilterText(firm);
      ghost var c2 := conditions;
      if start.Some? && end.Some? {
        conditions := conditions + ["(dtimebegin <= " + IntToString(end.value) + " AND dtimeend >= " + IntToString(start.value) + ")"];
      } else if start.Some? {
        conditions := conditions + ["dtimeend >= " + IntToString(start.value)];
      } else if end.Some? {
        conditions := conditions + ["dtimebegin <= " + IntToString(end.value)];
      }
      assert conditions == c2 + PeriodFilterText(start, end);
      AppendAssoc(c0, ProductFilterText(product), FirmFilterText(firm));
      AppendAssoc(c0, ProductFilterText(product) + FirmFilterText(firm), PeriodFilterText(start, end));
    }

    function Build(): string
      reads this
    {
      ReducedQuery(table, columns, conditions, groupBy, orderBy, limit)
    }

    function InsertInto(target: string): (r: string)
      reads this
      ensures |r| == 13 + |target| + |Build()|
      ensures r[..12] == "INSERT INTO " && r[12..12 + |target|] == target && r[|r| - |Build()|..] == Build()
    {
      var b := Build();
      var r := "INSERT INTO " + target + " " + b;
      assert r[|r| - |b|..] == b;
      r
    }
  }

  /** QueryBuilder of impl/querybuilder.py: select, where, order and limit only. */
  class MinimalQueryBuilder {
    var table: string
    var columns: string
    var conditions: seq<string>
    var orderBy: string
    var limit: string

    constructor (tableName: string)
      ensures table == tableName && columns == "*" && conditions == [] && orderBy == "" && limit == ""
    {
      table, columns, conditions, orderBy, limit := tableName, "*", [], "", "";
    }

    method Select(cols: Columns)
      modifies this`columns
      ensures columns == ColumnsText(cols)
    {
      columns := ColumnsText(cols);
    }

    method Where(condition: string)
      modifies this`conditions
      ensures conditions == old(conditions) + [condition]
    {
      conditions := conditions + [condition];
    }

    method OrderBy(column: string, ascending: bool)
      modifies this`orderBy
      ensures orderBy == OrderByText(column, ascending)
    {
      orderBy := OrderByText(column, ascending);
    }

    method Limit(n: int)
      modifies this`limit
      ensures limit == LimitText(n)
    {
      limit := LimitText(n);
    }

    function Build(): string
      reads this
    {
      MinimalQuery(table, columns, conditions, orderBy, limit)
    }
  }
}
