/**
 * The fluent query builder (core/QueryBuilder.php). The chainable calls update the
 * builder's fields in place; the terminal calls (`get`, `first`, `insert`, `update`,
 * `delete`) assemble SQL text with `?` placeholders and the positional parameters
 * bound to them. Here a terminal call returns that prepared statement instead of
 * handing it to PDO.
 */
module Sql {
  import opened Wrappers
  import opened Php

  /** A prepared statement: SQL text and the values bound to its `?` placeholders, in order. */
  datatype Statement = Statement(sql: string, params: seq<Value>)

  /**
   * Every field of a builder. `table` is None while the typed property
   * `$table` is still uninitialised.
   */
  datatype BuilderState = BuilderState(
    table: Option<string>,
    select: seq<string>,
    where: seq<string>,
    parameters: seq<Value>,
    orderBy: seq<string>,
    groupBy: seq<string>,
    joins: seq<string>,
    limit: int,
    offset: int)

  /** The state of a newly constructed builder. */
  const Initial := BuilderState(None, ["*"], [], [], [], [], [], 0, 0)

  const TableUninitialized := Error("Typed property MVC\\Core\\QueryBuilder::$table must not be accessed before initialization")
  const UpdateGuard := Exception("Update requires at least one WHERE condition to prevent mass updates.")
  const DeleteGuard := Exception("Delete requires at least one WHERE condition to prevent mass deletions.")

  const Directions := ["ASC", "DESC"]
  const JoinKinds := ["INNER", "LEFT", "RIGHT"]

  /** Every WHERE fragment has a bound parameter: the invariant the builder keeps. */
  predicate Aligned(s: BuilderState)
  {
    |s.where| == |s.parameters|
  }

  // ------------------------------------------------------------ fragments

  /** The WHERE fragment for `where($column, $operator, $value)`: the value is never part of it. */
  function Condition(column: string, operator: string): string
  {
    column + " " + operator + " ?"
  }

  function JoinFragment(kind: string, table: string, first: string, operator: string, second: string): string
  {
    kind + " JOIN " + table + " ON " + first + " " + operator + " " + second
  }

  // ---------------------------------------------------------- transitions

  function WithWhere(s: BuilderState, column: string, operator: string, value: Value): (t: BuilderState)
    ensures Aligned(s) ==> Aligned(t)
  {
    s.(where := s.where + [Condition(column, operator)], parameters := s.parameters + [value])
  }

  /** `orderBy`: the direction is upper-cased and must be ASC or DESC; otherwise nothing changes. */
  function WithOrderBy(s: BuilderState, column: string, direction: string): (r: Result<BuilderState, Throwable>)
    ensures r.Success? <==> ToUpper(direction) in Directions
    ensures r.Failure? ==> r.error.InvalidArgumentException?
    ensures r.Success? ==> r.value == s.(orderBy := s.orderBy + [column + " " + ToUpper(direction)])
  {
    var dir := ToUpper(direction);
    if dir in Directions then Success(s.(orderBy := s.orderBy + [column + " " + dir]))
    else Failure(InvalidArgumentException("Invalid ORDER BY direction: " + dir))
  }

  /** `join`: the kind is upper-cased and must be INNER, LEFT or RIGHT; otherwise nothing changes. */
  function WithJoin(s: BuilderState, table: string, first: string, operator: string, second: string, kind: string)
    : (r: Result<BuilderState, Throwable>)
    ensures r.Success? <==> ToUpper(kind) in JoinKinds
    ensures r.Failure? ==> r.error.InvalidArgumentException?
    ensures r.Success? ==> r.value == s.(joins := s.joins + [JoinFragment(ToUpper(kind), table, first, operator, second)])
  {
    var k := ToUpper(kind);
    if k in JoinKinds then Success(s.(joins := s.joins + [JoinFragment(k, table, first, operator, second)]))
    else Failure(InvalidArgumentException("Invalid join type: " + k))
  }

  // ------------------------------------------------------- SQL assembly

  /** A clause that is emitted only for a non-empty list. */
  function ListClause(keyword: string, items: seq<string>, separator: string): string
  {
    if items == [] then "" else keyword + Join(items, separator)
  }

  /** A LIMIT or OFFSET clause, emitted only for a positive count. */
  function CountClause(keyword: string, n: int): string
  {
    if n > 0 then keyword + NatToString(n) else ""
  }

  /** SELECT, FROM and WHERE: the part `get` and `first` share. */
  function SelectHead(s: BuilderState, table: string): string
  {
    "SELECT " + Join(s.select, ", ") + " FROM " + table + ListClause(" WHERE ", s.where, " AND ")
  }

  /** The clauses of `get` in their fixed order. */
  function SelectSql(s: BuilderState, table: string): string
  {
    SelectHead(s, table)
    + ListClause(" ORDER BY ", s.orderBy, ", ")
    + ListClause(" GROUP BY ", s.groupBy, ", ")
    + ListClause(" ", s.joins, " ")
    + CountClause(" LIMIT ", s.limit)
    + CountClause(" OFFSET ", s.offset)
  }

  function Placeholders(n: nat): seq<string>
  {
    seq(n, _ => "?")
  }

  function Assignments(columns: seq<string>): seq<string>
  {
    seq(|columns|, i requires 0 <= i < |columns| => Condition(columns[i], "="))
  }

  function GetStatement(s: BuilderState): Result<Statement, Throwable>
  {
    if s.table.None? then Failure(TableUninitialized)
    else Success(Statement(SelectSql(s, s.table.value), s.parameters))
  }

  function FirstStatement(s: BuilderState): Result<Statement, Throwable>
  {
    if s.table.None? then Failure(TableUninitialized)
    else Success(Statement(SelectHead(s, s.table.value) + " LIMIT 1", s.parameters))
  }

  function InsertStatement(s: BuilderState, data: Row): Result<Statement, Throwable>
  {
    if s.table.None? then Failure(TableUninitialized)
    else Success(Statement(
      "INSERT INTO " + s.table.value + " (" + Join(Keys(data), ", ") + ") VALUES ("
        + Join(Placeholders(|data|), ", ") + ")",
      Values(data)))
  }

  function UpdateStatement(s: BuilderState, data: Row): Result<Statement, Throwable>
  {
    if s.where == [] then Failure(UpdateGuard)
    else if s.table.None? then Failure(TableUninitialized)
    else Success(Statement(
      "UPDATE " + s.table.value + " SET " + Join(Assignments(Keys(data)), ", ")
        + " WHERE " + Join(s.where, " AND "),
      Values(data) + s.parameters))
  }

  function DeleteStatement(s: BuilderState): Result<Statement, Throwable>
  {
    if s.where == [] then Failure(DeleteGuard)
    else if s.table.None? then Failure(TableUninitialized)
    else Success(Statement("DELETE FROM " + s.table.value + " WHERE " + Join(s.where, " AND "), s.parameters))
  }

  // -------------------------------------------------------------- the class

  class QueryBuilder {
    var table: Option<string>
    var select: seq<string>
    var where: seq<string>
    var parameters: seq<Value>
    var orderBy: seq<string>
    var groupBy: seq<string>
    var joins: seq<string>
    var limit: int
    var offset: int

    function State(): BuilderState
      reads this
    {
      BuilderState(table, select, where, parameters, orderBy, groupBy, joins, limit, offset)
    }

    ghost predicate Valid()
      reads this
    {
      Aligned(State())
    }

    constructor ()
      ensures State() == Initial && Valid()
    {
      table, select, where, parameters := None, ["*"], [], [];
      orderBy, groupBy, joins, limit, offset := [], [], [], 0, 0;
    }

    method Table(name: string)
      requires Valid()
      modifies this
      ensures Valid() && State() == old(State()).(table := Some(name))
    {
      table := Some(name);
    }

    /** Replaces the column list (`select()` with no columns leaves it empty). */
    method Select(columns: seq<string>)
      requires Valid()
      modifies this
      ensures Valid() && State() == old(State()).(select := columns)
    {
      select := columns;
    }

    method Where(column: string, operator: string, value: Value)
      requires Valid()
      modifies this
      ensures Valid() && State() == WithWhere(old(State()), column, operator, value)
    {
      where := where + [Condition(column, operator)];
      parameters := parameters + [value];
    }

    method OrderBy(column: string, direction: string) returns (o: Outcome<Throwable>)
      requires Valid()
      modifies this
      ensures Valid()
      ensures match WithOrderBy(old(State()), column, direction)
        case Success(t) => o.Pass? && State() == t
        case Failure(e) => o == Fail(e) && State() == old(State())
    {
      var dir := ToUpper(direction);
      if dir !in Directions {
        return Fail(InvalidArgumentException("Invalid ORDER BY direction: " + dir));
      }
      orderBy := orderBy + [column + " " + dir];
      o := Pass;
    }

    /** Appends to the grouping columns already given. */
    method GroupBy(columns: seq<string>)
      requires Valid()
      modifies this
      ensures Valid() && State() == old(State()).(groupBy := old(groupBy) + columns)
    {
      groupBy := groupBy + columns;
    }

    method Join(table: string, first: string, operator: string, second: string, kind: string := "inner")
      returns (o: Outcome<Throwable>)
      requires Valid()
      modifies this
      ensures Valid()
      ensures match WithJoin(old(State()), table, first, operator, second, kind)
        case Success(t) => o.Pass? && State() == t
        case Failure(e) => o == Fail(e) && State() == old(State())
    {
      var k := ToUpper(kind);
      if k !in JoinKinds {
        return Fail(InvalidArgumentException("Invalid join type: " + k));
      }
      joins := joins + [JoinFragment(k, table, first, operator, second)];
      o := Pass;
    }

    method Limit(n: int)
      requires Valid()
      modifies this
      ensures Valid() && State() == old(State()).(limit := n)
    {
      limit := n;
    }

    method Offset(n: int)
      requires Valid()
      modifies this
      ensures Valid() && State() == old(State()).(offset := n)
    {
      offset := n;
    }

    /** `get`: the SELECT statement with every configured clause, built by successive appends. */
    method Get() returns (r: Result<Statement, Throwable>)
      ensures r == GetStatement(State())
    {
      if table.None? {
        return Failure(TableUninitialized);
      }
      ghost var head := SelectHead(State(), table.value);
      var sql := "SELECT " + Php.Join(select, ", ") + " FROM " + table.value;
      if where != [] {
        sql := sql + (" WHERE " + Php.Join(where, " AND "));
      }
      assert sql == head;
      if orderBy != [] {
        sql := sql + (" ORDER BY " + Php.Join(orderBy, ", "));
      }
      assert sql == head + ListClause(" ORDER BY ", orderBy, ", ");
      if groupBy != [] {
        sql := sql + (" GROUP BY " + Php.Join(groupBy, ", "));
      }
      assert sql == head + ListClause(" ORDER BY ", orderBy, ", ") + ListClause(" GROUP BY ", groupBy, ", ");
      if joins != [] {
        sql := sql + (" " + Php.Join(joins, " "));
      }
      assert sql == head + ListClause(" ORDER BY ", orderBy, ", ") + ListClause(" GROUP BY ", groupBy, ", ")
        + ListClause(" ", joins, " ");
      if limit > 0 {
        sql := sql + (" LIMIT " + NatToString(limit));
      }
      assert sql == head + ListClause(" ORDER BY ", orderBy, ", ") + ListClause(" GROUP BY ", groupBy, ", ")
        + ListClause(" ", joins, " ") + CountClause(" LIMIT ", limit);
      if offset > 0 {
        sql := sql + (" OFFSET " + NatToString(offset));
      }
      assert sql == SelectSql(State(), table.value);
      r := Success(Statement(sql, parameters));
    }

    /** `first`: only SELECT, FROM and WHERE, then LIMIT 1. */
    method First() returns (r: Result<Statement, Throwable>)
      ensures r == FirstStatement(State())
    {
      if table.None? {
        return Failure(TableUninitialized);
      }
      var sql := "SELECT " + Php.Join(select, ", ") + " FROM " + table.value;
      if where != [] {
        sql := sql + (" WHERE " + Php.Join(where, " AND "));
      }
      assert sql == SelectHead(State(), table.value);
      sql := sql + " LIMIT 1";
      r := Success(Statement(sql, parameters));
    }

    method Insert(data: Row) returns (r: Result<Statement, Throwable>)
      ensures r == InsertStatement(State(), data)
    {
      if table.None? {
        return Failure(TableUninitialized);
      }
      var columns := Php.Join(Keys(data), ", ");
      var values := Php.Join(Placeholders(|data|), ", ");
      r := Success(Statement("INSERT INTO " + table.value + " (" + columns + ") VALUES (" + values + ")", Values(data)));
    }

    method Update(data: Row) returns (r: Result<Statement, Throwable>)
      ensures r == UpdateStatement(State(), data)
    {
      if where == [] {
        return Failure(UpdateGuard);
      }
      if table.None? {
        return Failure(TableUninitialized);
      }
      var assigns := Php.Join(Assignments(Keys(data)), ", ");
      var sql := "UPDATE " + table.value + " SET " + assigns + " WHERE " + Php.Join(where, " AND ");
      r := Success(Statement(sql, Values(data) + parameters));
    }

    method Delete() returns (r: Result<Statement, Throwable>)
      ensures r == DeleteStatement(State())
    {
      if where == [] {
        return Failure(DeleteGuard);
      }
      if table.None? {
        return Failure(TableUninitialized);
      }
      r := Success(Statement("DELETE FROM " + table.value + " WHERE " + Php.Join(where, " AND "), parameters));
    }
  }

  // ------------------------------------------------------------------ lemmas

  /** No `?` in an identifier: table, column, operator and join text come from trusted call sites. */
  predicate Plain(x: string) { '?' !in x }

  predicate AllPlain(xs: seq<string>) { forall i | 0 <= i < |xs| :: Plain(xs[i]) }

  /** Every WHERE fragment carries exactly one placeholder. */
  predicate OnePlaceholderEach(xs: seq<string>) { forall i | 0 <= i < |xs| :: CountChar(xs[i], '?') == 1 }

  /** The builder's identifiers carry no `?` of their own, so every placeholder comes from a WHERE fragment. */
  predicate Trusted(s: BuilderState)
  {
    && (s.table.Some? ==> Plain(s.table.value))
    && AllPlain(s.select) && AllPlain(s.orderBy) && AllPlain(s.groupBy) && AllPlain(s.joins)
    && OnePlaceholderEach(s.where)
  }

  lemma {:induction false} PlainCount(x: string)
    requires Plain(x)
    ensures CountChar(x, '?') == 0
  {
    if |x| > 0 {
      assert x[0] in x;
      assert forall i | 0 <= i < |x[1..]| :: x[1..][i] == x[i + 1];
      PlainCount(x[1..]);
    }
  }

  /** A text without `?` in front of x adds no placeholder. */
  lemma PlainPrefix(p: string, x: string)
    requires Plain(p)
    ensures CountChar(p + x, '?') == CountChar(x, '?')
  {
    CountCharConcat(p, x, '?');
    PlainCount(p);
  }

  /** A text without `?` after x adds no placeholder. */
  lemma PlainSuffix(x: string, p: string)
    requires Plain(p)
    ensures CountChar(x + p, '?') == CountChar(x, '?')
  {
    CountCharConcat(x, p, '?');
    PlainCount(p);
  }

  /** The VALUES list of `insert` holds one `?` per column. */
  lemma PlaceholderListCount(n: nat)
    ensures CountChar(Join(Placeholders(n), ", "), '?') == n
  {
    assert CountChar("?", '?') == 1;
    JoinCount(Placeholders(n), ", ");
  }

  /** The SET list of `update` holds one `?` per column, when no column name holds one itself. */
  lemma AssignmentListCount(columns: seq<string>)
    requires AllPlain(columns)
    ensures CountChar(Join(Assignments(columns), ", "), '?') == |columns|
  {
    forall i | 0 <= i < |columns| ensures CountChar(Assignments(columns)[i], '?') == 1 {
      ConditionHasOnePlaceholder(columns[i], "=");
    }
    JoinCount(Assignments(columns), ", ");
  }

  lemma ConditionHasOnePlaceholder(column: string, operator: string)
    requires Plain(column) && Plain(operator)
    ensures CountChar(Condition(column, operator), '?') == 1
  {
    var p := column + " " + operator;
    assert CountChar(" ?", '?') == 1;
    PlainPrefix(p, " ?");
  }

  lemma {:induction false} JoinPlain(xs: seq<string>, separator: string)
    requires AllPlain(xs) && Plain(separator)
    ensures Plain(Join(xs, separator))
  {
    if |xs| > 1 {
      assert AllPlain(xs[1..]) by {
        assert forall i | 0 <= i < |xs[1..]| :: xs[1..][i] == xs[i + 1];
      }
      JoinPlain(xs[1..], separator);
    }
  }

  /** Joining items that hold one placeholder each, with a separator that holds none, gives one per item. */
  lemma {:induction false} JoinCount(xs: seq<string>, separator: string)
    requires Plain(separator) && OnePlaceholderEach(xs)
    ensures CountChar(Join(xs, separator), '?') == |xs|
  {
    if |xs| == 0 {
      assert Join(xs, separator) == "";
    } else if |xs| == 1 {
      assert Join(xs, separator) == xs[0];
    } else {
      var rest := Join(xs[1..], separator);
      assert forall i | 0 <= i < |xs| - 1 :: xs[1..][i] == xs[i + 1];
      JoinCount(xs[1..], separator);
      assert Join(xs, separator) == (xs[0] + separator) + rest;
      CountCharConcat(xs[0] + separator, rest, '?');
      PlainSuffix(xs[0], separator);
    }
  }

  lemma ListClausePlain(keyword: string, items: seq<string>, separator: string)
    requires Plain(keyword) && AllPlain(items) && Plain(separator)
    ensures Plain(ListClause(keyword, items, separator))
  {
    JoinPlain(items, separator);
  }

  lemma ListClauseCount(keyword: string, items: seq<string>, separator: string)
    requires Plain(keyword) && Plain(separator) && OnePlaceholderEach(items)
    ensures CountChar(ListClause(keyword, items, separator), '?') == |items|
  {
    if items != [] {
      JoinCount(items, separator);
      PlainPrefix(keyword, Join(items, separator));
    }
  }

  lemma CountClausePlain(keyword: string, n: int)
    requires Plain(keyword)
    ensures Plain(CountClause(keyword, n))
  {
    if n > 0 {
      var r := NatToString(n);
      assert forall i | 0 <= i < |r| :: r[i] != '?';
    }
  }

  lemma SelectHeadCount(s: BuilderState, table: string)
    requires Trusted(s) && Plain(table)
    ensures CountChar(SelectHead(s, table), '?') == |s.where|
  {
    JoinPlain(s.select, ", ");
    var p := "SELECT " + Join(s.select, ", ") + " FROM " + table;
    ListClauseCount(" WHERE ", s.where, " AND ");
    PlainPrefix(p, ListClause(" WHERE ", s.where, " AND "));
  }

  /**
   * Positional alignment for `get`: the SQL text holds exactly one `?` per bound
   * parameter, so the parameters line up with the placeholders.
   */
  lemma GetPlaceholdersMatchParameters(s: BuilderState)
    requires Aligned(s) && Trusted(s) && s.table.Some?
    ensures GetStatement(s).Success?
    ensures CountChar(GetStatement(s).value.sql, '?') == |GetStatement(s).value.params|
  {
    var t := s.table.value;
    var a := SelectHead(s, t);
    var m := Modifiers(s);
    assert GetStatement(s).value.sql == a + m by {
      assert GetStatement(s).value.sql == SelectSql(s, t);
      AppendModifiers(a, s);
    }
    SelectHeadCount(s, t);
    ModifiersPlain(s);
    PlainSuffix(a, m);
  }

  lemma AppendModifiers(a: string, s: BuilderState)
    ensures a + ListClause(" ORDER BY ", s.orderBy, ", ") + ListClause(" GROUP BY ", s.groupBy, ", ")
      + ListClause(" ", s.joins, " ") + CountClause(" LIMIT ", s.limit) + CountClause(" OFFSET ", s.offset)
      == a + Modifiers(s)
  {
    var b, c, d, e, f := ListClause(" ORDER BY ", s.orderBy, ", "), ListClause(" GROUP BY ", s.groupBy, ", "),
      ListClause(" ", s.joins, " "), CountClause(" LIMIT ", s.limit), CountClause(" OFFSET ", s.offset);
    SeqAssoc(a, b, c, d, e, f);
  }

  lemma SeqAssoc(a: string, b: string, c: string, d: string, e: string, f: string)
    ensures a + b + c + d + e + f == a + (b + c + d + e + f)
  {
  }

  /** ORDER BY, GROUP BY, joins, LIMIT and OFFSET together. */
  function Modifiers(s: BuilderState): string
  {
    ListClause(" ORDER BY ", s.orderBy, ", ")
    + ListClause(" GROUP BY ", s.groupBy, ", ")
    + ListClause(" ", s.joins, " ")
    + CountClause(" LIMIT ", s.limit)
    + CountClause(" OFFSET ", s.offset)
  }

  lemma ModifiersPlain(s: BuilderState)
    requires Trusted(s)
    ensures Plain(Modifiers(s))
  {
    ListClausePlain(" ORDER BY ", s.orderBy, ", ");
    ListClausePlain(" GROUP BY ", s.groupBy, ", ");
    ListClausePlain(" ", s.joins, " ");
    CountClausePlain(" LIMIT ", s.limit);
    CountClausePlain(" OFFSET ", s.offset);
  }

  /** Positional alignment for `first`. */
  lemma FirstPlaceholdersMatchParameters(s: BuilderState)
    requires Aligned(s) && Trusted(s) && s.table.Some?
    ensures FirstStatement(s).Success?
    ensures CountChar(FirstStatement(s).value.sql, '?') == |FirstStatement(s).value.params|
  {
    SelectHeadCount(s, s.table.value);
    PlainSuffix(SelectHead(s, s.table.value), " LIMIT 1");
  }

  /** Positional alignment for `insert`: one `?` per entry, bound to the entry values in order. */
  lemma InsertPlaceholdersMatchParameters(s: BuilderState, data: Row)
    requires s.table.Some? && Plain(s.table.value) && AllPlain(Keys(data))
    ensures InsertStatement(s, data).Success?
    ensures CountChar(InsertStatement(s, data).value.sql, '?') == |InsertStatement(s, data).value.params| == |data|
  {
    JoinPlain(Keys(data), ", ");
    var p := "INSERT INTO " + s.table.value + " (" + Join(Keys(data), ", ") + ") VALUES (";
    var q := Join(Placeholders(|data|), ", ");
    assert CountChar("?", '?') == 1;
    JoinCount(Placeholders(|data|), ", ");
    PlainPrefix(p, q);
    PlainSuffix(p + q, ")");
  }

  /** Positional alignment for `update`: data placeholders first, then the WHERE ones, as the parameters are bound. */
  lemma UpdatePlaceholdersMatchParameters(s: BuilderState, data: Row)
    requires Aligned(s) && Trusted(s) && s.table.Some? && s.where != [] && AllPlain(Keys(data))
    ensures UpdateStatement(s, data).Success?
    ensures CountChar(UpdateStatement(s, data).value.sql, '?') == |UpdateStatement(s, data).value.params|
  {
    var keys := Keys(data);
    forall i | 0 <= i < |keys| ensures CountChar(Assignments(keys)[i], '?') == 1 {
      ConditionHasOnePlaceholder(keys[i], "=");
    }
    var p := "UPDATE " + s.table.value + " SET ";
    var a := Join(Assignments(keys), ", ");
    var w := Join(s.where, " AND ");
    JoinCount(Assignments(keys), ", ");
    JoinCount(s.where, " AND ");
    PlainPrefix(p, a);
    PlainSuffix(p + a, " WHERE ");
    CountCharConcat(p + a + " WHERE ", w, '?');
  }

  /** Positional alignment for `delete`. */
  lemma DeletePlaceholdersMatchParameters(s: BuilderState)
    requires Aligned(s) && Trusted(s) && s.table.Some? && s.where != []
    ensures DeleteStatement(s).Success?
    ensures CountChar(DeleteStatement(s).value.sql, '?') == |DeleteStatement(s).value.params|
  {
    JoinCount(s.where, " AND ");
    PlainPrefix("DELETE FROM " + s.table.value + " WHERE ", Join(s.where, " AND "));
  }

  /** A condition built from trusted identifiers keeps the builder trusted and aligned. */
  lemma WhereKeepsTrusted(s: BuilderState, column: string, operator: string, value: Value)
    requires Trusted(s) && Plain(column) && Plain(operator)
    ensures Trusted(WithWhere(s, column, operator, value))
  {
    ConditionHasOnePlaceholder(column, operator);
  }

  /**
   * The value handed to `where` never reaches any SQL text: two builders that differ
   * only in the values bound so far issue the same SQL for every terminal call.
   */
  lemma SqlIndependentOfValues(s: BuilderState, values: seq<Value>, data: Row, data': Row)
    requires Keys(data') == Keys(data)
    ensures GetStatement(s).Success? ==> GetStatement(s.(parameters := values)).value.sql == GetStatement(s).value.sql
    ensures FirstStatement(s).Success? ==> FirstStatement(s.(parameters := values)).value.sql == FirstStatement(s).value.sql
    ensures InsertStatement(s, data).Success? ==>
      InsertStatement(s.(parameters := values), data').value.sql == InsertStatement(s, data).value.sql
    ensures UpdateStatement(s, data).Success? ==>
      UpdateStatement(s.(parameters := values), data').value.sql == UpdateStatement(s, data).value.sql
    ensures DeleteStatement(s).Success? ==> DeleteStatement(s.(parameters := values)).value.sql == DeleteStatement(s).value.sql
  {
    assert |data'| == |Keys(data')| == |Keys(data)| == |data|;
  }

  /** `first` is `get` with ORDER BY, GROUP BY, joins and OFFSET dropped and LIMIT 1. */
  lemma FirstIsGetLimitedToOne(s: BuilderState)
    ensures FirstStatement(s) == GetStatement(s.(orderBy := [], groupBy := [], joins := [], limit := 1, offset := 0))
  {
    if s.table.Some? {
      var head := SelectHead(s, s.table.value);
      assert NatToString(1) == "1";
      assert CountClause(" LIMIT ", 1) == " LIMIT 1";
      assert head + "" + "" + "" + " LIMIT 1" + "" == head + " LIMIT 1";
    }
  }

  /** A fresh builder on table t selects every column of t with nothing bound. */
  lemma GetOnFreshBuilder(t: string)
    ensures GetStatement(Initial.(table := Some(t))) == Success(Statement("SELECT * FROM " + t, []))
  {
    var s := Initial.(table := Some(t));
    assert Join(["*"], ", ") == "*";
    assert SelectHead(s, t) == "SELECT * FROM " + t;
    assert SelectSql(s, t) == "SELECT * FROM " + t;
  }

  /** UPDATE and DELETE are refused exactly when no WHERE condition was added (or the table is unset). */
  lemma GuardStopsUnconditionalWrites(s: BuilderState, data: Row)
    ensures s.where == [] ==> UpdateStatement(s, data) == Failure(UpdateGuard) && DeleteStatement(s) == Failure(DeleteGuard)
    ensures s.where != [] && s.table.Some? ==> UpdateStatement(s, data).Success? && DeleteStatement(s).Success?
    ensures UpdateStatement(s, data).Success? ==>
      UpdateStatement(s, data).value.params[|data|..] == s.parameters
  {
  }
}
