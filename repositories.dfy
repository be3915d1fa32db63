/**
 * The repositories: a table-bound query builder shared by every lookup of a
 * repository object, and the three application repositories that turn rows
 * into entities. The database is an oracle (`Connection`) that answers each
 * statement; PDO itself is not part of this model.
 */
module Repositories {
  import opened Wrappers
  import opened Php
  import opened Sql
  import opened Hydration
  import opened Entities

  /**
   * What the database answers for a statement: `fetch` (None for PHP's
   * `false`), `fetchAll`, and the boolean `execute` returns.
   */
  datatype Connection = Connection(
    fetch: Statement -> Option<Row>,
    fetchAll: Statement -> seq<Row>,
    execute: Statement -> bool)

  /** `first`'s `fetch() ?: null`: no row and an empty row are both null. */
  function FirstRow(conn: Connection, st: Statement): (r: Option<Row>)
    ensures r.Some? ==> r.value != [] && conn.fetch(st) == r
    ensures r.None? <==> (conn.fetch(st).None? || conn.fetch(st) == Some([]))
  {
    match conn.fetch(st)
    case None => None
    case Some(row) => if row == [] then None else Some(row)
  }

  const PrimaryKey := "id"

  const MissingTable := Exception("Repository must define a protected $table property.")

  /** The row `find(v)` reads on a builder in state `s`: one more `key = ?` condition, then `first`. */
  function FindRow(conn: Connection, s: BuilderState, key: string, v: Value): Option<Row>
    requires s.table.Some?
  {
    FirstRow(conn, FirstStatement(WithWhere(s, key, "=", v)).value)
  }

  /** The builder state after `where(key, '=', v)` for each of `values` in turn. */
  function Finds(s: BuilderState, key: string, values: seq<Value>): BuilderState
    decreases |values|
  {
    if values == [] then s
    else Finds(WithWhere(s, key, "=", values[0]), key, values[1..])
  }

  /** Lookups on a shared builder never reset it: each one adds a condition and a parameter. */
  lemma {:induction false} FindsAccumulate(s: BuilderState, key: string, values: seq<Value>)
    ensures Finds(s, key, values).where == s.where + seq(|values|, _ => Condition(key, "="))
    ensures Finds(s, key, values).parameters == s.parameters + values
    ensures Finds(s, key, values).table == s.table
    decreases |values|
  {
    if values != [] {
      var t := WithWhere(s, key, "=", values[0]);
      FindsAccumulate(t, key, values[1..]);
      assert t.where + seq(|values[1..]|, _ => Condition(key, "="))
        == s.where + seq(|values|, _ => Condition(key, "="));
      assert t.parameters + values[1..] == s.parameters + values;
    }
  }

  /** `first` on a new builder for `table` after the conditions `where`. */
  lemma FirstOnFreshBuilder(table: string, where: seq<string>, params: seq<Value>)
    ensures FirstStatement(Initial.(table := Some(table), where := where, parameters := params))
      == Success(Statement("SELECT * FROM " + table + ListClause(" WHERE ", where, " AND ") + " LIMIT 1", params))
  {
    var s := Initial.(table := Some(table), where := where, parameters := params);
    assert Join(s.select, ", ") == "*";
    assert SelectHead(s, table) == "SELECT * FROM " + table + ListClause(" WHERE ", where, " AND ");
  }

  /** The first `find` on a new repository selects the one row with that key. */
  lemma FindOnFreshRepository(table: string, v: Value)
    ensures FirstStatement(WithWhere(Initial.(table := Some(table)), PrimaryKey, "=", v))
      == Success(Statement("SELECT * FROM " + table + " WHERE id = ? LIMIT 1", [v]))
  {
    assert Condition(PrimaryKey, "=") == "id = ?";
    assert WithWhere(Initial.(table := Some(table)), PrimaryKey, "=", v)
      == Initial.(table := Some(table), where := ["id = ?"], parameters := [v]);
    FirstOnFreshBuilder(table, ["id = ?"], [v]);
    assert ListClause(" WHERE ", ["id = ?"], " AND ") == " WHERE id = ?";
    assert " WHERE id = ?" + " LIMIT 1" == " WHERE id = ? LIMIT 1";
    assert "SELECT * FROM " + table + " WHERE id = ?" + " LIMIT 1"
      == "SELECT * FROM " + table + (" WHERE id = ?" + " LIMIT 1");
  }

  lemma TwoFinds(s: BuilderState, key: string, v1: Value, v2: Value)
    ensures Finds(s, key, [v1, v2]) == WithWhere(WithWhere(s, key, "=", v1), key, "=", v2)
  {
    var t1 := WithWhere(s, key, "=", v1);
    var t := WithWhere(t1, key, "=", v2);
    assert [v1, v2][1..] == [v2] && [v2][1..] == [];
    assert Finds(t, key, []) == t;
    assert Finds(t1, key, [v2]) == t;
  }

  /** Two `find`s on a new builder leave two key conditions and both keys. */
  lemma TwoFindsOnFresh(table: string, v1: Value, v2: Value)
    ensures Finds(Initial.(table := Some(table)), PrimaryKey, [v1, v2])
      == Initial.(table := Some(table), where := ["id = ?", "id = ?"], parameters := [v1, v2])
  {
    TwoFinds(Initial.(table := Some(table)), PrimaryKey, v1, v2);
    assert Condition(PrimaryKey, "=") == "id = ?";
  }

  /** The WHERE clause of two conditions, followed by `first`'s limit. */
  lemma TwoConditionClause(c: string)
    ensures ListClause(" WHERE ", [c, c], " AND ") + " LIMIT 1" == " WHERE " + c + " AND " + c + " LIMIT 1"
  {
    assert [c, c][1..] == [c];
    assert Join([c, c], " AND ") == c + " AND " + c;
  }

  /**
   * A second `find` on the same repository keeps the first key's condition,
   * so it asks for a row whose key equals both values.
   */
  lemma SecondFindConjoins(table: string, v1: Value, v2: Value)
    ensures FirstStatement(Finds(Initial.(table := Some(table)), PrimaryKey, [v1, v2]))
      == Success(Statement("SELECT * FROM " + table + " WHERE id = ? AND id = ? LIMIT 1", [v1, v2]))
  {
    var where := ["id = ?", "id = ?"];
    TwoFindsOnFresh(table, v1, v2);
    FirstOnFreshBuilder(table, where, [v1, v2]);
    TwoConditionClause("id = ?");
    var clause := ListClause(" WHERE ", where, " AND ");
    assert clause + " LIMIT 1" == " WHERE id = ? AND id = ? LIMIT 1";
    assert "SELECT * FROM " + table + clause + " LIMIT 1" == "SELECT * FROM " + table + (clause + " LIMIT 1");
  }

  /** The builder of one repository, bound to its table. */
  class Repository {
    const db: QueryBuilder
    const table: string
    const primaryKey: string

    ghost predicate Valid()
      reads this, db
    {
      db.Valid() && db.table == Some(table) && primaryKey == PrimaryKey
    }

    /** The constructor of a repository that declares its table. */
    constructor(table: string)
      ensures Valid() && fresh(db) && this.table == table
      ensures db.State() == Initial.(table := Some(table))
    {
      var b := new QueryBuilder();
      b.Table(table);
      this.db := b;
      this.table := table;
      this.primaryKey := PrimaryKey;
    }

    /** The constructor as a subclass reaches it: without a table it throws. */
    static method New(table: Option<string>) returns (r: Result<Repository, Throwable>)
      ensures table.None? ==> r == Failure(MissingTable)
      ensures table.Some? ==>
        && r.Success? && fresh(r.value) && fresh(r.value.db) && r.value.Valid()
        && r.value.table == table.value && r.value.db.State() == Initial.(table := table)
    {
      if table.None? {
        return Failure(MissingTable);
      }
      var repo := new Repository(table.value);
      return Success(repo);
    }

    /** `find`: adds `id = ?` to the shared builder and reads the first row. */
    method Find(conn: Connection, keyValue: Value) returns (st: Statement, row: Option<Row>)
      requires Valid()
      modifies db
      ensures Valid()
      ensures db.State() == WithWhere(old(db.State()), PrimaryKey, "=", keyValue)
      ensures FirstStatement(db.State()) == Success(st)
      ensures st.params == old(db.State().parameters) + [keyValue]
      ensures row == FirstRow(conn, st) && row == FindRow(conn, old(db.State()), PrimaryKey, keyValue)
    {
      db.Where(primaryKey, "=", keyValue);
      var r := db.First();
      st := r.value;
      row := FirstRow(conn, st);
    }

    /** `all`: every row the builder's current SELECT returns. */
    method All(conn: Connection) returns (st: Statement, rows: seq<Row>)
      requires Valid()
      ensures GetStatement(db.State()) == Success(st) && st.params == db.State().parameters
      ensures rows == conn.fetchAll(st)
    {
      var r := db.Get();
      st := r.value;
      rows := conn.fetchAll(st);
    }

    /**
     * `save`: with a non-null key, an UPDATE restricted by that key (so the
     * mass-update guard never fires); otherwise an INSERT of the whole row.
     */
    method Save(conn: Connection, data: Row) returns (st: Statement, ok: bool)
      requires Valid()
      modifies db
      ensures Valid() && ok == conn.execute(st)
      ensures IsSet(data, PrimaryKey) ==>
        && db.State() == WithWhere(old(db.State()), PrimaryKey, "=", Lookup(data, PrimaryKey).value)
        && UpdateStatement(db.State(), data) == Success(st)
        && st.params == Values(data) + old(db.State().parameters) + [Lookup(data, PrimaryKey).value]
      ensures !IsSet(data, PrimaryKey) ==>
        && db.State() == old(db.State())
        && InsertStatement(db.State(), data) == Success(st)
        && st.params == Values(data)
    {
      if IsSet(data, primaryKey) {
        var key := Lookup(data, primaryKey).value;
        db.Where(primaryKey, "=", key);
        var r := db.Update(data);
        st := r.value;
        assert st.params == Values(data) + (old(db.State().parameters) + [key]);
      } else {
        var r := db.Insert(data);
        st := r.value;
      }
      ok := conn.execute(st);
    }

    /** `delete`: a DELETE restricted by the key, so the mass-deletion guard never fires. */
    method Delete(conn: Connection, keyValue: Value) returns (st: Statement, ok: bool)
      requires Valid()
      modifies db
      ensures Valid()
      ensures db.State() == WithWhere(old(db.State()), PrimaryKey, "=", keyValue)
      ensures DeleteStatement(db.State()) == Success(st)
      ensures st.params == old(db.State().parameters) + [keyValue]
      ensures ok == conn.execute(st)
    {
      db.Where(primaryKey, "=", keyValue);
      var r := db.Delete();
      st := r.value;
      ok := conn.execute(st);
    }
  }

  // ------------------------------------------------------------ user table

  const UserTable := "user"

  /** The user a row hydrates to, or the exception hydration throws. */
  function UserFromRow(data: Row): (UserState, Outcome<Throwable>)
  {
    Run(NewUser, SetterCalls(data, UserSetters), UserSetter)
  }

  /** A lookup of one user: the row (if any) hydrated into a new entity. */
  ghost predicate UserLookup(row: Option<Row>, r: Result<Option<UserEntity>, Throwable>)
    reads if r.Success? && r.value.Some? then {r.value.value} else {}
  {
    match row
    case None => r == Success(None)
    case Some(data) =>
      var (u, o) := UserFromRow(data);
      && (o.Fail? ==> r == Failure(o.error))
      && (o.Pass? ==> r.Success? && r.value.Some? && r.value.value.State() == u)
  }

  /** The email lookup on a new user repository. */
  lemma EmailLookupOnFreshRepository(email: string)
    ensures FirstStatement(WithWhere(Initial.(table := Some(UserTable)), "email", "=", Str(email)))
      == Success(Statement("SELECT * FROM " + UserTable + " WHERE email = ? LIMIT 1", [Str(email)]))
  {
    assert Condition("email", "=") == "email = ?";
    assert WithWhere(Initial.(table := Some(UserTable)), "email", "=", Str(email))
      == Initial.(table := Some(UserTable), where := ["email = ?"], parameters := [Str(email)]);
    FirstOnFreshBuilder(UserTable, ["email = ?"], [Str(email)]);
    assert ListClause(" WHERE ", ["email = ?"], " AND ") == " WHERE email = ?";
    assert " WHERE email = ?" + " LIMIT 1" == " WHERE email = ? LIMIT 1";
    assert "SELECT * FROM " + UserTable + " WHERE email = ?" + " LIMIT 1"
      == "SELECT * FROM " + UserTable + (" WHERE email = ?" + " LIMIT 1");
  }

  class UserRepository {
    const repo: Repository

    ghost predicate Valid()
      reads this, repo, repo.db
    {
      repo.Valid() && repo.table == UserTable
    }

    constructor()
      ensures Valid() && fresh(repo) && fresh(repo.db)
      ensures repo.db.State() == Initial.(table := Some(UserTable))
    {
      repo := new Repository(UserTable);
    }

    /** `findUserByEmail`: adds `email = ?` to the shared builder; null when no row comes back. */
    method FindUserByEmail(conn: Connection, email: string) returns (st: Statement, r: Result<Option<UserEntity>, Throwable>)
      requires Valid()
      modifies repo.db
      ensures Valid()
      ensures repo.db.State() == WithWhere(old(repo.db.State()), "email", "=", Str(email))
      ensures FirstStatement(repo.db.State()) == Success(st)
      ensures UserLookup(FirstRow(conn, st), r)
      ensures r.Success? && r.value.Some? ==> fresh(r.value.value)
    {
      repo.db.Where("email", "=", Str(email));
      var q := repo.db.First();
      st := q.value;
      var row := FirstRow(conn, st);
      if row.None? {
        return st, Success(None);
      }
      var u := UserEntity.New(row.value);
      if u.Failure? {
        return st, Failure(u.error);
      }
      r := Success(Some(u.value));
    }

    /** `findUserById`: `find` with the id; null when no row comes back. */
    method FindUserById(conn: Connection, id: int) returns (st: Statement, r: Result<Option<UserEntity>, Throwable>)
      requires Valid()
      modifies repo.db
      ensures Valid()
      ensures repo.db.State() == WithWhere(old(repo.db.State()), PrimaryKey, "=", Int(id))
      ensures FirstStatement(repo.db.State()) == Success(st)
      ensures UserLookup(FindRow(conn, old(repo.db.State()), PrimaryKey, Int(id)), r)
      ensures r.Success? && r.value.Some? ==> fresh(r.value.value)
    {
      var row;
      st, row := repo.Find(conn, Int(id));
      if row.None? {
        return st, Success(None);
      }
      var u := UserEntity.New(row.value);
      if u.Failure? {
        return st, Failure(u.error);
      }
      r := Success(Some(u.value));
    }
  }

  // ----------------------------------------------------------- status table

  const StatusTable := "book_status"

  function StatusFromRow(data: Row): (Option<int>, Outcome<Throwable>)
  {
    Run(None, SetterCalls(data, StatusSetters), StatusSetter)
  }

  ghost predicate StatusLookup(row: Option<Row>, r: Result<Option<BookStatusEntity>, Throwable>)
    reads if r.Success? && r.value.Some? then {r.value.value} else {}
  {
    match row
    case None => r == Success(None)
    case Some(data) =>
      var (id, o) := StatusFromRow(data);
      && (o.Fail? ==> r == Failure(o.error))
      && (o.Pass? ==> r.Success? && r.value.Some? && r.value.value.id == id)
  }

  class BookStatusRepository {
    const repo: Repository

    ghost predicate Valid()
      reads this, repo, repo.db
    {
      repo.Valid() && repo.table == StatusTable
    }

    constructor()
      ensures Valid() && fresh(repo) && fresh(repo.db)
      ensures repo.db.State() == Initial.(table := Some(StatusTable))
    {
      repo := new Repository(StatusTable);
    }

    /** `findStatusById`: `find` with the id; a falsy row gives null. */
    method FindStatusById(conn: Connection, id: int) returns (st: Statement, r: Result<Option<BookStatusEntity>, Throwable>)
      requires Valid()
      modifies repo.db
      ensures Valid()
      ensures repo.db.State() == WithWhere(old(repo.db.State()), PrimaryKey, "=", Int(id))
      ensures FirstStatement(repo.db.State()) == Success(st)
      ensures StatusLookup(FindRow(conn, old(repo.db.State()), PrimaryKey, Int(id)), r)
      ensures r.Success? && r.value.Some? ==> fresh(r.value.value)
    {
      var row;
      st, row := repo.Find(conn, Int(id));
      if row.None? {
        return st, Success(None);
      }
      var s := BookStatusEntity.New(row.value);
      if s.Failure? {
        return st, Failure(s.error);
      }
      r := Success(Some(s.value));
    }
  }

  // ------------------------------------------------------------- book table

  const BookTable := "book"

  function BookFromRow(data: Row): (BookState, Outcome<Throwable>)
  {
    Run(NewBook, SetterCalls(data, BookSetters), BookSetter)
  }

  /** `setUser(null)`: the TypeError a missing user raises. */
  const NullUser := ArgumentError(BookClass + "::setUser", "user", UserClass, Null)

  /** `setStatus(null)`: the TypeError a missing status raises. */
  const NullStatus := ArgumentError(BookClass + "::setStatus", "status", StatusClass, Null)

  /** A book whose user and status are linked and whose two ids are theirs. */
  ghost predicate Linked(book: BookEntity)
    reads book, if book.user.Some? then {book.user.value} else {}, if book.status.Some? then {book.status.value} else {}
  {
    && book.user.Some? && book.status.Some?
    && book.GetUserId().Success? && book.GetUserId() == book.user.value.GetId()
    && book.GetStatusId().Success? && book.GetStatusId() == book.status.value.GetId()
  }

  /**
   * `findUserById($uid)` followed by `setUser`, on values: the state of the user the
   * book links to, or what is thrown on the way (no row, a row that does not
   * hydrate, a user whose `getId` throws).
   */
  function LinkedUser(conn: Connection, us: BuilderState, uid: int): (r: Result<UserState, Throwable>)
    ensures r.Success? ==> r.value.id.Some?
  {
    if us.table.None? then Failure(TableUninitialized)
    else match FindRow(conn, us, PrimaryKey, Int(uid))
      case None => Failure(NullUser)
      case Some(data) =>
        var (u, o) := UserFromRow(data);
        if o.Fail? then Failure(o.error)
        else if u.id.None? then Failure(ReturnError(UserClass + "::getId", "int"))
        else Success(u)
  }

  /** `findStatusById($sid)` followed by `setStatus`, on values: the id of the status the book links to. */
  function LinkedStatus(conn: Connection, ss: BuilderState, sid: int): (r: Result<int, Throwable>)
  {
    if ss.table.None? then Failure(TableUninitialized)
    else match FindRow(conn, ss, PrimaryKey, Int(sid))
      case None => Failure(NullStatus)
      case Some(data) =>
        var (id, o) := StatusFromRow(data);
        if o.Fail? then Failure(o.error)
        else if id.None? then Failure(ReturnError(StatusClass + "::getId", "int"))
        else Success(id.value)
  }

  /**
   * A hydrated book on values: the book's own properties (links left null), the
   * state of the user it links and the id of the status it links.
   */
  datatype Hydrated = Hydrated(book: BookState, user: UserState, statusId: int)

  /** The states of the user and status builders a book repository shares across its hydrations. */
  datatype Builders = Builders(users: BuilderState, statuses: BuilderState)

  /**
   * The first half of `hydrate($data)` on values, from the user builder's state `us`:
   * the row's book with the id of the user it links, and that user's state.
   */
  function WithUser(conn: Connection, us: BuilderState, data: Row): (r: (BuilderState, Result<(BookState, UserState), Throwable>))
    ensures r.0.table == us.table
  {
    var (b, o) := BookFromRow(data);
    if o.Fail? then (us, Failure(o.error))
    else if b.userId.Unset? then (us, Failure(Uninitialized(BookClass, "user_id")))
    else
      var us' := WithWhere(us, PrimaryKey, "=", Int(b.userId.value));
      match LinkedUser(conn, us, b.userId.value)
      case Failure(e) => (us', Failure(e))
      case Success(u) => (us', Success((b.(userId := Set(u.id.value)), u)))
  }

  /** `hydrate($data)` on values, from the shared builders' states `bs`. */
  function HydrateRow(conn: Connection, bs: Builders, data: Row): (r: (Builders, Result<Hydrated, Throwable>))
    ensures r.0.users.table == bs.users.table && r.0.statuses.table == bs.statuses.table
  {
    var (us', w) := WithUser(conn, bs.users, data);
    match w
    case Failure(e) => (bs.(users := us'), Failure(e))
    case Success((b, u)) =>
      if b.statusId.Unset? then (bs.(users := us'), Failure(Uninitialized(BookClass, "status_id")))
      else
        var ss' := WithWhere(bs.statuses, PrimaryKey, "=", Int(b.statusId.value));
        match LinkedStatus(conn, bs.statuses, b.statusId.value)
        case Failure(e) => (Builders(us', ss'), Failure(e))
        case Success(sid) => (Builders(us', ss'), Success(Hydrated(b.(statusId := Set(sid)), u, sid)))
  }

  /**
   * `hydrate` succeeds exactly when the row makes a book with both ids set and both
   * lookups find a row that hydrates to an entity with an id. The book is then the
   * row's entity with its two ids replaced by those of the user and status it links,
   * and each shared builder has gained one `id = ?` condition on the row's id.
   */
  lemma HydrateRowSucceeds(conn: Connection, bs: Builders, data: Row)
    ensures var b := BookFromRow(data).0;
      HydrateRow(conn, bs, data).1.Success? <==>
        && BookFromRow(data).1.Pass? && b.userId.Set? && b.statusId.Set?
        && LinkedUser(conn, bs.users, b.userId.value).Success?
        && LinkedStatus(conn, bs.statuses, b.statusId.value).Success?
    ensures var (bs', h) := HydrateRow(conn, bs, data); var b := BookFromRow(data).0;
      h.Success? ==>
        && h.value.book.(userId := b.userId, statusId := b.statusId) == b
        && h.value.book.user.None? && h.value.book.status.None?
        && h.value.user == LinkedUser(conn, bs.users, b.userId.value).value
        && h.value.book.userId == Set(h.value.user.id.value)
        && h.value.statusId == LinkedStatus(conn, bs.statuses, b.statusId.value).value
        && h.value.book.statusId == Set(h.value.statusId)
        && bs'.users == WithWhere(bs.users, PrimaryKey, "=", Int(b.userId.value))
        && bs'.statuses == WithWhere(bs.statuses, PrimaryKey, "=", Int(b.statusId.value))
  {
    BookHydrationKeepsLinks(NewBook, SetterCalls(data, BookSetters));
  }

  /** A missing user or status row ends `hydrate` with the TypeError of `setUser(null)` or `setStatus(null)`. */
  lemma MissingLinkRejected(conn: Connection, bs: Builders, data: Row)
    requires bs.users.table.Some? && bs.statuses.table.Some?
    requires BookFromRow(data).1.Pass? && BookFromRow(data).0.userId.Set? && BookFromRow(data).0.statusId.Set?
    ensures var b := BookFromRow(data).0;
      FindRow(conn, bs.users, PrimaryKey, Int(b.userId.value)).None? ==> HydrateRow(conn, bs, data).1 == Failure(NullUser)
    ensures var b := BookFromRow(data).0;
      LinkedUser(conn, bs.users, b.userId.value).Success? && FindRow(conn, bs.statuses, PrimaryKey, Int(b.statusId.value)).None? ==>
        HydrateRow(conn, bs, data).1 == Failure(NullStatus)
  {
  }

  // ------------------------------------------------------ array_map

  /**
   * `array_map` with a callback that may throw: `step` runs on each row in turn,
   * threading a state through, and the first exception ends the map.
   */
  function MapRows<S, T>(s: S, rows: seq<Row>, step: (S, Row) -> (S, Result<T, Throwable>)): (S, Result<seq<T>, Throwable>)
    decreases |rows|
  {
    if rows == [] then (s, Success([]))
    else
      var (p, prev) := MapRows(s, rows[..|rows| - 1], step);
      if prev.Failure? then (p, prev)
      else
        var (q, x) := step(p, rows[|rows| - 1]);
        (q, if x.Failure? then Failure(x.error) else Success(prev.value + [x.value]))
  }

  /** Once a prefix of the rows has failed, the rest of the rows change nothing. */
  lemma {:induction false} MapRowsFailed<S, T>(s: S, rows: seq<Row>, step: (S, Row) -> (S, Result<T, Throwable>), j: nat)
    requires j <= |rows| && MapRows(s, rows[..j], step).1.Failure?
    ensures MapRows(s, rows, step) == MapRows(s, rows[..j], step)
    decreases |rows|
  {
    if j < |rows| {
      var init := rows[..|rows| - 1];
      assert init[..j] == rows[..j];
      MapRowsFailed(s, init, step, j);
    } else {
      assert rows[..j] == rows;
    }
  }

  /**
   * One result per row, in row order: when the map succeeds, result k is what
   * `step` gives for row k in the state rows 0..k-1 left.
   */
  lemma {:induction false} MapRowsOnePerRow<S, T>(s: S, rows: seq<Row>, step: (S, Row) -> (S, Result<T, Throwable>))
    ensures var (_, r) := MapRows(s, rows, step);
      r.Success? ==>
        && |r.value| == |rows|
        && forall k | 0 <= k < |rows| ::
             var (p, before) := MapRows(s, rows[..k], step);
             before == Success(r.value[..k]) && step(p, rows[k]).1 == Success(r.value[k])
    decreases |rows|
  {
    var (_, r) := MapRows(s, rows, step);
    if rows != [] && r.Success? {
      var n := |rows| - 1;
      var init := rows[..n];
      var (_, prev) := MapRows(s, init, step);
      MapRowsOnePerRow(s, init, step);
      forall k | 0 <= k < |rows|
        ensures var (p, before) := MapRows(s, rows[..k], step);
          before == Success(r.value[..k]) && step(p, rows[k]).1 == Success(r.value[k])
      {
        if k < n {
          assert init[..k] == rows[..k] && init[k] == rows[k];
          assert r.value[..k] == prev.value[..k];
        } else {
          assert rows[..k] == init;
          assert r.value[..k] == prev.value;
        }
      }
    }
  }

  /** When the map fails, some row k is the first to fail: every row before it succeeded and the exception is row k's. */
  lemma {:induction false} MapRowsFirstFailure<S, T>(s: S, rows: seq<Row>, step: (S, Row) -> (S, Result<T, Throwable>))
    ensures var (_, r) := MapRows(s, rows, step);
      r.Failure? ==>
        exists k | 0 <= k < |rows| ::
          var (p, before) := MapRows(s, rows[..k], step);
          before.Success? && step(p, rows[k]).1 == Failure(r.error)
    decreases |rows|
  {
    var (_, r) := MapRows(s, rows, step);
    if rows != [] && r.Failure? {
      var n := |rows| - 1;
      var init := rows[..n];
      var (_, prev) := MapRows(s, init, step);
      if prev.Failure? {
        MapRowsFirstFailure(s, init, step);
        var k :| 0 <= k < n &&
          var (p, before) := MapRows(s, init[..k], step);
          before.Success? && step(p, init[k]).1 == Failure(prev.error);
        assert init[..k] == rows[..k] && init[k] == rows[k];
      } else {
        assert rows[..n] == init;
      }
    }
  }

  /** A measure of the state that every successful step extends by `c` is extended by one `c` per row. */
  lemma {:induction false} MapRowsGrow<S, T>(s: S, rows: seq<Row>, step: (S, Row) -> (S, Result<T, Throwable>),
                                             f: S -> seq<string>, c: string)
    requires forall x, row :: step(x, row).1.Success? ==> f(step(x, row).0) == f(x) + [c]
    ensures MapRows(s, rows, step).1.Success? ==> f(MapRows(s, rows, step).0) == f(s) + seq(|rows|, _ => c)
    decreases |rows|
  {
    if rows != [] && MapRows(s, rows, step).1.Success? {
      var n := |rows| - 1;
      var (p, prev) := MapRows(s, rows[..n], step);
      assert prev.Success? && MapRows(s, rows, step).0 == step(p, rows[n]).0;
      MapRowsGrow(s, rows[..n], step, f, c);
      assert seq(n, _ => c) + [c] == seq(|rows|, _ => c);
    }
  }

  /** `hydrate` as the callback of `findByUser`'s `array_map`. */
  function Hydrator(conn: Connection): (Builders, Row) -> (Builders, Result<Hydrated, Throwable>)
  {
    (bs: Builders, data: Row) => HydrateRow(conn, bs, data)
  }

  /**
   * The shared builders are never reset: after `findByUser` hydrates n books, the
   * user and status builders each carry n more `id = ?` conditions.
   */
  lemma HydrateRowsGrowBuilders(conn: Connection, bs: Builders, rows: seq<Row>)
    ensures var (bs', r) := MapRows(bs, rows, Hydrator(conn));
      r.Success? ==>
        && bs'.users.where == bs.users.where + seq(|rows|, _ => Condition(PrimaryKey, "="))
        && bs'.statuses.where == bs.statuses.where + seq(|rows|, _ => Condition(PrimaryKey, "="))
  {
    var step := Hydrator(conn);
    forall x, row | step(x, row).1.Success?
      ensures step(x, row).0.users.where == x.users.where + [Condition(PrimaryKey, "=")]
      ensures step(x, row).0.statuses.where == x.statuses.where + [Condition(PrimaryKey, "=")]
    {
      HydrateRowSucceeds(conn, x, row);
    }
    MapRowsGrow(bs, rows, step, (x: Builders) => x.users.where, Condition(PrimaryKey, "="));
    MapRowsGrow(bs, rows, step, (x: Builders) => x.statuses.where, Condition(PrimaryKey, "="));
  }

  /**
   * `book` is the object form of `h`: its own properties are `h.book`'s, and it
   * links a user in state `h.user` and a status whose id is `h.statusId`.
   */
  ghost predicate Shows(book: BookEntity, h: Hydrated)
    reads book, if book.user.Some? then {book.user.value} else {}, if book.status.Some? then {book.status.value} else {}
  {
    && book.user.Some? && book.status.Some?
    && book.State().(user := None, status := None) == h.book
    && book.user.value.State() == h.user
    && book.status.value.id == Some(h.statusId)
  }

  /** A book that shows a successful hydration is linked: its ids are those of its user and status. */
  lemma ShownIsLinked(conn: Connection, bs: Builders, data: Row, book: BookEntity)
    requires HydrateRow(conn, bs, data).1.Success?
    requires Shows(book, HydrateRow(conn, bs, data).1.value)
    ensures Linked(book)
  {
    HydrateRowSucceeds(conn, bs, data);
  }

  class BookRepository {
    const repo: Repository
    const users: UserRepository
    const statuses: BookStatusRepository

    ghost predicate Valid()
      reads this, repo, repo.db, users, users.repo, users.repo.db, statuses, statuses.repo, statuses.repo.db
    {
      && repo.Valid() && repo.table == BookTable && users.Valid() && statuses.Valid()
      && repo.db != users.repo.db && repo.db != statuses.repo.db && users.repo.db != statuses.repo.db
    }

    constructor()
      ensures Valid()
      ensures repo.db.State() == Initial.(table := Some(BookTable))
      ensures users.repo.db.State() == Initial.(table := Some(UserTable))
      ensures statuses.repo.db.State() == Initial.(table := Some(StatusTable))
    {
      repo := new Repository(BookTable);
      users := new UserRepository();
      statuses := new BookStatusRepository();
    }

    /**
     * The first half of `hydrate`: the user looked up by the book's `user_id`, then
     * `setUser`. On an exception only the user link may have changed.
     */
    method LinkUser(conn: Connection, book: BookEntity) returns (o: Outcome<Throwable>)
      requires Valid()
      modifies book, users.repo.db
      ensures Valid()
      ensures old(book.userId).Unset? ==>
        && o == Fail(Uninitialized(BookClass, "user_id"))
        && book.State() == old(book.State()) && users.repo.db.State() == old(users.repo.db.State())
      ensures old(book.userId).Set? ==>
        var uid := old(book.userId).value;
        && users.repo.db.State() == WithWhere(old(users.repo.db.State()), PrimaryKey, "=", Int(uid))
        && match LinkedUser(conn, old(users.repo.db.State()), uid)
           case Failure(e) => o == Fail(e) && book.State().(user := old(book.user)) == old(book.State())
           case Success(u) =>
             && o == Pass && book.user.Some? && fresh(book.user.value) && book.user.value.State() == u
             && book.State() == old(book.State()).(user := book.user, userId := Set(u.id.value))
    {
      var uid := book.GetUserId();
      if uid.Failure? {
        return Fail(uid.error);
      }
      ghost var row := FindRow(conn, users.repo.db.State(), PrimaryKey, Int(uid.value));
      var _, user := users.FindUserById(conn, uid.value);
      assert row.Some? && UserFromRow(row.value).1.Pass? ==> user.Success? && user.value.Some?;
      if user.Failure? {
        assert row.Some? && UserFromRow(row.value).1 == Fail(user.error);
        return Fail(user.error);
      }
      if user.value.None? {
        return Fail(NullUser);
      }
      assert row.Some? && UserFromRow(row.value) == (user.value.value.State(), Pass);
      o := book.SetUser(user.value.value);
    }

    /** The second half of `hydrate`: the status looked up by the book's `status_id`, then `setStatus`. */
    method LinkStatus(conn: Connection, book: BookEntity) returns (o: Outcome<Throwable>)
      requires Valid()
      modifies book, statuses.repo.db
      ensures Valid()
      ensures old(book.statusId).Unset? ==>
        && o == Fail(Uninitialized(BookClass, "status_id"))
        && book.State() == old(book.State()) && statuses.repo.db.State() == old(statuses.repo.db.State())
      ensures old(book.statusId).Set? ==>
        var sid := old(book.statusId).value;
        && statuses.repo.db.State() == WithWhere(old(statuses.repo.db.State()), PrimaryKey, "=", Int(sid))
        && match LinkedStatus(conn, old(statuses.repo.db.State()), sid)
           case Failure(e) => o == Fail(e) && book.State().(status := old(book.status)) == old(book.State())
           case Success(id) =>
             && o == Pass && book.status.Some? && fresh(book.status.value) && book.status.value.id == Some(id)
             && book.State() == old(book.State()).(status := book.status, statusId := Set(id))
    {
      var sid := book.GetStatusId();
      if sid.Failure? {
        return Fail(sid.error);
      }
      ghost var row := FindRow(conn, statuses.repo.db.State(), PrimaryKey, Int(sid.value));
      var _, status := statuses.FindStatusById(conn, sid.value);
      assert row.Some? && StatusFromRow(row.value).1.Pass? ==> status.Success? && status.value.Some?;
      if status.Failure? {
        assert row.Some? && StatusFromRow(row.value).1 == Fail(status.error);
        return Fail(status.error);
      }
      if status.value.None? {
        return Fail(NullStatus);
      }
      assert row.Some? && StatusFromRow(row.value) == (status.value.value.id, Pass);
      o := book.SetStatus(status.value.value);
    }

    /** `new BookEntity($data)`, then the user looked up by its `user_id` and linked. */
    method NewWithUser(conn: Connection, data: Row) returns (r: Result<BookEntity, Throwable>)
      requires Valid()
      modifies users.repo.db
      ensures Valid()
      ensures var (us, w) := WithUser(conn, old(users.repo.db.State()), data);
        && users.repo.db.State() == us
        && (w.Failure? ==> r == Failure(w.error))
        && (w.Success? ==>
              && r.Success? && fresh(r.value) && r.value.user.Some? && fresh(r.value.user.value)
              && r.value.State().(user := None) == w.value.0 && r.value.user.value.State() == w.value.1
              && r.value.status.None?)
    {
      BookHydrationKeepsLinks(NewBook, SetterCalls(data, BookSetters));
      var created := BookEntity.New(data);
      if created.Failure? {
        return Failure(created.error);
      }
      var book := created.value;
      var o := LinkUser(conn, book);
      if o.Fail? {
        return Failure(o.error);
      }
      r := Success(book);
    }

    /**
     * `hydrate`: the entity of the row, then its user looked up by its
     * `user_id` and its status by its `status_id`, each linked in turn.
     */
    method Hydrate(conn: Connection, data: Row) returns (r: Result<BookEntity, Throwable>)
      requires Valid()
      modifies users.repo.db, statuses.repo.db
      ensures Valid()
      ensures var (bs, h) := HydrateRow(conn, Builders(old(users.repo.db.State()), old(statuses.repo.db.State())), data);
        && users.repo.db.State() == bs.users && statuses.repo.db.State() == bs.statuses
        && (h.Failure? ==> r == Failure(h.error))
        && (h.Success? ==> r.Success? && Shows(r.value, h.value))
      ensures r.Success? ==>
        && fresh(r.value) && r.value.user.Some? && fresh(r.value.user.value)
        && r.value.status.Some? && fresh(r.value.status.value)
    {
      var created := NewWithUser(conn, data);
      if created.Failure? {
        return Failure(created.error);
      }
      var book := created.value;
      var o := LinkStatus(conn, book);
      if o.Fail? {
        return Failure(o.error);
      }
      r := Success(book);
    }

    /** `findBookById`: `find` with the id, hydrated when a row comes back. */
    method FindBookById(conn: Connection, id: int) returns (r: Result<Option<BookEntity>, Throwable>)
      requires Valid()
      modifies repo.db, users.repo.db, statuses.repo.db
      ensures Valid()
      ensures repo.db.State() == WithWhere(old(repo.db.State()), PrimaryKey, "=", Int(id))
      ensures match FindRow(conn, old(repo.db.State()), PrimaryKey, Int(id))
        case None =>
          && r == Success(None)
          && users.repo.db.State() == old(users.repo.db.State())
          && statuses.repo.db.State() == old(statuses.repo.db.State())
        case Some(data) =>
          var (bs, h) := HydrateRow(conn, Builders(old(users.repo.db.State()), old(statuses.repo.db.State())), data);
          && users.repo.db.State() == bs.users && statuses.repo.db.State() == bs.statuses
          && (h.Failure? ==> r == Failure(h.error))
          && (h.Success? ==> r.Success? && r.value.Some? && Shows(r.value.value, h.value))
      ensures r.Success? && r.value.Some? ==> fresh(r.value.value)
    {
      var _, row := repo.Find(conn, Int(id));
      if row.None? {
        return Success(None);
      }
      var h := Hydrate(conn, row.value);
      if h.Failure? {
        return Failure(h.error);
      }
      r := Success(Some(h.value));
    }

    /** The shared builders' current states. */
    ghost function Current(): Builders
      reads this, users, users.repo, users.repo.db, statuses, statuses.repo, statuses.repo.db
    {
      Builders(users.repo.db.State(), statuses.repo.db.State())
    }

    /** One step of `findByUser`'s `array_map`: row i hydrated on the builders as rows 0..i-1 left them. */
    method HydrateNext(conn: Connection, ghost step: (Builders, Row) -> (Builders, Result<Hydrated, Throwable>),
                       ghost bs: Builders, rows: seq<Row>, i: nat, ghost hs: seq<Hydrated>)
      returns (r: Result<BookEntity, Throwable>, ghost v: Hydrated)
      requires Valid() && i < |rows|
      requires forall b, d {:trigger HydrateRow(conn, b, d)} :: step(b, d) == HydrateRow(conn, b, d)
      requires MapRows(bs, rows[..i], step) == (Current(), Success(hs))
      modifies users.repo.db, statuses.repo.db
      ensures Valid()
      ensures r.Failure? ==> MapRows(bs, rows[..i + 1], step) == (Current(), Failure(r.error))
      ensures r.Success? ==>
        && MapRows(bs, rows[..i + 1], step) == (Current(), Success(hs + [v]))
        && fresh(r.value) && Shows(r.value, v)
    {
      ghost var h := HydrateRow(conn, Current(), rows[i]);
      assert rows[..i + 1][..i] == rows[..i];
      r := Hydrate(conn, rows[i]);
      v := if h.1.Success? then h.1.value else Hydrated(NewBook, NewUser, 0);
    }

    /**
     * `array_map` of `hydrate` over `rows`: each row hydrated in turn until one throws.
     * `step` is `hydrate` on values; the proof only ever applies it to rows it has hydrated.
     */
    method HydrateAll(conn: Connection, ghost step: (Builders, Row) -> (Builders, Result<Hydrated, Throwable>), rows: seq<Row>)
      returns (r: Result<seq<BookEntity>, Throwable>)
      requires Valid()
      requires forall b, d {:trigger HydrateRow(conn, b, d)} :: step(b, d) == HydrateRow(conn, b, d)
      modifies users.repo.db, statuses.repo.db
      ensures Valid()
      ensures var (bs, h) := MapRows(old(Current()), rows, step);
        && Current() == bs
        && (h.Failure? ==> r == Failure(h.error))
        && (h.Success? ==>
              && r.Success? && |r.value| == |h.value|
              && forall k | 0 <= k < |r.value| :: fresh(r.value[k]) && Shows(r.value[k], h.value[k]))
    {
      ghost var bs := Current();
      var books: seq<BookEntity> := [];
      ghost var hs: seq<Hydrated> := [];
      var i := 0;
      assert rows[..0] == [];
      while i < |rows|
        invariant Valid()
        invariant 0 <= i <= |rows| && |books| == i && |hs| == i
        invariant MapRows(bs, rows[..i], step) == (Current(), Success(hs))
        invariant forall k | 0 <= k < i :: fresh(books[k])
        invariant forall k | 0 <= k < i :: Shows(books[k], hs[k])
      {
        var h;
        ghost var v;
        h, v := HydrateNext(conn, step, bs, rows, i, hs);
        if h.Failure? {
          MapRowsFailed(bs, rows, step, i + 1);
          return Failure(h.error);
        }
        books := books + [h.value];
        hs := hs + [v];
        i := i + 1;
      }
      assert rows[..i] == rows;
      r := Success(books);
    }

    /** `findByUser`: adds `user_id = ?` to the shared book builder, selects, then hydrates every row. */
    method FindByUser(conn: Connection, userId: int) returns (st: Statement, r: Result<seq<BookEntity>, Throwable>)
      requires Valid()
      modifies repo.db, users.repo.db, statuses.repo.db
      ensures Valid()
      ensures repo.db.State() == WithWhere(old(repo.db.State()), "user_id", "=", Int(userId))
      ensures GetStatement(repo.db.State()) == Success(st)
      ensures var (bs, h) := MapRows(old(Current()), conn.fetchAll(st), Hydrator(conn));
        && Current() == bs
        && (h.Failure? ==> r == Failure(h.error))
        && (h.Success? ==>
              && r.Success? && |r.value| == |h.value|
              && forall k | 0 <= k < |r.value| :: fresh(r.value[k]) && Shows(r.value[k], h.value[k]))
    {
      repo.db.Where("user_id", "=", Int(userId));
      var g := repo.db.Get();
      st := g.value;
      r := HydrateAll(conn, Hydrator(conn), conn.fetchAll(st));
    }
  }
}
