/** The SQLite database as the data layer sees it: tables of rows in rowid
    order, the migrations ledger, the statements migration scripts ran, and
    the one open transaction a connection may hold. Each statement is sent
    with its text and parameters, as the source sends it, and with the
    meaning that text has; the engine's own checks that the model does not
    spell out (schema, NOT NULL, CHECK, FOREIGN KEY) are a verdict passed in. */
module Store {
  import opened Util
  import opened Values
  import opened Query
  import opened Order

  /** A table: its rows in rowid order, and the largest rowid AUTOINCREMENT
      has handed out or seen. */
  datatype Table = Table(rows: Keyed<Record>, top: int)

  /** Rows are in rowid order, carry their rowid in `id`, and no rowid is
      above the high-water mark. */
  predicate TableOk(t: Table)
  {
    Ordered(t.rows) && IdsMatch(t.rows) && forall e :: e in t.rows ==> e.0 <= t.top
  }

  datatype Store = Store(
    tables: map<string, Table>,
    ledger: Option<Keyed<string>>,  // the `migrations` table: version -> name, once created
    script: seq<string>)            // every migration statement executed, in order

  /** A table never written to reads as empty. */
  function TableOf(s: Store, name: string): (t: Table)
    ensures name !in s.tables ==> t.rows == []
  {
    if name in s.tables then s.tables[name] else Table([], 0)
  }

  /** The rows of a table, in rowid order. */
  function Rows(s: Store, name: string): seq<Record>
  {
    EntriesIn(TableOf(s, name).rows)
  }

  predicate StoreOk(s: Store)
  {
    (forall n :: n in s.tables ==> TableOk(s.tables[n])) &&
    (s.ledger.Some? ==> Ordered(s.ledger.value))
  }

  /** The database file's contents and, while a transaction is open, the
      contents as they were at its `BEGIN`. */
  datatype Database = Database(live: Store, pending: Option<Store>)

  predicate DatabaseOk(d: Database)
  {
    StoreOk(d.live) && (d.pending.Some? ==> StoreOk(d.pending.value))
  }

  /** Whether SQLite accepts a write, for the reasons the model leaves to the
      engine: the statement text against the schema, NOT NULL, CHECK and
      FOREIGN KEY constraints. */
  type Engine = (Store, string, seq<Value>) -> bool

  /** What a statement does. */
  datatype Effect =
    | ReadById(table: string, id: int)                     // SELECT * ... WHERE id = ?
    | ReadWhere(table: string, conds: seq<Cond>, order: Option<string>, limit: Option<int>, offset: Option<int>)
    | CountWhere(table: string, conds: seq<Cond>)          // SELECT COUNT(*) ...
    | ReadVersions                                         // SELECT version FROM migrations ORDER BY version
    | Login(username: string)                              // users joined with roles, for one user name
    | ActiveUsers                                          // users joined with roles, ORDER BY username
    | InsertRow(table: string, fields: Record)
    | UpdateRow(table: string, id: int, fields: Record)
    | DeleteRow(table: string, id: int)
    | CreateLedger                                         // CREATE TABLE IF NOT EXISTS migrations
    | InsertLedger(version: int, name: string)
    | RunScript                                            // one statement of a migration script

  datatype Statement = Statement(sql: string, params: seq<Value>, effect: Effect)

  datatype Answer =
    | Selected(rows: seq<Record>)
    | Count(n: nat)
    | Versions(versions: seq<int>)
    | RowId(id: int)
    | Done

  predicate IsRead(e: Effect)
  {
    e.ReadById? || e.ReadWhere? || e.CountWhere? || e.ReadVersions? || e.Login? || e.ActiveUsers?
  }

  /** The driver binds ints, strings, datetimes and None; a list raises
      `ProgrammingError`, a subclass of `sqlite3.Error`. */
  predicate Bindable(params: seq<Value>)
  {
    forall i :: 0 <= i < |params| ==> !params[i].List?
  }

  /** The rows a `SELECT` returns; only a missing ledger is an error. */
  function Read(s: Store, e: Effect): (r: Outcome<Answer>)
    ensures r.Err? ==> e.ReadVersions? && s.ledger.None? && r.error == NoSuchTable
  {
    match e
    case ReadById(t, id) =>
      Ok(Selected(match Lookup(TableOf(s, t).rows, id) case Some(row) => [row] case None => []))
    case ReadWhere(t, conds, order, limit, offset) => Ok(Selected(Window(OrderedBy(Where(Rows(s, t), conds), order), limit, offset)))
    case CountWhere(t, conds) => Ok(Count(|Where(Rows(s, t), conds)|))
    case ReadVersions =>
      if s.ledger.None? then Err(NoSuchTable) else Ok(Versions(KeysIn(s.ledger.value)))
    case Login(name) => Ok(Selected(LoginRows(TableOf(s, UsersTable).rows, TableOf(s, RolesTable).rows, name)))
    case ActiveUsers => Ok(Selected(ActiveUsersByName(TableOf(s, UsersTable).rows, TableOf(s, RolesTable).rows)))
    case _ => Ok(Done)
  }

  /** `ORDER BY col`, when there is one; otherwise the rows stay in rowid
      order. */
  function OrderedBy(rows: seq<Record>, order: Option<string>): (r: seq<Record>)
    ensures multiset(r) == multiset(rows)
    ensures order.Some? ==> SortedBy(r, order.value)
  {
    match order
    case None => rows
    case Some(col) =>
      SortByColumnPerm(rows, col);
      SortByColumnSorted(rows, col);
      SortByColumn(rows, col)
  }

  const UsersTable := "users"
  const RolesTable := "roles"

  /** `INSERT`: an `id` that is NULL or absent takes the next AUTOINCREMENT
      rowid; an integer `id` is used as given unless a row holds it. */
  function InsertInto(t: Table, fields: Record): (r: Outcome<(Table, int)>)
    ensures TableOk(t) && r.Ok? ==> Lookup(t.rows, r.value.1) == None
    ensures r.Ok? ==> r.value.0.rows == Insert(t.rows, r.value.1, Put(fields, IdColumn, Int(r.value.1)))
    ensures r.Ok? && Column(fields, IdColumn) == Null ==> r.value.1 == t.top + 1
    ensures r.Ok? && Column(fields, IdColumn) != Null ==> Column(fields, IdColumn) == Int(r.value.1)
    ensures r.Err? <==> (Column(fields, IdColumn).Int? && Lookup(t.rows, Column(fields, IdColumn).i).Some?) ||
                        !(Column(fields, IdColumn).Int? || Column(fields, IdColumn).Null?)
  {
    match Column(fields, IdColumn)
    case Null =>
      var id := t.top + 1;
      assert TableOk(t) ==> Lookup(t.rows, id) == None by {
        if TableOk(t) {
          forall j | 0 <= j < |t.rows| ensures KeysIn(t.rows)[j] != id {
            assert t.rows[j] in t.rows;
          }
        }
      }
      Ok((Table(Insert(t.rows, id, Put(fields, IdColumn, Int(id))), id), id))
    case Int(k) =>
      if Lookup(t.rows, k).Some? then Err(NotUnique)
      else Ok((Table(Insert(t.rows, k, Put(fields, IdColumn, Int(k))), if k > t.top then k else t.top), k))
    case _ => Err(TypeMismatch)
  }

  /** `UPDATE ... WHERE id = ?`: the row, if any, takes the new values; its
      rowid stays. */
  function UpdateIn(t: Table, id: int, fields: Record): (r: Table)
    ensures Lookup(t.rows, id).None? ==> r == t
    ensures Lookup(t.rows, id).Some? ==>
      r.rows == Insert(t.rows, id, Put(PutAll(Lookup(t.rows, id).value, fields), IdColumn, Int(id)))
  {
    match Lookup(t.rows, id)
    case None => t
    case Some(row) => Table(Insert(t.rows, id, Put(PutAll(row, fields), IdColumn, Int(id))), t.top)
  }

  /** `DELETE ... WHERE id = ?`. */
  function DeleteFrom(t: Table, id: int): (r: Table)
    ensures r.rows == Remove(t.rows, id) && r.top == t.top
  {
    Table(Remove(t.rows, id), t.top)
  }

  /** The change a write makes, or the constraint it breaks. */
  function Write(s: Store, st: Statement): (r: Outcome<(Store, Answer)>)
    ensures r.Ok? ==> r.value.0.ledger.Some? || s.ledger == r.value.0.ledger
    ensures r.Ok? && st.effect.InsertRow? ==> r.value.1.RowId?
  {
    match st.effect
    case InsertRow(t, fields) =>
      (match InsertInto(TableOf(s, t), fields)
       case Ok((table, id)) => Ok((s.(tables := s.tables[t := table]), RowId(id)))
       case Err(e) => Err(e))
    case UpdateRow(t, id, fields) => Ok((s.(tables := s.tables[t := UpdateIn(TableOf(s, t), id, fields)]), Done))
    case DeleteRow(t, id) => Ok((s.(tables := s.tables[t := DeleteFrom(TableOf(s, t), id)]), Done))
    case CreateLedger => Ok((if s.ledger.None? then s.(ledger := Some([])) else s, Done))
    case InsertLedger(v, name) =>
      (match s.ledger
       case None => Err(NoSuchTable)
       case Some(l) => if Lookup(l, v).Some? then Err(NotUnique) else Ok((s.(ledger := Some(Insert(l, v, name))), Done)))
    case RunScript => Ok((s.(script := s.script + [st.sql]), Done))
    case _ => Ok((s, Done))
  }

  /** `cursor.execute(sql, params)` in autocommit mode or inside the open
      transaction. A statement that fails changes nothing, and a `SELECT`
      changes nothing. */
  function Exec(d: Database, st: Statement, engine: Engine): (r: (Database, Outcome<Answer>))
    ensures r.0.pending == d.pending
    ensures r.1.Err? || IsRead(st.effect) ==> r.0 == d
    ensures !Bindable(st.params) ==> r.1 == Err(Unbindable)
    ensures r.1.Ok? && st.effect.InsertRow? ==> r.1.value.RowId?
  {
    if IsRead(st.effect) then (d, if !Bindable(st.params) then Err(Unbindable) else Read(d.live, st.effect))
    else ExecWrite(d, st, engine)
  }

  /** `cursor.execute` of a statement that writes: the parameters must bind,
      the engine must accept it, and the change must keep the constraints
      the model checks itself. */
  function ExecWrite(d: Database, st: Statement, engine: Engine): (r: (Database, Outcome<Answer>))
    ensures r.0.pending == d.pending
    ensures r.1.Err? ==> r.0 == d
    ensures !Bindable(st.params) ==> r.1 == Err(Unbindable)
    ensures r.1.Ok? && st.effect.InsertRow? ==> r.1.value.RowId?
  {
    if !Bindable(st.params) then (d, Err(Unbindable))
    else if !engine(d.live, st.sql, st.params) then (d, Err(Rejected))
    else
      match Write(d.live, st)
      case Ok((s, a)) => (Database(s, d.pending), Ok(a))
      case Err(e) => (d, Err(e))
  }

  /** `BEGIN`: fails while a transaction is open. */
  function Begin(d: Database): (r: (Database, Outcome<()>))
    ensures d.pending.None? ==> r == (Database(d.live, Some(d.live)), Ok(()))
    ensures d.pending.Some? ==> r == (d, Err(NestedBegin))
  {
    if d.pending.Some? then (d, Err(NestedBegin)) else (Database(d.live, Some(d.live)), Ok(()))
  }

  /** `COMMIT`: keeps the changes and ends the transaction. */
  function Commit(d: Database): (r: (Database, Outcome<()>))
    ensures d.pending.Some? ==> r == (Database(d.live, None), Ok(()))
    ensures d.pending.None? ==> r == (d, Err(NoTransaction))
  {
    if d.pending.None? then (d, Err(NoTransaction)) else (Database(d.live, None), Ok(()))
  }

  /** `ROLLBACK`: returns to the contents at `BEGIN` and ends the transaction. */
  function Rollback(d: Database): (r: (Database, Outcome<()>))
    ensures d.pending.Some? ==> r == (Database(d.pending.value, None), Ok(()))
    ensures d.pending.None? ==> r == (d, Err(NoTransaction))
  {
    match d.pending
    case None => (d, Err(NoTransaction))
    case Some(s) => (Database(s, None), Ok(()))
  }

  /** Every table of a well-formed store is well-formed, a missing one
      being empty. */
  lemma TableOfOk(s: Store, name: string)
    requires StoreOk(s)
    ensures TableOk(TableOf(s, name))
  {
  }

  /** An entry added under its own rowid keeps a well-formed table
      well-formed. */
  lemma InsertKeepsOk(t: Table, id: int, row: Record, top: int)
    requires TableOk(t) && Column(row, IdColumn) == Int(id)
    requires top >= t.top && top >= id
    ensures TableOk(Table(Insert(t.rows, id, row), top))
  {
    InsertOrdered(t.rows, id, row);
    InsertEntries(t.rows, id, row);
  }

  lemma InsertIntoKeepsOk(t: Table, fields: Record)
    requires TableOk(t) && InsertInto(t, fields).Ok?
    ensures TableOk(InsertInto(t, fields).value.0)
  {
    var (t', id) := InsertInto(t, fields).value;
    PutFound(fields, IdColumn, Int(id));
    InsertKeepsOk(t, id, Put(fields, IdColumn, Int(id)), t'.top);
  }

  lemma UpdateInKeepsOk(t: Table, id: int, fields: Record)
    requires TableOk(t)
    ensures TableOk(UpdateIn(t, id, fields))
  {
    if Lookup(t.rows, id).Some? {
      var row := Put(PutAll(Lookup(t.rows, id).value, fields), IdColumn, Int(id));
      PutFound(PutAll(Lookup(t.rows, id).value, fields), IdColumn, Int(id));
      assert id <= t.top by {
        var j :| 0 <= j < |t.rows| && KeysIn(t.rows)[j] == id;
        assert t.rows[j] in t.rows;
      }
      InsertKeepsOk(t, id, Put(PutAll(Lookup(t.rows, id).value, fields), IdColumn, Int(id)), t.top);
    }
  }

  lemma DeleteFromKeepsOk(t: Table, id: int)
    requires TableOk(t)
    ensures TableOk(DeleteFrom(t, id))
  {
    RemoveOrdered(t.rows, id);
    RemoveEntries(t.rows, id);
  }

  /** Every write keeps every table well-formed and the ledger in version
      order. */
  lemma WriteKeepsValid(s: Store, st: Statement)
    requires StoreOk(s) && Write(s, st).Ok?
    ensures StoreOk(Write(s, st).value.0)
  {
    match st.effect
    case InsertRow(t, fields) =>
      InsertIntoKeepsOk(TableOf(s, t), fields);
    case UpdateRow(t, id, fields) =>
      UpdateInKeepsOk(TableOf(s, t), id, fields);
    case DeleteRow(t, id) =>
      DeleteFromKeepsOk(TableOf(s, t), id);
    case InsertLedger(v, name) =>
      InsertOrdered(s.ledger.value, v, name);
    case _ =>
  }

  /** Executing any statement keeps the database well-formed. */
  lemma ExecKeepsOk(d: Database, st: Statement, engine: Engine)
    requires DatabaseOk(d)
    ensures DatabaseOk(Exec(d, st, engine).0)
  {
    if Bindable(st.params) && !IsRead(st.effect) && engine(d.live, st.sql, st.params) && Write(d.live, st).Ok? {
      WriteKeepsValid(d.live, st);
    }
  }
}
