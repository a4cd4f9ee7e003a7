/** The generic record store every model of the application builds on:
    create, read, update and delete by id over one table, `find`, `count`
    and `exists` by a conditions dict, and the audit entry each change adds
    when an acting user is set. The store runs in autocommit mode and opens
    no transaction: a change and its audit entry are separate statements,
    and a failed audit entry is swallowed. */
module Records {
  import opened Util
  import opened Values
  import opened Order
  import opened Query
  import opened Store
  import opened Sql
  import opened Connection

  const CreatedAt := "created_at"
  const UpdatedAt := "updated_at"
  const CreatedBy := "created_by"
  const UpdatedBy := "updated_by"
  const AuditTable := "audit_log"

  /** `if k not in d: d[k] = v`. */
  function SetDefault(r: Record, k: string, v: Value): Record
  {
    if Has(r, k) then r else Put(r, k, v)
  }

  /** A default fills in an absent key only. */
  lemma SetDefaultGet(r: Record, k: string, v: Value, k': string)
    ensures Get(SetDefault(r, k, v), k') == if k' == k && !Has(r, k) then Some(v) else Get(r, k')
  {
    if !Has(r, k) {
      PutGet(r, k, v, k');
    }
  }

  /** The dict `create` sends: the caller's own entries, then `created_at`
      and `updated_at` when absent (each from its own clock reading), then
      `created_by` when an actor is set and the key is absent. */
  function Stamped(data: Record, actor: Option<int>, createdAt: int, updatedAt: int): Record
  {
    var d := SetDefault(SetDefault(data, CreatedAt, Stamp(createdAt)), UpdatedAt, Stamp(updatedAt));
    if Given(actor) then SetDefault(d, CreatedBy, Int(actor.value)) else d
  }

  /** `create` never overwrites what the caller gave: each stamp is added
      only where its key is absent, `created_by` only for a set actor, and
      every other key reads as before. */
  lemma StampedGet(data: Record, actor: Option<int>, createdAt: int, updatedAt: int, k: string)
    ensures Get(Stamped(data, actor, createdAt, updatedAt), k) ==
      if Has(data, k) then Get(data, k)
      else if k == CreatedAt then Some(Stamp(createdAt))
      else if k == UpdatedAt then Some(Stamp(updatedAt))
      else if k == CreatedBy && Given(actor) then Some(Int(actor.value))
      else None
  {
    assert CreatedAt[0] != UpdatedAt[0] && CreatedAt[8] != CreatedBy[8] && UpdatedAt[0] != CreatedBy[0];
    var d1 := SetDefault(data, CreatedAt, Stamp(createdAt));
    var d2 := SetDefault(d1, UpdatedAt, Stamp(updatedAt));
    SetDefaultGet(data, CreatedAt, Stamp(createdAt), k);
    SetDefaultGet(data, CreatedAt, Stamp(createdAt), UpdatedAt);
    SetDefaultGet(d1, UpdatedAt, Stamp(updatedAt), k);
    if Given(actor) {
      SetDefaultGet(data, CreatedAt, Stamp(createdAt), CreatedBy);
      SetDefaultGet(d1, UpdatedAt, Stamp(updatedAt), CreatedBy);
      SetDefaultGet(d2, CreatedBy, Int(actor.value), k);
    }
  }

  /** A default keeps the keys there were, in order, and adds at most one
      at the end. */
  lemma SetDefaultKeys(r: Record, k: string, v: Value)
    ensures var r' := SetDefault(r, k, v);
      |r| <= |r'| <= |r| + 1 && KeysOf(r')[..|r|] == KeysOf(r)
  {
    PutKeys(r, k, v);
  }

  /** The caller's columns come first, in their own order, in the `INSERT`. */
  lemma StampedKeys(data: Record, actor: Option<int>, createdAt: int, updatedAt: int)
    ensures var s := Stamped(data, actor, createdAt, updatedAt);
      |data| <= |s| <= |data| + 3 && KeysOf(s)[..|data|] == KeysOf(data)
  {
    var d1 := SetDefault(data, CreatedAt, Stamp(createdAt));
    var d2 := SetDefault(d1, UpdatedAt, Stamp(updatedAt));
    var s := Stamped(data, actor, createdAt, updatedAt);
    SetDefaultKeys(data, CreatedAt, Stamp(createdAt));
    SetDefaultKeys(d1, UpdatedAt, Stamp(updatedAt));
    assert KeysOf(d2)[..|data|] == KeysOf(d2)[..|d1|][..|data|];
    if Given(actor) {
      SetDefaultKeys(d2, CreatedBy, Int(actor.value));
      assert KeysOf(s)[..|data|] == KeysOf(s)[..|d2|][..|data|];
    }
  }

  /** The dict `update` sends: `updated_at` always set to the clock
      reading, `updated_by` added when an actor is set and the key is
      absent. */
  function UpdateStamped(data: Record, actor: Option<int>, updatedAt: int): Record
  {
    var d := Put(data, UpdatedAt, Stamp(updatedAt));
    if Given(actor) then SetDefault(d, UpdatedBy, Int(actor.value)) else d
  }

  /** `update` overwrites `updated_at` whatever the caller gave, keeps a
      given `updated_by`, and leaves every other key as it was. */
  lemma UpdateStampedGet(data: Record, actor: Option<int>, updatedAt: int, k: string)
    ensures Get(UpdateStamped(data, actor, updatedAt), k) ==
      if k == UpdatedAt then Some(Stamp(updatedAt))
      else if Has(data, k) then Get(data, k)
      else if k == UpdatedBy && Given(actor) then Some(Int(actor.value))
      else None
  {
    assert UpdatedAt[8] != UpdatedBy[8];
    var d := Put(data, UpdatedAt, Stamp(updatedAt));
    PutGet(data, UpdatedAt, Stamp(updatedAt), k);
    if Given(actor) {
      PutGet(data, UpdatedAt, Stamp(updatedAt), UpdatedBy);
      SetDefaultGet(d, UpdatedBy, Int(actor.value), k);
    }
  }

  /** What a change hands to `_audit_log`. */
  datatype Change = Change(action: string, recordId: int, before: Option<Record>, after: Option<Record>)

  /** `json.dumps(v, default=str) if v else None`: a missing or empty dict
      is stored as NULL. */
  function Serialized(v: Option<Record>, toJson: Record -> string): (j: Value)
    ensures j == Null <==> v.None? || v.value == []
  {
    if v.Some? && v.value != [] then Text(toJson(v.value)) else Null
  }

  /** The `audit_log` row `_audit_log` builds, in its key order. */
  function AuditEntry(actor: int, table: string, c: Change, toJson: Record -> string, at: int): (e: Record)
    ensures forall i :: 0 <= i < |e| ==> !e[i].1.List?
  {
    [("user_id", Int(actor)), ("action", Text(c.action)), ("table_name", Text(table)),
     ("record_id", Int(c.recordId)), ("old_values", Serialized(c.before, toJson)),
     ("new_values", Serialized(c.after, toJson)), ("created_at", Stamp(at))]
  }

  function AuditStatement(actor: int, table: string, c: Change, toJson: Record -> string, at: int): Statement
  {
    InsertStatement(AuditTable, AuditEntry(actor, table, c, toJson, at))
  }

  /** `_audit_log`: nothing at all without an actor; otherwise the
      `INSERT INTO audit_log`, whose failure is logged and swallowed. */
  function Audited(d: Database, actor: Option<int>, table: string, c: Change, toJson: Record -> string,
                   at: int, engine: Engine): Database
  {
    if !Given(actor) then d
    else ExecWrite(d, AuditStatement(actor.value, table, c, toJson, at), engine).0
  }

  /** Auditing touches the audit table only, and nothing at all when no
      actor is set or the engine refuses the entry. */
  lemma AuditedOthers(d: Database, actor: Option<int>, table: string, c: Change, toJson: Record -> string,
                      at: int, engine: Engine)
    ensures var d' := Audited(d, actor, table, c, toJson, at, engine);
      d'.pending == d.pending && d'.live.ledger == d.live.ledger && d'.live.script == d.live.script &&
      (forall n :: n != AuditTable ==> TableOf(d'.live, n) == TableOf(d.live, n)) &&
      (!Given(actor) ==> d' == d) &&
      (Given(actor) ==>
        var st := AuditStatement(actor.value, table, c, toJson, at);
        !engine(d.live, st.sql, st.params) ==> d' == d)
  {
    if Given(actor) {
      var st := AuditStatement(actor.value, table, c, toJson, at);
      var d' := Audited(d, actor, table, c, toJson, at, engine);
      if ExecWrite(d, st, engine).1.Ok? {
        forall n | n != AuditTable ensures TableOf(d'.live, n) == TableOf(d.live, n) {
          assert d'.live.tables == d.live.tables[AuditTable := d'.live.tables[AuditTable]];
        }
      }
    }
  }

  /** The audit entry has no `id` of its own, so it takes the next rowid. */
  lemma AuditEntryHasNoId(actor: int, table: string, c: Change, toJson: Record -> string, at: int)
    ensures Column(AuditEntry(actor, table, c, toJson, at), IdColumn) == Null
  {
    var e := AuditEntry(actor, table, c, toJson, at);
    forall i | 0 <= i < |e| ensures KeysOf(e)[i] != IdColumn {
      assert |e[i].0| > 2;
    }
  }

  /** With an actor set and the entry accepted, the entry is stored under
      the next rowid (so, by `AppendsAtTop`, at the end of the audit log),
      carrying the actor, the action, the table and the record id, with NULL
      for a missing or empty old or new dict. */
  lemma AuditedAppends(d: Database, actor: Option<int>, table: string, c: Change, toJson: Record -> string,
                       at: int, engine: Engine)
    requires Given(actor)
    requires var st := AuditStatement(actor.value, table, c, toJson, at); engine(d.live, st.sql, st.params)
    ensures var d' := Audited(d, actor, table, c, toJson, at, engine);
      var e := AuditEntry(actor.value, table, c, toJson, at);
      var t := TableOf(d.live, AuditTable);
      TableOf(d'.live, AuditTable) == Table(Insert(t.rows, t.top + 1, Put(e, IdColumn, Int(t.top + 1))), t.top + 1)
  {
    var e := AuditEntry(actor.value, table, c, toJson, at);
    AuditEntryHasNoId(actor.value, table, c, toJson, at);
    InsertBindable(AuditTable, e);
    InsertApplied(d, InsertStatement(AuditTable, e), engine, AuditTable, e);
  }

  /** An `INSERT` of values none of which is a list binds. */
  lemma InsertBindable(table: string, e: Record)
    requires forall i :: 0 <= i < |e| ==> !e[i].1.List?
    ensures Bindable(InsertStatement(table, e).params)
  {
    var st := InsertStatement(table, e);
    forall i | 0 <= i < |st.params| ensures !st.params[i].List? {
      assert st.params[i] == e[i].1;
    }
  }

  /** An accepted `INSERT` without an `id` replaces the table by one with
      the row under the next rowid. */
  lemma InsertApplied(d: Database, st: Statement, engine: Engine, name: string, e: Record)
    requires st.effect == InsertRow(name, e) && Column(e, IdColumn) == Null
    requires Bindable(st.params) && engine(d.live, st.sql, st.params)
    ensures var t := TableOf(d.live, name); var id := t.top + 1;
      TableOf(ExecWrite(d, st, engine).0.live, name) == Table(Insert(t.rows, id, Put(e, IdColumn, Int(id))), id)
  {
    var t := TableOf(d.live, name);
    var id := t.top + 1;
    var t' := Table(Insert(t.rows, id, Put(e, IdColumn, Int(id))), id);
    var s' := d.live.(tables := d.live.tables[name := t']);
    assert Write(d.live, st) == Ok((s', RowId(id))) by {
      assert InsertInto(t, e) == Ok((t', id));
    }
    assert ExecWrite(d, st, engine).0.live == s';
  }

  /** The next rowid is above every stored one, so its row goes last. */
  lemma AppendsAtTop(t: Table, row: Record)
    requires TableOk(t)
    ensures Insert(t.rows, t.top + 1, row) == t.rows + [(t.top + 1, row)]
  {
    forall i | 0 <= i < |t.rows| ensures t.rows[i].0 < t.top + 1 {
      assert t.rows[i] in t.rows;
    }
    InsertLast(t.rows, t.top + 1, row);
  }

  /** `create`: the caller's dict stamped, the `INSERT`, then the audit entry
      for the new row; an engine error is re-raised, after the caller's dict
      has been stamped. */
  function Created(d: Database, table: string, data: Record, actor: Option<int>, toJson: Record -> string,
                   createdAt: int, updatedAt: int, loggedAt: int, engine: Engine): (Database, Outcome<int>)
  {
    var row := Stamped(data, actor, createdAt, updatedAt);
    var (d1, r) := ExecWrite(d, InsertStatement(table, row), engine);
    match r
    case Err(e) => (d1, Err(e))
    case Ok(a) =>
      (Audited(d1, actor, table, Change("CREATE", a.id, None, Some(row)), toJson, loggedAt, engine), Ok(a.id))
  }

  /** A failed `create` changes nothing; a successful one returns a rowid no
      row held, under which the table now holds the stamped dict; a dict with
      no `id` takes the next AUTOINCREMENT rowid. */
  lemma CreatedRow(d: Database, table: string, data: Record, actor: Option<int>, toJson: Record -> string,
                   createdAt: int, updatedAt: int, loggedAt: int, engine: Engine)
    requires DatabaseOk(d) && table != AuditTable
    ensures var (d', r) := Created(d, table, data, actor, toJson, createdAt, updatedAt, loggedAt, engine);
      var row := Stamped(data, actor, createdAt, updatedAt);
      (r.Err? ==> d' == d) &&
      (r.Ok? ==> Lookup(TableOf(d.live, table).rows, r.value) == None &&
                 Lookup(TableOf(d'.live, table).rows, r.value) == Some(Put(row, IdColumn, Int(r.value))) &&
                 (forall k :: k != r.value ==> Lookup(TableOf(d'.live, table).rows, k) == Lookup(TableOf(d.live, table).rows, k)) &&
                 (Column(row, IdColumn) == Null ==> r.value == TableOf(d.live, table).top + 1))
  {
    var row := Stamped(data, actor, createdAt, updatedAt);
    var st := InsertStatement(table, row);
    var (d1, r) := ExecWrite(d, st, engine);
    if r.Ok? {
      var t := TableOf(d.live, table);
      var (t', id) := InsertInto(t, row).value;
      assert TableOk(t);
      assert TableOf(d1.live, table) == t';
      InsertFound(t.rows, id, Put(row, IdColumn, Int(id)));
      forall k | k != id ensures Lookup(t'.rows, k) == Lookup(t.rows, k) {
        InsertOther(t.rows, id, Put(row, IdColumn, Int(id)), k);
      }
      AuditedOthers(d1, actor, table, Change("CREATE", id, None, Some(row)), toJson, loggedAt, engine);
    }
  }

  /** `update`: a missing (or empty) row makes it return False before
      anything is touched; otherwise the caller's dict is stamped, the
      `UPDATE` sent, and on success the change audited. Every engine error
      becomes False. */
  function Updated(d: Database, table: string, id: int, data: Record, actor: Option<int>,
                   toJson: Record -> string, updatedAt: int, loggedAt: int, engine: Engine): (Database, Record, bool)
  {
    match Lookup(TableOf(d.live, table).rows, id)
    case None => (d, data, false)
    case Some(prior) =>
      if prior == [] then (d, data, false)
      else
        var row := UpdateStamped(data, actor, updatedAt);
        var (d1, r) := ExecWrite(d, UpdateStatement(table, id, row), engine);
        if r.Err? then (d1, row, false)
        else (Audited(d1, actor, table, Change("UPDATE", id, Some(prior), Some(row)), toJson, loggedAt, engine), row, true)
  }

  /** A missing id gives False with the database and the dict untouched,
      so no audit entry either; any False leaves the database as it was. */
  lemma UpdatedRefused(d: Database, table: string, id: int, data: Record, actor: Option<int>,
                       toJson: Record -> string, updatedAt: int, loggedAt: int, engine: Engine)
    ensures var u := Updated(d, table, id, data, actor, toJson, updatedAt, loggedAt, engine);
      (Lookup(TableOf(d.live, table).rows, id).None? ==> u == (d, data, false)) &&
      (!u.2 ==> u.0 == d)
  {
  }

  /** True means the row now holds the new values under the same rowid and
      no other row of the table changed. */
  lemma UpdatedRow(d: Database, table: string, id: int, data: Record, actor: Option<int>,
                   toJson: Record -> string, updatedAt: int, loggedAt: int, engine: Engine)
    requires table != AuditTable
    requires Updated(d, table, id, data, actor, toJson, updatedAt, loggedAt, engine).2
    ensures var u := Updated(d, table, id, data, actor, toJson, updatedAt, loggedAt, engine);
      var rows := TableOf(d.live, table).rows;
      var rows' := TableOf(u.0.live, table).rows;
      Lookup(rows, id).Some? &&
      Lookup(rows', id) == Some(Put(PutAll(Lookup(rows, id).value, u.1), IdColumn, Int(id))) &&
      forall k :: k != id ==> Lookup(rows', k) == Lookup(rows, k)
  {
    var t := TableOf(d.live, table);
    var prior := Lookup(t.rows, id).value;
    var row := UpdateStamped(data, actor, updatedAt);
    var st := UpdateStatement(table, id, row);
    var d1 := ExecWrite(d, st, engine).0;
    var c := Change("UPDATE", id, Some(prior), Some(row));
    assert Updated(d, table, id, data, actor, toJson, updatedAt, loggedAt, engine) ==
      (Audited(d1, actor, table, c, toJson, loggedAt, engine), row, true);
    UpdateApplied(d, st, engine, table, id, row);
    AuditedOthers(d1, actor, table, c, toJson, loggedAt, engine);
    UpdateInRows(t, id, row);
  }

  /** An accepted `UPDATE` replaces the table by `UpdateIn` of it. */
  lemma UpdateApplied(d: Database, st: Statement, engine: Engine, table: string, id: int, fields: Record)
    requires st.effect == UpdateRow(table, id, fields) && ExecWrite(d, st, engine).1.Ok?
    ensures TableOf(ExecWrite(d, st, engine).0.live, table) == UpdateIn(TableOf(d.live, table), id, fields)
  {
    var t' := UpdateIn(TableOf(d.live, table), id, fields);
    assert Write(d.live, st) == Ok((d.live.(tables := d.live.tables[table := t']), Done));
  }

  /** The updated row takes the merged values under its own rowid; every
      other rowid keeps its row. */
  lemma UpdateInRows(t: Table, id: int, fields: Record)
    requires Lookup(t.rows, id).Some?
    ensures var rows' := UpdateIn(t, id, fields).rows;
      Lookup(rows', id) == Some(Put(PutAll(Lookup(t.rows, id).value, fields), IdColumn, Int(id))) &&
      forall k :: k != id ==> Lookup(rows', k) == Lookup(t.rows, k)
  {
    var newRow := Put(PutAll(Lookup(t.rows, id).value, fields), IdColumn, Int(id));
    InsertFound(t.rows, id, newRow);
    forall k | k != id ensures Lookup(Insert(t.rows, id, newRow), k) == Lookup(t.rows, k) {
      InsertOther(t.rows, id, newRow, k);
    }
  }

  /** `delete`: a missing (or empty) row gives False; otherwise the
      `DELETE`, and on success the audit entry with the old values. Every
      engine error becomes False. */
  function Deleted(d: Database, table: string, id: int, actor: Option<int>, toJson: Record -> string,
                   loggedAt: int, engine: Engine): (Database, bool)
  {
    match Lookup(TableOf(d.live, table).rows, id)
    case None => (d, false)
    case Some(prior) =>
      if prior == [] then (d, false)
      else
        var (d1, r) := ExecWrite(d, DeleteStatement(table, id), engine);
        if r.Err? then (d1, false)
        else (Audited(d1, actor, table, Change("DELETE", id, Some(prior), None), toJson, loggedAt, engine), true)
  }

  /** A missing id gives False; any False leaves the database as it was;
      True means the row is gone and every other row is as it was. */
  lemma DeletedRow(d: Database, table: string, id: int, actor: Option<int>, toJson: Record -> string,
                   loggedAt: int, engine: Engine)
    requires table != AuditTable
    ensures var (d', ok) := Deleted(d, table, id, actor, toJson, loggedAt, engine);
      var rows := TableOf(d.live, table).rows;
      var rows' := TableOf(d'.live, table).rows;
      (Lookup(rows, id).None? ==> !ok) &&
      (!ok ==> d' == d) &&
      (ok ==> Lookup(rows, id).Some? && Lookup(rows', id) == None &&
              forall k :: k != id ==> Lookup(rows', k) == Lookup(rows, k))
  {
    var rows := TableOf(d.live, table).rows;
    var (d', ok) := Deleted(d, table, id, actor, toJson, loggedAt, engine);
    if ok {
      var prior := Lookup(rows, id).value;
      var (d1, r) := ExecWrite(d, DeleteStatement(table, id), engine);
      assert TableOf(d1.live, table).rows == Remove(rows, id);
      RemoveGone(rows, id);
      forall k | k != id ensures Lookup(Remove(rows, id), k) == Lookup(rows, k) {
        RemoveOther(rows, id, k);
      }
      AuditedOthers(d1, actor, table, Change("DELETE", id, Some(prior), None), toJson, loggedAt, engine);
    }
  }

  /** What `find` returns: the matching rows, sorted when `order_by` is
      given, cut to the `LIMIT`/`OFFSET` window; a list among the values of
      an `IN` list cannot be bound and raises. */
  function Found(s: Store, table: string, conds: Record, orderBy: Option<string>,
                 limit: Option<int>, offset: Option<int>): Outcome<seq<Record>>
  {
    var cs := FindConds(conds);
    if !Bindable(ParamsOf(cs)) then Err(Unbindable)
    else Ok(Window(OrderedBy(Where(Rows(s, table), cs), PageOrder(orderBy)), PageLimit(limit), PageOffset(limit, offset)))
  }

  /** Every row `find` returns is a row of the table that satisfies every
      condition as `find` reads it; a truthy non-negative limit bounds the
      count, and without a truthy limit every matching row is returned. */
  lemma FoundRows(s: Store, table: string, conds: Record, orderBy: Option<string>,
                  limit: Option<int>, offset: Option<int>)
    requires Found(s, table, conds, orderBy, limit, offset).Ok?
    ensures var r := Found(s, table, conds, orderBy, limit, offset).value;
      (forall x :: x in r ==> x in Rows(s, table) && HoldsAll(x, FindConds(conds))) &&
      (Given(limit) && limit.value >= 0 ==> |r| <= limit.value) &&
      (!Given(limit) ==> |r| == |Where(Rows(s, table), FindConds(conds))|)
  {
    var cs := FindConds(conds);
    var w := Where(Rows(s, table), cs);
    var o := OrderedBy(w, PageOrder(orderBy));
    OrderedMembers(w, PageOrder(orderBy));
    WindowMembers(o, PageLimit(limit), PageOffset(limit, offset));
  }

  /** Ordering keeps the rows and their number. */
  lemma OrderedMembers(rows: seq<Record>, order: Option<string>)
    ensures |OrderedBy(rows, order)| == |rows|
    ensures forall x :: x in OrderedBy(rows, order) <==> x in rows
  {
    var o := OrderedBy(rows, order);
    assert |multiset(o)| == |multiset(rows)|;
    forall x ensures x in o <==> x in rows {
      assert x in o <==> x in multiset(o);
      assert x in rows <==> x in multiset(rows);
    }
  }

  /** The window holds only rows it was given. */
  lemma WindowMembers(rows: seq<Record>, limit: Option<int>, offset: Option<int>)
    ensures forall x :: x in Window(rows, limit, offset) ==> x in rows
  {
    var r := Window(rows, limit, offset);
    forall x | x in r ensures x in rows {
      var i :| 0 <= i < |r| && r[i] == x;
      assert rows[Skip(offset) + i] == x;
    }
  }

  /** What `count` returns: the number of matching rows, each non-None
      value read as `= ?`; a list value cannot be bound and raises. */
  function Counted(s: Store, table: string, conds: Record): Outcome<nat>
  {
    var cs := CountConds(conds);
    if !Bindable(ParamsOf(cs)) then Err(Unbindable) else Ok(|Where(Rows(s, table), cs)|)
  }

  /** `count` raises exactly when some condition value is a list. */
  lemma {:induction false} CountedRaises(s: Store, table: string, conds: Record)
    ensures Counted(s, table, conds).Err? <==> !NoLists(conds)
  {
    CountParamsBindable(conds);
  }

  /** No condition value is a list. */
  predicate NoLists(conds: Record)
  {
    forall i :: 0 <= i < |conds| ==> !conds[i].1.List?
  }

  lemma BindableConcat(a: seq<Value>, b: seq<Value>)
    ensures Bindable(a + b) <==> Bindable(a) && Bindable(b)
  {
    if Bindable(a + b) {
      forall i | 0 <= i < |a| ensures !a[i].List? {
        assert (a + b)[i] == a[i];
      }
      forall i | 0 <= i < |b| ensures !b[i].List? {
        assert (a + b)[|a| + i] == b[i];
      }
    }
  }

  lemma CountParamsBindable(conds: Record)
    ensures Bindable(ParamsOf(CountConds(conds))) <==> NoLists(conds)
  {
    var cs := CountConds(conds);
    ParamsBindable(cs);
    forall i | 0 <= i < |conds| ensures Bindable(CondParams(cs[i])) <==> !conds[i].1.List? {
    }
  }

  /** The parameters bind exactly when those of every term do. */
  lemma {:induction false} ParamsBindable(cs: seq<Cond>)
    ensures Bindable(ParamsOf(cs)) <==> forall i :: 0 <= i < |cs| ==> Bindable(CondParams(cs[i]))
  {
    if |cs| > 0 {
      var init := cs[..|cs| - 1];
      ParamsBindable(init);
      BindableConcat(ParamsOf(init), CondParams(cs[|cs| - 1]));
      assert forall i :: 0 <= i < |cs| - 1 ==> init[i] == cs[i];
    }
  }

  /** Without a list among the values, `count` is the number of rows an
      unlimited `find` with the same conditions returns. */
  lemma CountedIsFoundSize(s: Store, table: string, conds: Record, orderBy: Option<string>, offset: Option<int>)
    requires NoLists(conds)
    ensures Found(s, table, conds, orderBy, None, offset).Ok?
    ensures Counted(s, table, conds) == Ok(|Found(s, table, conds, orderBy, None, offset).value|)
  {
    SameConds(conds);
    CountParamsBindable(conds);
    FoundRows(s, table, conds, orderBy, None, offset);
  }

  /** What `exists` returns: whether `count` is positive. */
  function Existing(s: Store, table: string, conds: Record): Outcome<bool>
  {
    match Counted(s, table, conds)
    case Ok(n) => Ok(n > 0)
    case Err(e) => Err(e)
  }

  /** `exists` holds exactly when some row of the table satisfies every
      condition as `count` reads it. */
  lemma ExistingMeansMatch(s: Store, table: string, conds: Record)
    requires Existing(s, table, conds).Ok?
    ensures Existing(s, table, conds).value <==>
      exists x :: x in Rows(s, table) && HoldsAll(x, CountConds(conds))
  {
    var w := Where(Rows(s, table), CountConds(conds));
    if |w| > 0 {
      assert w[0] in w;
    }
  }

  /** The loop of `find` over the conditions dict: each condition's clause
      is appended, and its parameters appended or extended, in order. */
  method FindClauses(conds: Record) returns (clauses: seq<string>, params: seq<Value>)
    ensures clauses == Clauses(FindConds(conds)) && params == ParamsOf(FindConds(conds))
  {
    clauses := [];
    params := [];
    ghost var cs := FindConds(conds);
    var i := 0;
    while i < |conds|
      invariant 0 <= i <= |conds|
      invariant clauses == Clauses(cs[..i]) && params == ParamsOf(cs[..i])
    {
      var clause, ps := FindClause(conds[i]);
      ClausesSnoc(cs, i);
      clauses := clauses + [clause];
      params := params + ps;
      i := i + 1;
    }
    assert cs[..i] == cs;
  }

  /** One pass of `find`'s loop: `IS NULL`, `IN (?,...)` with the list's
      items, or `= ?` with the value. */
  method FindClause(f: Field) returns (clause: string, params: seq<Value>)
    ensures clause == CondSql(FindCond(f)) && params == CondParams(FindCond(f))
  {
    var (key, value) := f;
    if value == Null {
      clause, params := key + " IS NULL", [];
    } else if value.List? {
      clause, params := key + " IN (" + Join(Repeat("?", |value.items|), ",") + ")", value.items;
    } else {
      clause, params := key + " = ?", [value];
    }
  }

  /** One pass of `count`'s loop: `IS NULL`, or `= ?` with the value. */
  method CountClause(f: Field) returns (clause: string, params: seq<Value>)
    ensures clause == CondSql(CountCond(f)) && params == CondParams(CountCond(f))
  {
    var (key, value) := f;
    if value == Null {
      clause, params := key + " IS NULL", [];
    } else {
      clause, params := key + " = ?", [value];
    }
  }

  /** One more term adds its clause and its parameters at the end. */
  lemma ClausesSnoc(cs: seq<Cond>, i: int)
    requires 0 <= i < |cs|
    ensures Clauses(cs[..i + 1]) == Clauses(cs[..i]) + [CondSql(cs[i])]
    ensures ParamsOf(cs[..i + 1]) == ParamsOf(cs[..i]) + CondParams(cs[i])
  {
    assert cs[..i + 1][..i] == cs[..i];
  }

  /** The loop of `count`: no `IN` branch, so a list is bound as one value. */
  method CountClauses(conds: Record) returns (clauses: seq<string>, params: seq<Value>)
    ensures clauses == Clauses(CountConds(conds)) && params == ParamsOf(CountConds(conds))
  {
    clauses := [];
    params := [];
    ghost var cs := CountConds(conds);
    var i := 0;
    while i < |conds|
      invariant 0 <= i <= |conds|
      invariant clauses == Clauses(cs[..i]) && params == ParamsOf(cs[..i])
    {
      var clause, ps := CountClause(conds[i]);
      ClausesSnoc(cs, i);
      clauses := clauses + [clause];
      params := params + ps;
      i := i + 1;
    }
    assert cs[..i] == cs;
  }

  /** Sending `find`'s statement changes nothing and answers what `find`
      returns. */
  lemma ExecFind(d: Database, table: string, conds: Record, orderBy: Option<string>,
                 limit: Option<int>, offset: Option<int>, engine: Engine)
    ensures var r := Exec(d, FindStatement(table, conds, orderBy, limit, offset), engine);
      var f := Found(d.live, table, conds, orderBy, limit, offset);
      r.0 == d && (f.Err? ==> r.1 == Err(f.error)) && (f.Ok? ==> r.1 == Ok(Selected(f.value)))
  {
  }

  /** Sending `count`'s statement changes nothing and answers what `count`
      returns. */
  lemma ExecCount(d: Database, table: string, conds: Record, engine: Engine)
    ensures var r := Exec(d, CountStatement(table, conds), engine);
      var c := Counted(d.live, table, conds);
      r.0 == d && (c.Err? ==> r.1 == Err(c.error)) && (c.Ok? ==> r.1 == Ok(Count(c.value)))
  {
  }

  /** A dict the caller passes in, to which `create` and `update` add keys. */
  class Fields {
    var items: Record

    constructor (items: Record)
      ensures this.items == items
    {
      this.items := items;
    }
  }

  /** A model of one table: the connection, the table, the acting user
      (`audit_user_id`) and the JSON serializer the audit log uses. */
  class RecordStore {
    const db: DatabaseConnection
    const table: string
    const actor: Option<int>
    const toJson: Record -> string

    ghost predicate Valid()
      reads db
    {
      table != "" && db.Valid()
    }

    constructor (db: DatabaseConnection, table: string, actor: Option<int>, toJson: Record -> string)
      ensures this.db == db && this.table == table && this.actor == actor && this.toJson == toJson
    {
      this.db := db;
      this.table := table;
      this.actor := actor;
      this.toJson := toJson;
    }

    /** `__init__`: a model without a table name raises `ValueError`. */
    static method Open(db: DatabaseConnection, table: string, actor: Option<int>, toJson: Record -> string)
      returns (r: Outcome<RecordStore>)
      ensures r.Err? <==> table == ""
      ensures r.Err? ==> r.error == EmptyTableName
      ensures r.Ok? ==> fresh(r.value) && r.value.db == db && r.value.table == table &&
                        r.value.actor == actor && r.value.toJson == toJson
      ensures r.Ok? && db.Valid() ==> r.value.Valid()
    {
      var m := new RecordStore(db, table, actor, toJson);
      if table == "" {
        return Err(EmptyTableName);
      }
      r := Ok(m);
    }

    /** `_audit_log`. */
    method AuditLog(c: Change, at: int)
      requires Valid()
      modifies db
      ensures Valid() && db.files == old(db.files)
      ensures db.db == Audited(old(db.db), actor, table, c, toJson, at, db.engine)
    {
      if !Given(actor) {
        return;
      }
      var entry := AuditEntry(actor.value, table, c, toJson, at);
      var ignored := db.Execute(InsertStatement(AuditTable, entry));
    }

    /** `create`. */
    method Create(data: Fields, createdAt: int, updatedAt: int, loggedAt: int) returns (r: Outcome<int>)
      requires Valid()
      modifies db, data
      ensures Valid() && db.files == old(db.files)
      ensures data.items == Stamped(old(data.items), actor, createdAt, updatedAt)
      ensures (db.db, r) == Created(old(db.db), table, old(data.items), actor, toJson, createdAt, updatedAt, loggedAt, db.engine)
    {
      StampCreated(data, createdAt, updatedAt);
      var row := data.items;
      var res := db.Execute(InsertStatement(table, row));
      if res.Err? {
        return Err(res.error);
      }
      var id := res.value.id;
      AuditLog(Change("CREATE", id, None, Some(row)), loggedAt);
      r := Ok(id);
    }

    /** The `setdefault` calls of `create`, made on the caller's dict. */
    method StampCreated(data: Fields, createdAt: int, updatedAt: int)
      modifies data
      ensures data.items == Stamped(old(data.items), actor, createdAt, updatedAt)
    {
      if !Has(data.items, CreatedAt) {
        data.items := Put(data.items, CreatedAt, Stamp(createdAt));
      }
      if !Has(data.items, UpdatedAt) {
        data.items := Put(data.items, UpdatedAt, Stamp(updatedAt));
      }
      if Given(actor) && !Has(data.items, CreatedBy) {
        data.items := Put(data.items, CreatedBy, Int(actor.value));
      }
    }

    /** `read`: the row stored under the id, if any. */
    method Read(id: int) returns (r: Option<Record>)
      requires Valid()
      modifies db
      ensures Valid() && db.db == old(db.db) && db.files == old(db.files)
      ensures r == Lookup(TableOf(db.db.live, table).rows, id)
    {
      var res := db.Execute(ReadStatement(table, id));
      var rows := res.value.rows;
      if |rows| > 0 {
        r := Some(rows[0]);
      } else {
        r := None;
      }
    }

    /** `update`. */
    method Update(id: int, data: Fields, updatedAt: int, loggedAt: int) returns (ok: bool)
      requires Valid()
      modifies db, data
      ensures Valid() && db.files == old(db.files)
      ensures (db.db, data.items, ok) == Updated(old(db.db), table, id, old(data.items), actor, toJson, updatedAt, loggedAt, db.engine)
    {
      var oldData := Read(id);
      if oldData.None? || oldData.value == [] {
        return false;
      }
      StampUpdated(data, updatedAt);
      var row := data.items;
      var res := db.Execute(UpdateStatement(table, id, row));
      if res.Err? {
        return false;
      }
      AuditLog(Change("UPDATE", id, oldData, Some(row)), loggedAt);
      ok := true;
    }

    /** The stamps `update` writes into the caller's dict. */
    method StampUpdated(data: Fields, updatedAt: int)
      modifies data
      ensures data.items == UpdateStamped(old(data.items), actor, updatedAt)
    {
      data.items := Put(data.items, UpdatedAt, Stamp(updatedAt));
      if Given(actor) && !Has(data.items, UpdatedBy) {
        data.items := Put(data.items, UpdatedBy, Int(actor.value));
      }
    }

    /** `delete`. */
    method Delete(id: int, loggedAt: int) returns (ok: bool)
      requires Valid()
      modifies db
      ensures Valid() && db.files == old(db.files)
      ensures (db.db, ok) == Deleted(old(db.db), table, id, actor, toJson, loggedAt, db.engine)
    {
      var oldData := Read(id);
      if oldData.None? || oldData.value == [] {
        return false;
      }
      var res := db.Execute(DeleteStatement(table, id));
      if res.Err? {
        return false;
      }
      AuditLog(Change("DELETE", id, oldData, None), loggedAt);
      ok := true;
    }

    /** `find`: the loop turns each condition into its clause and its
        parameters, in the dict's order. */
    method Find(conds: Record, orderBy: Option<string>, limit: Option<int>, offset: Option<int>)
      returns (r: Outcome<seq<Record>>)
      requires Valid()
      modifies db
      ensures Valid() && db.db == old(db.db) && db.files == old(db.files)
      ensures r == Found(db.db.live, table, conds, orderBy, limit, offset)
    {
      var clauses, params := FindClauses(conds);
      var cs := FindConds(conds);
      var whereText := "";
      if |clauses| > 0 {
        whereText := " WHERE " + Join(clauses, " AND ");
      }
      var tail := FindTail(orderBy, limit, offset);
      var st := Statement("SELECT * FROM " + table + whereText + tail, params,
                          ReadWhere(table, cs, PageOrder(orderBy), PageLimit(limit), PageOffset(limit, offset)));
      assert st == FindStatement(table, conds, orderBy, limit, offset);
      ExecFind(db.db, table, conds, orderBy, limit, offset, db.engine);
      var res := db.Execute(st);
      if res.Err? {
        return Err(res.error);
      }
      r := Ok(res.value.rows);
    }

    /** The `ORDER BY` and `LIMIT`/`OFFSET` text `find` appends to its query. */
    static method FindTail(orderBy: Option<string>, limit: Option<int>, offset: Option<int>) returns (tail: string)
      ensures tail == TailSql(orderBy, limit, offset)
    {
      tail := "";
      if orderBy.Some? && orderBy.value != "" {
        tail := " ORDER BY " + orderBy.value;
      }
      if Given(limit) {
        tail := tail + (" LIMIT " + Decimal(limit.value) + (if Given(offset) then " OFFSET " + Decimal(offset.value) else ""));
      }
    }

    /** `count`: every non-None value becomes `= ?` with one parameter. */
    method Count(conds: Record) returns (r: Outcome<nat>)
      requires Valid()
      modifies db
      ensures Valid() && db.db == old(db.db) && db.files == old(db.files)
      ensures r == Counted(db.db.live, table, conds)
    {
      var clauses, params := CountClauses(conds);
      var cs := CountConds(conds);
      var whereText := "";
      if |clauses| > 0 {
        whereText := " WHERE " + Join(clauses, " AND ");
      }
      assert whereText == WhereSql(cs);
      var st := Statement("SELECT COUNT(*) as cnt FROM " + table + whereText, params, CountWhere(table, cs));
      ExecCount(db.db, table, conds, db.engine);
      var res := db.Execute(st);
      if res.Err? {
        return Err(res.error);
      }
      r := Ok(res.value.n);
    }

    /** `exists`. */
    method Exists(conds: Record) returns (r: Outcome<bool>)
      requires Valid()
      modifies db
      ensures Valid() && db.db == old(db.db) && db.files == old(db.files)
      ensures r == Existing(db.db.live, table, conds)
    {
      var n := Count(conds);
      if n.Err? {
        return Err(n.error);
      }
      r := Ok(n.value > 0);
    }
  }
}
