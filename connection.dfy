/** The connection manager: one thread's lazily opened connection, the
    `with transaction():` scope, statement execution that re-raises every
    engine error, closing, and backup and restore of the database file. */
module Connection {
  import opened Util
  import opened Values
  import opened Store

  /** The thread-local `connection` attribute: never set, set to None by
      `close` or `restore`, or holding an open connection. */
  datatype Slot = Unset | Cleared | Open(handle: nat)

  /** Entering `with transaction():`: `BEGIN`; if it fails, `ROLLBACK` and
      re-raise. */
  function Enter(d: Database): (Database, Outcome<()>)
  {
    var (d1, b) := Begin(d);
    if b.Ok? then (d1, b)
    else
      var (d2, rb) := Rollback(d1);
      (d2, if rb.Err? then rb else b)
  }

  /** Leaving the scope: `COMMIT` after a body that finished, `ROLLBACK` and
      re-raise after one that raised (or after a failed `COMMIT`). An error
      raised by that `ROLLBACK` replaces the one being handled. */
  function Exit(d: Database, body: Outcome<()>): (Database, Outcome<()>)
  {
    if body.Ok? then
      var (d1, c) := Commit(d);
      if c.Ok? then (d1, c)
      else
        var (d2, rb) := Rollback(d1);
        (d2, if rb.Err? then rb else c)
    else
      var (d1, rb) := Rollback(d);
      (d1, if rb.Err? then rb else body)
  }

  /** Outside a transaction, entering opens one that remembers the current
      contents. */
  lemma EnterOutside(d: Database)
    requires d.pending.None?
    ensures Enter(d) == (Database(d.live, Some(d.live)), Ok(()))
  {
  }

  /** Entering inside an open transaction fails at `BEGIN`, and the
      `ROLLBACK` in the handler undoes the outer transaction. */
  lemma EnterNestedRollsBackOuter(d: Database)
    requires d.pending.Some?
    ensures Enter(d) == (Database(d.pending.value, None), Err(NestedBegin))
  {
  }

  /** A body that finished is committed: its changes stay. */
  lemma ExitCommits(d: Database)
    requires d.pending.Some?
    ensures Exit(d, Ok(())) == (Database(d.live, None), Ok(()))
  {
  }

  /** A body that raised is rolled back to the contents before `BEGIN`, and
      the same error is re-raised. */
  lemma ExitRollsBack(d0: Database, d: Database, e: Error)
    requires d0.pending.None? && d.pending == Enter(d0).0.pending
    ensures Exit(d, Err(e)) == (Database(d0.live, None), Err(e))
  {
  }

  /** A point in time as `datetime.now()` gives it. */
  datatype DateTime = DateTime(year: int, month: int, day: int, hour: int, minute: int, second: int)

  /** The ranges `datetime` keeps its fields in. */
  predicate ValidDateTime(t: DateTime)
  {
    1 <= t.year <= 9999 && 1 <= t.month <= 12 && 1 <= t.day <= 31 &&
    0 <= t.hour < 24 && 0 <= t.minute < 60 && 0 <= t.second < 60
  }

  /** `strftime("%Y%m%d_%H%M%S")`. */
  function StampText(t: DateTime): (s: string)
    requires ValidDateTime(t)
    ensures |s| == 15 && s[8] == '_'
  {
    Digits(t.year, 4) + Digits(t.month, 2) + Digits(t.day, 2) + "_" +
    Digits(t.hour, 2) + Digits(t.minute, 2) + Digits(t.second, 2)
  }

  /** Reads a time stamp back from its text. */
  function ParseStamp(s: string): DateTime
    requires |s| == 15
  {
    DateTime(DigitsValue(s[0..4]), DigitsValue(s[4..6]), DigitsValue(s[6..8]),
             DigitsValue(s[9..11]), DigitsValue(s[11..13]), DigitsValue(s[13..15]))
  }

  /** The time stamp names the moment it was taken: it reads back as the
      same date and time. */
  lemma StampRoundTrip(t: DateTime)
    requires ValidDateTime(t)
    ensures ParseStamp(StampText(t)) == t
  {
    var s := StampText(t);
    assert s[0..4] == Digits(t.year, 4);
    assert s[4..6] == Digits(t.month, 2);
    assert s[6..8] == Digits(t.day, 2);
    assert s[9..11] == Digits(t.hour, 2);
    assert s[11..13] == Digits(t.minute, 2);
    assert s[13..15] == Digits(t.second, 2);
    assert Pow10(4) == 10000 && Pow10(2) == 100;
    DigitsRoundTrip(t.year, 4);
    DigitsRoundTrip(t.month, 2);
    DigitsRoundTrip(t.day, 2);
    DigitsRoundTrip(t.hour, 2);
    DigitsRoundTrip(t.minute, 2);
    DigitsRoundTrip(t.second, 2);
  }

  /** `backup_dir / f"backup_{timestamp}.db"`. */
  function BackupPath(dir: string, t: DateTime): (p: string)
    requires ValidDateTime(t)
    ensures |p| == |dir| + 26
    ensures p[..|dir| + 8] == dir + "/backup_" && p[|p| - 3..] == ".db"
    ensures ParseStamp(p[|dir| + 8..|dir| + 23]) == t
  {
    var p := dir + "/backup_" + StampText(t) + ".db";
    assert p[|dir| + 8..|dir| + 23] == StampText(t);
    StampRoundTrip(t);
    p
  }

  /** What `cursor.fetchone()` yields after a statement: its first row, or
      None when it returned no row (or was not a query); an error raised by
      the statement passes through. */
  function FirstRow(a: Outcome<Answer>): (r: Outcome<Option<Record>>)
    ensures r.Err? <==> a.Err?
    ensures r.Ok? && r.value.Some? <==> a.Ok? && a.value.Selected? && |a.value.rows| > 0
    ensures r.Ok? && r.value.Some? ==> r.value.value == a.value.rows[0]
  {
    match a
    case Err(e) => Err(e)
    case Ok(Selected(rows)) => Ok(if |rows| > 0 then Some(rows[0]) else None)
    case Ok(_) => Ok(None)
  }

  /** What `cursor.fetchall()` yields: every row, in order. */
  function AllRows(a: Outcome<Answer>): (r: Outcome<seq<Record>>)
    ensures r.Err? <==> a.Err?
    ensures a.Ok? && a.value.Selected? ==> r == Ok(a.value.rows)
    ensures a.Ok? && !a.value.Selected? ==> r == Ok([])
  {
    match a
    case Err(e) => Err(e)
    case Ok(Selected(rows)) => Ok(rows)
    case Ok(_) => Ok([])
  }

  /** A database with no table, no ledger and nothing run. */
  const Blank := Store(map[], None, [])

  class DatabaseConnection {
    /** The live database file. */
    const path: string
    const engine: Engine
    var slot: Slot
    /** Connections opened so far; each new one gets the next number. */
    var connections: nat
    var db: Database
    /** The other database files on disk (backups), by path. */
    var files: map<string, Store>

    ghost predicate Valid()
      reads this
    {
      DatabaseOk(db) && path !in files &&
      (forall p :: p in files ==> StoreOk(files[p])) &&
      (!slot.Open? ==> db.pending.None?)
    }

    /** The object before its first connection: the file holds `contents`
        (a blank database when it did not exist). */
    constructor (path: string, engine: Engine, contents: Store, files: map<string, Store>)
      requires StoreOk(contents) && path !in files && forall p :: p in files ==> StoreOk(files[p])
      ensures Valid()
      ensures this.path == path && this.engine == engine && this.files == files
      ensures slot == Unset && connections == 0 && db == Database(contents, None)
    {
      this.path := path;
      this.engine := engine;
      this.files := files;
      slot := Unset;
      connections := 0;
      db := Database(contents, None);
    }

    /** The `connection` property: opens a connection only when the slot is
        unset or None, otherwise hands back the one it holds. */
    method Connect() returns (h: nat)
      requires Valid()
      modifies this
      ensures Valid() && slot == Open(h)
      ensures old(slot).Open? ==> h == old(slot).handle && connections == old(connections)
      ensures !old(slot).Open? ==> h == old(connections) + 1 && connections == h
      ensures db == old(db) && files == old(files)
    {
      if slot.Open? {
        h := slot.handle;
      } else {
        connections := connections + 1;
        h := connections;
        slot := Open(h);
      }
    }

    /** `execute`: runs the statement on the connection; an engine error is
        re-raised as it is, never swallowed. */
    method Execute(st: Statement) returns (r: Outcome<Answer>)
      requires Valid()
      modifies this
      ensures Valid() && slot.Open? && files == old(files)
      ensures (db, r) == Exec(old(db), st, engine)
    {
      var handle := Connect();
      ExecKeepsOk(db, st, engine);
      var (d, res) := Exec(db, st, engine);
      db := d;
      r := res;
    }

    /** `fetchone`: runs the statement and hands back its first row, if any. */
    method FetchOne(st: Statement) returns (r: Outcome<Option<Record>>)
      requires Valid()
      modifies this
      ensures Valid() && slot.Open? && files == old(files)
      ensures db == Exec(old(db), st, engine).0
      ensures r == FirstRow(Exec(old(db), st, engine).1)
    {
      var a := Execute(st);
      if a.Err? {
        return Err(a.error);
      }
      if a.value.Selected? && |a.value.rows| > 0 {
        r := Ok(Some(a.value.rows[0]));
      } else {
        r := Ok(None);
      }
    }

    /** `fetchall`: runs the statement and hands back every row it returns. */
    method FetchAll(st: Statement) returns (r: Outcome<seq<Record>>)
      requires Valid()
      modifies this
      ensures Valid() && slot.Open? && files == old(files)
      ensures db == Exec(old(db), st, engine).0
      ensures r == AllRows(Exec(old(db), st, engine).1)
    {
      var a := Execute(st);
      if a.Err? {
        return Err(a.error);
      }
      r := Ok(if a.value.Selected? then a.value.rows else []);
    }

    /** Entering `with self.transaction():`. */
    method TransactionEnter() returns (r: Outcome<()>)
      requires Valid()
      modifies this
      ensures Valid() && slot.Open? && files == old(files)
      ensures (db, r) == Enter(old(db))
    {
      var handle := Connect();
      var (d, res) := Enter(db);
      db := d;
      r := res;
    }

    /** Leaving `with self.transaction():` after a body with outcome `body`. */
    method TransactionExit(body: Outcome<()>) returns (r: Outcome<()>)
      requires Valid()
      modifies this
      ensures Valid() && slot.Open? && files == old(files)
      ensures (db, r) == Exit(old(db), body)
    {
      var handle := Connect();
      var (d, res) := Exit(db, body);
      db := d;
      r := res;
    }

    /** `close`: closes a held connection, which discards its open
        transaction, and leaves None in the slot; otherwise does nothing. */
    method Close()
      requires Valid()
      modifies this
      ensures Valid() && files == old(files) && connections == old(connections)
      ensures old(slot).Open? ==> slot == Cleared && db == Database(Rollback(old(db)).0.live, None)
      ensures !old(slot).Open? ==> slot == old(slot) && db == old(db)
    {
      if slot.Open? {
        db := Database(Rollback(db).0.live, None);
        slot := Cleared;
      }
    }

    /** `backup`: copies the database to a new file named after the time. */
    method Backup(dir: string, now: DateTime) returns (r: Outcome<string>)
      requires Valid() && ValidDateTime(now)
      modifies this
      ensures Valid() && slot.Open? && db == old(db)
      ensures r.Ok? ==> r.value == BackupPath(dir, now) && files == old(files)[r.value := db.live]
      ensures r.Err? ==> BackupPath(dir, now) == path && files == old(files)
    {
      var handle := Connect();
      var p := BackupPath(dir, now);
      if p == path {
        return Err(Rejected);
      }
      files := files[p := db.live];
      r := Ok(p);
    }

    /** `restore`: a missing backup is reported before anything else; then a
        held connection is closed and the slot set to None, and the backup
        is copied over the live file. A slot already None makes the
        `.close()` call fail, and copying the live file onto itself fails. */
    method Restore(backup: string) returns (r: Outcome<()>)
      requires Valid()
      modifies this
      ensures Valid() && files == old(files) && connections == old(connections)
      ensures backup != path && backup !in old(files) ==> r == Err(FileNotFound) && slot == old(slot) && db == old(db)
      ensures (backup == path || backup in old(files)) && old(slot) == Cleared ==>
        r == Err(NoneHasNoClose) && slot == Cleared && db == old(db)
      ensures (backup == path || backup in old(files)) && old(slot) != Cleared ==>
        slot == (if old(slot).Open? then Cleared else Unset) &&
        (backup == path ==> r == Err(SameFile) && db == Database(Rollback(old(db)).0.live, None)) &&
        (backup != path ==> r == Ok(()) && db == Database(old(files)[backup], None))
    {
      if backup != path && backup !in files {
        return Err(FileNotFound);
      }
      if slot == Cleared {
        return Err(NoneHasNoClose);
      }
      Close();
      if backup == path {
        return Err(SameFile);
      }
      db := Database(files[backup], None);
      r := Ok(());
    }
  }
}
