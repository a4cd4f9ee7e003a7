/** The migration runner: the `migrations` ledger of applied versions, the
    application of one versioned script inside a transaction, the run over
    the fixed migration list, and what the scripts themselves fix: the
    sub-fields of the nomenclature code and the seeded roles and categories. */
module Migrations {
  import opened Util
  import opened Values
  import opened Store
  import opened Connection

  /** One entry of the migration list. */
  datatype Step = Step(version: int, name: string, sql: string)

  /** The texts of the three scripts; the model does not interpret their SQL. */
  datatype Scripts = Scripts(
    schemaFile: Option<string>,  // the contents of `schema.sql` beside the module, if that file exists
    embeddedSchema: string,
    indexes: string,
    initialData: string)

  /** `_get_initial_schema`: the schema file when it exists, else the
      embedded schema. */
  function InitialSchema(sc: Scripts): (s: string)
    ensures sc.schemaFile.Some? ==> s == sc.schemaFile.value
    ensures sc.schemaFile.None? ==> s == sc.embeddedSchema
  {
    match sc.schemaFile
    case Some(text) => text
    case None => sc.embeddedSchema
  }

  /** `_get_all_migrations`. */
  function AllMigrations(sc: Scripts): (ms: seq<Step>)
    ensures |ms| == 3 && ms[0].version == 1 && ms[1].version == 2 && ms[2].version == 3
    ensures forall i, j :: 0 <= i < j < |ms| ==> ms[i].version < ms[j].version
  {
    [Step(1, "initial_schema", InitialSchema(sc)), Step(2, "add_indexes", sc.indexes), Step(3, "initial_data", sc.initialData)]
  }

  /** Python's `str.isspace`: the characters `strip()` removes. */
  predicate IsSpace(c: char)
  {
    '\t' <= c <= '\r' || '\U{1c}' <= c <= ' ' || c == '\U{85}' || c == '\U{a0}' ||
    c == '\U{1680}' || '\U{2000}' <= c <= '\U{200a}' || c == '\U{2028}' || c == '\U{2029}' ||
    c == '\U{202f}' || c == '\U{205f}' || c == '\U{3000}'
  }

  /** `not statement.strip()`. */
  predicate BlankText(s: string)
  {
    forall i :: 0 <= i < |s| ==> IsSpace(s[i])
  }

  /** The pieces that are not blank, in order. */
  function NonBlank(pieces: seq<string>): (r: seq<string>)
    ensures |r| <= |pieces|
  {
    if |pieces| == 0 then []
    else
      var init := NonBlank(pieces[..|pieces| - 1]);
      if BlankText(pieces[|pieces| - 1]) then init else init + [pieces[|pieces| - 1]]
  }

  /** Exactly the pieces that are not blank are kept. */
  lemma {:induction false} NonBlankMembers(pieces: seq<string>)
    ensures forall s :: s in NonBlank(pieces) <==> s in pieces && !BlankText(s)
  {
    if |pieces| > 0 {
      NonBlankMembers(pieces[..|pieces| - 1]);
      assert pieces == pieces[..|pieces| - 1] + [pieces[|pieces| - 1]];
    }
  }

  lemma NonBlankNext(pieces: seq<string>, i: nat)
    requires i < |pieces|
    ensures NonBlank(pieces[..i + 1]) ==
      if BlankText(pieces[i]) then NonBlank(pieces[..i]) else NonBlank(pieces[..i]) + [pieces[i]]
  {
    assert pieces[..i + 1][..i] == pieces[..i];
  }

  lemma {:induction false} NonBlankAppend(a: seq<string>, b: seq<string>)
    ensures NonBlank(a + b) == NonBlank(a) + NonBlank(b)
  {
    if |b| == 0 {
      assert a + b == a;
    } else {
      assert (a + b)[..|a + b| - 1] == a + b[..|b| - 1];
      NonBlankAppend(a, b[..|b| - 1]);
    }
  }

  /** The statements `apply_migration` executes: the non-blank pieces of the
      script split on `;`, each sent unstripped. None is blank or holds a
      `;`. */
  function Statements(sql: string): seq<string>
  {
    NonBlank(Split(sql, ';'))
  }

  lemma StatementsShape(sql: string)
    ensures forall s :: s in Statements(sql) ==> !BlankText(s) && ';' !in s
  {
    var pieces := Split(sql, ';');
    NonBlankMembers(pieces);
    SplitJoin(sql, ';');
  }

  function ScriptStatement(s: string): Statement
  {
    Statement(s, [], RunScript)
  }

  function LedgerStatement(version: int, name: string): Statement
  {
    Statement("INSERT INTO migrations (version, name) VALUES (?, ?)", [Int(version), Text(name)], InsertLedger(version, name))
  }

  const CreateLedgerStatement := Statement(
    "CREATE TABLE IF NOT EXISTS migrations (id INTEGER PRIMARY KEY AUTOINCREMENT, version INTEGER UNIQUE NOT NULL, name TEXT NOT NULL, applied_at DATETIME DEFAULT CURRENT_TIMESTAMP)",
    [], CreateLedger)

  /** Creating the ledger when it exists already changes nothing: the
      statement is `CREATE TABLE IF NOT EXISTS`, and the engine accepting it
      makes it succeed. */
  lemma CreateLedgerIdempotent(d: Database, engine: Engine)
    requires d.live.ledger.Some?
    ensures Exec(d, CreateLedgerStatement, engine).0 == d
    ensures engine(d.live, CreateLedgerStatement.sql, []) ==> Exec(d, CreateLedgerStatement, engine).1 == Ok(Done)
  {
  }

  const VersionsStatement := Statement("SELECT version FROM migrations ORDER BY version", [], ReadVersions)

  /** A statement's outcome with its answer dropped. */
  function Status(r: (Database, Outcome<Answer>)): (s: (Database, Outcome<()>))
    ensures s.0 == r.0 && (s.1.Err? <==> r.1.Err?) && (s.1.Err? ==> s.1.error == r.1.error)
  {
    (r.0, if r.1.Err? then Err(r.1.error) else Ok(()))
  }

  /** The statement `s` executed after an outcome `prev`, unless that
      outcome is already a failure. */
  function Then(prev: (Database, Outcome<()>), s: string, engine: Engine): (r: (Database, Outcome<()>))
    ensures prev.1.Err? ==> r == prev
    ensures r.0.pending == prev.0.pending
  {
    if prev.1.Err? then prev else Status(Exec(prev.0, ScriptStatement(s), engine))
  }

  /** The statements executed one after another, up to the first that fails. */
  function RunStatements(d: Database, stmts: seq<string>, engine: Engine): (r: (Database, Outcome<()>))
    ensures r.0.pending == d.pending
  {
    if |stmts| == 0 then (d, Ok(()))
    else Then(RunStatements(d, stmts[..|stmts| - 1], engine), stmts[|stmts| - 1], engine)
  }

  lemma RunStatementsNext(d: Database, stmts: seq<string>, s: string, engine: Engine)
    ensures RunStatements(d, stmts + [s], engine) == Then(RunStatements(d, stmts, engine), s, engine)
  {
    assert (stmts + [s])[..|stmts|] == stmts;
  }

  /** Once a statement has failed, later ones are not run. */
  lemma {:induction false} RunStatementsStops(d: Database, a: seq<string>, b: seq<string>, engine: Engine)
    requires RunStatements(d, a, engine).1.Err?
    ensures RunStatements(d, a + b, engine) == RunStatements(d, a, engine)
  {
    if |b| > 0 {
      assert (a + b)[..|a + b| - 1] == a + b[..|b| - 1];
      RunStatementsStops(d, a, b[..|b| - 1], engine);
    } else {
      assert a + b == a;
    }
  }

  /** A loop over the pieces that stopped at piece `i`, because it had run
      out of pieces or a statement had failed, has the outcome of running
      them all. */
  lemma RunStatementsFinished(d: Database, pieces: seq<string>, i: nat, engine: Engine)
    requires i <= |pieces|
    requires i == |pieces| || RunStatements(d, NonBlank(pieces[..i]), engine).1.Err?
    ensures RunStatements(d, NonBlank(pieces), engine) == RunStatements(d, NonBlank(pieces[..i]), engine)
  {
    assert pieces == pieces[..i] + pieces[i..];
    NonBlankAppend(pieces[..i], pieces[i..]);
    if i < |pieces| {
      RunStatementsStops(d, NonBlank(pieces[..i]), NonBlank(pieces[i..]), engine);
    } else {
      assert pieces[..i] == pieces;
    }
  }

  /** When every statement succeeds, each was recorded, in order, and
      nothing else changed. */
  lemma {:induction false} RunStatementsOk(d: Database, stmts: seq<string>, engine: Engine)
    requires RunStatements(d, stmts, engine).1.Ok?
    ensures RunStatements(d, stmts, engine).0 == Database(d.live.(script := d.live.script + stmts), d.pending)
  {
    if |stmts| > 0 {
      var init := stmts[..|stmts| - 1];
      RunStatementsOk(d, init, engine);
      assert init + [stmts[|stmts| - 1]] == stmts;
    } else {
      assert d.live.script + stmts == d.live.script;
    }
  }

  /** `apply_migration`: inside one transaction, every statement of the
      script and then the ledger row; any failure rolls the transaction back
      and is re-raised. */
  function Migrate(d: Database, version: int, name: string, sql: string, engine: Engine): (Database, Outcome<()>)
  {
    var (d1, e) := Enter(d);
    if e.Err? then (d1, e)
    else
      var (d2, body) := RunStatements(d1, Statements(sql), engine);
      if body.Err? then Exit(d2, body)
      else
        var (d3, body') := Status(Exec(d2, LedgerStatement(version, name), engine));
        Exit(d3, body')
  }

  /** A migration that succeeds has run exactly its non-blank statements, in
      order, and added its version to the ledger, which did not hold it;
      the tables and the transaction state are as before. */
  lemma MigrateCommits(d: Database, version: int, name: string, sql: string, engine: Engine)
    requires d.pending.None? && Migrate(d, version, name, sql, engine).1.Ok?
    ensures d.live.ledger.Some? && Lookup(d.live.ledger.value, version).None?
    ensures Migrate(d, version, name, sql, engine).0 == Database(
      d.live.(script := d.live.script + Statements(sql), ledger := Some(Insert(d.live.ledger.value, version, name))), None)
  {
    var (d1, e) := Enter(d);
    RunStatementsOk(d1, Statements(sql), engine);
  }

  /** A migration that fails leaves no trace: no statement of it and no
      ledger row survive, and the error is raised. */
  lemma MigrateRollsBack(d: Database, version: int, name: string, sql: string, engine: Engine)
    requires d.pending.None? && Migrate(d, version, name, sql, engine).1.Err?
    ensures Migrate(d, version, name, sql, engine).0 == Database(d.live, None)
  {
  }

  /** Applied inside an open transaction, a migration fails at `BEGIN` and
      the handler's `ROLLBACK` undoes the outer transaction. */
  lemma MigrateNested(d: Database, version: int, name: string, sql: string, engine: Engine)
    requires d.pending.Some?
    ensures Migrate(d, version, name, sql, engine) == (Database(d.pending.value, None), Err(NestedBegin))
  {
  }

  /** `get_applied_migrations`: the ledger's versions in ascending order. */
  function Applied(s: Store): (r: Outcome<seq<int>>)
    ensures r.Err? <==> s.ledger.None?
    ensures r.Ok? ==> r.value == KeysIn(s.ledger.value)
    ensures r.Ok? && StoreOk(s) ==> forall i, j :: 0 <= i < j < |r.value| ==> r.value[i] < r.value[j]
  {
    if s.ledger.None? then Err(NoSuchTable) else Ok(KeysIn(s.ledger.value))
  }

  /** What `run_all` does with one migration it has to apply. */
  type Apply = (Database, Step) -> (Database, Outcome<()>)

  function MigrateStep(engine: Engine): Apply
  {
    (d: Database, m: Step) => Migrate(d, m.version, m.name, m.sql, engine)
  }

  /** The loop of `run_all` over the list, against the versions read once
      before it: each listed version not among them is applied, in list
      order, and the first failure ends the run. */
  function RunList(d: Database, applied: seq<int>, ms: seq<Step>, apply: Apply): (Database, Outcome<()>)
  {
    if |ms| == 0 then (d, Ok(()))
    else
      var prev := RunList(d, applied, ms[..|ms| - 1], apply);
      var m := ms[|ms| - 1];
      if prev.1.Err? || m.version in applied then prev
      else apply(prev.0, m)
  }

  /** `run_all`. */
  function RunAllSpec(d: Database, ms: seq<Step>, engine: Engine): (Database, Outcome<()>)
  {
    match Applied(d.live)
    case Err(e) => (d, Err(e))
    case Ok(applied) => RunList(d, applied, ms, MigrateStep(engine))
  }

  lemma {:induction false} RunListStops(d: Database, applied: seq<int>, a: seq<Step>, b: seq<Step>, apply: Apply)
    requires RunList(d, applied, a, apply).1.Err?
    ensures RunList(d, applied, a + b, apply) == RunList(d, applied, a, apply)
  {
    if |b| > 0 {
      assert (a + b)[..|a + b| - 1] == a + b[..|b| - 1];
      RunListStops(d, applied, a, b[..|b| - 1], apply);
    } else {
      assert a + b == a;
    }
  }

  lemma RunListNext(d: Database, applied: seq<int>, ms: seq<Step>, i: nat, apply: Apply)
    requires i < |ms|
    ensures RunList(d, applied, ms[..i + 1], apply) ==
      var prev := RunList(d, applied, ms[..i], apply);
      if prev.1.Err? || ms[i].version in applied then prev else apply(prev.0, ms[i])
  {
    assert ms[..i + 1][..i] == ms[..i];
  }

  /** A loop over the list that stopped at entry `i`, because it had run out
      of entries or a migration had failed, has the outcome of the whole run. */
  lemma RunListFinished(d: Database, applied: seq<int>, ms: seq<Step>, i: nat, apply: Apply)
    requires i <= |ms|
    requires i == |ms| || RunList(d, applied, ms[..i], apply).1.Err?
    ensures RunList(d, applied, ms, apply) == RunList(d, applied, ms[..i], apply)
  {
    if i < |ms| {
      assert ms == ms[..i] + ms[i..];
      RunListStops(d, applied, ms[..i], ms[i..], apply);
    } else {
      assert ms[..i] == ms;
    }
  }

  /** The listed migrations whose version was not applied, in list order. */
  function Todo(applied: seq<int>, ms: seq<Step>): (r: seq<Step>)
    ensures forall m :: m in r <==> m in ms && m.version !in applied
  {
    if |ms| == 0 then []
    else
      var init := Todo(applied, ms[..|ms| - 1]);
      var m := ms[|ms| - 1];
      assert forall x :: x in ms <==> x in ms[..|ms| - 1] || x == m;
      if m.version in applied then init else init + [m]
  }

  /** The statements of the given migrations, one script after another. */
  function ScriptsOf(ms: seq<Step>): seq<string>
  {
    if |ms| == 0 then [] else ScriptsOf(ms[..|ms| - 1]) + Statements(ms[|ms| - 1].sql)
  }

  /** The ledger after recording the given migrations one after another. */
  function Record(ledger: Keyed<string>, ms: seq<Step>): Keyed<string>
  {
    if |ms| == 0 then ledger
    else
      var m := ms[|ms| - 1];
      Insert(Record(ledger, ms[..|ms| - 1]), m.version, m.name)
  }

  /** The database after one migration has committed: its statements
      recorded and its version added to the ledger. */
  function Committed(d: Database, m: Step): (d': Database)
    requires d.live.ledger.Some?
    ensures d'.pending.None? && d'.live.ledger.Some? && d'.live.tables == d.live.tables
  {
    Database(d.live.(script := d.live.script + Statements(m.sql), ledger := Some(Insert(d.live.ledger.value, m.version, m.name))), None)
  }

  /** A step that, when it succeeds outside a transaction, leaves exactly
      the committed migration. */
  ghost predicate StepCommits(apply: Apply)
  {
    forall d: Database, m: Step :: d.pending.None? && d.live.ledger.Some? && apply(d, m).1.Ok? ==> apply(d, m).0 == Committed(d, m)
  }

  /** The step `run_all` takes is such a step. */
  lemma MigrateStepCommits(engine: Engine)
    ensures StepCommits(MigrateStep(engine))
  {
    forall d: Database, m: Step | d.pending.None? && d.live.ledger.Some? && MigrateStep(engine)(d, m).1.Ok?
      ensures MigrateStep(engine)(d, m).0 == Committed(d, m)
    {
      MigrateCommits(d, m.version, m.name, m.sql, engine);
    }
  }

  lemma TodoNext(applied: seq<int>, ms: seq<Step>, m: Step)
    ensures Todo(applied, ms + [m]) == if m.version in applied then Todo(applied, ms) else Todo(applied, ms) + [m]
  {
    assert (ms + [m])[..|ms|] == ms;
  }

  lemma ScriptsNext(ms: seq<Step>, m: Step)
    ensures ScriptsOf(ms + [m]) == ScriptsOf(ms) + Statements(m.sql)
  {
    assert (ms + [m])[..|ms|] == ms;
  }

  lemma RecordNext(ledger: Keyed<string>, ms: seq<Step>, m: Step)
    ensures Record(ledger, ms + [m]) == Insert(Record(ledger, ms), m.version, m.name)
  {
    assert (ms + [m])[..|ms|] == ms;
  }

  /** A run that succeeds has applied exactly the listed versions that were
      not yet applied, in list order: their statements were executed one
      script after another and their ledger rows added; the tables are
      untouched and no transaction is left open. */
  lemma {:induction false} RunListCommits(d: Database, applied: seq<int>, ms: seq<Step>, apply: Apply)
    requires StepCommits(apply)
    requires d.pending.None? && d.live.ledger.Some?
    requires RunList(d, applied, ms, apply).1.Ok?
    ensures RunList(d, applied, ms, apply).0 == Database(d.live.(
      script := d.live.script + ScriptsOf(Todo(applied, ms)),
      ledger := Some(Record(d.live.ledger.value, Todo(applied, ms)))), None)
  {
    if |ms| == 0 {
      assert d.live.script + [] == d.live.script;
    } else {
      var init := ms[..|ms| - 1];
      var m := ms[|ms| - 1];
      assert ms == init + [m];
      var prev := RunList(d, applied, init, apply);
      assert prev.1.Ok?;
      RunListCommits(d, applied, init, apply);
      TodoNext(applied, init, m);
      if m.version !in applied {
        assert RunList(d, applied, ms, apply) == apply(prev.0, m);
        assert apply(prev.0, m).0 == Committed(prev.0, m);
        CommittedNext(d, Todo(applied, init), m);
      }
    }
  }

  /** One more committed migration extends the recorded statements and the
      ledger by that migration. */
  lemma CommittedNext(d: Database, done: seq<Step>, m: Step)
    requires d.live.ledger.Some?
    ensures Committed(Database(d.live.(script := d.live.script + ScriptsOf(done), ledger := Some(Record(d.live.ledger.value, done))), None), m)
      == Database(d.live.(script := d.live.script + ScriptsOf(done + [m]), ledger := Some(Record(d.live.ledger.value, done + [m]))), None)
  {
    ScriptsNext(done, m);
    RecordNext(d.live.ledger.value, done, m);
    assert d.live.script + ScriptsOf(done) + Statements(m.sql) == d.live.script + ScriptsOf(done + [m]);
  }

  /** After a run that succeeds, every listed version is in the ledger. */
  lemma {:induction false} RunListRecordsAll(d: Database, applied: seq<int>, ms: seq<Step>, apply: Apply)
    requires StepCommits(apply)
    requires d.pending.None? && d.live.ledger.Some? && applied == KeysIn(d.live.ledger.value)
    requires RunList(d, applied, ms, apply).1.Ok?
    ensures RunList(d, applied, ms, apply).0.live.ledger.Some?
    ensures forall i :: 0 <= i < |ms| ==> ms[i].version in KeysIn(RunList(d, applied, ms, apply).0.live.ledger.value)
  {
    if |ms| > 0 {
      var init := ms[..|ms| - 1];
      var m := ms[|ms| - 1];
      assert ms == init + [m];
      var prev := RunList(d, applied, init, apply);
      assert prev.1.Ok?;
      RunListRecordsAll(d, applied, init, apply);
      RunListCommits(d, applied, init, apply);
      var l1 := prev.0.live.ledger.value;
      if m.version in applied {
        assert RunList(d, applied, ms, apply) == prev;
        RecordKeeps(d.live.ledger.value, Todo(applied, init), m.version);
        forall i | 0 <= i < |ms| ensures ms[i].version in KeysIn(l1) {
          if i < |ms| - 1 {
            assert init[i] == ms[i];
          }
        }
      } else {
        assert RunList(d, applied, ms, apply) == apply(prev.0, m);
        assert apply(prev.0, m).0 == Committed(prev.0, m);
        var l2 := Insert(l1, m.version, m.name);
        InsertFound(l1, m.version, m.name);
        forall i | 0 <= i < |ms| ensures ms[i].version in KeysIn(l2) {
          if ms[i].version != m.version {
            assert init[i] == ms[i];
            InsertOther(l1, m.version, m.name, ms[i].version);
          }
        }
      }
    }
  }

  lemma {:induction false} RecordKeeps(ledger: Keyed<string>, ms: seq<Step>, v: int)
    requires v in KeysIn(ledger)
    ensures v in KeysIn(Record(ledger, ms))
  {
    if |ms| > 0 {
      var m := ms[|ms| - 1];
      RecordKeeps(ledger, ms[..|ms| - 1], v);
      if v != m.version {
        InsertOther(Record(ledger, ms[..|ms| - 1]), m.version, m.name, v);
      } else {
        InsertFound(Record(ledger, ms[..|ms| - 1]), m.version, m.name);
      }
    }
  }

  /** With every listed version already applied, the run does nothing. */
  lemma {:induction false} RunListIdle(d: Database, applied: seq<int>, ms: seq<Step>, apply: Apply)
    requires forall i :: 0 <= i < |ms| ==> ms[i].version in applied
    ensures RunList(d, applied, ms, apply) == (d, Ok(()))
  {
    if |ms| > 0 {
      RunListIdle(d, applied, ms[..|ms| - 1], apply);
    }
  }

  /** `run_all` is idempotent: after a run that succeeds, a second run
      applies nothing and changes nothing. */
  lemma RunAllTwice(d: Database, ms: seq<Step>, engine: Engine)
    requires d.pending.None? && RunAllSpec(d, ms, engine).1.Ok?
    ensures RunAllSpec(RunAllSpec(d, ms, engine).0, ms, engine) == (RunAllSpec(d, ms, engine).0, Ok(()))
  {
    var applied := Applied(d.live).value;
    MigrateStepCommits(engine);
    RunListRecordsAll(d, applied, ms, MigrateStep(engine));
    RunListCommits(d, applied, ms, MigrateStep(engine));
    var d' := RunAllSpec(d, ms, engine).0;
    RunListIdle(d', KeysIn(d'.live.ledger.value), ms, MigrateStep(engine));
  }

  /** SQLite's `SUBSTR(s, start, len)` for `start >= 1`: the characters at
      1-based positions `start` .. `start + len - 1`, clipped at the end. */
  function Substr(s: string, start: nat, len: nat): (r: string)
    requires start >= 1
    ensures |r| <= len
    ensures start - 1 + len <= |s| ==> r == s[start - 1..start - 1 + len]
  {
    var b := if start - 1 < |s| then start - 1 else |s|;
    var e := if start - 1 + len < |s| then start - 1 + len else |s|;
    s[b..e]
  }

  /** The generated columns of `nomenclature`, read from `code CHAR(10)`. */
  function ClassCode(code: string): string { Substr(code, 1, 2) }
  function GroupCode(code: string): string { Substr(code, 3, 3) }
  function SubgroupCode(code: string): string { Substr(code, 6, 2) }
  function ItemNumber(code: string): string { Substr(code, 8, 3) }

  /** The four sub-fields cover the code without gap or overlap: together
      they give back its first ten characters (the whole code when it has
      ten, as `CHAR(10)` intends; SQLite does not enforce the length). */
  lemma CodeParts(code: string)
    ensures ClassCode(code) + GroupCode(code) + SubgroupCode(code) + ItemNumber(code) ==
            code[..if |code| < 10 then |code| else 10]
    ensures |code| == 10 ==>
      |ClassCode(code)| == 2 && |GroupCode(code)| == 3 && |SubgroupCode(code)| == 2 && |ItemNumber(code)| == 3
  {
    var n := if |code| < 10 then |code| else 10;
    var c2 := if 2 < |code| then 2 else |code|;
    var c5 := if 5 < |code| then 5 else |code|;
    var c7 := if 7 < |code| then 7 else |code|;
    assert code[..n] == code[..c2] + code[c2..c5] + code[c5..c7] + code[c7..n];
  }

  /** One seeded role: its name and its five flags, in the order
      can_read, can_write, can_delete, can_approve, can_admin. */
  datatype RoleSeed = RoleSeed(name: string, flags: seq<int>)

  /** The roles the initial data inserts, in insertion order (the first
      receives rowid 1 in a fresh database). */
  function SeedRoles(): (roles: seq<RoleSeed>)
    ensures |roles| == 4 && forall i :: 0 <= i < 4 ==> |roles[i].flags| == 5
    ensures roles[0].flags == [1, 1, 1, 1, 1]
    ensures roles[3].flags == [1, 0, 0, 0, 0]
    ensures forall i :: 0 <= i < 4 ==> roles[i].flags[0] == 1
    ensures forall i, j :: 0 <= i < j < 4 ==> roles[i].name != roles[j].name
  {
    [RoleSeed("Администратор", [1, 1, 1, 1, 1]),
     RoleSeed("Оператор", [1, 1, 0, 0, 0]),
     RoleSeed("Руководитель", [1, 1, 0, 1, 0]),
     RoleSeed("Наблюдатель", [1, 0, 0, 0, 0])]
  }

  /** The role the seeded `admin` user is given. */
  const AdminRoleId := 1

  /** `CHECK(code BETWEEN 1 AND 5)` of `categories`. */
  predicate CategoryCodeOk(code: int)
  {
    1 <= code <= 5
  }

  /** The category codes the initial data inserts, ascending: exactly the
      codes the check admits, each once. */
  function SeedCategoryCodes(): (codes: seq<int>)
    ensures forall c :: c in codes <==> CategoryCodeOk(c)
    ensures forall i, j :: 0 <= i < j < |codes| ==> codes[i] < codes[j]
    ensures |codes| == 5
  {
    [1, 2, 3, 4, 5]
  }

  class Migration {
    const db: DatabaseConnection

    constructor (db: DatabaseConnection)
      ensures this.db == db
    {
      this.db := db;
    }

    /** `Migration(db)`: creates the ledger table if it does not exist, and
        raises what that statement raises. */
    static method New(db: DatabaseConnection) returns (r: Outcome<Migration>)
      requires db.Valid()
      modifies db
      ensures db.Valid() && db.files == old(db.files)
      ensures db.db == Exec(old(db.db), CreateLedgerStatement, db.engine).0
      ensures r.Err? <==> Exec(old(db.db), CreateLedgerStatement, db.engine).1.Err?
      ensures r.Err? ==> r.error == Exec(old(db.db), CreateLedgerStatement, db.engine).1.error
      ensures r.Ok? ==> r.value.db == db && db.db.live.ledger.Some?
    {
      var a := db.Execute(CreateLedgerStatement);
      if a.Err? {
        return Err(a.error);
      }
      var m := new Migration(db);
      r := Ok(m);
    }

    method GetAppliedMigrations() returns (r: Outcome<seq<int>>)
      requires db.Valid()
      modifies db
      ensures db.Valid() && db.files == old(db.files) && db.db == old(db.db)
      ensures r == Applied(old(db.db).live)
    {
      var a := db.Execute(VersionsStatement);
      match a
      case Ok(answer) =>
        r := Ok(answer.versions);
      case Err(e) =>
        r := Err(e);
    }

    /** The loop of `apply_migration` over the pieces of the script: each
        piece that is not blank is executed as it is; the first error ends
        the loop. */
    method RunPieces(pieces: seq<string>) returns (r: Outcome<()>)
      requires db.Valid()
      modifies db
      ensures db.Valid() && db.files == old(db.files)
      ensures (db.db, r) == RunStatements(old(db.db), NonBlank(pieces), db.engine)
    {
      ghost var d0 := db.db;
      ghost var done: seq<string> := [];
      r := Ok(());
      var i := 0;
      while i < |pieces| && r.Ok?
        invariant 0 <= i <= |pieces|
        invariant db.Valid() && db.files == old(db.files)
        invariant done == NonBlank(pieces[..i])
        invariant (db.db, r) == RunStatements(d0, done, db.engine)
      {
        NonBlankNext(pieces, i);
        if !BlankText(pieces[i]) {
          RunStatementsNext(d0, done, pieces[i], db.engine);
          done := done + [pieces[i]];
          r := RunPiece(pieces[i]);
        }
        i := i + 1;
      }
      RunStatementsFinished(d0, pieces, i, db.engine);
    }

    /** One piece of the script, its error kept. */
    method RunPiece(piece: string) returns (r: Outcome<()>)
      requires db.Valid()
      modifies db
      ensures db.Valid() && db.files == old(db.files)
      ensures (db.db, r) == Status(Exec(old(db.db), ScriptStatement(piece), db.engine))
    {
      var a := db.Execute(ScriptStatement(piece));
      r := if a.Err? then Err(a.error) else Ok(());
    }

    /** The statements of a script, split on `;`, run in order. */
    method ExecuteScript(sql: string) returns (r: Outcome<()>)
      requires db.Valid()
      modifies db
      ensures db.Valid() && db.files == old(db.files)
      ensures (db.db, r) == RunStatements(old(db.db), Statements(sql), db.engine)
    {
      var pieces := Split(sql, ';');
      r := RunPieces(pieces);
    }

    method ApplyMigration(version: int, name: string, sql: string) returns (r: Outcome<()>)
      requires db.Valid()
      modifies db
      ensures db.Valid() && db.files == old(db.files)
      ensures (db.db, r) == Migrate(old(db.db), version, name, sql, db.engine)
    {
      r := db.TransactionEnter();
      if r.Err? {
        return;
      }
      var body := ExecuteScript(sql);
      if body.Ok? {
        var a := db.Execute(LedgerStatement(version, name));
        if a.Err? {
          body := Err(a.error);
        }
      }
      r := db.TransactionExit(body);
    }

    /** The loop of `run_all`: each listed version not in `applied` is
        applied, in list order; the first failure ends the loop. */
    method RunPending(applied: seq<int>, ms: seq<Step>) returns (r: Outcome<()>)
      requires db.Valid()
      modifies db
      ensures db.Valid() && db.files == old(db.files)
      ensures (db.db, r) == RunList(old(db.db), applied, ms, MigrateStep(db.engine))
    {
      ghost var d0 := db.db;
      r := Ok(());
      var i := 0;
      while i < |ms| && r.Ok?
        invariant 0 <= i <= |ms|
        invariant db.Valid() && db.files == old(db.files)
        invariant (db.db, r) == RunList(d0, applied, ms[..i], MigrateStep(db.engine))
      {
        RunListNext(d0, applied, ms, i, MigrateStep(db.engine));
        if ms[i].version !in applied {
          ghost var before := db.db;
          r := ApplyMigration(ms[i].version, ms[i].name, ms[i].sql);
          assert (db.db, r) == MigrateStep(db.engine)(before, ms[i]);
        }
        i := i + 1;
      }
      RunListFinished(d0, applied, ms, i, MigrateStep(db.engine));
    }

    method RunAll(ms: seq<Step>) returns (r: Outcome<()>)
      requires db.Valid()
      modifies db
      ensures db.Valid() && db.files == old(db.files)
      ensures (db.db, r) == RunAllSpec(old(db.db), ms, db.engine)
    {
      var applied := GetAppliedMigrations();
      if applied.Err? {
        return Err(applied.error);
      }
      r := RunPending(applied.value, ms);
    }
  }

  /** `_initialize_database` on a file that did not exist: the ledger
      table is created, then every migration of the list runs. */
  function Initialize(engine: Engine, sc: Scripts): (Database, Outcome<()>)
  {
    var created := Exec(Database(Blank, None), CreateLedgerStatement, engine);
    if created.1.Err? then (created.0, Err(created.1.error))
    else RunAllSpec(created.0, AllMigrations(sc), engine)
  }

  /** A new database that initializes without error has run the three
      scripts in version order and recorded versions 1, 2 and 3, and has
      no transaction open. */
  lemma InitializeAppliesAll(engine: Engine, sc: Scripts)
    requires Initialize(engine, sc).1.Ok?
    ensures var d := Initialize(engine, sc).0;
      d.pending.None? && d.live.ledger.Some? &&
      KeysIn(d.live.ledger.value) == [1, 2, 3] &&
      d.live.script == Statements(InitialSchema(sc)) + Statements(sc.indexes) + Statements(sc.initialData)
  {
    var d0 := LedgerCreated(engine);
    var ms := AllMigrations(sc);
    assert Initialize(engine, sc) == RunList(d0, [], ms, MigrateStep(engine));
    RunFromEmpty(d0, ms, engine);
    ThreeRecorded(ms);
    assert d0.live.script == [];
  }

  /** Three migrations of ascending versions, recorded into an empty
      ledger, give their versions in order, and their scripts run in order. */
  lemma ThreeRecorded(ms: seq<Step>)
    requires |ms| == 3 && ms[0].version < ms[1].version < ms[2].version
    ensures KeysIn(Record([], ms)) == [ms[0].version, ms[1].version, ms[2].version]
    ensures ScriptsOf(ms) == Statements(ms[0].sql) + Statements(ms[1].sql) + Statements(ms[2].sql)
  {
    assert ms == [ms[0], ms[1], ms[2]];
    RecordThree(ms[0], ms[1], ms[2]);
    ScriptsThree(ms[0], ms[1], ms[2]);
  }

  /** Against an empty ledger every migration runs: a run without error
      records each of them and runs each script, and commits. */
  lemma RunFromEmpty(d0: Database, ms: seq<Step>, engine: Engine)
    requires d0.pending.None? && d0.live.ledger == Some([])
    requires RunList(d0, [], ms, MigrateStep(engine)).1.Ok?
    ensures RunList(d0, [], ms, MigrateStep(engine)).0 ==
      Database(d0.live.(script := d0.live.script + ScriptsOf(ms), ledger := Some(Record([], ms))), None)
  {
    MigrateStepCommits(engine);
    RunListCommits(d0, [], ms, MigrateStep(engine));
    TodoNothingApplied(ms);
  }

  /** The ledger table created in a blank database. */
  function LedgerCreated(engine: Engine): (d: Database)
    requires Exec(Database(Blank, None), CreateLedgerStatement, engine).1.Ok?
    ensures d == Exec(Database(Blank, None), CreateLedgerStatement, engine).0
    ensures d == Database(Blank.(ledger := Some([])), None)
    ensures Applied(d.live) == Ok([])
  {
    Exec(Database(Blank, None), CreateLedgerStatement, engine).0
  }

  /** Against an empty ledger, every listed migration is to be applied. */
  lemma {:induction false} TodoNothingApplied(ms: seq<Step>)
    ensures Todo([], ms) == ms
  {
    if |ms| > 0 {
      TodoNothingApplied(ms[..|ms| - 1]);
      assert ms == ms[..|ms| - 1] + [ms[|ms| - 1]];
    }
  }

  /** Three migrations of ascending versions, recorded in order into an
      empty ledger, give their versions in that order. */
  lemma RecordThree(a: Step, b: Step, c: Step)
    requires a.version < b.version < c.version
    ensures KeysIn(Record([], [a, b, c])) == [a.version, b.version, c.version]
  {
    var ms := [a, b, c];
    assert ms[..1] == [] + [a] && ms[..2] == ms[..1] + [b] && ms == ms[..2] + [c];
    RecordNext([], [], a);
    RecordNext([], ms[..1], b);
    InsertLast([(a.version, a.name)], b.version, b.name);
    RecordNext([], ms[..2], c);
    InsertLast([(a.version, a.name), (b.version, b.name)], c.version, c.name);
  }

  /** Their statements run one script after another. */
  lemma ScriptsThree(a: Step, b: Step, c: Step)
    ensures ScriptsOf([a, b, c]) == Statements(a.sql) + Statements(b.sql) + Statements(c.sql)
  {
    var ms := [a, b, c];
    assert ms[..1] == [] + [a] && ms[..2] == ms[..1] + [b] && ms == ms[..2] + [c];
    ScriptsNext([], a);
    ScriptsNext(ms[..1], b);
    ScriptsNext(ms[..2], c);
  }

  /** `DatabaseConnection(db_path)`: a file that exists is opened as it is;
      a new file is initialized, and an error raised there leaves the
      constructor. */
  method OpenDatabase(path: string, engine: Engine, existing: Option<Store>, files: map<string, Store>, sc: Scripts)
    returns (r: Outcome<DatabaseConnection>)
    requires existing.Some? ==> StoreOk(existing.value)
    requires path !in files && forall p :: p in files ==> StoreOk(files[p])
    ensures r.Ok? ==> fresh(r.value) && r.value.Valid() && r.value.path == path && r.value.files == files
    ensures existing.Some? ==> r.Ok? && r.value.db == Database(existing.value, None) && r.value.slot == Unset
    ensures existing.None? ==> (r.Ok? <==> Initialize(engine, sc).1.Ok?)
    ensures existing.None? && r.Ok? ==> r.value.db == Initialize(engine, sc).0
    ensures existing.None? && r.Err? ==> Initialize(engine, sc).1 == Err(r.error)
  {
    if existing.Some? {
      var conn := new DatabaseConnection(path, engine, existing.value, files);
      return Ok(conn);
    }
    var conn := new DatabaseConnection(path, engine, Blank, files);
    r := Initialized(conn, sc);
  }

  /** `_initialize_database` on a connection to a new, blank file. */
  method Initialized(conn: DatabaseConnection, sc: Scripts) returns (r: Outcome<DatabaseConnection>)
    requires conn.Valid() && conn.db == Database(Blank, None)
    modifies conn
    ensures conn.Valid() && conn.files == old(conn.files)
    ensures r.Ok? <==> Initialize(conn.engine, sc).1.Ok?
    ensures r.Ok? ==> r.value == conn && conn.db == Initialize(conn.engine, sc).0
    ensures r.Err? ==> Initialize(conn.engine, sc).1 == Err(r.error)
  {
    var m := Migration.New(conn);
    if m.Err? {
      return Err(m.error);
    }
    var ran := m.value.RunAll(AllMigrations(sc));
    if ran.Err? {
      return Err(ran.error);
    }
    r := Ok(conn);
  }
}
