# ais-uchet data layer, sessions and users in Dafny

This project models the core of ais-uchet, a desktop inventory-accounting
application built on SQLite. The core has five parts:

- **The generic record store** (`BaseModel`). It provides create, read,
  update and delete over one table, plus `find`, `count` and `exists`.
  A change the database accepts is followed by an entry in the audit log
  when the actor is truthy. With no actor nothing is logged, and a failed
  audit insert is swallowed.
- **The connection manager** (`DatabaseConnection`). It covers:
  - a lazily opened connection;
  - the `with transaction():` scope;
  - statement execution that re-raises engine errors;
  - `close`, `backup` and `restore`;
  - migrations run when the database file is first created.
- **The migration runner** (`Migration`). It keeps a ledger of applied
  versions and applies the three built-in migrations, each in its own
  transaction. Its scripts are split on `;`.
- **The password policy and the login session** (`PasswordManager`,
  `Session`).
- **The user and role models** built on the record store (`Role`, `User`).

The modules follow the program's layers:

- `Util`, `Values`, `Order`: text, dict and ordering helpers.
- `Sql`: the statement builders.
- `Query`: the condition semantics and the two joined queries.
- `Store`: the database as a value, and the effect of one statement.
- `Connection`, `Migrations`, `Records`, `Security`, `Users`: one module per
  source file.

**The database.** A database is a value: tables of rows keyed by rowid,
the migrations ledger, the migration statements run so far, and the
snapshot an open transaction would roll back to. The SQL text the program
builds is modelled exactly. SQLite's verdict on a write (a constraint, a
foreign key, a syntax error) is a function parameter `Engine`, because the
engine is code this model cannot see. An accepted write changes the
tables as the statement says. A rejected one changes nothing and raises.

**State and mutation.** The objects whose fields the program overwrites
are classes with `modifies` frames: the connection, the record store, the
caller's dict that `create` and `update` stamp in place, the migration
runner, the session, and the role and user models. Each method is proved
equal to a function of the old state, and the properties the program
promises are proved about those functions as lemmas.

**Python values.** A row or a dict is an insertion-ordered sequence of
(column, value) pairs. Python's `False` is the integer 0. `None` is
`Null`. A flag or an id counts as given only when it is truthy, so 0 counts
as absent just as `None` does.

**Behaviour the code has as written.** The model keeps these, and the
lemmas below state them:

- A nested `transaction()` fails at `BEGIN`. Its `ROLLBACK` then undoes the
  outer transaction.
- `restore` after `close` calls `.close()` on `None` and raises.
- `restore` onto the live file itself raises after the connection is
  closed.
- `create` re-raises engine errors. `update` and `delete` turn them into
  `False`.
- The audit entry is written after the data change, outside any
  transaction, and its failure is swallowed. The model makes no claim
  that the change and its audit entry happen together.
- The seeded administrator's password `admin` would not pass
  `validate_password_strength`, being too short. That is only an
  observation: seeds never go through the policy.

## Model

| member | source | states |
|---|---|---|
| Util.Repeat | src/models/base.py:55 | one `?` per item: exactly n copies |
| Util.PlaceholderCount | src/models/base.py:55 | n question marks joined by a separator without `?` contain exactly n `?` |
| Util.Split | src/database/migrations.py:53 | `str.split` always yields at least one piece |
| Util.SplitJoin | src/database/migrations.py:53 | splitting on `;` gives one more piece than there are `;`; no piece contains `;`; joining the pieces with `;` gives the script back |
| Util.Digits | src/database/connection.py:129 | a zero-padded field has exactly the requested width and only decimal digits |
| Util.DigitsRoundTrip | src/database/connection.py:129 | a zero-padded field reads back as the number written into it |
| Util.Decimal | src/models/base.py:196-198 | the rendered LIMIT or OFFSET number is non-empty and contains no `?` |
| Util.Lookup | src/models/base.py:81-82 | a rowid finds a row exactly when it is a key of the table |
| Util.LookupFound | src/models/base.py:81-82 | the row a rowid finds is the one stored under it |
| Util.InsertFound | src/models/base.py:56-59 | after an insert, the new rowid finds the new row |
| Util.InsertOther | src/models/base.py:56-59 | an insert changes the row of no other rowid |
| Util.InsertOrdered | src/database/migrations.py:105 | an insert keeps the rows in strictly ascending rowid order |
| Util.RemoveGone | src/models/base.py:144-145 | after a delete, the rowid finds nothing |
| Util.RemoveOther | src/models/base.py:144-145 | a delete changes the row of no other rowid |
| Util.RemoveOrdered | src/database/migrations.py:105 | a delete keeps the rows in strictly ascending rowid order |
| Util.InsertLast | src/database/migrations.py:105 | a rowid above every key is appended at the end |
| Values.Get | src/core/security.py:98-101 | `dict.get` returns a value exactly when the key is present, and the value is stored under that key |
| Values.GetConcat | src/models/user.py:63-65 | in a row joined from two parts, a column of the first part wins over the second |
| Values.Column | src/models/base.py:85 | a column of a row is its stored value, or NULL when the row lacks it |
| Values.PutGet | src/models/base.py:107 | `d[k] = v` makes `k` map to `v` and leaves every other key alone |
| Values.PutKeys | src/models/base.py:46 | assigning a new key appends it to the key order; an existing key keeps its place |
| Values.PutIsDict | src/models/base.py:107 | assignment keeps the keys distinct |
| Values.PutAll | src/models/base.py:111-115 | `UPDATE ... SET` gives each listed column the new value and keeps the others |
| Order.ValueLeTotal | src/models/base.py:193 | any two column values are ordered one way or the other (NULL < numbers < clock readings < text) |
| Order.ValueLeTransitive | src/models/base.py:193 | the column order is transitive |
| Order.SortByColumnPerm | src/models/base.py:193 | `ORDER BY` returns the same rows, as a multiset |
| Order.SortByColumnSorted | src/models/base.py:193 | `ORDER BY` returns the rows in ascending column order |
| Order.InsertByColumnSorted | src/models/base.py:193 | inserting a row into sorted rows keeps them sorted |
| Sql.InsertStatement | src/models/base.py:54-58 | the INSERT binds the dict's values in the dict's key order, and inserts that dict into the table |
| Sql.InsertPlaceholders | src/models/base.py:54-58 | the INSERT text has exactly one `?` per bound value |
| Sql.Assignments | src/models/base.py:111 | one `k = ?` per key, in key order |
| Sql.AssignmentMarks | src/models/base.py:111 | the SET clause has one `?` per key |
| Sql.UpdateStatement | src/models/base.py:111-115 | the UPDATE binds the dict's values in key order, then the record id, and updates that row |
| Sql.UpdatePlaceholders | src/models/base.py:111-115 | the UPDATE text has one `?` per key plus one for the id |
| Sql.DeleteStatement | src/models/base.py:144-145 | the DELETE binds only the id and deletes that row |
| Sql.ReadStatement | src/models/base.py:81-82 | the SELECT by primary key binds only the id |
| Sql.FindCond | src/models/base.py:179-187 | in `find`, None becomes IS NULL, a list or tuple becomes IN, anything else becomes `= ?`, on the condition's own column |
| Sql.CountCond | src/models/base.py:219-223 | in `count`, None becomes IS NULL and every other value, a list included, becomes `= ?` |
| Sql.FindConds | src/models/base.py:178-187 | one `find` condition per dict entry, in order |
| Sql.CountConds | src/models/base.py:218-223 | one `count` condition per dict entry, in order |
| Sql.SameConds | src/models/base.py:216-223 | without list values, `count` builds the same conditions as `find` |
| Sql.CondMarks | src/models/base.py:179-187 | each condition's text has as many `?` as it binds values (none, one per list element, or one) |
| Sql.Clauses | src/models/base.py:177-187 | one clause text per condition, in order |
| Sql.ClauseMarks | src/models/base.py:177-187 | all clauses together have as many `?` as the parameters they bind |
| Sql.WhereMarks | src/models/base.py:189-190 | the WHERE text, present only for some condition, has as many `?` as the parameters |
| Sql.PageOrder | src/models/base.py:192-193 | ORDER BY is added only for a non-empty column name |
| Sql.PageLimit | src/models/base.py:195-196 | LIMIT is added only for a truthy limit |
| Sql.PageOffset | src/models/base.py:195-198 | OFFSET is added only when both limit and offset are truthy |
| Sql.TailSql | src/models/base.py:192-198 | the ORDER BY / LIMIT / OFFSET tail adds no `?` unless the column name has one |
| Sql.FindStatement | src/models/base.py:173-200 | `find` binds exactly its conditions' parameters and selects with those conditions, order and window |
| Sql.FindPlaceholders | src/models/base.py:173-200 | the `find` query has exactly one `?` per bound parameter |
| Sql.CountStatement | src/models/base.py:213-228 | `count` binds exactly its conditions' parameters and counts with those conditions |
| Sql.CountPlaceholders | src/models/base.py:213-228 | the `count` query has exactly one `?` per bound parameter |
| Store.Read | src/database/migrations.py:38 | of the errors SQLite raises on a query, the model keeps the one `get_applied_migrations` meets: the versions query raises when the ledger table does not exist yet; every other query is answered |
| Store.OrderedBy | src/models/base.py:192-193 | the selected rows come back as a permutation, sorted by the ORDER BY column when there is one |
| Store.InsertInto | src/models/base.py:56-59 | an INSERT without an id gets the next AUTOINCREMENT rowid; an explicit integer id is kept; a taken id or a non-integer id fails; the row is stored with its id |
| Store.UpdateIn | src/models/base.py:112-115 | an UPDATE of a missing id changes nothing; otherwise the row gets the new columns and keeps its id |
| Store.DeleteFrom | src/models/base.py:144-145 | a DELETE removes exactly that rowid and keeps the AUTOINCREMENT counter |
| Store.Write | src/database/connection.py:87-93 | a write never drops the ledger; an INSERT answers with a rowid |
| Store.Exec | src/database/connection.py:87-96 | a statement that raises, or any read, leaves the database unchanged; unbindable parameters raise; a transaction snapshot is untouched |
| Store.ExecWrite | src/database/connection.py:87-96 | the same facts for the write path |
| Store.Begin | src/database/connection.py:68 | BEGIN snapshots the contents, and fails inside an open transaction |
| Store.Commit | src/database/connection.py:70 | COMMIT keeps the contents and ends the transaction, and fails outside one |
| Store.Rollback | src/database/connection.py:72 | ROLLBACK restores the snapshot, and fails outside a transaction |
| Store.InsertIntoKeepsOk | src/database/migrations.py:105 | an insert keeps every id matching its rowid, rowids ascending and below the AUTOINCREMENT counter |
| Store.UpdateInKeepsOk | src/database/migrations.py:105 | an update keeps that table invariant |
| Store.DeleteFromKeepsOk | src/database/migrations.py:105 | a delete keeps that table invariant |
| Store.WriteKeepsValid | src/database/migrations.py:105 | every accepted write keeps every table well formed |
| Store.ExecKeepsOk | src/database/connection.py:87-96 | executing any statement keeps the database well formed |
| Query.Where | src/models/base.py:189-190 | WHERE keeps exactly the rows meeting every condition |
| Query.WhereNothing | src/models/base.py:176 | with no condition, every row is kept |
| Query.Window | src/models/base.py:195-198 | LIMIT/OFFSET returns a contiguous run starting at the offset, at most `limit` long, and exactly as long as what remains when there is room |
| Query.RoleOf | src/models/user.py:67 | the joined role is the role whose id is the user's `role_id` |
| Query.LoginColumns | src/models/user.py:63-65 | the login query adds `role_name` and the five flags, in that order |
| Query.LoginRows | src/models/user.py:62-69 | the login query returns no more rows than there are users |
| Query.LoginFirstRow | src/models/user.py:62-71 | the first login row is the first user row, in rowid order, that is active, has the name and joins a role, followed by that role's name and flags |
| Query.LoginRowsDistinct | src/models/user.py:62-69 | over a users table keyed by rowid, no two login rows share an `id`: at most one row per user |
| Query.LoginRowsShape | src/models/user.py:62-69 | every login row is an active user with that name and a stored id, and carries `role_name` |
| Query.JoinedRow | src/models/user.py:63 | `u.*` keeps every user column unchanged in the joined row |
| Query.InactiveNeverLogsIn | src/models/user.py:68 | no login row ever carries the id of an inactive user |
| Query.ActiveRows | src/models/user.py:185-189 | the active-users query returns no more rows than there are users |
| Query.ActiveRowsIds | src/models/user.py:185-189 | every row of the active-users query carries the rowid of the user row it came from |
| Query.ActiveRowsDistinct | src/models/user.py:185-189 | over a users table keyed by rowid, no two rows of the active-users query share an `id`: at most one row per user |
| Query.ActiveUsersByName | src/models/user.py:185-191 | the active-users rows are a permutation of the joined active rows, sorted by username |
| Query.ActiveRowsActive | src/models/user.py:189 | every row of the active-users query is active |
| Connection.EnterOutside | src/database/connection.py:66-68 | entering outside a transaction opens one that snapshots the contents |
| Connection.EnterNestedRollsBackOuter | src/database/connection.py:67-72 | entering inside a transaction raises at BEGIN, and the handler's ROLLBACK undoes the outer transaction |
| Connection.ExitCommits | src/database/connection.py:69-70 | a body that finished is committed and its changes stay |
| Connection.ExitRollsBack | src/database/connection.py:71-74 | a body that raised leaves the contents as before BEGIN and re-raises the same error |
| Connection.StampText | src/database/connection.py:129 | the time stamp is 15 characters with `_` between date and time |
| Connection.StampRoundTrip | src/database/connection.py:129 | the time stamp reads back as the moment it was taken |
| Connection.BackupPath | src/database/connection.py:128-130 | the backup file is `<dir>/backup_<stamp>.db`, and its stamp reads back as the time of the backup |
| Connection.FirstRow | src/database/connection.py:108-111 | `fetchone` yields the first row of a query, None when there is none, and passes errors through |
| Connection.AllRows | src/database/connection.py:113-116 | `fetchall` yields every row in order and passes errors through |
| Connection.DatabaseConnection.constructor | src/database/connection.py:19-32 | a new object holds no connection yet, with the file's contents and no transaction |
| Connection.DatabaseConnection.Connect | src/database/connection.py:42-61 | a connection is opened only when the slot is unset or None; otherwise the held one is returned and nothing changes |
| Connection.DatabaseConnection.Execute | src/database/connection.py:76-96 | `execute` opens the connection and has exactly the statement's effect, re-raising its error |
| Connection.DatabaseConnection.FetchOne | src/database/connection.py:108-111 | `fetchone` executes the query and returns its first row |
| Connection.DatabaseConnection.FetchAll | src/database/connection.py:113-116 | `fetchall` executes the query and returns all its rows |
| Connection.DatabaseConnection.TransactionEnter | src/database/connection.py:66-69 | entering the scope is BEGIN, with ROLLBACK and re-raise when it fails |
| Connection.DatabaseConnection.TransactionExit | src/database/connection.py:69-74 | leaving the scope commits after a finished body, and rolls back and re-raises after a raising one |
| Connection.DatabaseConnection.Close | src/database/connection.py:169-174 | closing an open connection clears the slot and drops an uncommitted transaction; otherwise it does nothing, so a second close is a no-op |
| Connection.DatabaseConnection.Backup | src/database/connection.py:118-142 | the backup file gets the live contents under the time-stamped name; the live database is unchanged |
| Connection.DatabaseConnection.Restore | src/database/connection.py:144-161 | a missing backup raises FileNotFoundError before anything changes; a slot holding None raises on `.close()`; otherwise the slot is cleared and the live file replaced by the backup |
| Migrations.InitialSchema | src/database/migrations.py:90-98 | the schema comes from `schema.sql` when it exists, and from the embedded schema otherwise |
| Migrations.AllMigrations | src/database/migrations.py:81-88 | there are three migrations, versions 1, 2 and 3, strictly ascending |
| Migrations.NonBlank | src/database/migrations.py:53-54 | blank pieces are dropped and nothing is added |
| Migrations.NonBlankMembers | src/database/migrations.py:53-54 | the statements run are exactly the non-blank pieces |
| Migrations.NonBlankAppend | src/database/migrations.py:53-54 | filtering keeps the pieces' order |
| Migrations.StatementsShape | src/database/migrations.py:53-54 | no statement run is blank or contains `;` |
| Migrations.RunStatements | src/database/migrations.py:53-55 | running statements never opens or closes a transaction |
| Migrations.RunStatementsStops | src/database/migrations.py:53-55 | after a statement raises, no later statement runs |
| Migrations.RunStatementsOk | src/database/migrations.py:53-55 | a script that ran completely has run its statements in order |
| Migrations.MigrateCommits | src/database/migrations.py:50-61 | a successful `apply_migration` runs the script's statements in order, records (version, name) in the ledger and commits |
| Migrations.MigrateRollsBack | src/database/migrations.py:65-67 | a failed `apply_migration` leaves the database as before, with no ledger row, and re-raises |
| Migrations.MigrateNested | src/database/migrations.py:51 | `apply_migration` inside an open transaction raises and rolls the outer one back |
| Migrations.Applied | src/database/migrations.py:36-39 | the applied versions are the ledger's keys, strictly ascending; the query raises only before the ledger exists |
| Migrations.RunListStops | src/database/migrations.py:74-77 | after a migration raises, no later one is applied |
| Migrations.Todo | src/database/migrations.py:74-75 | the migrations applied are exactly the listed ones whose version is not applied |
| Migrations.RunListCommits | src/database/migrations.py:69-77 | a successful `run_all` runs the scripts of exactly the pending migrations, in list order, and records each in the ledger |
| Migrations.RunListRecordsAll | src/database/migrations.py:69-77 | after a successful `run_all` every listed version is in the ledger |
| Migrations.RunListIdle | src/database/migrations.py:74-77 | when every version is applied, `run_all` changes nothing |
| Migrations.RunAllTwice | src/database/migrations.py:69-77 | a second `run_all` after a successful one applies nothing and changes nothing |
| Migrations.Substr | src/database/migrations.py:192-195 | SQLite `SUBSTR(code, start, len)` is the 1-based slice when it fits |
| Migrations.CodeParts | src/database/migrations.py:184-195 | class, group, subgroup and item number put back together give the first ten characters of the code, with widths 2, 3, 2 and 3 |
| Migrations.SeedRoles | src/database/migrations.py:240-244 | four roles with distinct names, as `name UNIQUE` requires; the administrator has all five flags, the observer only `can_read`, and every role can read |
| Migrations.SeedCategoryCodes | src/database/migrations.py:217-252 | the five seeded codes, ascending: exactly the codes `CHECK(code BETWEEN 1 AND 5)` admits, each once |
| Migrations.Migration.constructor | src/database/migrations.py:22 | the runner holds the connection |
| Migrations.Migration.New | src/database/migrations.py:15-34 | constructing the runner creates the ledger table if it is missing, and raises what that statement raises |
| Migrations.Migration.GetAppliedMigrations | src/database/migrations.py:36-39 | returns the applied versions in ascending order and changes nothing |
| Migrations.Migration.RunPieces | src/database/migrations.py:53-55 | the loop over the pieces runs exactly the non-blank ones, in order, stopping at the first that raises |
| Migrations.Migration.RunPiece | src/database/migrations.py:54-55 | one piece is executed as a statement |
| Migrations.Migration.ExecuteScript | src/database/migrations.py:53-55 | the script is split on `;` and run piece by piece |
| Migrations.Migration.ApplyMigration | src/database/migrations.py:41-67 | `apply_migration` is its statements and the ledger insert inside one transaction |
| Migrations.Migration.RunPending | src/database/migrations.py:74-77 | the loop over the migrations applies the unapplied ones in order, stopping at the first that raises |
| Migrations.Migration.RunAll | src/database/migrations.py:69-79 | `run_all` reads the applied versions, then applies the pending migrations |
| Migrations.InitializeAppliesAll | src/database/connection.py:163-167 | a successful first start leaves versions 1, 2 and 3 in the ledger and has run the schema, index and seed scripts in that order |
| Migrations.ThreeRecorded | src/database/migrations.py:83-88 | applying three ascending migrations from an empty ledger records exactly their versions |
| Migrations.RunFromEmpty | src/database/migrations.py:69-77 | from an empty ledger, `run_all` runs every listed script and records every migration |
| Migrations.LedgerCreated | src/database/migrations.py:27-34 | on a new file the ledger table starts empty, so nothing counts as applied |
| Migrations.CreateLedgerIdempotent | src/database/migrations.py:27-34 | with the ledger present, `CREATE TABLE IF NOT EXISTS migrations` changes nothing, and succeeds when the engine accepts it |
| Migrations.TodoNothingApplied | src/database/migrations.py:74-75 | with nothing applied, every listed migration is pending |
| Migrations.OpenDatabase | src/database/connection.py:35-39 | an existing file is opened as it is; migrations run only when the file did not exist, and their error is raised |
| Migrations.Initialized | src/database/connection.py:163-167 | `_initialize_database` builds the runner and runs every migration |
| Records.SetDefaultGet | src/models/base.py:45-48 | a default is added only when the key is absent; a caller's value is never overwritten |
| Records.StampedGet | src/models/base.py:45-52 | `create` adds `created_at` and `updated_at` when absent, and `created_by` only for a truthy actor when absent; other keys are the caller's |
| Records.StampedKeys | src/models/base.py:45-54 | the stamped dict keeps the caller's keys first, in order, and adds at most three |
| Records.UpdateStampedGet | src/models/base.py:107-109 | `update` always overwrites `updated_at`, and adds `updated_by` only for a truthy actor when absent |
| Records.UpdateStampedIsDict | src/models/base.py:107-109 | the stamped update dict keeps its keys distinct |
| Records.Serialized | src/models/base.py:263-264 | old or new values serialize to NULL exactly when absent or empty |
| Records.AuditEntry | src/models/base.py:258-266 | the audit entry binds no list value |
| Records.AuditEntryHasNoId | src/models/base.py:258-266 | the audit entry leaves the id to AUTOINCREMENT |
| Records.AuditedOthers | src/models/base.py:254-275 | the audit log touches no other table; without a truthy actor, or when the insert is refused, nothing changes and no error escapes |
| Records.AuditedAppends | src/models/base.py:268-272 | with an actor and an accepted insert, exactly one entry is appended under the next rowid |
| Records.AppendsAtTop | src/database/migrations.py:132 | a rowid above the counter goes at the end of the log |
| Records.CreatedRow | src/models/base.py:43-65 | `create` either raises and changes nothing, or stores the stamped dict under a fresh rowid (the next one when no id is given), leaving every other row alone |
| Records.UpdatedRefused | src/models/base.py:99-104 | `update` of a missing id returns False and changes nothing; any False leaves the database unchanged |
| Records.UpdatedRow | src/models/base.py:99-121 | a successful `update` gives the row the stamped columns, keeps its id, and leaves every other row alone |
| Records.DeletedRow | src/models/base.py:137-155 | `delete` of a missing id returns False; False changes nothing; True removes exactly that row |
| Records.FoundRows | src/models/base.py:173-201 | `find` returns only stored rows meeting every condition, at most `limit` of them, and all matches when no limit is given |
| Records.CountedRaises | src/models/base.py:216-228 | over tables and columns that exist, `count` raises exactly when a condition value is a list, which the driver cannot bind |
| Records.CountedIsFoundSize | src/models/base.py:203-229 | `count` equals the number of rows an unlimited `find` returns |
| Records.ExistingMeansMatch | src/models/base.py:241 | `exists` holds exactly when some stored row meets every condition |
| Records.ExecFind | src/models/base.py:200 | executing the `find` query changes nothing and returns the selected rows |
| Records.ExecCount | src/models/base.py:228-229 | executing the `count` query changes nothing and returns the count |
| Records.FindClauses | src/models/base.py:176-187 | the loop builds exactly the `find` clauses and parameters, in order |
| Records.FindClause | src/models/base.py:179-187 | one condition gives its clause and its parameters |
| Records.CountClause | src/models/base.py:219-223 | one `count` condition gives its clause and its parameters |
| Records.CountClauses | src/models/base.py:216-223 | the loop builds exactly the `count` clauses and parameters, in order |
| Records.RecordStore.constructor | src/models/base.py:27-28 | the model holds the connection, the table and the acting user |
| Records.RecordStore.Open | src/models/base.py:19-31 | constructing a model with an empty table name raises; otherwise it succeeds |
| Records.RecordStore.AuditLog | src/models/base.py:243-275 | `_audit_log` has exactly the audit effect stated above |
| Records.RecordStore.Create | src/models/base.py:33-69 | `create` stamps the caller's dict in place and then inserts it and audits it |
| Records.RecordStore.StampCreated | src/models/base.py:45-52 | the dict is stamped in place |
| Records.RecordStore.Read | src/models/base.py:71-86 | `read` returns the row stored under the id, or None, and changes nothing |
| Records.RecordStore.Update | src/models/base.py:88-125 | `update` stamps the dict in place, updates and audits; every failure returns False |
| Records.RecordStore.StampUpdated | src/models/base.py:107-109 | the update dict is stamped in place |
| Records.RecordStore.Delete | src/models/base.py:127-155 | `delete` removes the row and audits it; every failure returns False |
| Records.RecordStore.Find | src/models/base.py:157-201 | `find` returns the selected rows and changes nothing |
| Records.RecordStore.Count | src/models/base.py:203-229 | `count` returns the number of matching rows and changes nothing |
| Records.RecordStore.Exists | src/models/base.py:231-241 | `exists` is `count > 0` and changes nothing |
| Security.Any | src/core/security.py:73-79 | `any(...)` holds exactly when some character of the password is in the class |
| Security.ValidatePasswordStrength | src/core/security.py:70-82 | a password is accepted exactly when it has 8 or more characters, an uppercase letter, a lowercase letter and a digit; it is accepted exactly when the message is "OK" |
| Security.RejectionNamesFirstUnmet | src/core/security.py:70-80 | a rejection reports the first unmet requirement, in the order length, uppercase, lowercase, digit |
| Security.SeededAdminPasswordWeak | src/core/security.py:70-71 | the seeded administrator's password `admin` (src/database/migrations.py:254) fails the length rule and is refused with the too-short message |
| Security.GeneratePassword | src/core/security.py:55-57 | the password has exactly `length` characters (none for a negative length), each from letters, digits and `!@#$%^&*` |
| Security.GeneratedMayBeWeak | src/core/security.py:55-82 | a 12-character password the generator can return is rejected by the policy |
| Security.Permissions | src/core/security.py:102-108 | the permissions dict has exactly the five flags, in order, each the row's value or False |
| Security.FlagsFrom | src/core/security.py:102-108 | the named entries of a row, each defaulting to False, in the order given |
| Security.Session.constructor | src/core/security.py:88-94 | a new session is unauthenticated and empty |
| Security.Session.SetUser | src/core/security.py:96-110 | `set_user` copies id, username, role id and role name with `dict.get`, keeps exactly the five flags, and is authenticated exactly when the row has a non-None id |
| Security.Session.Clear | src/core/security.py:112-119 | after `clear` the session is unauthenticated and has no permission |
| Security.Session.HasPermission | src/core/security.py:121-123 | a name that is not stored gives False; a stored one gives its stored value |
| Users.RolePermissions | src/models/user.py:29-38 | a missing role has no permissions |
| Users.RolePermissionsKeys | src/models/user.py:29-38 | an existing role gives exactly the five flags, each its stored value or False; a missing role gives the empty dict |
| Users.AllRolesByName | src/models/user.py:40-42 | `get_all_roles` returns every role, sorted by name |
| Users.FoundAllOrdered | src/models/base.py:173-201 | `find` with only an order returns every row of the table, sorted |
| Users.RoleModel.constructor | src/models/user.py:14-17 | a role model is a record store over `roles` |
| Users.RoleModel.GetPermissions | src/models/user.py:19-38 | `get_permissions` reads the role and returns its flags |
| Users.RoleModel.GetAllRoles | src/models/user.py:40-42 | `get_all_roles` is `find(order_by="name")` |
| Users.LoginStatement | src/models/user.py:62-71 | the login query binds the user name only |
| Users.ActiveUsersStatement | src/models/user.py:185-192 | the active-users query binds nothing |
| Users.ExecLogin | src/models/user.py:71 | executing the login query changes nothing and returns the joined rows |
| Users.ExecActiveUsers | src/models/user.py:192 | executing the active-users query changes nothing and returns its rows |
| Users.FirstVerified | src/models/user.py:71-84 | no row gives None; a returned row is the first one and its hash verified the password; a hash that is not a string raises |
| Users.AuthenticatedRow | src/models/user.py:62-84 | a returned login row is an active stored user with that name, carries `role_name`, and its hash verified the password |
| Users.LoginPick | src/models/user.py:62-84 | the same, over any well-formed users and roles tables |
| Users.JoinedHash | src/models/user.py:62-64 | the login row keeps the user's own `password_hash`; the role columns never shadow it |
| Users.AuthenticatedByFirstMatch | src/models/user.py:62-84 | for the first active user of that name joined to a role: its joined row is returned when its stored hash accepts the password, None when the hash rejects it, and a hash that is not a string raises |
| Users.FirstMatchDecides | src/models/user.py:62-84 | the same, over any users and roles tables |
| Users.NoSuchUserNoLogin | src/models/user.py:71-74 | with no active user of that name joined to a role, `authenticate` returns None |
| Users.NoLoginRows | src/models/user.py:62-69 | with no such user, the login query returns no row |
| Users.InactiveNeverAuthenticates | src/models/user.py:68 | an inactive user never authenticates, whatever the name, password or hasher |
| Users.InactiveNotPicked | src/models/user.py:68-84 | no login over any table returns an inactive user's row |
| Users.NameTakenMeans | src/models/user.py:102 | the existence check holds exactly when some user, active or not, has the name |
| Users.UserCreatedTaken | src/models/user.py:101-104 | `create_user` returns None exactly when the name is taken, and any result other than a new id leaves the database unchanged |
| Users.NewUserGet | src/models/user.py:110-117 | the new user's dict holds the name, the hash and `is_active = 1` |
| Users.UserCreatedRow | src/models/user.py:106-123 | a created user is stored active, with the name and the hash of the password, which a sound hasher accepts |
| Users.NewUserStored | src/models/user.py:110-119 | the stored row of a new user is active and keeps its name and hash |
| Users.PasswordChangedGuards | src/models/user.py:138-160 | a missing user gives False; any result but True changes nothing; True means the old password verified, the new one met the policy, and its hash is stored |
| Users.PasswordChangedProceeds | src/models/user.py:138-160 | once the user exists, its hash accepts the old password and the new one meets the policy, `change_password` is `update` with the new hash, and returns True exactly when the database accepts the UPDATE |
| Users.PasswordChangedWrongOld | src/models/user.py:143-145 | an old password the stored hash rejects gives False and changes nothing |
| Users.PasswordChangedWeakNew | src/models/user.py:148-151 | a new password the policy refuses gives False and changes nothing |
| Users.UpdatedColumn | src/models/user.py:155 | a successful one-column update stores that value |
| Users.ActiveSetRow | src/models/user.py:195-201 | a successful activation or deactivation sets `is_active` to the flag; a failed one changes nothing |
| Users.UserModel.constructor | src/models/user.py:45-48 | a user model is a record store over `users` with the password hasher |
| Users.UserModel.Authenticate | src/models/user.py:50-84 | `authenticate` takes only the first login row: that row when its hash verifies the password, None when there is no row or the hash rejects the password; it changes nothing |
| Users.UserModel.CreateUser | src/models/user.py:86-123 | `create_user` is the existence check, then `create` with the hashed password |
| Users.UserModel.ChangePassword | src/models/user.py:125-160 | `change_password` is the three guards, then `update` with the new hash |
| Users.UserModel.ResetPassword | src/models/user.py:162-181 | `reset_password` stores the hash of a generated 12-character password and returns that password exactly when the update succeeded |
| Users.UserModel.GetActiveUsers | src/models/user.py:183-193 | `get_active_users` returns the active users joined with their role names, sorted by username |
| Users.UserModel.DeactivateUser | src/models/user.py:195-197 | `deactivate_user` sets `is_active = 0`; once it succeeds the user can no longer authenticate |
| Users.UserModel.ActivateUser | src/models/user.py:199-201 | `activate_user` sets `is_active = 1` |
| Users.ActiveUsersListed | src/models/user.py:185-191 | the active users come back sorted by username, and each is active |

## Left out

- SQLite itself is not interpreted. Whether it accepts a write is the `Engine` parameter. DDL and seed scripts are recorded in order as run statements, not executed. The seed values are stated as constants.
- Migrations.SeedRoles: transcribes the roles of src/database/migrations.py:240-244. It is not linked to the executed seed script or to the roles table, because scripts are recorded, not executed.
- SeedCategoryCodes (Migrations.SeedCategoryCodes): transcribes the codes of src/database/migrations.py:246-252. Their names are not modelled, and the codes are not linked to the executed seed script or to the categories table, for the same reason.
- The schema's column defaults are not modelled. A column an INSERT leaves out reads NULL, not its DEFAULT: `users.is_active` DEFAULT 1 (src/database/migrations.py:110) and `roles.can_read` DEFAULT 1 (src/database/migrations.py:122), among others.
- `SELECT *` returns a row's columns in the order its inserted dict listed them, with `id` added, not in the schema's column order. This affects what `read` and `find` return and the audit's `old_values`; their contents are the same.
- ORDER BY is modelled for one ascending column. Text compares by code point. Values of different kinds order as NULL, numbers, clock readings, then text. SQLite would store a `datetime` as ISO text, but here it is an abstract clock value.
- The thread-local slot is modelled for one thread. `threading.local`, `check_same_thread` and concurrency are out of scope.
- The pragmas, `row_factory`, `executemany`, `__del__` and logging have no behaviour the model needs.
- File I/O is not modelled: `mkdir`, reading `schema.sql` and the file copy in backup and restore. Files are a map from path to contents. Whether `schema.sql` exists is a parameter.
- `datetime.now()`, `bcrypt.gensalt()` and `secrets.choice` are not modelled. The clock readings and the salt are parameters. The random choice is a nondeterministic pick from the alphabet.
- bcrypt is an abstract `Hasher`. Its 72-byte truncation and the UTF-8 encoding are not modelled. `Sound` states the one property the model relies on: a hash verifies its own password.
- `json.dumps(..., default=str)` is an opaque function parameter.
- Unicode classes beyond the Latin and Russian alphabets and the ASCII digits are not modelled. `str.isupper`, `str.islower` and `str.isdigit` are modelled on those letters and digits only.
- An UPDATE that changes the `id` column keeps the row under its old rowid. SQLite would move it.
- In the model a read raises in three cases only: the versions query before the ledger exists, a parameter the driver cannot bind, and a stored hash that is not a string. The program can raise in more cases, listed below. Disk and locking errors are not modelled.
- Store.Read: there is no schema, so a query never raises "no such table" or "no such column", and under an ORDER BY column that does not exist every row compares as NULL. A table never written reads as empty, and a column a row lacks reads as NULL. So `find` with an unknown column matches on NULL, and `count` on an unknown table or column gives 0. In the program these raise `OperationalError`, which `read`, `find`, `count` and `exists` pass on (src/models/base.py:82, :200, :228) and `update` and `delete` turn into False.
- Records.CountedRaises: states when `count` raises for the one error the model has, an unbindable list. The unknown-table and unknown-column errors above are not among its cases.
- Users.FirstVerified, Users.PasswordChanged: `bcrypt.checkpw` raises `ValueError` on a stored string that is not a well-formed bcrypt hash (src/core/security.py:42). The abstract `Hasher` always answers with a boolean, so there `authenticate` returns a row or None and `change_password` goes on or returns False instead of raising.
- Connection.DatabaseConnection.Backup: when the time-stamped name is the live file itself, the model reports `Rejected` and copies nothing. This stands for the error SQLite gives when a database is backed up onto its own file; the program has no check of its own for this case, and which error SQLite raises is not modelled.
- SQLite's type affinity is not modelled. Comparisons in WHERE and IN use exact value equality, so Text "1" never equals the integer 1 although SQLite converts it for an INTEGER column. An `id` given as Text is refused as a type mismatch, where SQLite would accept Text "5" as rowid 5.
- SQL whitespace differs from the source. The login and active-users queries are written on one line. Their meaning is modelled as joins, not parsed from the text.
- The module-level `current_session` (src/core/security.py:131) is not modelled as a global. `Security.Session` models the class it instantiates.
- `Users.UserModel.Authenticate`, `Users.UserModel.GetActiveUsers`, `Records.RecordStore.Read`: `dict(row)` is the row itself. Emptiness of a row is not tested, because a stored row always has its id column.
- The audit entry's `ip_address` is not modelled, because the code never sets it.
