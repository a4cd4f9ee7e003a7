/** Users and roles on top of the record store: logging in, creating an
    account, changing and resetting a password, switching an account on and
    off, listing the active users, and reading what a role may do. */
module Users {
  import opened Util
  import opened Values
  import opened Order
  import opened Query
  import opened Store
  import opened Sql
  import opened Connection
  import opened Records
  import opened Security

  const PasswordHash := "password_hash"
  const FullName := "full_name"
  const Position := "position"

  // ---------------------------------------------------------------------
  // Role

  /** What `get_permissions` returns: the five flags of the stored role,
      or an empty dict when there is no such role. */
  function RolePermissions(s: Store, roleId: int): (p: Record)
    ensures Lookup(TableOf(s, RolesTable).rows, roleId).None? ==> p == []
  {
    match Lookup(TableOf(s, RolesTable).rows, roleId)
    case Some(role) => if role != [] then Permissions(role) else []
    case None => []
  }

  /** A stored role gives exactly the five flag keys, each as the role row
      holds it or False; a missing role gives no key at all. */
  lemma RolePermissionsKeys(s: Store, roleId: int)
    requires StoreOk(s)
    ensures var role := Lookup(TableOf(s, RolesTable).rows, roleId);
      var p := RolePermissions(s, roleId);
      (role.None? ==> p == []) &&
      (role.Some? ==>
         KeysOf(p) == FlagNames &&
         forall k :: Get(p, k) == if k in FlagNames then Some(GetOr(role.value, k, False)) else None)
  {
    TableOfOk(s, RolesTable);
    StoredRowNonEmpty(TableOf(s, RolesTable).rows, roleId);
  }

  /** A row stored under a rowid holds at least its `id` column. */
  lemma StoredRowNonEmpty(t: Keyed<Record>, k: int)
    requires IdsMatch(t)
    ensures Lookup(t, k).Some? ==> Lookup(t, k).value != []
  {
    if Lookup(t, k).Some? {
      LookupFound(t, k);
      assert Column(Lookup(t, k).value, IdColumn) == Int(k);
    }
  }

  /** The roles listed by `get_all_roles`: every role, ordered by name. */
  lemma AllRolesByName(s: Store)
    ensures Found(s, RolesTable, [], Some(NameColumn), None, None).Ok?
    ensures var r := Found(s, RolesTable, [], Some(NameColumn), None, None).value;
      SortedBy(r, NameColumn) && multiset(r) == multiset(Rows(s, RolesTable))
  {
    FoundAllOrdered(s, RolesTable, NameColumn);
  }

  /** `find` with no condition and no limit, ordered by a column, lists the
      whole table in that column's order. */
  lemma FoundAllOrdered(s: Store, table: string, col: string)
    requires col != ""
    ensures Found(s, table, [], Some(col), None, None).Ok?
    ensures var r := Found(s, table, [], Some(col), None, None).value;
      SortedBy(r, col) && multiset(r) == multiset(Rows(s, table))
  {
    var rows := Rows(s, table);
    assert FindConds([]) == [];
    WhereNothing(rows);
    var o := OrderedBy(rows, Some(col));
    var w := Window(o, None, None);
    assert |w| == |o|;
    assert w == o;
  }

  /** `Role`: the record store of the `roles` table. */
  class RoleModel {
    const store: RecordStore

    ghost predicate Valid()
      reads store.db
    {
      store.Valid() && store.table == RolesTable
    }

    constructor (db: DatabaseConnection, actor: Option<int>, toJson: Record -> string)
      requires db.Valid()
      ensures Valid() && store.db == db && store.actor == actor && store.toJson == toJson
    {
      store := new RecordStore(db, RolesTable, actor, toJson);
    }

    /** `get_permissions`: reads the role, copies its flags when it is there. */
    method GetPermissions(roleId: int) returns (p: Record)
      requires Valid()
      modifies store.db
      ensures Valid() && store.db.db == old(store.db.db) && store.db.files == old(store.db.files)
      ensures p == RolePermissions(store.db.db.live, roleId)
    {
      var role := store.Read(roleId);
      if role.Some? && role.value != [] {
        p := Permissions(role.value);
      } else {
        p := [];
      }
    }

    /** `get_all_roles`: `find` ordered by name. */
    method GetAllRoles() returns (r: Outcome<seq<Record>>)
      requires Valid()
      modifies store.db
      ensures Valid() && store.db.db == old(store.db.db) && store.db.files == old(store.db.files)
      ensures r == Found(store.db.db.live, RolesTable, [], Some(NameColumn), None, None)
    {
      r := store.Find([], Some(NameColumn), None, None);
    }
  }

  // ---------------------------------------------------------------------
  // authenticate

  const LoginSql := "SELECT u.*, r.name as role_name, r.can_read, r.can_write, r.can_delete, r.can_approve, r.can_admin FROM users u JOIN roles r ON u.role_id = r.id WHERE u.username = ? AND u.is_active = 1"

  const ActiveUsersSql := "SELECT u.*, r.name as role_name FROM users u JOIN roles r ON u.role_id = r.id WHERE u.is_active = 1 ORDER BY u.username"

  /** The login query for one user name. */
  function LoginStatement(username: string): (st: Statement)
    ensures st.effect == Login(username) && Bindable(st.params)
  {
    Statement(LoginSql, [Text(username)], Login(username))
  }

  /** The user-list query. */
  function ActiveUsersStatement(): (st: Statement)
    ensures st.effect == ActiveUsers && st.params == []
  {
    Statement(ActiveUsersSql, [], ActiveUsers)
  }

  /** Sending the login query changes nothing and answers its rows. */
  lemma ExecLogin(d: Database, st: Statement, engine: Engine, username: string)
    requires st.effect == Login(username) && Bindable(st.params)
    ensures Exec(d, st, engine) ==
      (d, Ok(Selected(LoginRows(TableOf(d.live, UsersTable).rows, TableOf(d.live, RolesTable).rows, username))))
  {
  }

  /** Sending the user-list query changes nothing and answers its rows. */
  lemma ExecActiveUsers(d: Database, st: Statement, engine: Engine)
    requires st.effect == ActiveUsers && st.params == []
    ensures Exec(d, st, engine) ==
      (d, Ok(Selected(ActiveUsersByName(TableOf(d.live, UsersTable).rows, TableOf(d.live, RolesTable).rows))))
  {
  }

  /** What `authenticate` returns: the first row of the login query when its
      password hash accepts the password, else None; a hash that is not a
      string raises. */
  function Authenticated(s: Store, username: string, password: string, h: Hasher): Outcome<Option<Record>>
  {
    FirstVerified(LoginRows(TableOf(s, UsersTable).rows, TableOf(s, RolesTable).rows, username), password, h)
  }

  /** The first of the rows, when its stored hash accepts the password. */
  function FirstVerified(rows: seq<Record>, password: string, h: Hasher): (r: Outcome<Option<Record>>)
    ensures |rows| == 0 ==> r == Ok(None)
    ensures r.Ok? && r.value.Some? ==>
      |rows| > 0 && r.value.value == rows[0] &&
      Column(rows[0], PasswordHash).Text? && h.verify(password, Column(rows[0], PasswordHash).s)
    ensures r.Err? ==> |rows| > 0 && !Column(rows[0], PasswordHash).Text?
  {
    if |rows| == 0 then Ok(None)
    else
      match Column(rows[0], PasswordHash)
      case Text(hash) => Ok(if h.verify(password, hash) then Some(rows[0]) else None)
      case _ => Err(MalformedHash)
  }

  /** The login row of a user carries the user's own stored hash. */
  lemma JoinedHash(u: Record, role: Record)
    ensures Column(u + LoginColumns(role), PasswordHash) == Column(u, PasswordHash)
  {
    GetConcat(u, LoginColumns(role), PasswordHash);
    assert PasswordHash !in KeysOf(LoginColumns(role)) by {
      assert KeysOf(LoginColumns(role)) == [RoleNameColumn] + FlagNames;
      assert PasswordHash[0] == 'p' && RoleNameColumn[0] == 'r';
      assert forall n :: n in FlagNames ==> n[0] == 'c';
    }
  }

  /** When user row `i` is the first, in stored order, that the login query
      keeps, `authenticate` decides on that user's stored hash alone: it
      returns the user's row joined with the role when the hash accepts the
      password, None when the hash rejects it, and raises when the hash is
      not a string. */
  lemma AuthenticatedByFirstMatch(s: Store, username: string, password: string, h: Hasher, i: nat)
    requires i < |TableOf(s, UsersTable).rows|
    requires LoginMatch(TableOf(s, UsersTable).rows[i].1, TableOf(s, RolesTable).rows, username)
    requires forall k :: 0 <= k < i ==> !LoginMatch(TableOf(s, UsersTable).rows[k].1, TableOf(s, RolesTable).rows, username)
    ensures var u := TableOf(s, UsersTable).rows[i].1;
      var row := u + LoginColumns(RoleOf(u, TableOf(s, RolesTable).rows).value);
      var r := Authenticated(s, username, password, h);
      (Column(u, PasswordHash).Text? && h.verify(password, Column(u, PasswordHash).s) ==> r == Ok(Some(row))) &&
      (Column(u, PasswordHash).Text? && !h.verify(password, Column(u, PasswordHash).s) ==> r == Ok(None)) &&
      (!Column(u, PasswordHash).Text? ==> r == Err(MalformedHash))
  {
    FirstMatchDecides(TableOf(s, UsersTable).rows, TableOf(s, RolesTable).rows, username, password, h, i);
  }

  lemma FirstMatchDecides(users: Keyed<Record>, roles: Keyed<Record>, name: string, password: string, h: Hasher, i: nat)
    requires i < |users| && LoginMatch(users[i].1, roles, name)
    requires forall k :: 0 <= k < i ==> !LoginMatch(users[k].1, roles, name)
    ensures var u := users[i].1;
      var row := u + LoginColumns(RoleOf(u, roles).value);
      var r := FirstVerified(LoginRows(users, roles, name), password, h);
      (Column(u, PasswordHash).Text? && h.verify(password, Column(u, PasswordHash).s) ==> r == Ok(Some(row))) &&
      (Column(u, PasswordHash).Text? && !h.verify(password, Column(u, PasswordHash).s) ==> r == Ok(None)) &&
      (!Column(u, PasswordHash).Text? ==> r == Err(MalformedHash))
  {
    LoginFirstRow(users, roles, name, i);
    JoinedHash(users[i].1, RoleOf(users[i].1, roles).value);
  }

  /** Whether `authenticate` hands back the row of user `id`. */
  predicate AuthenticatesAs(s: Store, username: string, password: string, h: Hasher, id: int)
  {
    var r := Authenticated(s, username, password, h);
    r.Ok? && r.value.Some? && Column(r.value.value, IdColumn) == Int(id)
  }

  /** A returned row is an active user of that name, stored under its id,
      joined with its role's name, whose stored hash accepts the password. */
  lemma AuthenticatedRow(s: Store, username: string, password: string, h: Hasher)
    requires StoreOk(s)
    ensures var r := Authenticated(s, username, password, h);
      r.Ok? && r.value.Some? ==>
        var row := r.value.value;
        Column(row, ActiveColumn) == Int(1) && Column(row, UsernameColumn) == Text(username) &&
        Column(row, IdColumn).Int? && Column(row, IdColumn).i in KeysIn(TableOf(s, UsersTable).rows) &&
        RoleNameColumn in KeysOf(row) &&
        Column(row, PasswordHash).Text? && h.verify(password, Column(row, PasswordHash).s)
  {
    TableOfOk(s, UsersTable);
    LoginPick(TableOf(s, UsersTable).rows, TableOf(s, RolesTable).rows, username, password, h);
  }

  lemma LoginPick(users: Keyed<Record>, roles: Keyed<Record>, name: string, password: string, h: Hasher)
    requires IdsMatch(users)
    ensures var r := FirstVerified(LoginRows(users, roles, name), password, h);
      r.Ok? && r.value.Some? ==>
        var row := r.value.value;
        Column(row, ActiveColumn) == Int(1) && Column(row, UsernameColumn) == Text(name) &&
        Column(row, IdColumn).Int? && Column(row, IdColumn).i in KeysIn(users) &&
        RoleNameColumn in KeysOf(row) &&
        Column(row, PasswordHash).Text? && h.verify(password, Column(row, PasswordHash).s)
  {
    var rows := LoginRows(users, roles, name);
    LoginRowsShape(users, roles, name);
    if |rows| > 0 {
      assert rows[0] in rows;
    }
  }

  /** With no active user of that name whose role exists, `authenticate`
      returns None. */
  lemma NoSuchUserNoLogin(s: Store, username: string, password: string, h: Hasher)
    requires forall e :: e in TableOf(s, UsersTable).rows ==>
      !(Active(e.1) && Column(e.1, UsernameColumn) == Text(username) && RoleOf(e.1, TableOf(s, RolesTable).rows).Some?)
    ensures Authenticated(s, username, password, h) == Ok(None)
  {
    NoLoginRows(TableOf(s, UsersTable).rows, TableOf(s, RolesTable).rows, username);
  }

  lemma {:induction false} NoLoginRows(users: Keyed<Record>, roles: Keyed<Record>, name: string)
    requires forall e :: e in users ==>
      !(Active(e.1) && Column(e.1, UsernameColumn) == Text(name) && RoleOf(e.1, roles).Some?)
    ensures LoginRows(users, roles, name) == []
  {
    if |users| > 0 {
      assert users[0] in users;
      assert forall e :: e in users[1..] ==> e in users;
      NoLoginRows(users[1..], roles, name);
      assert LoginHead(users, roles, name) == [];
    }
  }

  /** A user whose stored row is not active is never the one `authenticate`
      returns, whatever the user name and password. */
  lemma InactiveNeverAuthenticates(s: Store, id: int)
    requires StoreOk(s)
    requires Lookup(TableOf(s, UsersTable).rows, id).Some? && !Active(Lookup(TableOf(s, UsersTable).rows, id).value)
    ensures forall username, password, h :: !AuthenticatesAs(s, username, password, h, id)
  {
    TableOfOk(s, UsersTable);
    forall username, password, h ensures !AuthenticatesAs(s, username, password, h, id) {
      InactiveNotPicked(TableOf(s, UsersTable).rows, TableOf(s, RolesTable).rows, username, password, h, id);
    }
  }

  lemma InactiveNotPicked(users: Keyed<Record>, roles: Keyed<Record>, name: string, password: string, h: Hasher, id: int)
    requires Ordered(users) && IdsMatch(users)
    requires Lookup(users, id).Some? && !Active(Lookup(users, id).value)
    ensures var r := FirstVerified(LoginRows(users, roles, name), password, h);
      !(r.Ok? && r.value.Some? && Column(r.value.value, IdColumn) == Int(id))
  {
    InactiveNeverLogsIn(users, roles, name, id);
    var rows := LoginRows(users, roles, name);
    if |rows| > 0 {
      assert rows[0] in rows;
    }
  }

  // ---------------------------------------------------------------------
  // create_user

  /** The dict `create_user` hands to `create`. */
  function NewUser(username: string, hash: string, fullName: string, position: string, roleId: int): Record
  {
    [(UsernameColumn, Text(username)), (PasswordHash, Text(hash)), (FullName, Text(fullName)),
     (Position, Text(position)), (RoleIdColumn, Int(roleId)), (ActiveColumn, Int(1))]
  }

  /** The conditions `create_user` asks `exists` about. */
  function NameTaken(username: string): Record
  {
    [(UsernameColumn, Text(username))]
  }

  /** What `create_user` does: None when any user, active or not, already
      has the name; otherwise the new row's id from `create`, whose errors
      are re-raised. */
  function UserCreated(d: Database, actor: Option<int>, toJson: Record -> string, engine: Engine, h: Hasher,
                       username: string, password: string, fullName: string, position: string, roleId: int,
                       salt: nat, createdAt: int, updatedAt: int, loggedAt: int): (Database, Outcome<Option<int>>)
  {
    match Existing(d.live, UsersTable, NameTaken(username))
    case Err(e) => (d, Err(e))
    case Ok(taken) =>
      if taken then (d, Ok(None))
      else
        var data := NewUser(username, h.hash(password, salt), fullName, position, roleId);
        var (d', r) := Created(d, UsersTable, data, actor, toJson, createdAt, updatedAt, loggedAt, engine);
        (d', match r case Ok(id) => Ok(Some(id)) case Err(e) => Err(e))
  }

  /** `exists` on the user name holds exactly when some stored user,
      active or not, has that name. */
  lemma NameTakenMeans(s: Store, username: string)
    ensures Existing(s, UsersTable, NameTaken(username)).Ok?
    ensures Existing(s, UsersTable, NameTaken(username)).value <==>
      exists x :: x in Rows(s, UsersTable) && Column(x, UsernameColumn) == Text(username)
  {
    var conds := NameTaken(username);
    CountedRaises(s, UsersTable, conds);
    ExistingMeansMatch(s, UsersTable, conds);
    assert CountConds(conds) == [Equals(UsernameColumn, Text(username))];
  }

  /** `create_user` returns None, and changes nothing, exactly when the name
      is taken; any failure leaves the database as it was. */
  lemma UserCreatedTaken(d: Database, actor: Option<int>, toJson: Record -> string, engine: Engine, h: Hasher,
                         username: string, password: string, fullName: string, position: string, roleId: int,
                         salt: nat, createdAt: int, updatedAt: int, loggedAt: int)
    requires DatabaseOk(d)
    ensures var (d', r) := UserCreated(d, actor, toJson, engine, h, username, password, fullName, position, roleId,
                                       salt, createdAt, updatedAt, loggedAt);
      (r == Ok(None) <==> exists x :: x in Rows(d.live, UsersTable) && Column(x, UsernameColumn) == Text(username)) &&
      (!(r.Ok? && r.value.Some?) ==> d' == d)
  {
    NameTakenMeans(d.live, username);
    var data := NewUser(username, h.hash(password, salt), fullName, position, roleId);
    CreatedRow(d, UsersTable, data, actor, toJson, createdAt, updatedAt, loggedAt, engine);
  }

  /** The columns of the dict `create_user` builds. */
  lemma NewUserGet(username: string, hash: string, fullName: string, position: string, roleId: int)
    ensures var data := NewUser(username, hash, fullName, position, roleId);
      Get(data, UsernameColumn) == Some(Text(username)) && Get(data, PasswordHash) == Some(Text(hash)) &&
      Get(data, ActiveColumn) == Some(Int(1))
  {
    var data := NewUser(username, hash, fullName, position, roleId);
    var tail := data[2..];
    assert UsernameColumn[0] == 'u' && PasswordHash[0] == 'p';
    GetCons(data[0], data[1..], PasswordHash);
    GetCons(data[1], tail, PasswordHash);
    ActiveLast(data, ActiveColumn);
  }

  /** `is_active` is the last key of the dict `create_user` builds, and no
      earlier key equals it. */
  lemma ActiveLast(data: Record, k: string)
    requires |data| == 6 && k == ActiveColumn && data[5] == (k, Int(1))
    requires data[0].0 == UsernameColumn && data[1].0 == PasswordHash && data[2].0 == FullName
    requires data[3].0 == Position && data[4].0 == RoleIdColumn
    ensures Get(data, k) == Some(Int(1))
  {
    assert k[0] == 'i';
    assert UsernameColumn[0] == 'u' && PasswordHash[0] == 'p' && FullName[0] == 'f';
    assert Position[0] == 'p' && RoleIdColumn[0] == 'r';
    assert forall i :: 0 <= i < 5 ==> data[i].0 != k;
    assert data[5..] == [(k, Int(1))];
    GetSkipped(data, k, 5);
  }

  /** Skipping entries whose key differs does not change what a key reads. */
  lemma {:induction false} GetSkipped(r: Record, k: string, n: nat)
    requires n <= |r| && forall i :: 0 <= i < n ==> r[i].0 != k
    ensures Get(r, k) == Get(r[n..], k)
  {
    if n > 0 {
      GetSkipped(r[1..], k, n - 1);
      assert r[1..][n - 1..] == r[n..];
    }
  }

  /** What a key reads in a dict with one more entry in front. */
  lemma GetCons(f: Field, r: Record, k: string)
    ensures Get([f] + r, k) == if f.0 == k then Some(f.1) else Get(r, k)
  {
    assert ([f] + r)[1..] == r;
  }

  /** A new user is stored under the returned id as active, with the name
      given and the hash of the password; with a sound hasher that password
      verifies against the stored hash. */
  lemma UserCreatedRow(d: Database, actor: Option<int>, toJson: Record -> string, engine: Engine, h: Hasher,
                       username: string, password: string, fullName: string, position: string, roleId: int,
                       salt: nat, createdAt: int, updatedAt: int, loggedAt: int)
    requires DatabaseOk(d)
    ensures var (d', r) := UserCreated(d, actor, toJson, engine, h, username, password, fullName, position, roleId,
                                       salt, createdAt, updatedAt, loggedAt);
      r.Ok? && r.value.Some? ==>
        var row := Lookup(TableOf(d'.live, UsersTable).rows, r.value.value);
        row.Some? && Active(row.value) && Column(row.value, UsernameColumn) == Text(username) &&
        Column(row.value, PasswordHash) == Text(h.hash(password, salt)) &&
        (Sound(h) ==> h.verify(password, h.hash(password, salt)))
  {
    var hash := h.hash(password, salt);
    var data := NewUser(username, hash, fullName, position, roleId);
    CreatedRow(d, UsersTable, data, actor, toJson, createdAt, updatedAt, loggedAt, engine);
    var (d', r) := UserCreated(d, actor, toJson, engine, h, username, password, fullName, position, roleId,
                               salt, createdAt, updatedAt, loggedAt);
    if r.Ok? && r.value.Some? {
      NewUserStored(username, hash, fullName, position, roleId, actor, createdAt, updatedAt, r.value.value);
    }
  }

  /** The row `create_user` stores: its dict, stamped, under the new rowid. */
  lemma NewUserStored(username: string, hash: string, fullName: string, position: string, roleId: int,
                      actor: Option<int>, createdAt: int, updatedAt: int, id: int)
    ensures var data := NewUser(username, hash, fullName, position, roleId);
      var row := Put(Stamped(data, actor, createdAt, updatedAt), IdColumn, Int(id));
      Active(row) && Column(row, UsernameColumn) == Text(username) && Column(row, PasswordHash) == Text(hash)
  {
    var data := NewUser(username, hash, fullName, position, roleId);
    var stamped := Stamped(data, actor, createdAt, updatedAt);
    NewUserGet(username, hash, fullName, position, roleId);
    StoredColumn(data, stamped, actor, createdAt, updatedAt, id, UsernameColumn);
    StoredColumn(data, stamped, actor, createdAt, updatedAt, id, PasswordHash);
    StoredColumn(data, stamped, actor, createdAt, updatedAt, id, ActiveColumn);
  }

  /** A column the caller's dict gives keeps its value through the stamps
      and the rowid `create` adds. */
  lemma StoredColumn(data: Record, stamped: Record, actor: Option<int>, createdAt: int, updatedAt: int, id: int, k: string)
    requires stamped == Stamped(data, actor, createdAt, updatedAt)
    requires Has(data, k) && k != IdColumn
    ensures Column(Put(stamped, IdColumn, Int(id)), k) == Column(data, k)
  {
    StampedGet(data, actor, createdAt, updatedAt, k);
    PutGet(stamped, IdColumn, Int(id), k);
  }

  // ---------------------------------------------------------------------
  // change_password, reset_password, activate_user, deactivate_user

  /** The single-column dict a password change or reset hands to `update`. */
  function NewHash(hash: string): Record
  {
    [(PasswordHash, Text(hash))]
  }

  /** The single-column dict `activate_user` and `deactivate_user` hand to
      `update`. */
  function NewActive(flag: int): Record
  {
    [(ActiveColumn, Int(flag))]
  }

  /** What `change_password` does: False, with nothing changed, for a
      missing user, then for an old password the stored hash rejects, then
      for a weak new password; otherwise `update` with the new hash, whose
      result it returns. A stored hash that is not a string raises. */
  function PasswordChanged(d: Database, actor: Option<int>, toJson: Record -> string, engine: Engine, h: Hasher,
                           userId: int, oldPassword: string, newPassword: string,
                           salt: nat, updatedAt: int, loggedAt: int): (Database, Outcome<bool>)
  {
    match Lookup(TableOf(d.live, UsersTable).rows, userId)
    case None => (d, Ok(false))
    case Some(user) =>
      if user == [] then (d, Ok(false))
      else
        match Column(user, PasswordHash)
        case Text(stored) =>
          if !h.verify(oldPassword, stored) then (d, Ok(false))
          else if !ValidatePasswordStrength(newPassword).0 then (d, Ok(false))
          else
            var u := Updated(d, UsersTable, userId, NewHash(h.hash(newPassword, salt)), actor, toJson, updatedAt, loggedAt, engine);
            (u.0, Ok(u.2))
        case _ => (d, Err(MalformedHash))
  }

  /** A change that does not return True leaves the database as it was. One
      that does had the user stored with a hash accepting the old password,
      was given a new password meeting the policy, and leaves the hash of the
      new password stored, which a sound hasher accepts. */
  lemma PasswordChangedGuards(d: Database, actor: Option<int>, toJson: Record -> string, engine: Engine, h: Hasher,
                              userId: int, oldPassword: string, newPassword: string,
                              salt: nat, updatedAt: int, loggedAt: int)
    ensures var (d', r) := PasswordChanged(d, actor, toJson, engine, h, userId, oldPassword, newPassword, salt, updatedAt, loggedAt);
      var before := Lookup(TableOf(d.live, UsersTable).rows, userId);
      var after := Lookup(TableOf(d'.live, UsersTable).rows, userId);
      (before.None? ==> r == Ok(false)) &&
      (r != Ok(true) ==> d' == d) &&
      (r == Ok(true) ==>
         before.Some? && Column(before.value, PasswordHash).Text? &&
         h.verify(oldPassword, Column(before.value, PasswordHash).s) &&
         ValidatePasswordStrength(newPassword).0 &&
         after.Some? && Column(after.value, PasswordHash) == Text(h.hash(newPassword, salt)) &&
         (Sound(h) ==> h.verify(newPassword, h.hash(newPassword, salt))))
  {
    var (d', r) := PasswordChanged(d, actor, toJson, engine, h, userId, oldPassword, newPassword, salt, updatedAt, loggedAt);
    var data := NewHash(h.hash(newPassword, salt));
    UpdatedUnchanged(d, UsersTable, userId, data, actor, toJson, updatedAt, loggedAt, engine);
    if r == Ok(true) {
      assert PasswordHash[0] == 'p' && UpdatedAt[0] == 'u' && IdColumn[0] == 'i';
      UpdatedColumn(d, UsersTable, userId, data, actor, toJson, updatedAt, loggedAt, engine, PasswordHash);
    }
  }

  /** Past its checks, `change_password` is `update` of the hash of the new
      password, whose result it returns: True exactly when the database
      accepts the UPDATE. */
  lemma PasswordChangedProceeds(d: Database, actor: Option<int>, toJson: Record -> string, engine: Engine, h: Hasher,
                                userId: int, oldPassword: string, newPassword: string,
                                salt: nat, updatedAt: int, loggedAt: int)
    requires Lookup(TableOf(d.live, UsersTable).rows, userId).Some?
    requires Column(Lookup(TableOf(d.live, UsersTable).rows, userId).value, PasswordHash).Text?
    requires h.verify(oldPassword, Column(Lookup(TableOf(d.live, UsersTable).rows, userId).value, PasswordHash).s)
    requires ValidatePasswordStrength(newPassword).0
    ensures var data := NewHash(h.hash(newPassword, salt));
      var u := Updated(d, UsersTable, userId, data, actor, toJson, updatedAt, loggedAt, engine);
      var changed := PasswordChanged(d, actor, toJson, engine, h, userId, oldPassword, newPassword, salt, updatedAt, loggedAt);
      changed == (u.0, Ok(u.2)) &&
      changed.1 == Ok(ExecWrite(d, UpdateStatement(UsersTable, userId, UpdateStamped(data, actor, updatedAt)), engine).1.Ok?)
  {
  }

  /** An old password the stored hash rejects gives False and changes
      nothing, whatever the new password. */
  lemma PasswordChangedWrongOld(d: Database, actor: Option<int>, toJson: Record -> string, engine: Engine, h: Hasher,
                                userId: int, oldPassword: string, newPassword: string,
                                salt: nat, updatedAt: int, loggedAt: int)
    requires Lookup(TableOf(d.live, UsersTable).rows, userId).Some?
    requires Column(Lookup(TableOf(d.live, UsersTable).rows, userId).value, PasswordHash).Text?
    requires !h.verify(oldPassword, Column(Lookup(TableOf(d.live, UsersTable).rows, userId).value, PasswordHash).s)
    ensures PasswordChanged(d, actor, toJson, engine, h, userId, oldPassword, newPassword, salt, updatedAt, loggedAt) == (d, Ok(false))
  {
  }

  /** A new password the policy refuses gives False and changes nothing,
      whatever the old password. */
  lemma PasswordChangedWeakNew(d: Database, actor: Option<int>, toJson: Record -> string, engine: Engine, h: Hasher,
                               userId: int, oldPassword: string, newPassword: string,
                               salt: nat, updatedAt: int, loggedAt: int)
    requires Lookup(TableOf(d.live, UsersTable).rows, userId).Some?
    requires Column(Lookup(TableOf(d.live, UsersTable).rows, userId).value, PasswordHash).Text?
    requires !ValidatePasswordStrength(newPassword).0
    ensures PasswordChanged(d, actor, toJson, engine, h, userId, oldPassword, newPassword, salt, updatedAt, loggedAt) == (d, Ok(false))
  {
  }

  /** An `update` that returns False changes nothing. */
  lemma UpdatedUnchanged(d: Database, table: string, id: int, data: Record, actor: Option<int>,
                         toJson: Record -> string, updatedAt: int, loggedAt: int, engine: Engine)
    ensures var u := Updated(d, table, id, data, actor, toJson, updatedAt, loggedAt, engine);
      !u.2 ==> u.0 == d
  {
    UpdatedRefused(d, table, id, data, actor, toJson, updatedAt, loggedAt, engine);
  }

  /** After a successful `update` with a one-column dict, the row holds
      that column's new value (unless it is one `update` sets itself). */
  lemma UpdatedColumn(d: Database, table: string, id: int, data: Record, actor: Option<int>,
                      toJson: Record -> string, updatedAt: int, loggedAt: int, engine: Engine, k: string)
    requires table != AuditTable && |data| == 1 && data[0].0 == k && k != UpdatedAt && k != IdColumn
    requires Updated(d, table, id, data, actor, toJson, updatedAt, loggedAt, engine).2
    ensures var u := Updated(d, table, id, data, actor, toJson, updatedAt, loggedAt, engine);
      var row := Lookup(TableOf(u.0.live, table).rows, id);
      row.Some? && Column(row.value, k) == data[0].1
  {
    var u := Updated(d, table, id, data, actor, toJson, updatedAt, loggedAt, engine);
    UpdatedRow(d, table, id, data, actor, toJson, updatedAt, loggedAt, engine);
    var prior := Lookup(TableOf(d.live, table).rows, id).value;
    var stamped := UpdateStamped(data, actor, updatedAt);
    assert u.1 == stamped;
    UpdateStampedIsDict(data, actor, updatedAt);
    UpdateStampedGet(data, actor, updatedAt, k);
    PutGet(PutAll(prior, stamped), IdColumn, Int(id), k);
  }

  /** The stamps `update` adds keep a dict a dict. */
  lemma UpdateStampedIsDict(data: Record, actor: Option<int>, updatedAt: int)
    requires IsDict(data)
    ensures IsDict(UpdateStamped(data, actor, updatedAt))
  {
    PutIsDict(data, UpdatedAt, Stamp(updatedAt));
    if Given(actor) {
      PutIsDict(Put(data, UpdatedAt, Stamp(updatedAt)), UpdatedBy, Int(actor.value));
    }
  }

  /** What `activate_user` (flag 1) and `deactivate_user` (flag 0) do:
      `update` of `is_active`. */
  function ActiveSet(d: Database, actor: Option<int>, toJson: Record -> string, engine: Engine,
                     userId: int, flag: int, updatedAt: int, loggedAt: int): (Database, bool)
  {
    var u := Updated(d, UsersTable, userId, NewActive(flag), actor, toJson, updatedAt, loggedAt, engine);
    (u.0, u.2)
  }

  /** A switch that returns True leaves the row's `is_active` at the flag;
      one that returns False changes nothing. */
  lemma ActiveSetRow(d: Database, actor: Option<int>, toJson: Record -> string, engine: Engine,
                     userId: int, flag: int, updatedAt: int, loggedAt: int)
    ensures var (d', ok) := ActiveSet(d, actor, toJson, engine, userId, flag, updatedAt, loggedAt);
      var row := Lookup(TableOf(d'.live, UsersTable).rows, userId);
      (!ok ==> d' == d) &&
      (ok ==> row.Some? && Column(row.value, ActiveColumn) == Int(flag) && (Active(row.value) <==> flag == 1))
  {
    var data := NewActive(flag);
    UpdatedUnchanged(d, UsersTable, userId, data, actor, toJson, updatedAt, loggedAt, engine);
    if ActiveSet(d, actor, toJson, engine, userId, flag, updatedAt, loggedAt).1 {
      assert ActiveColumn[0] == 'i' && UpdatedAt[0] == 'u' && |IdColumn| == 2;
      UpdatedColumn(d, UsersTable, userId, data, actor, toJson, updatedAt, loggedAt, engine, ActiveColumn);
    }
  }

  /** `User`: the record store of the `users` table, with the bcrypt
      hasher it logs in and stores passwords with. */
  class UserModel {
    const store: RecordStore
    const hasher: Hasher

    ghost predicate Valid()
      reads store.db
    {
      store.Valid() && store.table == UsersTable
    }

    constructor (db: DatabaseConnection, actor: Option<int>, toJson: Record -> string, hasher: Hasher)
      requires db.Valid()
      ensures Valid() && store.db == db && store.actor == actor && store.toJson == toJson && this.hasher == hasher
    {
      store := new RecordStore(db, UsersTable, actor, toJson);
      this.hasher := hasher;
    }

    /** `authenticate`: the login query's first row, kept only when the
        password verifies against its hash. */
    method Authenticate(username: string, password: string) returns (r: Outcome<Option<Record>>)
      requires Valid()
      modifies store.db
      ensures Valid() && store.db.db == old(store.db.db) && store.db.files == old(store.db.files)
      ensures r == Authenticated(store.db.db.live, username, password, hasher)
    {
      var st := LoginStatement(username);
      ExecLogin(store.db.db, st, store.db.engine, username);
      var row := store.db.FetchOne(st);
      if row.value.None? {
        return Ok(None);
      }
      var userData := row.value.value;
      match Column(userData, PasswordHash)
      case Text(hash) =>
        if !hasher.verify(password, hash) {
          return Ok(None);
        }
        r := Ok(Some(userData));
      case _ =>
        r := Err(MalformedHash);
    }

    /** `create_user`: `salt` stands for the salt `gensalt()` draws and the
        three times for the clock readings `create` takes. */
    method CreateUser(username: string, password: string, fullName: string, position: string, roleId: int,
                      salt: nat, createdAt: int, updatedAt: int, loggedAt: int) returns (r: Outcome<Option<int>>)
      requires Valid()
      modifies store.db
      ensures Valid() && store.db.files == old(store.db.files)
      ensures (store.db.db, r) == UserCreated(old(store.db.db), store.actor, store.toJson, store.db.engine, hasher,
                                              username, password, fullName, position, roleId,
                                              salt, createdAt, updatedAt, loggedAt)
    {
      var taken := store.Exists(NameTaken(username));
      if taken.Err? {
        return Err(taken.error);
      }
      if taken.value {
        return Ok(None);
      }
      var hash := hasher.hash(password, salt);
      var data := new Fields(NewUser(username, hash, fullName, position, roleId));
      var id := store.Create(data, createdAt, updatedAt, loggedAt);
      if id.Err? {
        return Err(id.error);
      }
      r := Ok(Some(id.value));
    }

    /** `change_password`. */
    method ChangePassword(userId: int, oldPassword: string, newPassword: string,
                          salt: nat, updatedAt: int, loggedAt: int) returns (r: Outcome<bool>)
      requires Valid()
      modifies store.db
      ensures Valid() && store.db.files == old(store.db.files)
      ensures (store.db.db, r) == PasswordChanged(old(store.db.db), store.actor, store.toJson, store.db.engine, hasher,
                                                  userId, oldPassword, newPassword, salt, updatedAt, loggedAt)
    {
      var user := store.Read(userId);
      if user.None? || user.value == [] {
        return Ok(false);
      }
      match Column(user.value, PasswordHash)
      case Text(stored) =>
        if !hasher.verify(oldPassword, stored) {
          return Ok(false);
        }
        var (valid, message) := ValidatePasswordStrength(newPassword);
        if !valid {
          return Ok(false);
        }
        var data := new Fields(NewHash(hasher.hash(newPassword, salt)));
        var ok := store.Update(userId, data, updatedAt, loggedAt);
        r := Ok(ok);
      case _ =>
        r := Err(MalformedHash);
    }

    /** `reset_password`: a fresh 12-character password, stored as its hash;
        it is handed back exactly when `update` succeeded. */
    method ResetPassword(userId: int, salt: nat, updatedAt: int, loggedAt: int) returns (r: Option<string>, ghost temp: string)
      requires Valid()
      modifies store.db
      ensures Valid() && store.db.files == old(store.db.files)
      ensures |temp| == DefaultLength && forall i :: 0 <= i < |temp| ==> temp[i] in Alphabet
      ensures var u := Updated(old(store.db.db), UsersTable, userId, NewHash(hasher.hash(temp, salt)),
                               store.actor, store.toJson, updatedAt, loggedAt, store.db.engine);
        store.db.db == u.0 && (r.Some? <==> u.2) && (r.Some? ==> r.value == temp)
    {
      var password := GeneratePassword(DefaultLength);
      temp := password;
      var data := new Fields(NewHash(hasher.hash(password, salt)));
      var ok := store.Update(userId, data, updatedAt, loggedAt);
      if ok {
        r := Some(password);
      } else {
        r := None;
      }
    }

    /** `get_active_users`. */
    method GetActiveUsers() returns (r: seq<Record>)
      requires Valid()
      modifies store.db
      ensures Valid() && store.db.db == old(store.db.db) && store.db.files == old(store.db.files)
      ensures r == ActiveUsersByName(TableOf(store.db.db.live, UsersTable).rows, TableOf(store.db.db.live, RolesTable).rows)
    {
      var st := ActiveUsersStatement();
      ExecActiveUsers(store.db.db, st, store.db.engine);
      var rows := store.db.FetchAll(st);
      r := rows.value;
    }

    /** `deactivate_user`; on success that user can no longer log in. */
    method DeactivateUser(userId: int, updatedAt: int, loggedAt: int) returns (ok: bool)
      requires Valid()
      modifies store.db
      ensures Valid() && store.db.files == old(store.db.files)
      ensures (store.db.db, ok) == ActiveSet(old(store.db.db), store.actor, store.toJson, store.db.engine,
                                             userId, 0, updatedAt, loggedAt)
      ensures ok ==> forall username, password, h :: !AuthenticatesAs(store.db.db.live, username, password, h, userId)
    {
      ghost var d := store.db.db;
      var data := new Fields(NewActive(0));
      ok := store.Update(userId, data, updatedAt, loggedAt);
      if ok {
        ActiveSetRow(d, store.actor, store.toJson, store.db.engine, userId, 0, updatedAt, loggedAt);
        InactiveNeverAuthenticates(store.db.db.live, userId);
      }
    }

    /** `activate_user`. */
    method ActivateUser(userId: int, updatedAt: int, loggedAt: int) returns (ok: bool)
      requires Valid()
      modifies store.db
      ensures Valid() && store.db.files == old(store.db.files)
      ensures (store.db.db, ok) == ActiveSet(old(store.db.db), store.actor, store.toJson, store.db.engine,
                                             userId, 1, updatedAt, loggedAt)
    {
      var data := new Fields(NewActive(1));
      ok := store.Update(userId, data, updatedAt, loggedAt);
    }
  }

  /** Every user `get_active_users` lists is active, and the list is in
      user-name order. */
  lemma ActiveUsersListed(s: Store)
    ensures var r := ActiveUsersByName(TableOf(s, UsersTable).rows, TableOf(s, RolesTable).rows);
      SortedBy(r, UsernameColumn) && forall x :: x in r ==> Column(x, ActiveColumn) == Int(1)
  {
    var users := TableOf(s, UsersTable).rows;
    var roles := TableOf(s, RolesTable).rows;
    var r := ActiveUsersByName(users, roles);
    ActiveRowsActive(users, roles);
    forall x | x in r ensures Column(x, ActiveColumn) == Int(1) {
      assert x in multiset(r);
      assert x in multiset(ActiveRows(users, roles));
    }
  }
}
