/** What the `SELECT` statements of the data layer return, given the rows a
    table holds: the `WHERE` terms the record store generates, the
    `LIMIT`/`OFFSET` window, and the two joins of users with their roles. */
module Query {
  import opened Util
  import opened Values
  import opened Order

  /** One `WHERE` term, as the record store generates them. */
  datatype Cond =
    | IsNull(column: string)                      // `col IS NULL`
    | InList(column: string, items: seq<Value>)   // `col IN (?,?,...)`
    | Equals(column: string, value: Value)        // `col = ?`

  /** Whether a row satisfies one term. NULL equals nothing, so `= ?` and
      `IN (...)` never hold for a NULL column, and `IN ()` never holds. */
  predicate Holds(r: Record, c: Cond)
  {
    match c
    case IsNull(col) => Column(r, col) == Null
    case InList(col, items) => Column(r, col) != Null && Column(r, col) in items
    case Equals(col, v) => Column(r, col) != Null && Column(r, col) == v
  }

  /** The terms joined with `AND`; no term at all means no `WHERE`. */
  predicate HoldsAll(r: Record, conds: seq<Cond>)
  {
    forall i :: 0 <= i < |conds| ==> Holds(r, conds[i])
  }

  /** The rows, in stored order, that satisfy every term. */
  function Where(rows: seq<Record>, conds: seq<Cond>): (r: seq<Record>)
    ensures |r| <= |rows|
    ensures forall x :: x in r <==> x in rows && HoldsAll(x, conds)
  {
    if |rows| == 0 then []
    else
      var rest := Where(rows[1..], conds);
      assert forall x :: x in rows <==> x == rows[0] || x in rows[1..];
      if HoldsAll(rows[0], conds) then [rows[0]] + rest else rest
  }

  /** With no term, every row is selected, in order. */
  lemma {:induction false} WhereNothing(rows: seq<Record>)
    ensures Where(rows, []) == rows
  {
    if |rows| > 0 {
      WhereNothing(rows[1..]);
      assert rows == [rows[0]] + rows[1..];
    }
  }

  /** How many leading rows `OFFSET o` skips: a negative offset skips none. */
  function Skip(offset: Option<int>): (n: nat)
    ensures offset.Some? && offset.value >= 0 ==> n == offset.value
  {
    match offset
    case Some(o) => if o < 0 then 0 else o
    case None => 0
  }

  /** `LIMIT l OFFSET o` applied to the selected rows: a negative or absent
      limit means no limit. */
  function Window(rows: seq<Record>, limit: Option<int>, offset: Option<int>): (r: seq<Record>)
    ensures |r| <= |rows|
    ensures forall i :: 0 <= i < |r| ==> Skip(offset) + i < |rows| && r[i] == rows[Skip(offset) + i]
    ensures limit.Some? && limit.value >= 0 ==> |r| <= limit.value
    ensures Skip(offset) <= |rows| && (limit.None? || limit.value < 0) ==> |r| == |rows| - Skip(offset)
    ensures Skip(offset) <= |rows| && limit.Some? && 0 <= limit.value ==>
      |r| == if limit.value < |rows| - Skip(offset) then limit.value else |rows| - Skip(offset)
  {
    var skip := Skip(offset);
    var rest := if skip < |rows| then rows[skip..] else [];
    match limit
    case Some(l) => if 0 <= l < |rest| then rest[..l] else rest
    case None => rest
  }

  const NameColumn := "name"
  const RoleNameColumn := "role_name"
  const UsernameColumn := "username"
  const ActiveColumn := "is_active"
  const RoleIdColumn := "role_id"
  const IdColumn := "id"

  /** The five capability columns of a role, in the order the queries list them. */
  const FlagNames: seq<string> := ["can_read", "can_write", "can_delete", "can_approve", "can_admin"]

  /** The roles row that `u.role_id = r.id` joins a user row to, if any. */
  function RoleOf(user: Record, roles: Keyed<Record>): (role: Option<Record>)
    ensures role.Some? ==> Column(user, RoleIdColumn).Int? && Lookup(roles, Column(user, RoleIdColumn).i) == role
  {
    match Column(user, RoleIdColumn)
    case Int(k) => Lookup(roles, k)
    case _ => None
  }

  /** `u.is_active = 1`. */
  predicate Active(user: Record)
  {
    Column(user, ActiveColumn) == Int(1)
  }

  /** The role columns the login query adds after `u.*`: the role's name as
      `role_name`, then its five flags. */
  function LoginColumns(role: Record): (cols: Record)
    ensures KeysOf(cols) == [RoleNameColumn] + FlagNames
  {
    var cols := [(RoleNameColumn, Column(role, NameColumn))] + ColumnsOf(role, FlagNames);
    assert cols[1..] == ColumnsOf(role, FlagNames);
    cols
  }

  /** The named columns of a row, in the order given. */
  function ColumnsOf(row: Record, names: seq<string>): (cols: Record)
    ensures KeysOf(cols) == names
  {
    if |names| == 0 then []
    else
      var cols := [(names[0], Column(row, names[0]))] + ColumnsOf(row, names[1..]);
      assert cols[1..] == ColumnsOf(row, names[1..]);
      cols
  }

  /** The login query: active users with this user name that join a role,
      each as its own columns followed by the role's name and flags. */
  function LoginRows(users: Keyed<Record>, roles: Keyed<Record>, name: string): (r: seq<Record>)
    ensures |r| <= |users|
  {
    if |users| == 0 then []
    else
      var u := users[0].1;
      var rest := LoginRows(users[1..], roles, name);
      match RoleOf(u, roles)
      case Some(role) =>
        if Active(u) && Column(u, UsernameColumn) == Text(name) then [u + LoginColumns(role)] + rest else rest
      case None => rest
  }

  /** Every stored row carries its own rowid in its `id` column. */
  predicate IdsMatch(t: Keyed<Record>)
  {
    forall e :: e in t ==> Column(e.1, IdColumn) == Int(e.0)
  }

  /** Every row the login query returns is an active user of that name whose
      role exists, with the role's name and flags after the user's columns;
      its `id` is the rowid of the user row it came from. */
  lemma {:induction false} LoginRowsShape(users: Keyed<Record>, roles: Keyed<Record>, name: string)
    requires IdsMatch(users)
    ensures forall r :: r in LoginRows(users, roles, name) ==>
      Column(r, ActiveColumn) == Int(1) && Column(r, UsernameColumn) == Text(name) &&
      Column(r, IdColumn).Int? && Column(r, IdColumn).i in KeysIn(users) &&
      RoleNameColumn in KeysOf(r)
  {
    if |users| > 0 {
      var u := users[0].1;
      var tail := users[1..];
      assert IdsMatch(tail) by {
        forall e | e in tail ensures Column(e.1, IdColumn) == Int(e.0) {
          assert e in users;
        }
      }
      LoginRowsShape(tail, roles, name);
      assert KeysIn(users) == [users[0].0] + KeysIn(tail);
      var first := LoginHead(users, roles, name);
      forall r | r in first
        ensures Column(r, ActiveColumn) == Int(1) && Column(r, UsernameColumn) == Text(name) &&
          Column(r, IdColumn).Int? && Column(r, IdColumn).i in KeysIn(users) && RoleNameColumn in KeysOf(r)
      {
        assert users[0] in users;
        JoinedRow(u, RoleOf(u, roles).value);
      }
    }
  }

  /** A user row joined with a role keeps the user's own columns and gains
      `role_name`. */
  lemma JoinedRow(u: Record, role: Record)
    ensures forall c :: Has(u, c) ==> Column(u + LoginColumns(role), c) == Column(u, c)
    ensures RoleNameColumn in KeysOf(u + LoginColumns(role))
  {
    var j := u + LoginColumns(role);
    forall c | Has(u, c) ensures Column(j, c) == Column(u, c) {
      GetConcat(u, LoginColumns(role), c);
    }
    assert KeysOf(j)[|u|] == j[|u|].0 == RoleNameColumn;
  }

  /** A user whose stored row is not active is never among the login rows. */
  lemma {:induction false} InactiveNeverLogsIn(users: Keyed<Record>, roles: Keyed<Record>, name: string, id: int)
    requires Ordered(users) && IdsMatch(users)
    requires Lookup(users, id).Some? && !Active(Lookup(users, id).value)
    ensures forall r :: r in LoginRows(users, roles, name) ==> Column(r, IdColumn) != Int(id)
  {
    var u := users[0].1;
    var tail := users[1..];
    var rest := LoginRows(tail, roles, name);
    assert IdsMatch(tail) by {
      forall e | e in tail ensures Column(e.1, IdColumn) == Int(e.0) {
        assert e in users;
      }
    }
    assert users[0] in users;
    var first := LoginHead(users, roles, name);
    assert LoginRows(users, roles, name) == first + rest;
    if users[0].0 == id {
      HeadKeyBelowTail(users, id);
      LoginRowsShape(tail, roles, name);
      assert first == [];
    } else {
      assert Lookup(tail, id) == Lookup(users, id);
      OrderedTail(users);
      InactiveNeverLogsIn(tail, roles, name, id);
      forall r | r in first ensures Column(r, IdColumn) != Int(id) {
        var role := RoleOf(u, roles).value;
        GetConcat(u, LoginColumns(role), IdColumn);
      }
    }
  }

  /** The login row the first user contributes, if any. */
  function LoginHead(users: Keyed<Record>, roles: Keyed<Record>, name: string): (r: seq<Record>)
    requires |users| > 0
    ensures LoginRows(users, roles, name) == r + LoginRows(users[1..], roles, name)
    ensures |r| <= 1
    ensures |r| == 1 ==>
      RoleOf(users[0].1, roles).Some? && r[0] == users[0].1 + LoginColumns(RoleOf(users[0].1, roles).value)
    ensures !Active(users[0].1) ==> r == []
  {
    var u := users[0].1;
    match RoleOf(u, roles)
    case Some(role) =>
      if Active(u) && Column(u, UsernameColumn) == Text(name) then [u + LoginColumns(role)] else []
    case None => []
  }

  /** Whether the login query keeps user row `u`: active, of that name, and
      joined to an existing role. */
  predicate LoginMatch(u: Record, roles: Keyed<Record>, name: string)
  {
    RoleOf(u, roles).Some? && Active(u) && Column(u, UsernameColumn) == Text(name)
  }

  /** The first login row is the first user row, in stored order, that the
      query keeps, joined with that user's role. */
  lemma {:induction false} LoginFirstRow(users: Keyed<Record>, roles: Keyed<Record>, name: string, i: nat)
    requires i < |users| && LoginMatch(users[i].1, roles, name)
    requires forall k :: 0 <= k < i ==> !LoginMatch(users[k].1, roles, name)
    ensures var rows := LoginRows(users, roles, name);
      |rows| > 0 && rows[0] == users[i].1 + LoginColumns(RoleOf(users[i].1, roles).value)
  {
    if i > 0 {
      var tail := users[1..];
      assert !LoginMatch(users[0].1, roles, name);
      assert LoginRows(users, roles, name) == LoginRows(tail, roles, name);
      forall k | 0 <= k < i - 1 ensures !LoginMatch(tail[k].1, roles, name) {
        assert tail[k] == users[k + 1];
      }
      assert tail[i - 1] == users[i];
      LoginFirstRow(tail, roles, name, i - 1);
    }
  }

  /** No two rows share an `id`. */
  predicate DistinctIds(rows: seq<Record>)
  {
    forall i, j :: 0 <= i < j < |rows| ==> Column(rows[i], IdColumn) != Column(rows[j], IdColumn)
  }

  /** Putting a row whose id `k` none of `rest` has before `rest` keeps the
      ids distinct. */
  lemma ConsDistinct(first: seq<Record>, rest: seq<Record>, k: int, keys: seq<int>)
    requires |first| <= 1 && DistinctIds(rest)
    requires forall r :: r in first ==> Column(r, IdColumn) == Int(k)
    requires forall t :: t in rest ==> Column(t, IdColumn).Int? && Column(t, IdColumn).i in keys
    requires k !in keys
    ensures DistinctIds(first + rest)
  {
    var all := first + rest;
    forall i, j | 0 <= i < j < |all| ensures Column(all[i], IdColumn) != Column(all[j], IdColumn) {
      if i < |first| {
        assert all[i] in first && all[j] == rest[j - |first|];
        assert all[j] in rest;
      } else {
        assert all[i] == rest[i - |first|] && all[j] == rest[j - |first|];
      }
    }
  }

  /** In a table ordered by rowid whose rows carry their rowids, the login
      query returns at most one row per user: no two rows share an `id`. */
  lemma {:induction false} LoginRowsDistinct(users: Keyed<Record>, roles: Keyed<Record>, name: string)
    requires Ordered(users) && IdsMatch(users)
    ensures DistinctIds(LoginRows(users, roles, name))
  {
    if |users| > 0 {
      var tail := users[1..];
      IdsMatchTail(users);
      OrderedTail(users);
      LoginRowsDistinct(tail, roles, name);
      LoginRowsShape(tail, roles, name);
      HeadKeyBelowTail(users, users[0].0);
      var first := LoginHead(users, roles, name);
      if |first| == 1 {
        var u := users[0].1;
        assert users[0] in users;
        GetConcat(u, LoginColumns(RoleOf(u, roles).value), IdColumn);
      }
      ConsDistinct(first, LoginRows(tail, roles, name), users[0].0, KeysIn(tail));
    }
  }

  /** In an ordered table, no later entry has the first entry's key. */
  lemma HeadKeyBelowTail(users: Keyed<Record>, id: int)
    requires Ordered(users) && |users| > 0 && users[0].0 == id
    ensures id !in KeysIn(users[1..])
  {
    forall j | 0 <= j < |users| - 1 ensures KeysIn(users[1..])[j] != id {
      assert KeysIn(users[1..])[j] == users[j + 1].0;
    }
  }

  /** The user-list query: active users that join a role, each as its own
      columns followed by the role's name, before ordering. */
  function ActiveRows(users: Keyed<Record>, roles: Keyed<Record>): (r: seq<Record>)
    ensures |r| <= |users|
  {
    if |users| == 0 then []
    else
      var u := users[0].1;
      var rest := ActiveRows(users[1..], roles);
      match RoleOf(u, roles)
      case Some(role) =>
        if Active(u) then [u + [(RoleNameColumn, Column(role, NameColumn))]] + rest else rest
      case None => rest
  }

  /** Every listed row is a user row, carrying that row's rowid as its `id`. */
  lemma {:induction false} ActiveRowsIds(users: Keyed<Record>, roles: Keyed<Record>)
    requires IdsMatch(users)
    ensures forall r :: r in ActiveRows(users, roles) ==>
      Column(r, IdColumn).Int? && Column(r, IdColumn).i in KeysIn(users)
  {
    if |users| > 0 {
      var u := users[0].1;
      var tail := users[1..];
      IdsMatchTail(users);
      ActiveRowsIds(tail, roles);
      assert KeysIn(users) == [users[0].0] + KeysIn(tail);
      assert users[0] in users;
      match RoleOf(u, roles)
      case Some(role) =>
        GetConcat(u, [(RoleNameColumn, Column(role, NameColumn))], IdColumn);
      case None =>
    }
  }

  /** In a table ordered by rowid whose rows carry their rowids, the
      user-list query returns at most one row per user. */
  lemma {:induction false} ActiveRowsDistinct(users: Keyed<Record>, roles: Keyed<Record>)
    requires Ordered(users) && IdsMatch(users)
    ensures DistinctIds(ActiveRows(users, roles))
  {
    if |users| > 0 {
      var tail := users[1..];
      IdsMatchTail(users);
      OrderedTail(users);
      ActiveRowsDistinct(tail, roles);
      ActiveRowsIds(tail, roles);
      HeadKeyBelowTail(users, users[0].0);
      var first := ActiveHead(users, roles);
      if |first| == 1 {
        assert users[0] in users;
        GetConcat(users[0].1, first[0][|users[0].1|..], IdColumn);
        assert first[0] == users[0].1 + first[0][|users[0].1|..];
      }
      ConsDistinct(first, ActiveRows(tail, roles), users[0].0, KeysIn(tail));
    }
  }

  /** The listed row the first user contributes, if any. */
  function ActiveHead(users: Keyed<Record>, roles: Keyed<Record>): (r: seq<Record>)
    requires |users| > 0
    ensures ActiveRows(users, roles) == r + ActiveRows(users[1..], roles)
    ensures |r| <= 1
    ensures |r| == 1 ==>
      RoleOf(users[0].1, roles).Some? &&
      r[0] == users[0].1 + [(RoleNameColumn, Column(RoleOf(users[0].1, roles).value, NameColumn))]
  {
    var u := users[0].1;
    match RoleOf(u, roles)
    case Some(role) => if Active(u) then [u + [(RoleNameColumn, Column(role, NameColumn))]] else []
    case None => []
  }

  /** The rest of a table whose rows carry their rowids does too. */
  lemma IdsMatchTail(users: Keyed<Record>)
    requires IdsMatch(users) && |users| > 0
    ensures IdsMatch(users[1..])
  {
    forall e | e in users[1..] ensures Column(e.1, IdColumn) == Int(e.0) {
      assert e in users;
    }
  }

  /** The user-list query with its `ORDER BY u.username`. */
  function ActiveUsersByName(users: Keyed<Record>, roles: Keyed<Record>): (r: seq<Record>)
    ensures multiset(r) == multiset(ActiveRows(users, roles))
    ensures SortedBy(r, UsernameColumn)
  {
    SortByColumnSorted(ActiveRows(users, roles), UsernameColumn);
    SortByColumnPerm(ActiveRows(users, roles), UsernameColumn);
    SortByColumn(ActiveRows(users, roles), UsernameColumn)
  }

  /** Every listed row is an active user. */
  lemma {:induction false} ActiveRowsActive(users: Keyed<Record>, roles: Keyed<Record>)
    ensures forall r :: r in ActiveRows(users, roles) ==> Column(r, ActiveColumn) == Int(1)
  {
    if |users| > 0 {
      var u := users[0].1;
      ActiveRowsActive(users[1..], roles);
      match RoleOf(u, roles)
      case Some(role) =>
        GetConcat(u, [(RoleNameColumn, Column(role, NameColumn))], ActiveColumn);
      case None =>
    }
  }
}
