/** The SQL text and parameter tuples the record store builds: the `INSERT`
    of `create`, the `UPDATE` of `update`, the `WHERE` clauses of `find` and
    `count`, and `find`'s `LIMIT`/`OFFSET`; each paired with the meaning the
    text has for the engine. */
module Sql {
  import opened Util
  import opened Values
  import opened Query
  import opened Store

  /** No key of the dict contains a `?` (column names are identifiers). */
  predicate PlainKeys(r: Record)
  {
    forall i :: 0 <= i < |r| ==> '?' !in r[i].0
  }

  lemma {:induction false} JoinAvoids(c: char, parts: seq<string>, sep: string)
    requires c !in sep && forall i :: 0 <= i < |parts| ==> c !in parts[i]
    ensures c !in Join(parts, sep)
  {
    if |parts| > 1 {
      JoinAvoids(c, parts[1..], sep);
    }
  }

  /** `columns = ', '.join(data.keys())` has no placeholder in it. */
  lemma KeysAvoidMarks(r: Record)
    requires PlainKeys(r)
    ensures '?' !in Join(KeysOf(r), ", ")
  {
    JoinAvoids('?', KeysOf(r), ", ");
  }

  /** `INSERT INTO t (c1, c2, ...) VALUES (?, ?, ...)`. */
  function InsertSql(table: string, data: Record): string
  {
    "INSERT INTO " + table + " (" + Join(KeysOf(data), ", ") + ") VALUES (" + Join(Repeat("?", |data|), ", ") + ")"
  }

  /** The statement `create` sends: the values in the dict's key order, so
      that the i-th parameter is the value of the i-th column listed. */
  function InsertStatement(table: string, data: Record): (st: Statement)
    ensures |st.params| == |data| && forall i :: 0 <= i < |data| ==> st.params[i] == data[i].1
    ensures st.effect == InsertRow(table, data)
  {
    Statement(InsertSql(table, data), ValuesOf(data), InsertRow(table, data))
  }

  /** The `INSERT` has exactly one `?` per column, hence per parameter. */
  lemma InsertPlaceholders(table: string, data: Record)
    requires '?' !in table && PlainKeys(data)
    ensures Occurrences('?', InsertStatement(table, data).sql) == |InsertStatement(table, data).params|
  {
    KeysAvoidMarks(data);
    var cols := Join(KeysOf(data), ", ");
    var marks := Join(Repeat("?", |data|), ", ");
    PlaceholderCount(|data|, ", ");
    OccurrencesAbsent('?', "INSERT INTO " + table + " (" + cols + ") VALUES (");
    OccurrencesAbsent('?', ")");
    OccurrencesAppend('?', "INSERT INTO " + table + " (" + cols + ") VALUES (", marks);
    OccurrencesAppend('?', "INSERT INTO " + table + " (" + cols + ") VALUES (" + marks, ")");
  }

  /** `[f"{k} = ?" for k in keys]`. */
  function Assignments(keys: seq<string>): (r: seq<string>)
    ensures |r| == |keys| && forall i :: 0 <= i < |keys| ==> r[i] == keys[i] + " = ?"
  {
    if |keys| == 0 then [] else [keys[0] + " = ?"] + Assignments(keys[1..])
  }

  lemma {:induction false} AssignmentMarks(keys: seq<string>)
    requires forall i :: 0 <= i < |keys| ==> '?' !in keys[i]
    ensures OccurrencesIn('?', Assignments(keys)) == |keys|
  {
    if |keys| > 0 {
      AssignmentMarks(keys[1..]);
      assert Assignments(keys)[1..] == Assignments(keys[1..]);
      OccurrencesAbsent('?', keys[0] + " = ");
      OccurrencesAppend('?', keys[0] + " = ", "?");
      assert keys[0] + " = ?" == keys[0] + " = " + "?";
    }
  }

  /** `UPDATE t SET k1 = ?, k2 = ? WHERE id = ?`. */
  function UpdateSql(table: string, data: Record): string
  {
    "UPDATE " + table + " SET " + Join(Assignments(KeysOf(data)), ", ") + " WHERE " + IdColumn + " = ?"
  }

  /** The statement `update` sends: the dict's values in key order, then the
      record id. */
  function UpdateStatement(table: string, id: int, data: Record): (st: Statement)
    ensures |st.params| == |data| + 1 && st.params[|data|] == Int(id)
    ensures forall i :: 0 <= i < |data| ==> st.params[i] == data[i].1
    ensures st.effect == UpdateRow(table, id, data)
  {
    Statement(UpdateSql(table, data), ValuesOf(data) + [Int(id)], UpdateRow(table, id, data))
  }

  /** The `UPDATE` has one `?` per assigned column plus one for the id. */
  lemma UpdatePlaceholders(table: string, id: int, data: Record)
    requires '?' !in table && PlainKeys(data)
    ensures Occurrences('?', UpdateStatement(table, id, data).sql) == |data| + 1
  {
    var sets := Join(Assignments(KeysOf(data)), ", ");
    AssignmentMarks(KeysOf(data));
    OccurrencesJoin('?', Assignments(KeysOf(data)), ", ");
    var head := "UPDATE " + table + " SET ";
    var tail := " WHERE " + IdColumn + " = ";
    OccurrencesAbsent('?', head);
    OccurrencesAbsent('?', tail);
    OccurrencesAppend('?', head, sets);
    OccurrencesAppend('?', head + sets, tail);
    OccurrencesAppend('?', head + sets + tail, "?");
    assert UpdateSql(table, data) == head + sets + tail + "?";
  }

  /** `DELETE FROM t WHERE id = ?`. */
  function DeleteStatement(table: string, id: int): (st: Statement)
    ensures st.params == [Int(id)] && st.effect == DeleteRow(table, id)
  {
    Statement("DELETE FROM " + table + " WHERE " + IdColumn + " = ?", [Int(id)], DeleteRow(table, id))
  }

  /** `SELECT * FROM t WHERE id = ?`. */
  function ReadStatement(table: string, id: int): (st: Statement)
    ensures st.params == [Int(id)] && st.effect == ReadById(table, id)
  {
    Statement("SELECT * FROM " + table + " WHERE " + IdColumn + " = ?", [Int(id)], ReadById(table, id))
  }

  /** How `find` reads one condition: None is `IS NULL`, a list or tuple is
      `IN (...)`, anything else is `= ?`. */
  function FindCond(f: Field): (c: Cond)
    ensures c.column == f.0
    ensures f.1 == Null <==> c.IsNull?
    ensures f.1.List? <==> c.InList?
  {
    match f.1
    case Null => IsNull(f.0)
    case List(items) => InList(f.0, items)
    case _ => Equals(f.0, f.1)
  }

  /** How `count` reads one condition: None is `IS NULL`, anything else,
      a list included, is `= ?`. */
  function CountCond(f: Field): (c: Cond)
    ensures c.column == f.0
    ensures f.1 == Null <==> c.IsNull?
    ensures !c.InList?
  {
    if f.1 == Null then IsNull(f.0) else Equals(f.0, f.1)
  }

  /** The terms of a conditions dict, in its key order. */
  function FindConds(conds: Record): (cs: seq<Cond>)
    ensures |cs| == |conds| && forall i :: 0 <= i < |conds| ==> cs[i] == FindCond(conds[i])
  {
    if |conds| == 0 then [] else [FindCond(conds[0])] + FindConds(conds[1..])
  }

  function CountConds(conds: Record): (cs: seq<Cond>)
    ensures |cs| == |conds| && forall i :: 0 <= i < |conds| ==> cs[i] == CountCond(conds[i])
  {
    if |conds| == 0 then [] else [CountCond(conds[0])] + CountConds(conds[1..])
  }

  /** Without a list among the values, `count` and `find` read the
      conditions alike. */
  lemma SameConds(conds: Record)
    requires forall i :: 0 <= i < |conds| ==> !conds[i].1.List?
    ensures CountConds(conds) == FindConds(conds)
  {
  }

  /** The text of one term. */
  function CondSql(c: Cond): string
  {
    match c
    case IsNull(k) => k + " IS NULL"
    case InList(k, items) => k + " IN (" + Join(Repeat("?", |items|), ",") + ")"
    case Equals(k, _) => k + " = ?"
  }

  /** The parameters one term binds. */
  function CondParams(c: Cond): seq<Value>
  {
    match c
    case IsNull(_) => []
    case InList(_, items) => items
    case Equals(_, v) => [v]
  }

  /** The `?` marks in a term are exactly the parameters it binds. */
  lemma CondMarks(c: Cond)
    requires '?' !in c.column
    ensures Occurrences('?', CondSql(c)) == |CondParams(c)|
  {
    match c
    case IsNull(k) =>
      OccurrencesAbsent('?', k + " IS NULL");
    case InList(k, items) =>
      var marks := Join(Repeat("?", |items|), ",");
      PlaceholderCount(|items|, ",");
      OccurrencesAbsent('?', k + " IN (");
      OccurrencesAbsent('?', ")");
      OccurrencesAppend('?', k + " IN (", marks);
      OccurrencesAppend('?', k + " IN (" + marks, ")");
    case Equals(k, _) =>
      OccurrencesAbsent('?', k + " = ");
      OccurrencesAppend('?', k + " = ", "?");
      assert k + " = ?" == k + " = " + "?";
  }

  /** The terms' texts, in order. */
  function Clauses(cs: seq<Cond>): (r: seq<string>)
    ensures |r| == |cs| && forall i :: 0 <= i < |cs| ==> r[i] == CondSql(cs[i])
  {
    if |cs| == 0 then [] else Clauses(cs[..|cs| - 1]) + [CondSql(cs[|cs| - 1])]
  }

  /** The parameters of the terms, in order: what the loop's `append` and
      `extend` calls accumulate. */
  function ParamsOf(cs: seq<Cond>): seq<Value>
  {
    if |cs| == 0 then [] else ParamsOf(cs[..|cs| - 1]) + CondParams(cs[|cs| - 1])
  }

  lemma {:induction false} ClauseMarks(cs: seq<Cond>)
    requires forall i :: 0 <= i < |cs| ==> '?' !in cs[i].column
    ensures OccurrencesIn('?', Clauses(cs)) == |ParamsOf(cs)|
  {
    if |cs| > 0 {
      var init := cs[..|cs| - 1];
      ClauseMarks(init);
      CondMarks(cs[|cs| - 1]);
      OccurrencesInAppend('?', Clauses(init), [CondSql(cs[|cs| - 1])]);
      assert OccurrencesIn('?', [CondSql(cs[|cs| - 1])]) == Occurrences('?', CondSql(cs[|cs| - 1])) by {
        assert [CondSql(cs[|cs| - 1])][1..] == [];
      }
    }
  }

  /** `" WHERE " + " AND ".join(where_clauses)`, present only when there are
      conditions. */
  function WhereSql(cs: seq<Cond>): string
  {
    if |cs| == 0 then "" else " WHERE " + Join(Clauses(cs), " AND ")
  }

  lemma WhereMarks(cs: seq<Cond>)
    requires forall i :: 0 <= i < |cs| ==> '?' !in cs[i].column
    ensures Occurrences('?', WhereSql(cs)) == |ParamsOf(cs)|
  {
    if |cs| > 0 {
      ClauseMarks(cs);
      OccurrencesJoin('?', Clauses(cs), " AND ");
      OccurrencesAbsent('?', " WHERE ");
      OccurrencesAppend('?', " WHERE ", Join(Clauses(cs), " AND "));
    }
  }

  /** Python truthiness of an optional int or string argument. */
  predicate Given(n: Option<int>)
  {
    n.Some? && n.value != 0
  }

  /** The column the engine sorts by: `ORDER BY` is written only for a
      non-empty `order_by`. */
  function PageOrder(orderBy: Option<string>): (o: Option<string>)
    ensures o.Some? <==> orderBy.Some? && orderBy.value != ""
  {
    if orderBy.Some? && orderBy.value != "" then orderBy else None
  }

  /** The limit the engine applies: `LIMIT` is written only for a truthy limit. */
  function PageLimit(limit: Option<int>): (l: Option<int>)
    ensures l.Some? <==> Given(limit)
  {
    if Given(limit) then limit else None
  }

  /** `OFFSET` is written only inside the `LIMIT` branch, for a truthy offset. */
  function PageOffset(limit: Option<int>, offset: Option<int>): (o: Option<int>)
    ensures o.Some? <==> Given(limit) && Given(offset)
  {
    if Given(limit) && Given(offset) then offset else None
  }

  /** The `ORDER BY`, `LIMIT` and `OFFSET` tail of `find`'s query. */
  function TailSql(orderBy: Option<string>, limit: Option<int>, offset: Option<int>): (s: string)
    ensures '?' !in s || (orderBy.Some? && '?' in orderBy.value)
  {
    (if orderBy.Some? && orderBy.value != "" then " ORDER BY " + orderBy.value else "") +
    (if Given(limit) then " LIMIT " + Decimal(limit.value) + (if Given(offset) then " OFFSET " + Decimal(offset.value) else "") else "")
  }

  /** The statement `find` sends. */
  function FindStatement(table: string, conds: Record, orderBy: Option<string>, limit: Option<int>, offset: Option<int>): (st: Statement)
    ensures st.params == ParamsOf(FindConds(conds))
    ensures st.effect == ReadWhere(table, FindConds(conds), PageOrder(orderBy), PageLimit(limit), PageOffset(limit, offset))
  {
    var cs := FindConds(conds);
    Statement("SELECT * FROM " + table + WhereSql(cs) + TailSql(orderBy, limit, offset),
              ParamsOf(cs), ReadWhere(table, cs, PageOrder(orderBy), PageLimit(limit), PageOffset(limit, offset)))
  }

  /** `find`'s query has exactly as many `?` marks as parameters. */
  lemma FindPlaceholders(table: string, conds: Record, orderBy: Option<string>, limit: Option<int>, offset: Option<int>)
    requires '?' !in table && PlainKeys(conds)
    requires orderBy.Some? ==> '?' !in orderBy.value
    ensures Occurrences('?', FindStatement(table, conds, orderBy, limit, offset).sql) ==
            |FindStatement(table, conds, orderBy, limit, offset).params|
  {
    var cs := FindConds(conds);
    WhereMarks(cs);
    var head := "SELECT * FROM " + table;
    var tail := TailSql(orderBy, limit, offset);
    OccurrencesAbsent('?', head);
    OccurrencesAbsent('?', tail);
    OccurrencesAppend('?', head, WhereSql(cs));
    OccurrencesAppend('?', head + WhereSql(cs), tail);
  }

  /** The statement `count` sends. */
  function CountStatement(table: string, conds: Record): (st: Statement)
    ensures st.params == ParamsOf(CountConds(conds))
    ensures st.effect == CountWhere(table, CountConds(conds))
  {
    var cs := CountConds(conds);
    Statement("SELECT COUNT(*) as cnt FROM " + table + WhereSql(cs), ParamsOf(cs), CountWhere(table, cs))
  }

  /** `count`'s query has exactly as many `?` marks as parameters. */
  lemma CountPlaceholders(table: string, conds: Record)
    requires '?' !in table && PlainKeys(conds)
    ensures Occurrences('?', CountStatement(table, conds).sql) == |CountStatement(table, conds).params|
  {
    var cs := CountConds(conds);
    WhereMarks(cs);
    var head := "SELECT COUNT(*) as cnt FROM " + table;
    OccurrencesAbsent('?', head);
    OccurrencesAppend('?', head, WhereSql(cs));
  }
}
