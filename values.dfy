/** Values as the database layer passes them around: a column value or a
    search-condition value, a row or a field mapping (a Python dict, kept as
    an ordered list of pairs so that insertion order, which fixes column
    order in the generated SQL, is part of the model), and the errors the
    layer raises or re-raises. */
module Values {
  import opened Util

  datatype Value =
    | Null                     // None in Python, NULL in SQL
    | Int(i: int)              // int; False and True are Int(0) and Int(1)
    | Text(s: string)          // str
    | Stamp(t: int)            // a reading of datetime.now(), as an abstract clock value
    | List(items: seq<Value>)  // a list or tuple: meaningful only as an `IN` condition

  type Field = (string, Value)

  /** A dict from column name to value, in insertion order. */
  type Record = seq<Field>

  datatype Error =
    | Rejected          // the SQL engine refused the statement (constraint, schema, syntax)
    | Unbindable        // a parameter of a type the driver cannot bind (a list)
    | NotUnique         // a UNIQUE or PRIMARY KEY constraint failed
    | TypeMismatch      // a non-integer value given for the integer primary key
    | NestedBegin       // BEGIN while a transaction is already open
    | NoTransaction     // COMMIT or ROLLBACK with no transaction open
    | NoSuchTable       // the migrations ledger was queried before it was created
    | FileNotFound      // restore from a backup path that does not exist
    | NoneHasNoClose    // `.close()` called on a connection slot holding None
    | SameFile          // restore asked to copy the live file onto itself
    | EmptyTableName    // a model declared without a table name
    | MalformedHash     // a user row whose password_hash is missing or not a string

  type Outcome<T> = Result<T, Error>

  /** Python truthiness of a value. */
  predicate Truthy(v: Value)
  {
    match v
    case Null => false
    case Int(i) => i != 0
    case Text(s) => s != ""
    case Stamp(_) => true
    case List(items) => items != []
  }

  function KeysOf(r: Record): (keys: seq<string>)
    ensures |keys| == |r| && forall i :: 0 <= i < |r| ==> keys[i] == r[i].0
  {
    if |r| == 0 then [] else [r[0].0] + KeysOf(r[1..])
  }

  /** `tuple(d.values())`. */
  function ValuesOf(r: Record): (vals: seq<Value>)
    ensures |vals| == |r| && forall i :: 0 <= i < |r| ==> vals[i] == r[i].1
  {
    if |r| == 0 then [] else [r[0].1] + ValuesOf(r[1..])
  }

  /** `k in d`. */
  predicate Has(r: Record, k: string)
  {
    k in KeysOf(r)
  }

  /** `d.get(k)`: the value stored under `k`, if any. */
  function Get(r: Record, k: string): (v: Option<Value>)
    ensures v.Some? <==> Has(r, k)
    ensures v.Some? ==> (k, v.value) in r
  {
    if |r| == 0 then None
    else if r[0].0 == k then Some(r[0].1)
    else Get(r[1..], k)
  }

  /** `d.get(k, default)`. */
  function GetOr(r: Record, k: string, default: Value): Value
  {
    match Get(r, k)
    case Some(v) => v
    case None => default
  }

  /** In `a + b`, a key of `a` is found in `a` first, as `sqlite3.Row`
      answers a repeated column name with its first column. */
  lemma {:induction false} GetConcat(a: Record, b: Record, k: string)
    ensures Get(a + b, k) == if Has(a, k) then Get(a, k) else Get(b, k)
  {
    if |a| == 0 {
      assert a + b == b;
    } else {
      assert (a + b)[1..] == a[1..] + b;
      assert KeysOf(a) == [a[0].0] + KeysOf(a[1..]);
      GetConcat(a[1..], b, k);
    }
  }

  /** A column of a row as SQL sees it: a column the row does not hold reads
      as NULL. */
  function Column(r: Record, c: string): (v: Value)
    ensures Has(r, c) ==> Some(v) == Get(r, c)
    ensures !Has(r, c) ==> v == Null
  {
    GetOr(r, c, Null)
  }

  /** No key occurs twice, as in every Python dict. */
  predicate IsDict(r: Record)
  {
    forall i, j :: 0 <= i < j < |r| ==> r[i].0 != r[j].0
  }

  /** `d[k] = v`: an existing key keeps its position and takes the new value;
      a new key is appended at the end. */
  function Put(r: Record, k: string, v: Value): Record
  {
    if |r| == 0 then [(k, v)]
    else if r[0].0 == k then [(k, v)] + r[1..]
    else [r[0]] + Put(r[1..], k, v)
  }

  /** After assigning, the key holds the new value. */
  lemma {:induction false} PutFound(r: Record, k: string, v: Value)
    ensures Get(Put(r, k, v), k) == Some(v)
  {
    if |r| > 0 && r[0].0 != k {
      PutFound(r[1..], k, v);
    }
  }

  /** Assigning leaves every other key as it was. */
  lemma {:induction false} PutOther(r: Record, k: string, v: Value, k': string)
    requires k' != k
    ensures Get(Put(r, k, v), k') == Get(r, k')
  {
    if |r| > 0 && r[0].0 != k {
      PutOther(r[1..], k, v, k');
    }
  }

  /** What any key reads after assigning one. */
  lemma PutGet(r: Record, k: string, v: Value, k': string)
    ensures Get(Put(r, k, v), k') == if k' == k then Some(v) else Get(r, k')
  {
    if k' == k {
      PutFound(r, k, v);
    } else {
      PutOther(r, k, v, k');
    }
  }

  /** Assigning keeps the column order: a known key stays where it is, a new
      one goes last. */
  lemma {:induction false} PutKeys(r: Record, k: string, v: Value)
    ensures KeysOf(Put(r, k, v)) == if Has(r, k) then KeysOf(r) else KeysOf(r) + [k]
  {
    if |r| > 0 {
      var p := Put(r, k, v);
      assert KeysOf(r) == [r[0].0] + KeysOf(r[1..]);
      if r[0].0 == k {
        assert p[1..] == r[1..];
        assert Has(r, k);
        assert KeysOf(p) == KeysOf(r);
      } else {
        PutKeys(r[1..], k, v);
        assert p == [r[0]] + Put(r[1..], k, v);
        assert KeysOf(p) == [r[0].0] + KeysOf(Put(r[1..], k, v));
        if Has(r[1..], k) {
          assert Has(r, k);
        } else {
          assert !Has(r, k);
          assert KeysOf(p) == KeysOf(r) + [k];
        }
      }
    }
  }

  lemma PutIsDict(r: Record, k: string, v: Value)
    requires IsDict(r)
    ensures IsDict(Put(r, k, v))
  {
    PutKeys(r, k, v);
    var r' := Put(r, k, v);
    forall i, j | 0 <= i < j < |r'| ensures r'[i].0 != r'[j].0 {
      assert KeysOf(r')[i] == r'[i].0 && KeysOf(r')[j] == r'[j].0;
      if !Has(r, k) && j == |r| {
        assert KeysOf(r)[i] == r[i].0;
      }
    }
  }

  /** `d.update(other)`: every pair of `other`, in order, assigned into `d`. */
  function PutAll(r: Record, other: Record): (r': Record)
    ensures IsDict(other) ==>
      forall k :: Get(r', k) == if Has(other, k) then Get(other, k) else Get(r, k)
    decreases |other|
  {
    if |other| == 0 then r
    else
      var r' := PutAll(Put(r, other[0].0, other[0].1), other[1..]);
      assert KeysOf(other) == [other[0].0] + KeysOf(other[1..]);
      assert IsDict(other) ==> IsDict(other[1..]);
      assert IsDict(other) ==> other[0].0 !in KeysOf(other[1..]);
      PutFound(r, other[0].0, other[0].1);
      assert forall k :: k != other[0].0 ==> Get(Put(r, other[0].0, other[0].1), k) == Get(r, k) by {
        forall k | k != other[0].0 ensures Get(Put(r, other[0].0, other[0].1), k) == Get(r, k) {
          PutOther(r, other[0].0, other[0].1, k);
        }
      }
      r'
  }
}
