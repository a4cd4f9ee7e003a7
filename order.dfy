/** The order SQLite's `ORDER BY` puts column values in, and a sort of rows
    by one column under that order. */
module Order {
  import opened Values

  /** Storage class rank: NULL first, then numbers, then text. */
  function Rank(v: Value): nat
  {
    match v
    case Null => 0
    case Int(_) => 1
    case Stamp(_) => 2
    case Text(_) => 3
    case List(_) => 4
  }

  /** BINARY collation: strings compared code point by code point, a proper
      prefix first. */
  predicate TextLe(a: string, b: string)
  {
    |a| == 0 || (|b| > 0 && (a[0] < b[0] || (a[0] == b[0] && TextLe(a[1..], b[1..]))))
  }

  lemma {:induction false} TextLeTotal(a: string, b: string)
    ensures TextLe(a, b) || TextLe(b, a)
  {
    if |a| > 0 && |b| > 0 && a[0] == b[0] {
      TextLeTotal(a[1..], b[1..]);
    }
  }

  lemma {:induction false} TextLeTransitive(a: string, b: string, c: string)
    requires TextLe(a, b) && TextLe(b, c)
    ensures TextLe(a, c)
  {
    if |a| > 0 && a[0] == b[0] && b[0] == c[0] {
      TextLeTransitive(a[1..], b[1..], c[1..]);
    }
  }

  /** `a` may come before `b` in ascending order. */
  predicate ValueLe(a: Value, b: Value)
  {
    if Rank(a) != Rank(b) then Rank(a) < Rank(b)
    else match (a, b)
      case (Int(x), Int(y)) => x <= y
      case (Stamp(x), Stamp(y)) => x <= y
      case (Text(x), Text(y)) => TextLe(x, y)
      case _ => true
  }

  lemma ValueLeTotal(a: Value, b: Value)
    ensures ValueLe(a, b) || ValueLe(b, a)
  {
    if a.Text? && b.Text? {
      TextLeTotal(a.s, b.s);
    }
  }

  lemma ValueLeTransitive(a: Value, b: Value, c: Value)
    requires ValueLe(a, b) && ValueLe(b, c)
    ensures ValueLe(a, c)
  {
    if a.Text? && b.Text? && c.Text? {
      TextLeTransitive(a.s, b.s, c.s);
    }
  }

  /** Rows in ascending order of column `col`. */
  predicate SortedBy(rows: seq<Record>, col: string)
  {
    forall i, j :: 0 <= i < j < |rows| ==> ValueLe(Column(rows[i], col), Column(rows[j], col))
  }

  /** Every row of `rows` sorts at or after `lo`. */
  predicate AllAtLeast(rows: seq<Record>, col: string, lo: Value)
  {
    forall i :: 0 <= i < |rows| ==> ValueLe(lo, Column(rows[i], col))
  }

  /** Places `x` before the first row it may precede. */
  function InsertByColumn(x: Record, rows: seq<Record>, col: string): seq<Record>
  {
    if |rows| == 0 then [x]
    else if ValueLe(Column(x, col), Column(rows[0], col)) then [x] + rows
    else [rows[0]] + InsertByColumn(x, rows[1..], col)
  }

  /** Inserting adds `x` and loses nothing. */
  lemma {:induction false} InsertByColumnPerm(x: Record, rows: seq<Record>, col: string)
    ensures multiset(InsertByColumn(x, rows, col)) == multiset(rows) + multiset{x}
  {
    if |rows| > 0 {
      assert rows == [rows[0]] + rows[1..];
      if !ValueLe(Column(x, col), Column(rows[0], col)) {
        InsertByColumnPerm(x, rows[1..], col);
      }
    }
  }

  lemma {:induction false} InsertByColumnAtLeast(x: Record, rows: seq<Record>, col: string, lo: Value)
    requires AllAtLeast(rows, col, lo) && ValueLe(lo, Column(x, col))
    ensures AllAtLeast(InsertByColumn(x, rows, col), col, lo)
  {
    var r := InsertByColumn(x, rows, col);
    if |rows| == 0 {
      assert r == [x];
    } else if ValueLe(Column(x, col), Column(rows[0], col)) {
      assert r == [x] + rows;
      forall i | 0 <= i < |r| ensures ValueLe(lo, Column(r[i], col)) {
        if i > 0 {
          assert r[i] == rows[i - 1];
        }
      }
    } else {
      var tail := InsertByColumn(x, rows[1..], col);
      InsertByColumnAtLeast(x, rows[1..], col, lo);
      assert r == [rows[0]] + tail;
      forall i | 0 <= i < |r| ensures ValueLe(lo, Column(r[i], col)) {
        if i > 0 {
          assert r[i] == tail[i - 1];
        }
      }
    }
  }

  lemma {:induction false} InsertByColumnSorted(x: Record, rows: seq<Record>, col: string)
    requires SortedBy(rows, col)
    ensures SortedBy(InsertByColumn(x, rows, col), col)
  {
    var kx := Column(x, col);
    if |rows| == 0 {
    } else if ValueLe(kx, Column(rows[0], col)) {
      forall j | 0 <= j < |rows| ensures ValueLe(kx, Column(rows[j], col)) {
        if j > 0 {
          ValueLeTransitive(kx, Column(rows[0], col), Column(rows[j], col));
        }
      }
    } else {
      var k0 := Column(rows[0], col);
      ValueLeTotal(kx, k0);
      InsertByColumnSorted(x, rows[1..], col);
      InsertByColumnAtLeast(x, rows[1..], col, k0);
    }
  }

  /** `ORDER BY col` (ascending), as an insertion sort. */
  function SortByColumn(rows: seq<Record>, col: string): seq<Record>
  {
    if |rows| == 0 then []
    else InsertByColumn(rows[0], SortByColumn(rows[1..], col), col)
  }

  /** The sort is a permutation of its input. */
  lemma {:induction false} SortByColumnPerm(rows: seq<Record>, col: string)
    ensures multiset(SortByColumn(rows, col)) == multiset(rows)
  {
    if |rows| > 0 {
      assert rows == [rows[0]] + rows[1..];
      SortByColumnPerm(rows[1..], col);
      InsertByColumnPerm(rows[0], SortByColumn(rows[1..], col), col);
    }
  }

  /** The sort puts the rows in ascending order of the column. */
  lemma {:induction false} SortByColumnSorted(rows: seq<Record>, col: string)
    ensures SortedBy(SortByColumn(rows, col), col)
  {
    if |rows| > 0 {
      SortByColumnSorted(rows[1..], col);
      InsertByColumnSorted(rows[0], SortByColumn(rows[1..], col), col);
    }
  }
}
