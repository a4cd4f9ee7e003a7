/** Small generic helpers shared by every other module: the Option and Result
    wrappers, the string operations Python's str provides (join, split,
    zero-padded decimal digits) and the ascending listing of a set of ints
    that an `ORDER BY` over an integer key produces. */
module Util {

  datatype Option<+T> = None | Some(value: T)

  datatype Result<+T, +E> = Ok(value: T) | Err(error: E)

  /** Python's `sep.join(parts)`. */
  function Join(parts: seq<string>, sep: string): string
  {
    if |parts| == 0 then ""
    else if |parts| == 1 then parts[0]
    else parts[0] + sep + Join(parts[1..], sep)
  }

  /** `n` copies of `s`, as the list comprehension `['?' for _ in xs]` builds. */
  function Repeat(s: string, n: nat): (r: seq<string>)
    ensures |r| == n && forall i :: 0 <= i < n ==> r[i] == s
  {
    if n == 0 then [] else [s] + Repeat(s, n - 1)
  }

  /** Number of occurrences of `c` in `s`. */
  function Occurrences(c: char, s: string): nat
  {
    if |s| == 0 then 0 else (if s[0] == c then 1 else 0) + Occurrences(c, s[1..])
  }

  lemma {:induction false} OccurrencesAppend(c: char, a: string, b: string)
    ensures Occurrences(c, a + b) == Occurrences(c, a) + Occurrences(c, b)
  {
    if |a| == 0 {
      assert a + b == b;
    } else {
      assert (a + b)[1..] == a[1..] + b;
      OccurrencesAppend(c, a[1..], b);
    }
  }

  lemma {:induction false} OccurrencesAbsent(c: char, s: string)
    requires c !in s
    ensures Occurrences(c, s) == 0
  {
    if |s| > 0 {
      assert c !in s[1..];
      OccurrencesAbsent(c, s[1..]);
    }
  }

  /** Sum of the occurrences of `c` over every part. */
  function OccurrencesIn(c: char, parts: seq<string>): nat
  {
    if |parts| == 0 then 0 else Occurrences(c, parts[0]) + OccurrencesIn(c, parts[1..])
  }

  lemma {:induction false} OccurrencesInAppend(c: char, a: seq<string>, b: seq<string>)
    ensures OccurrencesIn(c, a + b) == OccurrencesIn(c, a) + OccurrencesIn(c, b)
  {
    if |a| == 0 {
      assert a + b == b;
    } else {
      assert (a + b)[1..] == a[1..] + b;
      OccurrencesInAppend(c, a[1..], b);
    }
  }

  /** Joining with a separator that does not contain `c` adds no occurrence of `c`. */
  lemma {:induction false} OccurrencesJoin(c: char, parts: seq<string>, sep: string)
    requires c !in sep
    ensures Occurrences(c, Join(parts, sep)) == OccurrencesIn(c, parts)
  {
    if |parts| == 1 {
      assert parts[1..] == [];
    } else if |parts| > 1 {
      OccurrencesJoin(c, parts[1..], sep);
      OccurrencesAbsent(c, sep);
      OccurrencesAppend(c, parts[0], sep);
      OccurrencesAppend(c, parts[0] + sep, Join(parts[1..], sep));
    }
  }

  /** `sep.join(['?' for _ in range(n)])` holds exactly `n` question marks. */
  lemma {:induction false} PlaceholderCount(n: nat, sep: string)
    requires '?' !in sep
    ensures Occurrences('?', Join(Repeat("?", n), sep)) == n
  {
    OccurrencesJoin('?', Repeat("?", n), sep);
    RepeatedMarks(n);
  }

  lemma {:induction false} RepeatedMarks(n: nat)
    ensures OccurrencesIn('?', Repeat("?", n)) == n
  {
    if n > 0 {
      assert Repeat("?", n)[1..] == Repeat("?", n - 1);
      RepeatedMarks(n - 1);
    }
  }

  /** Python's `s.split(d)` for a one-character separator: the pieces
      between the separators. */
  function Split(s: string, d: char): (parts: seq<string>)
    ensures |parts| > 0
  {
    if |s| == 0 then [""]
    else
      var rest := Split(s[1..], d);
      if s[0] == d then [""] + rest else [[s[0]] + rest[0]] + rest[1..]
  }

  /** Splitting cuts at every separator and nowhere else: there is one
      piece more than separators, no piece holds one, and joining the
      pieces back with `d` gives `s` again. */
  lemma {:induction false} SplitJoin(s: string, d: char)
    ensures |Split(s, d)| == Occurrences(d, s) + 1
    ensures forall i :: 0 <= i < |Split(s, d)| ==> d !in Split(s, d)[i]
    ensures Join(Split(s, d), [d]) == s
  {
    if |s| > 0 {
      var rest := Split(s[1..], d);
      SplitJoin(s[1..], d);
      var parts := Split(s, d);
      if s[0] == d {
        assert parts[1..] == rest;
        assert [s[0]] + Join(rest, [d]) == s;
      } else {
        assert parts == [[s[0]] + rest[0]] + rest[1..];
        assert d !in parts[0];
        if |rest| == 1 {
          assert Join(rest, [d]) == rest[0];
        } else {
          assert Join(rest, [d]) == rest[0] + [d] + Join(rest[1..], [d]);
          assert parts[1..] == rest[1..];
        }
      }
    }
  }

  /** The decimal digit for `d < 10`. */
  function Digit(d: nat): char
    requires d < 10
  {
    "0123456789"[d]
  }

  function DigitValue(c: char): nat
  {
    if '0' <= c <= '9' then (c as int - '0' as int) as nat else 0
  }

  function Pow10(w: nat): (p: nat)
    ensures p >= 1
  {
    if w == 0 then 1 else 10 * Pow10(w - 1)
  }

  /** The last `w` decimal digits of `n`, zero-padded on the left: what a
      `%0wd` conversion (or strftime's `%Y`, `%m`, ...) prints for `n < 10^w`. */
  function Digits(n: nat, w: nat): (s: string)
    ensures |s| == w
    ensures forall i :: 0 <= i < w ==> '0' <= s[i] <= '9'
  {
    if w == 0 then "" else Digits(n / 10, w - 1) + [Digit(n % 10)]
  }

  /** The number a string of decimal digits denotes. */
  function DigitsValue(s: string): nat
  {
    if |s| == 0 then 0 else 10 * DigitsValue(s[..|s| - 1]) + DigitValue(s[|s| - 1])
  }

  /** Zero-padded printing is undone by reading the digits back. */
  lemma {:induction false} DigitsRoundTrip(n: nat, w: nat)
    requires n < Pow10(w)
    ensures DigitsValue(Digits(n, w)) == n
  {
    if w > 0 {
      var s := Digits(n, w);
      assert s[..|s| - 1] == Digits(n / 10, w - 1);
      assert s[|s| - 1] == Digit(n % 10);
      assert DigitValue(Digit(n % 10)) == n % 10;
      DigitsRoundTrip(n / 10, w - 1);
    }
  }

  /** Python's `str(n)` for an int. */
  function Decimal(n: int): (s: string)
    ensures |s| > 0 && '?' !in s
    decreases if n < 0 then 1 - n else n
  {
    if n < 0 then "-" + Decimal(-n)
    else if n < 10 then [Digit(n)]
    else Decimal(n / 10) + [Digit(n % 10)]
  }

  /** A keyed collection held in ascending key order, as SQLite keeps a
      table in rowid order or a unique index in key order. */
  type Keyed<T> = seq<(int, T)>

  predicate Ordered<T>(t: Keyed<T>)
  {
    forall i, j :: 0 <= i < j < |t| ==> t[i].0 < t[j].0
  }

  /** The keys, in stored order. */
  function KeysIn<T>(t: Keyed<T>): (ks: seq<int>)
    ensures |ks| == |t| && forall i :: 0 <= i < |t| ==> ks[i] == t[i].0
  {
    if |t| == 0 then [] else [t[0].0] + KeysIn(t[1..])
  }

  /** The entries, in stored order. */
  function EntriesIn<T>(t: Keyed<T>): (vs: seq<T>)
    ensures |vs| == |t| && forall i :: 0 <= i < |t| ==> vs[i] == t[i].1
  {
    if |t| == 0 then [] else [t[0].1] + EntriesIn(t[1..])
  }

  function Lookup<T>(t: Keyed<T>, k: int): (r: Option<T>)
    ensures r.Some? <==> k in KeysIn(t)
  {
    if |t| == 0 then None
    else if t[0].0 == k then Some(t[0].1)
    else Lookup(t[1..], k)
  }

  /** A key that is found is stored with the value found. */
  lemma {:induction false} LookupFound<T>(t: Keyed<T>, k: int)
    requires Lookup(t, k).Some?
    ensures (k, Lookup(t, k).value) in t
  {
    if t[0].0 != k {
      LookupFound(t[1..], k);
    }
  }

  /** Stores `v` under `k`: in place of the entry under `k` if there is one,
      otherwise at the position that keeps the keys ascending. */
  function Insert<T>(t: Keyed<T>, k: int, v: T): Keyed<T>
  {
    if |t| == 0 then [(k, v)]
    else if k < t[0].0 then [(k, v)] + t
    else if k == t[0].0 then [(k, v)] + t[1..]
    else [t[0]] + Insert(t[1..], k, v)
  }

  /** After Insert, the key holds the new value. */
  lemma {:induction false} InsertFound<T>(t: Keyed<T>, k: int, v: T)
    ensures Lookup(Insert(t, k, v), k) == Some(v)
  {
    if |t| > 0 && k > t[0].0 {
      InsertFound(t[1..], k, v);
    }
  }

  /** Insert leaves every other key as it was. */
  lemma {:induction false} InsertOther<T>(t: Keyed<T>, k: int, v: T, k': int)
    requires k' != k
    ensures Lookup(Insert(t, k, v), k') == Lookup(t, k')
  {
    if |t| > 0 && k > t[0].0 {
      InsertOther(t[1..], k, v, k');
    }
  }

  /** Every key of `t` is above `lo`. */
  predicate Above<T>(t: Keyed<T>, lo: int)
  {
    forall j :: 0 <= j < |t| ==> lo < t[j].0
  }

  lemma {:induction false} InsertAbove<T>(t: Keyed<T>, k: int, v: T, lo: int)
    requires Above(t, lo) && lo < k
    ensures Above(Insert(t, k, v), lo)
  {
    if |t| > 0 && k > t[0].0 {
      InsertAbove(t[1..], k, v, lo);
    }
  }

  lemma {:induction false} InsertOrdered<T>(t: Keyed<T>, k: int, v: T)
    requires Ordered(t)
    ensures Ordered(Insert(t, k, v))
  {
    if |t| > 0 && k > t[0].0 {
      OrderedTail(t);
      assert Above(t[1..], t[0].0) by {
        forall j | 0 <= j < |t| - 1 ensures t[0].0 < t[1..][j].0 {
          assert t[1..][j] == t[j + 1];
        }
      }
      InsertOrdered(t[1..], k, v);
      InsertAbove(t[1..], k, v, t[0].0);
      var r := Insert(t[1..], k, v);
      assert Insert(t, k, v) == [t[0]] + r;
      forall i, j | 0 <= i < j < |r| + 1 ensures ([t[0]] + r)[i].0 < ([t[0]] + r)[j].0 {
        assert ([t[0]] + r)[j] == r[j - 1];
        if i > 0 {
          assert ([t[0]] + r)[i] == r[i - 1];
        }
      }
    }
  }

  /** Drops every entry under `k`. */
  function Remove<T>(t: Keyed<T>, k: int): Keyed<T>
  {
    if |t| == 0 then []
    else if t[0].0 == k then Remove(t[1..], k)
    else [t[0]] + Remove(t[1..], k)
  }

  /** After Remove, the key holds nothing. */
  lemma {:induction false} RemoveGone<T>(t: Keyed<T>, k: int)
    ensures Lookup(Remove(t, k), k) == None
  {
    if |t| > 0 {
      RemoveGone(t[1..], k);
    }
  }

  /** Remove leaves every other key as it was. */
  lemma {:induction false} RemoveOther<T>(t: Keyed<T>, k: int, k': int)
    requires k' != k
    ensures Lookup(Remove(t, k), k') == Lookup(t, k')
  {
    if |t| > 0 {
      RemoveOther(t[1..], k, k');
    }
  }

  lemma {:induction false} RemoveAbove<T>(t: Keyed<T>, k: int, lo: int)
    requires Above(t, lo)
    ensures Above(Remove(t, k), lo)
  {
    if |t| > 0 {
      RemoveAbove(t[1..], k, lo);
    }
  }

  lemma {:induction false} RemoveOrdered<T>(t: Keyed<T>, k: int)
    requires Ordered(t)
    ensures Ordered(Remove(t, k))
  {
    if |t| > 0 {
      RemoveOrdered(t[1..], k);
      RemoveAbove(t[1..], k, t[0].0);
    }
  }

  /** Insert adds the one entry and keeps all others. */
  lemma {:induction false} InsertEntries<T>(t: Keyed<T>, k: int, v: T)
    ensures forall e :: e in Insert(t, k, v) ==> e == (k, v) || e in t
  {
    if |t| > 0 && k > t[0].0 {
      InsertEntries(t[1..], k, v);
    }
  }

  /** A key above every stored key goes at the end. */
  lemma {:induction false} InsertLast<T>(t: Keyed<T>, k: int, v: T)
    requires forall i :: 0 <= i < |t| ==> t[i].0 < k
    ensures Insert(t, k, v) == t + [(k, v)]
  {
    if |t| > 0 {
      forall i | 0 <= i < |t| - 1 ensures t[1..][i].0 < k {
        assert t[1..][i] == t[i + 1];
      }
      InsertLast(t[1..], k, v);
      assert t == [t[0]] + t[1..];
    }
  }

  /** Remove keeps only entries that were there. */
  lemma {:induction false} RemoveEntries<T>(t: Keyed<T>, k: int)
    ensures forall e :: e in Remove(t, k) ==> e in t
  {
    if |t| > 0 {
      RemoveEntries(t[1..], k);
    }
  }
  /** Dropping the first entry keeps the order. */
  lemma OrderedTail<T>(t: Keyed<T>)
    requires Ordered(t) && |t| > 0
    ensures Ordered(t[1..])
  {
    forall i, j | 0 <= i < j < |t| - 1 ensures t[1..][i].0 < t[1..][j].0 {
      assert t[1..][i] == t[i + 1] && t[1..][j] == t[j + 1];
    }
  }
}
