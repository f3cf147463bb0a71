/**
 * Generic operations on a table held as a sequence of rows, each row carrying an
 * integer key given by a column accessor. They stand for the single SQL
 * statements Room generates: lookup by key, `UPDATE .. WHERE key = ..`,
 * `DELETE .. WHERE key = ..`, `ORDER BY key DESC` and `SUM(column)`.
 */
module Tables {
  import opened Wrappers

  /** No two rows of `t` share a key. */
  ghost predicate UniqueKeys<T>(t: seq<T>, key: T -> int) {
    forall i, j :: 0 <= i < j < |t| ==> key(t[i]) != key(t[j])
  }

  /** The keys present in `t`. */
  function Keys<T(==)>(t: seq<T>, key: T -> int): set<int> {
    set x | x in t :: key(x)
  }

  /** Rows are in non-increasing key order (`ORDER BY key DESC`). */
  ghost predicate SortedDesc<T>(t: seq<T>, key: T -> int) {
    forall i, j :: 0 <= i < j < |t| ==> key(t[i]) >= key(t[j])
  }

  lemma {:induction false} UniqueTail<T>(t: seq<T>, key: T -> int)
    requires t != [] && UniqueKeys(t, key)
    ensures UniqueKeys(t[1..], key) && key(t[0]) !in Keys(t[1..], key)
  {
    forall x | x in t[1..] ensures key(x) != key(t[0]) {
      var j :| 0 <= j < |t[1..]| && t[1..][j] == x;
      assert x == t[j + 1];
    }
    forall i, j | 0 <= i < j < |t[1..]| ensures key(t[1..][i]) != key(t[1..][j]) {
      assert t[1..][i] == t[i + 1] && t[1..][j] == t[j + 1];
    }
  }

  lemma {:induction false} UniqueCons<T>(x: T, t: seq<T>, key: T -> int)
    requires UniqueKeys(t, key) && key(x) !in Keys(t, key)
    ensures UniqueKeys([x] + t, key)
  {
    var s := [x] + t;
    forall i, j | 0 <= i < j < |s| ensures key(s[i]) != key(s[j]) {
      if i == 0 {
        assert s[j] in t;
      } else {
        assert s[i] == t[i - 1] && s[j] == t[j - 1];
      }
    }
  }

  lemma KeysAppend<T>(t: seq<T>, x: T, key: T -> int)
    ensures Keys(t + [x], key) == Keys(t, key) + {key(x)}
  {
    assert forall y :: y in t + [x] ==> y in t || y == x;
    assert forall y :: y in t ==> y in t + [x];
    assert x in t + [x];
  }

  /** Appending a row with a new key keeps keys unique and adds that key. */
  lemma UniqueSnoc<T>(t: seq<T>, x: T, key: T -> int)
    requires UniqueKeys(t, key) && key(x) !in Keys(t, key)
    ensures UniqueKeys(t + [x], key)
    ensures Keys(t + [x], key) == Keys(t, key) + {key(x)}
  {
    KeysAppend(t, x, key);
    var s := t + [x];
    forall i, j | 0 <= i < j < |s| ensures key(s[i]) != key(s[j]) {
      assert s[i] == t[i];
      if j == |t| {
        assert s[i] in t;
      } else {
        assert s[j] == t[j];
      }
    }
  }

  /**
   * `SELECT * FROM t WHERE key = k` for a single-row result: the first row with
   * that key, or absent. With unique keys it is the only such row.
   */
  function Find<T(==)>(t: seq<T>, key: T -> int, k: int): (r: Option<T>)
    ensures r.Some? <==> k in Keys(t, key)
    ensures r.Some? ==> r.value in t && key(r.value) == k
    ensures UniqueKeys(t, key) ==> forall x :: x in t && key(x) == k ==> r == Some(x)
  {
    if t == [] then None
    else if key(t[0]) == k then
      assert UniqueKeys(t, key) ==> forall x :: x in t[1..] ==> key(x) != k by {
        if UniqueKeys(t, key) { UniqueTail(t, key); }
      }
      Some(t[0])
    else
      assert UniqueKeys(t, key) ==> UniqueKeys(t[1..], key) by {
        if UniqueKeys(t, key) { UniqueTail(t, key); }
      }
      assert forall x :: x in t ==> x == t[0] || x in t[1..];
      Find(t[1..], key, k)
  }

  /**
   * `UPDATE t SET <all columns of row> WHERE key = key(row)`: every row with the
   * key of `row` is replaced by `row`; without such a row the table is unchanged.
   */
  function Replace<T>(t: seq<T>, key: T -> int, row: T): (r: seq<T>)
    ensures |r| == |t|
    ensures forall i :: 0 <= i < |t| && key(t[i]) != key(row) ==> r[i] == t[i]
    ensures forall i :: 0 <= i < |t| && key(t[i]) == key(row) ==> r[i] == row
  {
    if |t| == 0 then []
    else
      var head := if key(t[0]) == key(row) then row else t[0];
      [head] + Replace(t[1..], key, row)
  }

  /** Rows that keep their keys position by position keep the key set and its uniqueness. */
  lemma SameKeys<T>(t: seq<T>, r: seq<T>, key: T -> int)
    requires |r| == |t| && forall i :: 0 <= i < |t| ==> key(r[i]) == key(t[i])
    ensures Keys(r, key) == Keys(t, key)
    ensures UniqueKeys(t, key) ==> UniqueKeys(r, key)
  {
    forall k | k in Keys(r, key) ensures k in Keys(t, key) {
      var x :| x in r && key(x) == k;
      var i :| 0 <= i < |r| && r[i] == x;
      assert t[i] in t;
    }
    forall k | k in Keys(t, key) ensures k in Keys(r, key) {
      var x :| x in t && key(x) == k;
      var i :| 0 <= i < |t| && t[i] == x;
      assert r[i] in r;
    }
  }

  /**
   * A by-key replacement keeps the key set and the uniqueness of keys, and
   * changes nothing when no row has the key.
   */
  lemma ReplaceKeys<T>(t: seq<T>, key: T -> int, row: T)
    ensures Keys(Replace(t, key, row), key) == Keys(t, key)
    ensures UniqueKeys(t, key) ==> UniqueKeys(Replace(t, key, row), key)
    ensures key(row) !in Keys(t, key) ==> Replace(t, key, row) == t
  {
    var r := Replace(t, key, row);
    SameKeys(t, r, key);
    if key(row) !in Keys(t, key) {
      forall i | 0 <= i < |t| ensures r[i] == t[i] {
        assert t[i] in t;
      }
    }
  }

  /** `DELETE FROM t WHERE key = k`: exactly the rows with that key go, in order. */
  function Remove<T(==)>(t: seq<T>, key: T -> int, k: int): (r: seq<T>)
    ensures forall x :: x in r ==> x in t && key(x) != k
    ensures forall x :: x in t && key(x) != k ==> x in r
    ensures Keys(r, key) == Keys(t, key) - {k}
    ensures |r| <= |t|
    ensures k !in Keys(t, key) ==> r == t
  {
    if t == [] then []
    else
      assert forall x :: x in t ==> x == t[0] || x in t[1..];
      if key(t[0]) == k then Remove(t[1..], key, k) else [t[0]] + Remove(t[1..], key, k)
  }

  /** Removing rows keeps any column that was unique unique. */
  lemma {:induction false} RemoveKeepsUnique<T>(t: seq<T>, key: T -> int, k: int, other: T -> int)
    requires UniqueKeys(t, other)
    ensures UniqueKeys(Remove(t, key, k), other)
  {
    if t != [] {
      UniqueTail(t, other);
      RemoveKeepsUnique(t[1..], key, k, other);
      if key(t[0]) != k {
        UniqueCons(t[0], Remove(t[1..], key, k), other);
      }
    }
  }

  /** Inserting `x` before the first row whose key is not larger than its own. */
  function InsertDesc<T(==)>(x: T, t: seq<T>, key: T -> int): (r: seq<T>)
    ensures multiset(r) == multiset(t) + multiset{x}
    ensures x in r && forall y :: y in t ==> y in r
    ensures forall y :: y in r ==> y == x || y in t
  {
    if |t| == 0 || key(x) >= key(t[0]) then
      [x] + t
    else
      assert t == [t[0]] + t[1..];
      [t[0]] + InsertDesc(x, t[1..], key)
  }

  lemma SortedTail<T>(t: seq<T>, key: T -> int)
    requires |t| > 0 && SortedDesc(t, key)
    ensures SortedDesc(t[1..], key)
    ensures forall y :: y in t[1..] ==> key(t[0]) >= key(y)
  {
    forall i, j | 0 <= i < j < |t[1..]| ensures key(t[1..][i]) >= key(t[1..][j]) {
      assert t[1..][i] == t[i + 1] && t[1..][j] == t[j + 1];
    }
    forall y | y in t[1..] ensures key(t[0]) >= key(y) {
      var j :| 0 <= j < |t[1..]| && t[1..][j] == y;
      assert t[j + 1] == y;
    }
  }

  lemma SortedCons<T>(h: T, t: seq<T>, key: T -> int)
    requires SortedDesc(t, key) && forall y :: y in t ==> key(h) >= key(y)
    ensures SortedDesc([h] + t, key)
  {
    var s := [h] + t;
    forall i, j | 0 <= i < j < |s| ensures key(s[i]) >= key(s[j]) {
      if i == 0 { assert s[j] == t[j - 1]; } else { assert s[i] == t[i - 1] && s[j] == t[j - 1]; }
    }
  }

  lemma {:induction false} InsertDescSorted<T>(x: T, t: seq<T>, key: T -> int)
    requires SortedDesc(t, key)
    ensures SortedDesc(InsertDesc(x, t, key), key)
  {
    if |t| == 0 {
      SortedCons(x, t, key);
    } else if key(x) >= key(t[0]) {
      SortedTail(t, key);
      assert t == [t[0]] + t[1..];
      SortedCons(x, t, key);
    } else {
      SortedTail(t, key);
      InsertDescSorted(x, t[1..], key);
      SortedCons(t[0], InsertDesc(x, t[1..], key), key);
    }
  }

  /**
   * `ORDER BY key DESC` as a stable insertion sort: rows with equal keys keep
   * their relative order (as Kotlin's `sortedByDescending` does).
   */
  function SortDesc<T(==)>(t: seq<T>, key: T -> int): (r: seq<T>)
    ensures multiset(r) == multiset(t) && |r| == |t|
    ensures SortedDesc(r, key)
  {
    if |t| == 0 then []
    else
      assert t == [t[0]] + t[1..];
      InsertDescSorted(t[0], SortDesc(t[1..], key), key);
      InsertDesc(t[0], SortDesc(t[1..], key), key)
  }

  /** Sorting a table that is already in order changes nothing (stability). */
  lemma {:induction false} SortDescOfSorted<T>(t: seq<T>, key: T -> int)
    requires SortedDesc(t, key)
    ensures SortDesc(t, key) == t
  {
    if t != [] {
      var tail := t[1..];
      SortedTail(t, key);
      SortDescOfSorted(tail, key);
      assert SortDesc(t, key) == InsertDesc(t[0], tail, key);
      if |tail| > 0 {
        assert key(t[0]) >= key(tail[0]);
      }
      assert [t[0]] + tail == t;
    }
  }

  /** With unique keys a row occurs at most once. */
  lemma {:induction false} UniqueKeysNoDuplicates<T>(t: seq<T>, key: T -> int, x: T)
    requires UniqueKeys(t, key)
    ensures multiset(t)[x] <= 1
  {
    if t != [] {
      UniqueTail(t, key);
      UniqueKeysNoDuplicates(t[1..], key, x);
      assert t == [t[0]] + t[1..];
      if t[0] == x {
        assert x !in t[1..];
      }
    }
  }

  lemma TwiceCounted<T>(t: seq<T>, i: int, j: int)
    requires 0 <= i < j < |t|
    ensures t[i] == t[j] ==> multiset(t)[t[i]] >= 2
  {
    assert t == t[..i] + [t[i]] + t[i + 1..];
    assert t[j] in t[i + 1..] by { assert t[i + 1..][j - i - 1] == t[j]; }
  }

  /** Unique keys survive any permutation of the rows. */
  lemma UniqueKeysPermutation<T>(s: seq<T>, t: seq<T>, key: T -> int)
    requires multiset(s) == multiset(t) && UniqueKeys(s, key)
    ensures UniqueKeys(t, key)
  {
    forall i, j | 0 <= i < j < |t| ensures key(t[i]) != key(t[j]) {
      TwiceCounted(t, i, j);
      UniqueKeysNoDuplicates(s, key, t[i]);
      assert t[i] != t[j];
      assert t[i] in multiset(s) && t[j] in multiset(s);
      var p :| 0 <= p < |s| && s[p] == t[i];
      var q :| 0 <= q < |s| && s[q] == t[j];
      assert p != q;
    }
  }

  /** With unique keys, `ORDER BY key DESC` yields strictly decreasing keys. */
  lemma SortDescStrict<T>(t: seq<T>, key: T -> int)
    ensures UniqueKeys(t, key) ==> forall i, j :: 0 <= i < j < |SortDesc(t, key)| ==>
              key(SortDesc(t, key)[i]) > key(SortDesc(t, key)[j])
  {
    if UniqueKeys(t, key) {
      UniqueKeysPermutation(t, SortDesc(t, key), key);
    }
  }

  /** `SUM(column)` over the rows, 0 on an empty table (`COALESCE(SUM(..), 0.0)`). */
  function Sum<T>(t: seq<T>, val: T -> real): real {
    if |t| == 0 then 0.0 else val(t[0]) + Sum(t[1..], val)
  }

  lemma {:induction false} SumConcat<T>(s: seq<T>, t: seq<T>, val: T -> real)
    ensures Sum(s + t, val) == Sum(s, val) + Sum(t, val)
  {
    if |s| == 0 {
      assert s + t == t;
    } else {
      assert (s + t)[0] == s[0];
      assert (s + t)[1..] == s[1..] + t;
      SumConcat(s[1..], t, val);
    }
  }

  /** Taking one row out of a sum. */
  lemma {:induction false} SumRemoveAt<T>(t: seq<T>, i: int, val: T -> real)
    requires 0 <= i < |t|
    ensures Sum(t, val) == val(t[i]) + Sum(t[..i] + t[i + 1..], val)
  {
    var rest := t[..i] + t[i + 1..];
    if i == 0 {
      assert rest == t[1..];
    } else {
      var tail := t[1..];
      SumRemoveAt(tail, i - 1, val);
      assert tail[i - 1] == t[i];
      assert rest[0] == t[0];
      assert rest[1..] == tail[..i - 1] + tail[i..];
    }
  }

  lemma MultisetRemoveAt<T>(t: seq<T>, i: int)
    requires 0 <= i < |t|
    ensures multiset(t[..i] + t[i + 1..]) == multiset(t) - multiset{t[i]}
  {
    assert t == t[..i] + [t[i]] + t[i + 1..];
  }

  /** A sum does not depend on the order of the rows. */
  lemma {:induction false} SumPermutation<T>(s: seq<T>, t: seq<T>, val: T -> real)
    requires multiset(s) == multiset(t)
    ensures Sum(s, val) == Sum(t, val)
  {
    if |s| != 0 {
      assert s[0] in multiset(t);
      var i :| 0 <= i < |t| && t[i] == s[0];
      MultisetRemoveAt(t, i);
      assert s == [s[0]] + s[1..];
      SumPermutation(s[1..], t[..i] + t[i + 1..], val);
      SumRemoveAt(t, i, val);
    }
  }

  /** A sum of non-negative values is non-negative. */
  lemma {:induction false} SumNonNegative<T>(t: seq<T>, val: T -> real)
    ensures (forall x :: x in t ==> val(x) >= 0.0) ==> Sum(t, val) >= 0.0
  {
    if |t| != 0 {
      assert t[0] in t;
      assert forall x :: x in t[1..] ==> x in t;
      SumNonNegative(t[1..], val);
    }
  }
}
