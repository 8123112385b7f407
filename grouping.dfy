/** Row filters and group-by over integer keys: the distinct keys in ascending order
    (`group_by(key).agg(...).sort(key)`) and the per-key row counts (`pl.len()`). */
module Grouping {

  predicate StrictlyIncreasing(ks: seq<int>) {
    forall i, j :: 0 <= i < j < |ks| ==> ks[i] < ks[j]
  }

  /** `rows.filter(p)`: the rows satisfying p, in their original order. */
  function Filter<T(!new)>(rows: seq<T>, p: T -> bool): (r: seq<T>)
    ensures |r| <= |rows|
    ensures forall x :: x in r <==> x in rows && p(x)
  {
    if rows == [] then []
    else if p(rows[0]) then [rows[0]] + Filter(rows[1..], p)
    else Filter(rows[1..], p)
  }

  /** Two filters that agree on every row select the same rows. */
  lemma {:induction false} FilterAgree<T(!new)>(rows: seq<T>, p: T -> bool, q: T -> bool)
    requires forall x :: x in rows ==> p(x) == q(x)
    ensures Filter(rows, p) == Filter(rows, q)
  {
    if rows != [] {
      assert forall x :: x in rows[1..] ==> x in rows;
      FilterAgree(rows[1..], p, q);
    }
  }

  function Keys<T>(rows: seq<T>, key: T -> int): (ks: seq<int>)
    ensures |ks| == |rows|
    ensures forall i :: 0 <= i < |rows| ==> ks[i] == key(rows[i])
  {
    seq(|rows|, i requires 0 <= i < |rows| => key(rows[i]))
  }

  function InsertKey(ks: seq<int>, k: int): (r: seq<int>)
    requires StrictlyIncreasing(ks)
    ensures StrictlyIncreasing(r)
    ensures forall x :: x in r <==> x in ks || x == k
  {
    if ks == [] then [k]
    else if k < ks[0] then [k] + ks
    else if k == ks[0] then ks
    else
      var tail := InsertKey(ks[1..], k);
      forall i | 0 <= i < |tail| ensures ks[0] < tail[i] {
        assert tail[i] in tail;
        if tail[i] != k {
          var j :| 0 <= j < |ks[1..]| && ks[1..][j] == tail[i];
          assert ks[j + 1] == tail[i];
        }
      }
      [ks[0]] + tail
  }

  /** The distinct keys, ascending: one entry per group. */
  function DistinctSorted(keys: seq<int>): (r: seq<int>)
    ensures StrictlyIncreasing(r)
    ensures forall x :: x in r <==> x in keys
  {
    if keys == [] then []
    else InsertKey(DistinctSorted(keys[..|keys| - 1]), keys[|keys| - 1])
  }

  function CountKey(keys: seq<int>, k: int): nat {
    if keys == [] then 0 else (if keys[0] == k then 1 else 0) + CountKey(keys[1..], k)
  }

  /** The rows whose key is k (one group). */
  function RowsWithKey<T(!new)>(rows: seq<T>, key: T -> int, k: int): (r: seq<T>)
    ensures forall x :: x in r <==> x in rows && key(x) == k
  {
    if rows == [] then []
    else if key(rows[0]) == k then [rows[0]] + RowsWithKey(rows[1..], key, k)
    else RowsWithKey(rows[1..], key, k)
  }

  /** A group holds as many rows as its key occurs. */
  lemma {:induction false} GroupSize<T(!new)>(rows: seq<T>, key: T -> int, k: int)
    ensures |RowsWithKey(rows, key, k)| == CountKey(Keys(rows, key), k)
  {
    if rows != [] {
      GroupSize(rows[1..], key, k);
      assert Keys(rows, key)[1..] == Keys(rows[1..], key);
    }
  }

  /** The total size of the groups named by ks. */
  function GroupSizes(ks: seq<int>, keys: seq<int>): nat {
    if ks == [] then 0 else CountKey(keys, ks[0]) + GroupSizes(ks[1..], keys)
  }

  lemma {:induction false} CountKeyAbsent(keys: seq<int>, k: int)
    requires k !in keys
    ensures CountKey(keys, k) == 0
  {
    if keys != [] {
      CountKeyAbsent(keys[1..], k);
    }
  }

  lemma {:induction false} CountKeyPresent(keys: seq<int>, k: int)
    requires k in keys
    ensures CountKey(keys, k) >= 1
  {
    if keys[0] != k {
      CountKeyPresent(keys[1..], k);
    }
  }

  lemma {:induction false} CountKeyDistinct(ks: seq<int>, k: int)
    requires StrictlyIncreasing(ks) && k in ks
    ensures CountKey(ks, k) == 1
  {
    if ks[0] == k {
      CountKeyAbsent(ks[1..], k);
    } else {
      CountKeyDistinct(ks[1..], k);
    }
  }

  lemma {:induction false} GroupSizesCons(ks: seq<int>, x: int, rest: seq<int>)
    ensures GroupSizes(ks, [x] + rest) == CountKey(ks, x) + GroupSizes(ks, rest)
  {
    if ks != [] {
      GroupSizesCons(ks[1..], x, rest);
      assert ([x] + rest)[1..] == rest;
    }
  }

  /** Groups named by distinct keys that cover every key partition the rows:
      their sizes add up to the number of rows. */
  lemma {:induction false} GroupSizesTotal(ks: seq<int>, keys: seq<int>)
    requires StrictlyIncreasing(ks)
    requires forall x :: x in keys ==> x in ks
    ensures GroupSizes(ks, keys) == |keys|
  {
    if keys != [] {
      GroupSizesTotal(ks, keys[1..]);
      assert keys == [keys[0]] + keys[1..];
      GroupSizesCons(ks, keys[0], keys[1..]);
      CountKeyDistinct(ks, keys[0]);
    } else if ks != [] {
      GroupSizesTotal(ks[1..], keys);
    }
  }
}
