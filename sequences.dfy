/** Tables are held as sequences of rows. This module gives the two things the
    SQL statements need of them: `WHERE` as a filter, and a column being
    UNIQUE (or a PRIMARY KEY) as "no two rows share a key". */
module Sequences {

  /** The rows of `s` that satisfy `keep`, in their original order. */
  function Filter<T(!new)>(s: seq<T>, keep: T -> bool): (r: seq<T>)
    ensures |r| <= |s|
    ensures forall x :: x in r <==> x in s && keep(x)
  {
    if s == [] then []
    else (if keep(s[0]) then [s[0]] else []) + Filter(s[1..], keep)
  }

  /** One step of the filter: the first row, if kept, then the rest. */
  lemma FilterCons<T(!new)>(s: seq<T>, keep: T -> bool)
    requires s != []
    ensures Filter(s, keep) == if keep(s[0]) then [s[0]] + Filter(s[1..], keep) else Filter(s[1..], keep)
  {
    if !keep(s[0]) {
      assert [] + Filter(s[1..], keep) == Filter(s[1..], keep);
    }
  }

  /** A condition every row meets filters nothing out. */
  lemma {:induction false} FilterKeepsAll<T(!new)>(s: seq<T>, keep: T -> bool)
    requires forall x :: x in s ==> keep(x)
    ensures Filter(s, keep) == s
  {
    if s != [] {
      assert s[0] in s;
      assert forall x :: x in s[1..] ==> x in s;
      FilterKeepsAll(s[1..], keep);
      FilterCons(s, keep);
      assert s == [s[0]] + s[1..];
    }
  }

  /** No two rows of `s` have the same `key`. */
  predicate DistinctBy<T, K(==)>(s: seq<T>, key: T -> K)
  {
    forall i, j :: 0 <= i < j < |s| ==> key(s[i]) != key(s[j])
  }

  /** A row whose key is new keeps the column unique. */
  lemma DistinctByAppend<T, K>(s: seq<T>, x: T, key: T -> K)
    requires DistinctBy(s, key)
    requires forall y :: y in s ==> key(y) != key(x)
    ensures DistinctBy(s + [x], key)
  {
    var r := s + [x];
    forall i, j | 0 <= i < j < |r| ensures key(r[i]) != key(r[j]) {
      if j == |s| {
        assert r[i] in s;
      }
    }
  }

  /** Dropping the first row keeps a column unique. */
  lemma DistinctByTail<T, K>(s: seq<T>, key: T -> K)
    requires s != [] && DistinctBy(s, key)
    ensures DistinctBy(s[1..], key)
    ensures forall y :: y in s[1..] ==> key(y) != key(s[0])
  {
    var tail := s[1..];
    forall a, b | 0 <= a < b < |tail| ensures key(tail[a]) != key(tail[b]) {
      assert tail[a] == s[a + 1] && tail[b] == s[b + 1];
    }
    forall y | y in tail ensures key(y) != key(s[0]) {
      var m :| 0 <= m < |tail| && tail[m] == y;
      assert s[m + 1] == y;
    }
  }

  /** A row whose key is new can go in front. */
  lemma DistinctByPrepend<T, K>(x: T, s: seq<T>, key: T -> K)
    requires DistinctBy(s, key)
    requires forall y :: y in s ==> key(y) != key(x)
    ensures DistinctBy([x] + s, key)
  {
    var r := [x] + s;
    forall i, j | 0 <= i < j < |r| ensures key(r[i]) != key(r[j]) {
      assert r[j] == s[j - 1] && r[j] in s;
      if i > 0 {
        assert r[i] == s[i - 1];
      }
    }
  }

  /** Replacing a row by one with the same key keeps the column unique. */
  lemma DistinctByReplace<T, K>(s: seq<T>, i: nat, x: T, key: T -> K)
    requires i < |s| && DistinctBy(s, key) && key(x) == key(s[i])
    ensures DistinctBy(s[i := x], key)
  {
  }

  /** Rewriting rows without touching their keys keeps a column unique. */
  lemma DistinctBySameKeys<T, K>(s: seq<T>, r: seq<T>, key: T -> K)
    requires DistinctBy(s, key) && |r| == |s|
    requires forall i :: 0 <= i < |s| ==> key(r[i]) == key(s[i])
    ensures DistinctBy(r, key)
  {
  }

  /** Deleting rows keeps a column unique. */
  lemma {:induction false} FilterDistinct<T(!new), K>(s: seq<T>, keep: T -> bool, key: T -> K)
    requires DistinctBy(s, key)
    ensures DistinctBy(Filter(s, keep), key)
  {
    if s != [] {
      var tail := Filter(s[1..], keep);
      assert DistinctBy(s[1..], key) by {
        forall i, j | 0 <= i < j < |s| - 1 ensures key(s[1..][i]) != key(s[1..][j]) {
          assert s[1..][i] == s[i + 1] && s[1..][j] == s[j + 1];
        }
      }
      FilterDistinct(s[1..], keep, key);
      if keep(s[0]) {
        var r := Filter(s, keep);
        assert r == [s[0]] + tail;
        forall i, j | 0 <= i < j < |r| ensures key(r[i]) != key(r[j]) {
          if i == 0 {
            assert r[j] == tail[j - 1];
            assert tail[j - 1] in s[1..];
            var k :| 0 <= k < |s[1..]| && s[1..][k] == tail[j - 1];
            assert s[k + 1] == r[j];
          } else {
            assert r[i] == tail[i - 1] && r[j] == tail[j - 1];
          }
        }
      } else {
        assert Filter(s, keep) == tail;
      }
    }
  }

  /** With a unique key, the row holding a given key is the one at the index
      where it was found. */
  lemma DistinctByKeyDeterminesRow<T, K>(s: seq<T>, key: T -> K, x: T, i: nat)
    requires DistinctBy(s, key) && i < |s| && x in s && key(x) == key(s[i])
    ensures x == s[i]
  {
    var j :| 0 <= j < |s| && s[j] == x;
    assert j == i;
  }
}
