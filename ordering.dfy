/** `ORDER BY key DESC` over a list of rows. The queries give no tie-break,
    so the model fixes one sort (insertion, keeping earlier rows first among
    equal keys) and every property proved about the handlers uses only what
    any descending order guarantees: the result is non-increasing in the key
    and is a permutation of the input. */
module Ordering {
  import opened Sequences

  predicate NonIncreasing<T>(s: seq<T>, key: T -> int)
  {
    forall i, j :: 0 <= i < j < |s| ==> key(s[i]) >= key(s[j])
  }

  function InsertDesc<T>(x: T, s: seq<T>, key: T -> int): (r: seq<T>)
    ensures |r| == |s| + 1
  {
    if |s| == 0 then [x]
    else if key(x) >= key(s[0]) then [x] + s
    else [s[0]] + InsertDesc(x, s[1..], key)
  }

  lemma {:induction false} InsertDescPerm<T>(x: T, s: seq<T>, key: T -> int)
    ensures multiset(InsertDesc(x, s, key)) == multiset(s) + multiset{x}
  {
    if |s| > 0 && key(x) < key(s[0]) {
      InsertDescPerm(x, s[1..], key);
      assert s == [s[0]] + s[1..];
    }
  }

  lemma {:induction false} InsertDescSorted<T>(x: T, s: seq<T>, key: T -> int)
    requires NonIncreasing(s, key)
    ensures NonIncreasing(InsertDesc(x, s, key), key)
    ensures |s| > 0 ==> key(InsertDesc(x, s, key)[0]) == if key(x) >= key(s[0]) then key(x) else key(s[0])
  {
    if |s| > 0 && key(x) < key(s[0]) {
      InsertDescSorted(x, s[1..], key);
      var r := InsertDesc(x, s, key);
      var t := InsertDesc(x, s[1..], key);
      assert r == [s[0]] + t;
      forall i, j | 0 <= i < j < |r| ensures key(r[i]) >= key(r[j]) {
        if i == 0 {
          if |s| > 1 { assert key(t[0]) <= key(s[0]); }
          assert key(t[j-1]) <= key(t[0]);
        }
      }
    }
  }

  /** The rows of `s` ordered by `key`, largest first. */
  function SortDesc<T>(s: seq<T>, key: T -> int): (r: seq<T>)
    ensures |r| == |s|
  {
    if |s| == 0 then [] else InsertDesc(s[0], SortDesc(s[1..], key), key)
  }

  lemma {:induction false} SortDescCorrect<T>(s: seq<T>, key: T -> int)
    ensures NonIncreasing(SortDesc(s, key), key)
    ensures multiset(SortDesc(s, key)) == multiset(s)
  {
    if |s| > 0 {
      var rest := SortDesc(s[1..], key);
      SortDescCorrect(s[1..], key);
      InsertDescSorted(s[0], rest, key);
      InsertDescPerm(s[0], rest, key);
      assert SortDesc(s, key) == InsertDesc(s[0], rest, key);
      assert s == [s[0]] + s[1..];
      assert multiset(s) == multiset(s[1..]) + multiset{s[0]};
    }
  }

  /** Inserting a row whose key is new keeps a column unique. */
  lemma {:induction false} InsertDescDistinct<T, K>(x: T, s: seq<T>, key: T -> int, id: T -> K)
    requires DistinctBy(s, id) && forall y :: y in s ==> id(y) != id(x)
    ensures DistinctBy(InsertDesc(x, s, key), id)
  {
    if |s| == 0 {
    } else if key(x) >= key(s[0]) {
      DistinctByPrepend(x, s, id);
    } else {
      var tail := s[1..];
      DistinctByTail(s, id);
      assert forall y :: y in tail ==> y in s;
      InsertDescDistinct(x, tail, key, id);
      InsertDescPerm(x, tail, key);
      var t := InsertDesc(x, tail, key);
      forall y | y in t ensures id(y) != id(s[0]) {
        assert y in multiset(t);
        if y == x {
          assert s[0] in s;
        } else {
          assert y in tail;
        }
      }
      DistinctByPrepend(s[0], t, id);
    }
  }

  /** Sorting keeps a column unique. */
  lemma {:induction false} SortDescDistinct<T, K>(s: seq<T>, key: T -> int, id: T -> K)
    requires DistinctBy(s, id)
    ensures DistinctBy(SortDesc(s, key), id)
  {
    if |s| > 0 {
      var tail := s[1..];
      DistinctByTail(s, id);
      SortDescDistinct(tail, key, id);
      SortDescCorrect(tail, key);
      forall y | y in SortDesc(tail, key) ensures id(y) != id(s[0]) {
        assert y in multiset(SortDesc(tail, key));
        assert y in tail;
      }
      InsertDescDistinct(s[0], SortDesc(tail, key), key, id);
    }
  }

  /** Membership survives sorting. */
  lemma SortDescMembers<T>(s: seq<T>, key: T -> int)
    ensures forall y :: y in SortDesc(s, key) <==> y in s
  {
    var r := SortDesc(s, key);
    SortDescCorrect(s, key);
    forall y ensures y in r <==> y in s {
      assert y in r <==> y in multiset(r);
      assert y in s <==> y in multiset(s);
    }
  }
}
