/** Python's `sorted(items, key=..., reverse=True)`: a stable sort into
    descending key order, written as an insertion sort that places each
    item after the items already placed whose key is not smaller. */
module Sorting {

  /** `le` is a total preorder: any two keys compare, and it is transitive. */
  ghost predicate TotalPreorder<K(!new)>(le: (K, K) -> bool) {
    && (forall a, b :: le(a, b) || le(b, a))
    && (forall a, b, c :: le(a, b) && le(b, c) ==> le(a, c))
  }

  /** Every item's key is at least the key of every later item. */
  ghost predicate Descending<T, K>(s: seq<T>, key: T -> K, le: (K, K) -> bool) {
    forall i, j :: 0 <= i < j < |s| ==> le(key(s[j]), key(s[i]))
  }

  /** Inserts `x` before the first item whose key is strictly smaller. */
  function Insert<T, K>(x: T, s: seq<T>, key: T -> K, le: (K, K) -> bool): (r: seq<T>)
    ensures |r| == |s| + 1
  {
    if s == [] then [x]
    else if !le(key(x), key(s[0])) then [x] + s
    else [s[0]] + Insert(x, s[1..], key, le)
  }

  function SortDescending<T, K>(s: seq<T>, key: T -> K, le: (K, K) -> bool): (r: seq<T>)
    ensures |r| == |s|
  {
    if s == [] then []
    else Insert(s[|s| - 1], SortDescending(s[..|s| - 1], key, le), key, le)
  }

  lemma {:induction false} InsertPermutes<T, K>(x: T, s: seq<T>, key: T -> K, le: (K, K) -> bool)
    ensures multiset(Insert(x, s, key, le)) == multiset(s) + multiset{x}
  {
    if s != [] && le(key(x), key(s[0])) {
      InsertPermutes(x, s[1..], key, le);
      assert s == [s[0]] + s[1..];
    }
  }

  lemma {:induction false} InsertSorted<T, K(!new)>(x: T, s: seq<T>, key: T -> K, le: (K, K) -> bool)
    requires TotalPreorder(le)
    requires Descending(s, key, le)
    ensures Descending(Insert(x, s, key, le), key, le)
  {
    if s != [] {
      if !le(key(x), key(s[0])) {
        var r := [x] + s;
        assert le(key(s[0]), key(x));
        forall i, j | 0 <= i < j < |r|
          ensures le(key(r[j]), key(r[i]))
        {
          if i == 0 && j > 1 {
            assert le(key(s[j - 1]), key(s[0]));
          }
        }
      } else {
        var tail := Insert(x, s[1..], key, le);
        InsertSorted(x, s[1..], key, le);
        InsertPermutes(x, s[1..], key, le);
        var r := [s[0]] + tail;
        forall j | 0 < j < |r|
          ensures le(key(r[j]), key(s[0]))
        {
          assert r[j] in multiset(tail);
          assert r[j] == x || r[j] in multiset(s[1..]);
          if r[j] != x {
            var k :| 0 <= k < |s[1..]| && s[1..][k] == r[j];
            assert le(key(s[k + 1]), key(s[0]));
          }
        }
      }
    }
  }

  /** The sorted list is a permutation of the input. */
  lemma {:induction false} SortPermutes<T, K>(s: seq<T>, key: T -> K, le: (K, K) -> bool)
    ensures multiset(SortDescending(s, key, le)) == multiset(s)
  {
    if s != [] {
      SortPermutes(s[..|s| - 1], key, le);
      InsertPermutes(s[|s| - 1], SortDescending(s[..|s| - 1], key, le), key, le);
      assert s == s[..|s| - 1] + [s[|s| - 1]];
    }
  }

  /** The sorted list is in descending key order. */
  lemma {:induction false} SortSorted<T, K(!new)>(s: seq<T>, key: T -> K, le: (K, K) -> bool)
    requires TotalPreorder(le)
    ensures Descending(SortDescending(s, key, le), key, le)
  {
    if s != [] {
      SortSorted(s[..|s| - 1], key, le);
      InsertSorted(s[|s| - 1], SortDescending(s[..|s| - 1], key, le), key, le);
    }
  }

  /** The items whose key is `k`, in their order. */
  ghost function WithKey<T, K>(s: seq<T>, key: T -> K, k: K): seq<T> {
    if s == [] then []
    else (if key(s[0]) == k then [s[0]] else []) + WithKey(s[1..], key, k)
  }

  lemma {:induction false} WithKeyAppend<T, K>(a: seq<T>, b: seq<T>, key: T -> K, k: K)
    ensures WithKey(a + b, key, k) == WithKey(a, key, k) + WithKey(b, key, k)
  {
    if a == [] {
      assert a + b == b;
    } else {
      assert (a + b)[1..] == a[1..] + b;
      WithKeyAppend(a[1..], b, key, k);
    }
  }

  lemma {:induction false} WithKeyNone<T, K>(s: seq<T>, key: T -> K, k: K)
    requires forall m :: 0 <= m < |s| ==> key(s[m]) != k
    ensures WithKey(s, key, k) == []
  {
    if s != [] {
      WithKeyNone(s[1..], key, k);
    }
  }

  /** An item placed in front of a descending list whose first key is
      smaller than its own is the only item with its key. */
  lemma InsertFrontWithKey<T, K(!new)>(x: T, s: seq<T>, key: T -> K, le: (K, K) -> bool)
    requires TotalPreorder(le)
    requires Descending(s, key, le)
    requires s != [] && !le(key(x), key(s[0]))
    ensures WithKey(s, key, key(x)) == []
  {
    forall m | 0 <= m < |s| ensures key(s[m]) != key(x) {
      if m > 0 {
        assert le(key(s[m]), key(s[0]));
      }
      assert le(key(x), key(x));
    }
    WithKeyNone(s, key, key(x));
  }

  /** In a descending list, the inserted item comes after every item with
      the same key. */
  lemma {:induction false} InsertWithKey<T, K(!new)>(x: T, s: seq<T>, key: T -> K, le: (K, K) -> bool, k: K)
    requires TotalPreorder(le)
    requires Descending(s, key, le)
    ensures WithKey(Insert(x, s, key, le), key, k) == WithKey(s, key, k) + (if key(x) == k then [x] else [])
  {
    if s == [] {
    } else if !le(key(x), key(s[0])) {
      var r := Insert(x, s, key, le);
      assert r == [x] + s && r[1..] == s;
      assert WithKey(r, key, k) == (if key(x) == k then [x] else []) + WithKey(s, key, k);
      if key(x) == k {
        InsertFrontWithKey(x, s, key, le);
      }
    } else {
      var r := Insert(x, s, key, le);
      assert r[0] == s[0] && r[1..] == Insert(x, s[1..], key, le);
      assert Descending(s[1..], key, le);
      InsertWithKey(x, s[1..], key, le, k);
    }
  }

  /** The sort is stable: the items with any one key keep their order. */
  lemma {:induction false} SortStable<T, K(!new)>(s: seq<T>, key: T -> K, le: (K, K) -> bool, k: K)
    requires TotalPreorder(le)
    ensures WithKey(SortDescending(s, key, le), key, k) == WithKey(s, key, k)
  {
    if s != [] {
      var front, last := s[..|s| - 1], s[|s| - 1];
      SortStable(front, key, le, k);
      SortSorted(front, key, le);
      InsertWithKey(last, SortDescending(front, key, le), key, le, k);
      assert s == front + [last];
      WithKeyAppend(front, [last], key, k);
    }
  }
}
