/** Facts about sequences used by the registries: sequences without
    repetitions (the insertion order of a Python dict's keys) and the
    removal of a value (deleting a key). */
module Seqs {
  import opened Wrappers

  /** No value occurs twice. */
  predicate Distinct<T(==)>(s: seq<T>) {
    s == [] || (s[0] !in s[1..] && Distinct(s[1..]))
  }

  /** In a sequence without repetitions, the value at `i` occurs neither
      before nor after `i`. */
  lemma {:induction false} DistinctAt<T>(s: seq<T>, i: int)
    requires Distinct(s) && 0 <= i < |s|
    ensures s[i] !in s[..i] && s[i] !in s[i + 1..]
  {
    if i > 0 {
      DistinctAt(s[1..], i - 1);
      assert s[..i] == [s[0]] + s[1..][..i - 1];
      assert s[i + 1..] == s[1..][i..];
      assert s[i] in s[1..];
    }
  }

  /** Appending a new value keeps a sequence free of repetitions. */
  lemma {:induction false} DistinctSnoc<T>(s: seq<T>, x: T)
    requires Distinct(s) && x !in s
    ensures Distinct(s + [x])
  {
    if s != [] {
      assert (s + [x])[1..] == s[1..] + [x];
      DistinctSnoc(s[1..], x);
    }
  }

  /** `s` with every occurrence of `p` removed. */
  function Without<T(==, !new)>(s: seq<T>, p: T): (r: seq<T>)
    ensures forall q :: q in r <==> q in s && q != p
    ensures Distinct(s) ==> Distinct(r)
  {
    if s == [] then []
    else if s[0] == p then Without(s[1..], p)
    else
      var rest := Without(s[1..], p);
      [s[0]] + rest
  }

  /** Removing a value that occurs once, between `a` and `b`, leaves `a + b`. */
  lemma {:induction false} WithoutOnce<T(!new)>(a: seq<T>, b: seq<T>, p: T)
    requires p !in a && p !in b
    ensures Without(a + [p] + b, p) == a + b
  {
    if a == [] {
      assert ([p] + b)[1..] == b;
      WithoutAbsent(b, p);
    } else {
      assert (a + [p] + b)[1..] == a[1..] + [p] + b;
      WithoutOnce(a[1..], b, p);
      assert a == [a[0]] + a[1..];
    }
  }

  lemma {:induction false} WithoutAbsent<T(!new)>(s: seq<T>, p: T)
    requires p !in s
    ensures Without(s, p) == s
  {
    if s != [] {
      WithoutAbsent(s[1..], p);
    }
  }

  lemma AppendAssoc<T>(a: seq<T>, b: seq<T>, c: seq<T>)
    ensures a + b + c == a + (b + c)
  {
  }
  /** The values `f` gives for the elements of `s`, in order, skipping
      the elements it gives none for (a Python list comprehension with a
      filter, or a loop that appends only when a step succeeds). */
  function FilterMap<T, U>(s: seq<T>, f: T -> Option<U>): seq<U> {
    if s == [] then []
    else (match f(s[0]) case None => [] case Some(u) => [u]) + FilterMap(s[1..], f)
  }

  /** `idx` lists, in increasing order, the positions of `s` that `r` is
      made from: the `k`-th value of `r` is what `f` gives for the element
      at `idx[k]`, and every position `f` gives a value for is listed. */
  ghost predicate PicksAll<T, U>(r: seq<U>, s: seq<T>, f: T -> Option<U>, idx: seq<int>) {
    && |idx| == |r|
    && (forall k :: 0 <= k < |idx| ==> 0 <= idx[k] < |s| && f(s[idx[k]]) == Some(r[k]))
    && (forall k, l :: 0 <= k < l < |idx| ==> idx[k] < idx[l])
    && (forall i :: 0 <= i < |s| && f(s[i]).Some? ==> i in idx)
  }

  /** The filtered values are exactly those of the kept elements, one each,
      in the order of `s`. */
  lemma {:induction false} FilterMapPicks<T, U>(s: seq<T>, f: T -> Option<U>)
    ensures exists idx :: PicksAll(FilterMap(s, f), s, f, idx)
  {
    if s != [] {
      FilterMapPicks(s[1..], f);
      var idx' :| PicksAll(FilterMap(s[1..], f), s[1..], f, idx');
      var idx := PicksCons(s, f, idx');
    } else {
      assert PicksAll(FilterMap(s, f), s, f, []);
    }
  }

  /** The positions picked from `s[1..]`, moved up by one, with position 0
      in front when the first element is kept. */
  lemma PicksCons<T, U>(s: seq<T>, f: T -> Option<U>, idx': seq<int>) returns (idx: seq<int>)
    requires s != [] && PicksAll(FilterMap(s[1..], f), s[1..], f, idx')
    ensures PicksAll(FilterMap(s, f), s, f, idx)
  {
    var rest := FilterMap(s[1..], f);
    ShiftPicks(s, f, rest, idx');
    if f(s[0]).Some? {
      idx := [0] + Shift(idx');
      PicksFront(s, f, rest, idx');
    } else {
      idx := Shift(idx');
      assert FilterMap(s, f) == rest;
    }
  }

  lemma PicksFront<T, U>(s: seq<T>, f: T -> Option<U>, rest: seq<U>, idx': seq<int>)
    requires s != [] && f(s[0]).Some? && rest == FilterMap(s[1..], f) && |idx'| == |rest|
    requires forall k :: 0 <= k < |idx'| ==> 1 <= Shift(idx')[k] < |s| && f(s[Shift(idx')[k]]) == Some(rest[k])
    requires forall k, l :: 0 <= k < l < |idx'| ==> Shift(idx')[k] < Shift(idx')[l]
    requires forall i :: 1 <= i < |s| && f(s[i]).Some? ==> i in Shift(idx')
    ensures PicksAll(FilterMap(s, f), s, f, [0] + Shift(idx'))
  {
    assert FilterMap(s, f) == [f(s[0]).value] + rest;
    FrontValues(s, f, rest, idx');
    FrontOrder(idx');
  }

  lemma FrontValues<T, U>(s: seq<T>, f: T -> Option<U>, rest: seq<U>, idx': seq<int>)
    requires s != [] && f(s[0]).Some? && |idx'| == |rest|
    requires forall k :: 0 <= k < |idx'| ==> 1 <= Shift(idx')[k] < |s| && f(s[Shift(idx')[k]]) == Some(rest[k])
    ensures var idx, r := [0] + Shift(idx'), [f(s[0]).value] + rest;
      forall k :: 0 <= k < |idx| ==> 0 <= idx[k] < |s| && f(s[idx[k]]) == Some(r[k])
  {
    var shifted := Shift(idx');
    var idx := [0] + shifted;
    var r := [f(s[0]).value] + rest;
    forall k | 0 <= k < |idx|
      ensures 0 <= idx[k] < |s| && f(s[idx[k]]) == Some(r[k])
    {
      if k > 0 {
        assert idx[k] == shifted[k - 1] && r[k] == rest[k - 1];
      }
    }
  }

  lemma FrontOrder(idx': seq<int>)
    requires forall k, l :: 0 <= k < l < |idx'| ==> Shift(idx')[k] < Shift(idx')[l]
    requires forall k :: 0 <= k < |idx'| ==> 1 <= Shift(idx')[k]
    ensures var idx := [0] + Shift(idx'); forall k, l :: 0 <= k < l < |idx| ==> idx[k] < idx[l]
  {
    var shifted := Shift(idx');
    var idx := [0] + shifted;
    forall k, l | 0 <= k < l < |idx|
      ensures idx[k] < idx[l]
    {
      if k > 0 {
        assert idx[k] == shifted[k - 1] && idx[l] == shifted[l - 1];
      } else {
        assert idx[l] == shifted[l - 1];
      }
    }
  }

  function Shift(idx: seq<int>): (r: seq<int>)
    ensures |r| == |idx| && forall k :: 0 <= k < |idx| ==> r[k] == idx[k] + 1
  {
    seq(|idx|, k requires 0 <= k < |idx| => idx[k] + 1)
  }

  /** Positions picked from `s[1..]`, moved up by one, pick the same values
      from `s` and include every kept position after the first. */
  lemma ShiftPicks<T, U>(s: seq<T>, f: T -> Option<U>, rest: seq<U>, idx': seq<int>)
    requires s != [] && PicksAll(rest, s[1..], f, idx')
    ensures forall k :: 0 <= k < |idx'| ==> 1 <= Shift(idx')[k] < |s| && f(s[Shift(idx')[k]]) == Some(rest[k])
    ensures forall k, l :: 0 <= k < l < |idx'| ==> Shift(idx')[k] < Shift(idx')[l]
    ensures forall i :: 1 <= i < |s| && f(s[i]).Some? ==> i in Shift(idx')
  {
    var shifted := Shift(idx');
    forall k | 0 <= k < |idx'|
      ensures 1 <= shifted[k] < |s| && f(s[shifted[k]]) == Some(rest[k])
    {
      assert s[shifted[k]] == s[1..][idx'[k]];
    }
    forall i | 1 <= i < |s| && f(s[i]).Some?
      ensures i in shifted
    {
      assert s[1..][i - 1] == s[i];
      var k :| 0 <= k < |idx'| && idx'[k] == i - 1;
      assert shifted[k] == i;
    }
  }
}
