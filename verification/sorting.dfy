/**
 * Python's stable list.sort(key=..., reverse=True) and the prefix slice s[:k].
 *
 * SortDesc is the specification: an insertion sort that puts each element
 * after every earlier element whose key is at least as large.  Its lemmas say
 * that the result is ordered by descending key, is a permutation of the input,
 * keeps the input order among elements with equal keys, and is the only
 * sequence with those three properties.  StableSortDesc is the loop that the
 * other modules call, proved equal to SortDesc.
 */
module Sorting {

  predicate SortedDesc<T>(s: seq<T>, key: T -> real) {
    forall i, j :: 0 <= i < j < |s| ==> key(s[i]) >= key(s[j])
  }

  /** The elements of s whose key is v, in their order in s. */
  function WithKey<T>(s: seq<T>, key: T -> real, v: real): seq<T> {
    if s == [] then [] else (if key(s[0]) == v then [s[0]] else []) + WithKey(s[1..], key, v)
  }

  /** Places x after every leading element whose key is at least key(x). */
  function InsertDesc<T>(x: T, s: seq<T>, key: T -> real): (r: seq<T>)
    ensures |r| == |s| + 1
  {
    if s == [] then [x]
    else if key(s[0]) >= key(x) then [s[0]] + InsertDesc(x, s[1..], key)
    else [x] + s
  }

  /** The stable descending sort of s by key. */
  function SortDesc<T>(s: seq<T>, key: T -> real): (r: seq<T>)
    ensures |r| == |s|
  {
    if s == [] then [] else InsertDesc(s[|s| - 1], SortDesc(s[..|s| - 1], key), key)
  }

  /** Python's s[:k], including the negative k that counts from the end. */
  function PyPrefix<T>(s: seq<T>, k: int): (r: seq<T>)
    ensures |r| <= |s| && r == s[..|r|]
    ensures k >= 0 ==> |r| == if k < |s| then k else |s|
    ensures k < 0 ==> |r| == if |s| + k > 0 then |s| + k else 0
  {
    if k >= 0 then (if k < |s| then s[..k] else s)
    else if |s| + k > 0 then s[..|s| + k] else []
  }

  // ------------------------------------------------------------------ lemmas

  lemma {:induction false} WithKeyAppend<T>(a: seq<T>, b: seq<T>, key: T -> real, v: real)
    ensures WithKey(a + b, key, v) == WithKey(a, key, v) + WithKey(b, key, v)
  {
    if a == [] {
      assert a + b == b;
    } else {
      var h := if key(a[0]) == v then [a[0]] else [];
      assert (a + b)[0] == a[0];
      assert (a + b)[1..] == a[1..] + b;
      WithKeyAppend(a[1..], b, key, v);
      assert WithKey(a + b, key, v) == h + WithKey(a[1..] + b, key, v);
      assert WithKey(a, key, v) == h + WithKey(a[1..], key, v);
      assert h + (WithKey(a[1..], key, v) + WithKey(b, key, v)) == (h + WithKey(a[1..], key, v)) + WithKey(b, key, v);
    }
  }

  lemma {:induction false} WithKeyNone<T>(s: seq<T>, key: T -> real, v: real)
    requires forall i :: 0 <= i < |s| ==> key(s[i]) != v
    ensures WithKey(s, key, v) == []
  {
    if s != [] {
      WithKeyNone(s[1..], key, v);
    }
  }

  lemma {:induction false} InsertPermutation<T>(x: T, s: seq<T>, key: T -> real)
    ensures |InsertDesc(x, s, key)| == |s| + 1
    ensures multiset(InsertDesc(x, s, key)) == multiset(s) + multiset{x}
  {
    if s != [] && key(s[0]) >= key(x) {
      InsertPermutation(x, s[1..], key);
      assert s == [s[0]] + s[1..];
    }
  }

  lemma {:induction false} InsertSorted<T>(x: T, s: seq<T>, key: T -> real)
    requires SortedDesc(s, key)
    ensures SortedDesc(InsertDesc(x, s, key), key)
  {
    var r := InsertDesc(x, s, key);
    if s != [] && key(s[0]) >= key(x) {
      var t := InsertDesc(x, s[1..], key);
      InsertSorted(x, s[1..], key);
      InsertPermutation(x, s[1..], key);
      assert r == [s[0]] + t;
      forall i | 0 < i < |r| ensures key(s[0]) >= key(r[i]) {
        assert r[i] == t[i - 1];
        assert r[i] in multiset(s[1..]) + multiset{x};
        if r[i] in multiset(s[1..]) {
          var m :| 0 <= m < |s[1..]| && s[1..][m] == r[i];
          assert s[1 + m] == r[i];
        }
      }
    }
  }

  lemma {:induction false} InsertWithKey<T>(x: T, s: seq<T>, key: T -> real, v: real)
    requires SortedDesc(s, key)
    ensures WithKey(InsertDesc(x, s, key), key, v) == WithKey(s, key, v) + (if key(x) == v then [x] else [])
  {
    var r := InsertDesc(x, s, key);
    if s == [] {
    } else if key(s[0]) >= key(x) {
      var t := InsertDesc(x, s[1..], key);
      InsertWithKey(x, s[1..], key, v);
      assert r == [s[0]] + t;
      assert r[0] == s[0] && r[1..] == t;
      var h := if key(s[0]) == v then [s[0]] else [];
      assert WithKey(r, key, v) == h + WithKey(t, key, v);
      assert WithKey(s, key, v) == h + WithKey(s[1..], key, v);
    } else {
      assert r == [x] + s;
      assert r[0] == x && r[1..] == s;
      assert WithKey(r, key, v) == (if key(x) == v then [x] else []) + WithKey(s, key, v);
      if key(x) == v {
        WithKeyNone(s, key, v);
      }
    }
  }

  lemma InsertProps<T>(x: T, s: seq<T>, key: T -> real)
    requires SortedDesc(s, key)
    ensures |InsertDesc(x, s, key)| == |s| + 1
    ensures SortedDesc(InsertDesc(x, s, key), key)
    ensures multiset(InsertDesc(x, s, key)) == multiset(s) + multiset{x}
    ensures forall v :: WithKey(InsertDesc(x, s, key), key, v)
                        == WithKey(s, key, v) + (if key(x) == v then [x] else [])
  {
    InsertPermutation(x, s, key);
    InsertSorted(x, s, key);
    forall v ensures WithKey(InsertDesc(x, s, key), key, v)
                     == WithKey(s, key, v) + (if key(x) == v then [x] else []) {
      InsertWithKey(x, s, key, v);
    }
  }

  /** The sort orders by descending key and is a permutation. */
  lemma {:induction false} SortDescSortedPermutation<T>(s: seq<T>, key: T -> real)
    ensures |SortDesc(s, key)| == |s|
    ensures SortedDesc(SortDesc(s, key), key)
    ensures multiset(SortDesc(s, key)) == multiset(s)
  {
    if s != [] {
      var init := s[..|s| - 1];
      SortDescSortedPermutation(init, key);
      InsertProps(s[|s| - 1], SortDesc(init, key), key);
      assert s == init + [s[|s| - 1]];
    }
  }

  /** The sort is stable: for every key value, the elements with that key keep their input order. */
  lemma {:induction false} SortDescStable<T>(s: seq<T>, key: T -> real)
    ensures forall v :: WithKey(SortDesc(s, key), key, v) == WithKey(s, key, v)
  {
    if s != [] {
      var init, x := s[..|s| - 1], s[|s| - 1];
      SortDescStable(init, key);
      SortDescSortedPermutation(init, key);
      InsertProps(x, SortDesc(init, key), key);
      assert s == init + [x];
      forall v ensures WithKey(SortDesc(s, key), key, v) == WithKey(s, key, v) {
        WithKeyAppend(init, [x], key, v);
      }
    }
  }

  /** A sequence that is ordered, and keeps the per-key order of s, is the sort of s. */
  lemma {:induction false} SortDescUnique<T>(s: seq<T>, r: seq<T>, key: T -> real)
    requires SortedDesc(r, key)
    requires forall v :: WithKey(r, key, v) == WithKey(s, key, v)
    ensures r == SortDesc(s, key)
  {
    SortDescSortedPermutation(s, key);
    SortDescStable(s, key);
    SortedSameGroupsEqual(r, SortDesc(s, key), key);
  }

  lemma {:induction false} WithKeyHead<T>(s: seq<T>, key: T -> real)
    requires s != []
    ensures WithKey(s, key, key(s[0])) == [s[0]] + WithKey(s[1..], key, key(s[0]))
  {
  }

  lemma {:induction false} WithKeyMember<T>(s: seq<T>, key: T -> real, v: real, i: int)
    requires 0 <= i < |s| && key(s[i]) == v
    ensures WithKey(s, key, v) != []
  {
    if i > 0 {
      WithKeyMember(s[1..], key, v, i - 1);
    }
  }

  lemma {:induction false} WithKeyLength<T>(s: seq<T>, key: T -> real, v: real)
    ensures |WithKey(s, key, v)| <= |s|
  {
    if s != [] {
      WithKeyLength(s[1..], key, v);
    }
  }

  lemma {:induction false} SortedSameGroupsEqual<T>(a: seq<T>, b: seq<T>, key: T -> real)
    requires SortedDesc(a, key) && SortedDesc(b, key)
    requires forall v :: WithKey(a, key, v) == WithKey(b, key, v)
    ensures a == b
    decreases |a|
  {
    if a == [] {
      if b != [] {
        assert false;
      }
    } else if b == [] {
      WithKeyHead(a, key);
      assert false;
    } else {
      var va, vb := key(a[0]), key(b[0]);
      // each head carries the largest key of its sequence, so the heads' keys agree
      if va < vb {
        WithKeyMember(b, key, vb, 0);
        NoLargerKey(a, key, vb);
        assert false;
      } else if vb < va {
        WithKeyMember(a, key, va, 0);
        NoLargerKey(b, key, va);
        assert false;
      }
      WithKeyHead(a, key);
      WithKeyHead(b, key);
      assert a[0] == WithKey(a, key, va)[0] == WithKey(b, key, va)[0] == b[0];
      forall v ensures WithKey(a[1..], key, v) == WithKey(b[1..], key, v) {
        var h: seq<T> := if key(a[0]) == v then [a[0]] else [];
        assert WithKey(a, key, v) == h + WithKey(a[1..], key, v);
        assert WithKey(b, key, v) == h + WithKey(b[1..], key, v);
        assert WithKey(a[1..], key, v) == (h + WithKey(a[1..], key, v))[|h|..];
        assert WithKey(b[1..], key, v) == (h + WithKey(b[1..], key, v))[|h|..];
      }
      SortedSameGroupsEqual(a[1..], b[1..], key);
      assert a == [a[0]] + a[1..];
      assert b == [b[0]] + b[1..];
    }
  }

  lemma NoLargerKey<T>(s: seq<T>, key: T -> real, v: real)
    requires SortedDesc(s, key) && s != [] && key(s[0]) < v
    ensures WithKey(s, key, v) == []
  {
    WithKeyNone(s, key, v);
  }

  /** Inserting x at the boundary between keys >= key(x) and keys < key(x) is InsertDesc. */
  lemma {:induction false} InsertAtBoundary<T>(x: T, s: seq<T>, j: int, key: T -> real)
    requires 0 <= j <= |s|
    requires forall m :: 0 <= m < j ==> key(s[m]) >= key(x)
    requires forall m :: j <= m < |s| ==> key(s[m]) < key(x)
    ensures InsertDesc(x, s, key) == s[..j] + [x] + s[j..]
  {
    if j == 0 {
      assert s[j..] == s;
      if s != [] {
        assert key(s[0]) < key(x);
      }
    } else {
      InsertAtBoundary(x, s[1..], j - 1, key);
      assert s[1..][..j - 1] == s[1..j];
      assert s[1..][j - 1..] == s[j..];
      assert s[..j] == [s[0]] + s[1..j];
    }
  }

  // ------------------------------------------------------------------ mapping

  /** [f(x) for x in s]. */
  function MapSeq<T, U>(s: seq<T>, f: T -> U): (r: seq<U>)
    ensures |r| == |s| && forall i :: 0 <= i < |s| ==> r[i] == f(s[i])
  {
    seq(|s|, i requires 0 <= i < |s| => f(s[i]))
  }

  /** Mapping one more element appends its image. */
  lemma MapSeqSnoc<T, U>(s: seq<T>, i: int, f: T -> U)
    requires 0 <= i < |s|
    ensures MapSeq(s[..i + 1], f) == MapSeq(s[..i], f) + [f(s[i])]
  {
    assert forall k :: 0 <= k < i ==> s[..i + 1][k] == s[..i][k];
  }

  /** Mapping distributes over concatenation. */
  lemma MapSeqAppend<T, U>(a: seq<T>, b: seq<T>, f: T -> U)
    ensures MapSeq(a + b, f) == MapSeq(a, f) + MapSeq(b, f)
  {
    var l := MapSeq(a + b, f);
    var r := MapSeq(a, f) + MapSeq(b, f);
    forall i | 0 <= i < |l| ensures l[i] == r[i] {
      if i < |a| {
        assert (a + b)[i] == a[i];
      } else {
        assert (a + b)[i] == b[i - |a|];
      }
    }
  }

  /** Mapping two permutations of each other gives permutations of each other. */
  lemma {:induction false} MultisetMap<T, U>(a: seq<T>, b: seq<T>, f: T -> U)
    requires multiset(a) == multiset(b)
    ensures multiset(MapSeq(a, f)) == multiset(MapSeq(b, f))
    decreases |a|
  {
    if a == [] {
      assert |b| == |multiset(b)| == 0;
    } else {
      var x := a[0];
      assert x in multiset(a);
      var j :| 0 <= j < |b| && b[j] == x;
      var rest := RemoveAt(b, j);
      RemoveAtMultiset(a, 0);
      RemoveAtMultiset(b, j);
      assert RemoveAt(a, 0) == a[1..];
      MultisetMap(a[1..], rest, f);
      MapRemoveAt(a, 0, f);
      MapRemoveAt(b, j, f);
    }
  }

  function RemoveAt<T>(s: seq<T>, j: int): (r: seq<T>)
    requires 0 <= j < |s|
    ensures |r| == |s| - 1
  {
    s[..j] + s[j + 1..]
  }

  lemma RemoveAtMultiset<T>(s: seq<T>, j: int)
    requires 0 <= j < |s|
    ensures multiset(RemoveAt(s, j)) == multiset(s) - multiset{s[j]}
  {
    assert s == s[..j] + [s[j]] + s[j + 1..];
  }

  lemma MapRemoveAt<T, U>(s: seq<T>, j: int, f: T -> U)
    requires 0 <= j < |s|
    ensures multiset(MapSeq(s, f)) == multiset(MapSeq(RemoveAt(s, j), f)) + multiset{f(s[j])}
  {
    var m := MapSeq(s, f);
    assert MapSeq(RemoveAt(s, j), f) == m[..j] + m[j + 1..];
    assert m == m[..j] + [m[j]] + m[j + 1..];
  }

  /** A prefix is a sub-multiset. */
  lemma PrefixMultiset<T>(s: seq<T>, n: int)
    requires 0 <= n <= |s|
    ensures multiset(s[..n]) <= multiset(s)
  {
    assert s == s[..n] + s[n..];
  }

  /** Two positions holding the same value count it at least twice. */
  lemma CountAtLeast<T>(s: seq<T>, a: int, b: int)
    requires 0 <= a < b < |s|
    ensures multiset(s)[s[a]] >= 1 + (if s[b] == s[a] then 1 else 0)
  {
    assert s == s[..b] + [s[b]] + s[b + 1..];
    assert s[a] in s[..b];
  }

  /** A value found at one position only is counted once. */
  lemma CountOnce<T>(s: seq<T>, k: int)
    requires 0 <= k < |s|
    requires forall j :: 0 <= j < |s| && j != k ==> s[j] != s[k]
    ensures multiset(s)[s[k]] == 1
  {
    assert s == s[..k] + [s[k]] + s[k + 1..];
    assert s[k] !in s[..k];
    assert s[k] !in s[k + 1..];
  }

  /**
   * The first n of a descending sort: ordered, drawn from s, all of s when
   * n >= |s|, and nothing left out has a larger key than anything kept.
   */
  lemma TopOfSort<T>(s: seq<T>, key: T -> real, n: int)
    ensures var top := PyPrefix(SortDesc(s, key), n);
            SortedDesc(top, key)
            && multiset(top) <= multiset(s)
            && (n >= 0 ==> |top| <= n)
            && (n >= |s| ==> multiset(top) == multiset(s))
            && (forall x, i :: x in multiset(s) - multiset(top) && 0 <= i < |top| ==> key(x) <= key(top[i]))
  {
    var sorted := SortDesc(s, key);
    var top := PyPrefix(sorted, n);
    SortDescSortedPermutation(s, key);
    PrefixMultiset(sorted, |top|);
    PrefixBest(sorted, |top|, key);
  }

  /** Nothing after a prefix of a descending list has a larger key than anything in it. */
  lemma PrefixBest<T>(sorted: seq<T>, m: int, key: T -> real)
    requires SortedDesc(sorted, key) && 0 <= m <= |sorted|
    ensures forall x, i :: x in multiset(sorted) - multiset(sorted[..m]) && 0 <= i < m ==> key(x) <= key(sorted[..m][i])
  {
    var top, rest := sorted[..m], sorted[m..];
    assert sorted == top + rest;
    forall x, i | x in multiset(sorted) - multiset(top) && 0 <= i < m ensures key(x) <= key(top[i]) {
      assert x in multiset(rest);
      var k :| 0 <= k < |rest| && rest[k] == x;
      assert sorted[m + k] == x && sorted[i] == top[i];
    }
  }

  // ------------------------------------------------------------------ the loop

  /** list.sort(key=key, reverse=True), written as insertion sort over a list value. */
  method StableSortDesc<T>(s: seq<T>, key: T -> real) returns (r: seq<T>)
    ensures r == SortDesc(s, key)
  {
    r := [];
    var i := 0;
    while i < |s|
      invariant 0 <= i <= |s|
      invariant r == SortDesc(s[..i], key)
    {
      SortDescSortedPermutation(s[..i], key);
      SortDescStep(s, i, key);
      r := InsertInPlace(r, s[i], key);
      i := i + 1;
    }
    assert s[..i] == s;
  }

  lemma SortDescStep<T>(s: seq<T>, i: int, key: T -> real)
    requires 0 <= i < |s|
    ensures SortDesc(s[..i + 1], key) == InsertDesc(s[i], SortDesc(s[..i], key), key)
  {
    assert s[..i + 1][..i] == s[..i];
  }

  /** One pass of the insertion: walk back over the larger-key tail, then insert x there. */
  method InsertInPlace<T>(r: seq<T>, x: T, key: T -> real) returns (r': seq<T>)
    requires SortedDesc(r, key)
    ensures r' == InsertDesc(x, r, key)
  {
    var j := |r|;
    while j > 0 && key(r[j - 1]) < key(x)
      invariant 0 <= j <= |r|
      invariant forall m :: j <= m < |r| ==> key(r[m]) < key(x)
    {
      j := j - 1;
    }
    assert forall m :: 0 <= m < j ==> key(r[m]) >= key(r[j - 1]) >= key(x);
    InsertAtBoundary(x, r, j, key);
    r' := r[..j] + [x] + r[j..];
  }
}
