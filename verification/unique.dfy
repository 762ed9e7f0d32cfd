/**
 * De-duplication by a string key with a `seen` set: walk the list, keep an
 * element when its key is non-empty and not yet seen, and remember the key.
 * Proved here once for any element type and key; the course fetcher uses it
 * with the stripped course title as key.
 */
module Unique {

  /** The set of keys of a list. */
  function Keys<T>(cs: seq<T>, key: T -> string): set<string> {
    set i | 0 <= i < |cs| :: key(cs[i])
  }

  /** The kept list after the loop has seen all of cs. */
  function DedupBy<T>(cs: seq<T>, key: T -> string): seq<T> {
    if cs == [] then []
    else
      var d := DedupBy(cs[..|cs| - 1], key);
      var c := cs[|cs| - 1];
      if key(c) != "" && key(c) !in Keys(d, key) then d + [c] else d
  }

  /** Element j is the first one with its key, and that key is non-empty. */
  predicate FirstOfKey<T>(cs: seq<T>, key: T -> string, j: int)
    requires 0 <= j < |cs|
  {
    key(cs[j]) != "" && forall k :: 0 <= k < j ==> key(cs[k]) != key(cs[j])
  }

  /** Reference definition: the elements of cs[..n] that are first with their key, in order. */
  function Firsts<T>(cs: seq<T>, key: T -> string, n: nat): seq<T>
    requires n <= |cs|
  {
    if n == 0 then []
    else Firsts(cs, key, n - 1) + (if FirstOfKey(cs, key, n - 1) then [cs[n - 1]] else [])
  }

  lemma KeysSnoc<T>(d: seq<T>, c: T, key: T -> string)
    ensures Keys(d + [c], key) == Keys(d, key) + {key(c)}
  {
    var s := d + [c];
    assert forall i :: 0 <= i < |d| ==> s[i] == d[i];
    assert s[|d|] == c;
  }

  lemma DedupByStep<T>(cs: seq<T>, key: T -> string, i: int)
    requires 0 <= i < |cs|
    ensures var d := DedupBy(cs[..i], key);
            var c := cs[i];
            DedupBy(cs[..i + 1], key) == if key(c) != "" && key(c) !in Keys(d, key) then d + [c] else d
  {
    var p := cs[..i + 1];
    assert p[..|p| - 1] == cs[..i];
    assert p[|p| - 1] == cs[i];
  }

  /** The kept list has the same keys as the input, apart from the empty one. */
  lemma {:induction false} DedupByKeys<T>(cs: seq<T>, key: T -> string)
    ensures Keys(DedupBy(cs, key), key) == Keys(cs, key) - {""}
  {
    if cs != [] {
      var p := cs[..|cs| - 1];
      var c := cs[|cs| - 1];
      var d := DedupBy(p, key);
      DedupByKeys(p, key);
      assert cs == p + [c];
      KeysSnoc(p, c, key);
      if key(c) != "" && key(c) !in Keys(d, key) {
        KeysSnoc(d, c, key);
      }
    }
  }

  /** Every kept element comes from the input. */
  lemma {:induction false} DedupByMembers<T>(cs: seq<T>, key: T -> string)
    ensures forall c :: c in DedupBy(cs, key) ==> c in cs
  {
    if cs != [] {
      var p := cs[..|cs| - 1];
      DedupByMembers(p, key);
      assert cs == p + [cs[|cs| - 1]];
    }
  }

  /** The kept keys are non-empty and pairwise distinct. */
  lemma {:induction false} DedupByUnique<T>(cs: seq<T>, key: T -> string)
    ensures forall i :: 0 <= i < |DedupBy(cs, key)| ==> key(DedupBy(cs, key)[i]) != ""
    ensures forall i, j :: 0 <= i < j < |DedupBy(cs, key)| ==> key(DedupBy(cs, key)[i]) != key(DedupBy(cs, key)[j])
  {
    if cs != [] {
      var p := cs[..|cs| - 1];
      var c := cs[|cs| - 1];
      var d := DedupBy(p, key);
      DedupByUnique(p, key);
      assert forall i :: 0 <= i < |d| ==> key(d[i]) != "";
      if key(c) != "" && key(c) !in Keys(d, key) {
        var r := d + [c];
        assert DedupBy(cs, key) == r;
        forall i | 0 <= i < |r| ensures key(r[i]) != "" {
          if i < |d| {
            assert r[i] == d[i];
          }
        }
        forall i, j | 0 <= i < j < |r| ensures key(r[i]) != key(r[j]) {
          assert r[i] == d[i];
          if j == |d| {
            assert key(d[i]) in Keys(d, key);
          } else {
            assert r[j] == d[j];
          }
        }
      }
    }
  }

  /** Firsts of a prefix only looks at the prefix. */
  lemma {:induction false} FirstsPrefix<T>(cs: seq<T>, key: T -> string, m: int, n: nat)
    requires n <= m <= |cs|
    ensures Firsts(cs[..m], key, n) == Firsts(cs, key, n)
  {
    if n > 0 {
      FirstsPrefix(cs, key, m, n - 1);
      assert FirstOfKey(cs[..m], key, n - 1) == FirstOfKey(cs, key, n - 1);
    }
  }

  /** The loop keeps exactly the first element of every non-empty key, in input order. */
  lemma {:induction false} DedupByIsFirsts<T>(cs: seq<T>, key: T -> string)
    ensures DedupBy(cs, key) == Firsts(cs, key, |cs|)
  {
    if cs != [] {
      var n := |cs| - 1;
      var p := cs[..n];
      var c := cs[n];
      DedupByIsFirsts(p, key);
      FirstsPrefix(cs, key, n, n);
      DedupByKeys(p, key);
      assert forall k :: 0 <= k < n ==> p[k] == cs[k];
    }
  }
}
