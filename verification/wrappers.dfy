/** The optional value used wherever the source returns None or may omit a value. */
module Wrappers {
  datatype Option<+T> = None | Some(value: T)

  /** The values of the Some entries of s, in order: a loop that appends only when it has something. */
  function Somes<T>(s: seq<Option<T>>): (r: seq<T>)
    ensures |r| <= |s|
  {
    if s == [] then []
    else Somes(s[..|s| - 1]) + (if s[|s| - 1].Some? then [s[|s| - 1].value] else [])
  }

  lemma SomesSnoc<T>(s: seq<Option<T>>, i: int)
    requires 0 <= i < |s|
    ensures Somes(s[..i + 1]) == Somes(s[..i]) + (if s[i].Some? then [s[i].value] else [])
  {
    var p := s[..i + 1];
    assert p[..|p| - 1] == s[..i];
    assert p[|p| - 1] == s[i];
  }

  /** Nothing is kept when every entry is None. */
  lemma {:induction false} SomesAllNone<T>(s: seq<Option<T>>)
    requires forall i :: 0 <= i < |s| ==> s[i].None?
    ensures Somes(s) == []
  {
    if s != [] {
      SomesAllNone(s[..|s| - 1]);
    }
  }

  /** Every kept value is the value of some entry. */
  lemma {:induction false} SomesFrom<T>(s: seq<Option<T>>, i: int) returns (j: int)
    requires 0 <= i < |Somes(s)|
    ensures 0 <= j < |s| && s[j] == Some(Somes(s)[i])
  {
    var p := s[..|s| - 1];
    if i < |Somes(p)| {
      j := SomesFrom(p, i);
      assert s[j] == p[j];
    } else {
      j := |s| - 1;
    }
  }

  /** Every Some entry is kept. */
  lemma {:induction false} SomesHas<T>(s: seq<Option<T>>, j: int)
    requires 0 <= j < |s| && s[j].Some?
    ensures s[j].value in Somes(s)
  {
    var p := s[..|s| - 1];
    if j < |p| {
      SomesHas(p, j);
      assert s[j] == p[j];
    }
  }

  /** When every entry is Some, every value is kept, in place. */
  lemma {:induction false} SomesAllSome<T>(s: seq<Option<T>>)
    requires forall i :: 0 <= i < |s| ==> s[i].Some?
    ensures |Somes(s)| == |s|
    ensures forall i :: 0 <= i < |s| ==> Somes(s)[i] == s[i].value
  {
    if s != [] {
      var p := s[..|s| - 1];
      SomesAllSome(p);
      assert Somes(s) == Somes(p) + [s[|s| - 1].value];
    }
  }
}
