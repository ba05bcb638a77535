/** Python's `sorted(...)` over the integer keys of a dictionary. */
module Sorted {

  predicate StrictlyIncreasing(xs: seq<int>) {
    forall i, j :: 0 <= i < j < |xs| ==> xs[i] < xs[j]
  }

  /** A set is empty or has an element (set extensionality, spelled out). */
  lemma HasElement(s: set<int>)
    ensures s == {} || exists y :: y in s
  {
    if forall y :: y !in s {
      assert s == {};
    }
  }

  /** Every non-empty finite set of integers has a least element. */
  lemma {:induction false} MinExists(s: set<int>)
    requires s != {}
    ensures exists m :: m in s && forall x :: x in s ==> m <= x
    decreases |s|
  {
    HasElement(s);
    var y :| y in s;
    var rest := s - {y};
    assert forall x :: x in s ==> x == y || x in rest;
    if rest != {} {
      MinExists(rest);
      var m :| m in rest && forall x :: x in rest ==> m <= x;
      if y < m {
        assert forall x :: x in s ==> y <= x;
      } else {
        assert forall x :: x in s ==> m <= x;
      }
    } else {
      assert forall x :: x in s ==> x == y;
    }
  }

  /** `min(s)`. */
  function SetMin(s: set<int>): (m: int)
    requires s != {}
    ensures m in s && forall x :: x in s ==> m <= x
  {
    MinExists(s);
    var m :| m in s && forall x :: x in s ==> m <= x;
    m
  }

  /** `sorted(s)`: the elements of `s`, each once, in ascending order. */
  function SortedKeys(s: set<int>): (xs: seq<int>)
    ensures |xs| == |s|
    ensures StrictlyIncreasing(xs)
    ensures forall x :: x in xs <==> x in s
    decreases |s|
  {
    if s == {} then []
    else
      var m := SetMin(s);
      var rest := SortedKeys(s - {m});
      [m] + rest
  }

  /** Every position of `sorted(s)` holds an element of `s`. */
  lemma SortedKeysMembers(s: set<int>)
    ensures forall k :: 0 <= k < |SortedKeys(s)| ==> SortedKeys(s)[k] in s
  {
    var xs := SortedKeys(s);
    forall k | 0 <= k < |xs|
      ensures xs[k] in s
    {
      assert xs[k] in xs;
    }
  }

  /** The tail of a strictly increasing enumeration of `s` enumerates `s` without its head. */
  lemma TailEnumerates(s: set<int>, xs: seq<int>)
    requires |xs| > 0 && StrictlyIncreasing(xs)
    requires forall x :: x in xs <==> x in s
    ensures StrictlyIncreasing(xs[1..])
    ensures forall x :: x in xs[1..] <==> x in s - {xs[0]}
  {
    var tail := xs[1..];
    forall x
      ensures x in tail <==> x in s - {xs[0]}
    {
      if x in tail {
        var k :| 0 <= k < |tail| && tail[k] == x;
        assert xs[k + 1] == x && xs[0] < xs[k + 1];
      }
      if x in s - {xs[0]} {
        assert x in xs;
        var k :| 0 <= k < |xs| && xs[k] == x;
        assert k != 0;
        assert tail[k - 1] == x;
      }
    }
  }

  /** A sequence holding exactly the elements of a set is empty exactly when the set is. */
  lemma NoElements(s: set<int>, xs: seq<int>)
    requires forall x :: x in xs <==> x in s
    ensures xs == [] <==> s == {}
  {
    if xs != [] {
      var y := xs[0];
      assert y in xs;
      assert y in s;
    } else {
      HasElement(s);
    }
  }

  /** The first element of a strictly increasing enumeration of `s` is `min(s)`. */
  lemma HeadIsMin(s: set<int>, xs: seq<int>)
    requires xs != [] && StrictlyIncreasing(xs)
    requires forall x :: x in xs <==> x in s
    ensures s != {} && xs[0] == SetMin(s)
  {
    assert xs[0] in xs;
    var m := SetMin(s);
    assert m in xs;
    var k :| 0 <= k < |xs| && xs[k] == m;
    assert xs[0] <= xs[k];
  }

  /** `sorted(s)` starts with `min(s)`, followed by the rest sorted. */
  lemma SortedKeysCons(s: set<int>)
    requires s != {}
    ensures SortedKeys(s) == [SetMin(s)] + SortedKeys(s - {SetMin(s)})
  {
  }

  /**
   * There is only one ascending enumeration of a set: any strictly increasing
   * sequence holding exactly the elements of `s` is `sorted(s)`.
   */
  lemma {:induction false} SortedKeysUnique(s: set<int>, xs: seq<int>)
    requires StrictlyIncreasing(xs)
    requires forall x :: x in xs <==> x in s
    ensures xs == SortedKeys(s)
    decreases |xs|
  {
    NoElements(s, xs);
    if xs != [] {
      var m, tail := xs[0], xs[1..];
      assert xs == [m] + tail;
      HeadIsMin(s, xs);
      TailEnumerates(s, xs);
      SortedKeysUnique(s - {m}, tail);
      SortedKeysCons(s);
    }
  }
}
