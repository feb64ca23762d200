// Sequences without repetitions, as Go's map iteration yields the keys of a map.

module Enumerations {

  ghost predicate Distinct<T>(s: seq<T>) {
    forall i, j :: 0 <= i < j < |s| ==> s[i] != s[j]
  }

  ghost predicate Enumerates<T>(s: seq<T>, elems: set<T>) {
    Distinct(s) && (forall x :: x in s ==> x in elems) && (forall x :: x in elems ==> x in s)
  }

  // A sequence without repetitions has as many elements as the set it enumerates.
  lemma {:induction false} EnumerationSize<T>(s: seq<T>, elems: set<T>)
    requires Enumerates(s, elems)
    ensures |s| == |elems|
    decreases |s|
  {
    if s == [] {
      assert elems == {};
    } else {
      var x := s[|s| - 1];
      assert s[..|s| - 1] + [x] == s;
      EnumerationSize(s[..|s| - 1], elems - {x});
    }
  }

  lemma EnumerateConcat<T>(s: seq<T>, t: seq<T>, a: set<T>, b: set<T>)
    requires Enumerates(s, a) && Enumerates(t, b) && a !! b
    ensures Enumerates(s + t, a + b)
  {
    forall i, j | 0 <= i < j < |s + t| ensures (s + t)[i] != (s + t)[j] {
      assert i < |s| ==> s[i] in s;
      assert |s| <= j ==> t[j - |s|] in t;
    }
  }

  // Some order of the elements of a set, nothing about it being promised.
  method Enumerate<T(==)>(elems: set<T>) returns (s: seq<T>)
    ensures Enumerates(s, elems)
  {
    s := [];
    var left := elems;
    while left != {}
      invariant left <= elems
      invariant Enumerates(s, elems - left)
      decreases left
    {
      var x :| x in left;
      s := s + [x];
      left := left - {x};
    }
  }
}
