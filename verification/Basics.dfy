/** Small vocabulary shared by every module: names, options, and sequences without duplicates. */
module Basics {

  /** A node of a dependency graph: in the publishing scripts, the name of a crate. */
  datatype Name = Name(text: string)

  datatype Option<+T> = None | Some(value: T)

  predicate NoDup<T(==)>(s: seq<T>) {
    forall i, j | 0 <= i < j < |s| :: s[i] != s[j]
  }

  function Elements<T>(s: seq<T>): set<T> {
    set x | x in s
  }

  lemma {:induction false} NoDupMultiset<T>(s: seq<T>)
    requires NoDup(s)
    ensures multiset(s) == multiset(Elements(s))
    ensures |s| == |Elements(s)|
  {
    if s == [] {
      assert Elements(s) == {};
    } else {
      var r := s[..|s| - 1];
      var x := s[|s| - 1];
      assert s == r + [x];
      NoDupMultiset(r);
      assert x !in r;
      assert Elements(s) == Elements(r) + {x};
    }
  }

  lemma SubsetSize<T>(a: set<T>, b: set<T>)
    requires a <= b
    ensures |a| <= |b|
  {
    assert b == a + (b - a);
  }
}
