/** Small wrappers shared by every module: an optional value (Python's `None`)
    and a success-or-exception result. */
module Basics {

  datatype Option<+T> = None | Some(value: T)

  /** A call that either returns a value or raises the exception `error`. */
  datatype Result<+R, +E> = Success(value: R) | Failure(error: E)

  /** The elements of a sequence, as a set. */
  function Elems<T>(s: seq<T>): set<T>
  {
    set x | x in s
  }

  /** No element occurs twice. */
  predicate Distinct<T(==)>(s: seq<T>)
  {
    forall i, j :: 0 <= i < j < |s| ==> s[i] != s[j]
  }

  /** Appending an element not yet present keeps a sequence distinct and
      adds exactly that element to its set. */
  lemma DistinctSnoc<T>(s: seq<T>, x: T)
    requires Distinct(s) && x !in Elems(s)
    ensures Distinct(s + [x]) && Elems(s + [x]) == Elems(s) + {x}
  {
    forall i | 0 <= i < |s| ensures s[i] != x {
      assert s[i] in Elems(s);
    }
    assert Elems(s + [x]) == Elems(s) + {x};
  }
}
