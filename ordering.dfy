/** Batch preference order. `Batch` defines only `__gt__`, so Python's
    `sorted()`, which compares with `<`, evaluates `a < b` as `b.__gt__(a)`.
    This module states that comparison on etas, the stable sort it induces,
    the "first element that fits" scan, and an independent description of the
    batch that scan picks. Generic in the element type so that the same lemmas
    serve batch objects of both model versions; `key` reads the eta and `ok`
    is the set of elements that can take the order line. */
module Ordering {
  import opened Basics

  /** `Batch.__gt__` on the etas: a batch without eta is never greater; one
      with an eta is greater than one without; otherwise compare etas. */
  predicate EtaGreater(a: Option<int>, b: Option<int>)
  {
    if a.None? then false
    else if b.None? then true
    else a.value > b.value
  }

  /** `__gt__` is a strict order on etas that makes any two different etas
      comparable: warehouse stock (no eta) below every shipment, shipments by
      date. */
  lemma EtaGreaterIsStrictOrder(a: Option<int>, b: Option<int>, c: Option<int>)
    ensures !EtaGreater(a, a)
    ensures EtaGreater(a, b) ==> !EtaGreater(b, a)
    ensures EtaGreater(a, b) && EtaGreater(b, c) ==> EtaGreater(a, c)
    ensures a != b ==> EtaGreater(a, b) || EtaGreater(b, a)
    ensures a.None? ==> !EtaGreater(a, b) && (b.Some? ==> EtaGreater(b, a))
  {
  }

  /** Warehouse stock (no eta) before shipments, shipments by ascending eta. */
  predicate Sorted<T>(s: seq<T>, key: T -> Option<int>)
  {
    forall i, j :: 0 <= i < j < |s| ==>
      (key(s[j]).None? ==> key(s[i]).None?) &&
      (key(s[i]).Some? && key(s[j]).Some? ==> key(s[i]).value <= key(s[j]).value)
  }

  /** Insert `x` in front of the first element it is not greater than. */
  function Insert<T>(x: T, s: seq<T>, key: T -> Option<int>): seq<T>
  {
    if s == [] then [x]
    else if EtaGreater(key(x), key(s[0])) then [s[0]] + Insert(x, s[1..], key)
    else [x] + s
  }

  /** `sorted(s)`: a stable sort in which `a` precedes `b` only if not `a > b`. */
  function Sort<T>(s: seq<T>, key: T -> Option<int>): seq<T>
  {
    if s == [] then [] else Insert(s[0], Sort(s[1..], key), key)
  }

  /** Index of the first element in `ok`, `|s|` when there is none
      (`next(b for b in s if ...)`, with `|s|` for StopIteration). */
  function FirstIn<T>(s: seq<T>, ok: set<T>): (k: nat)
    ensures k <= |s|
    ensures forall j :: 0 <= j < k ==> s[j] !in ok
    ensures k < |s| ==> s[k] in ok
  {
    if s == [] then 0
    else if s[0] in ok then 0
    else 1 + FirstIn(s[1..], ok)
  }

  /** Reference selection over the unsorted list: the index of the element in
      `ok` with the earliest eta (none earliest), the first such in list order
      among equals; `|s|` when no element is in `ok`. */
  function Earliest<T>(s: seq<T>, key: T -> Option<int>, ok: set<T>): (k: nat)
    ensures k <= |s|
  {
    if s == [] then 0
    else
      var k := Earliest(s[1..], key, ok);
      if s[0] in ok && (k == |s| - 1 || !EtaGreater(key(s[0]), key(s[1..][k]))) then 0
      else k + 1
  }

  lemma {:induction false} InsertElements<T>(x: T, s: seq<T>, key: T -> Option<int>)
    ensures multiset(Insert(x, s, key)) == multiset{x} + multiset(s)
  {
    if s != [] && EtaGreater(key(x), key(s[0])) {
      InsertElements(x, s[1..], key);
      assert s == [s[0]] + s[1..];
    }
  }

  /** The sort is a permutation of its input. */
  lemma {:induction false} SortPermutes<T>(s: seq<T>, key: T -> Option<int>)
    ensures multiset(Sort(s, key)) == multiset(s)
    ensures |Sort(s, key)| == |s|
  {
    if s != [] {
      SortPermutes(s[1..], key);
      InsertElements(s[0], Sort(s[1..], key), key);
      assert s == [s[0]] + s[1..];
    }
    assert |multiset(Sort(s, key))| == |multiset(s)|;
  }

  /** A sorted list stays sorted under a head no greater than any element. */
  lemma SortedCons<T>(h: T, t: seq<T>, key: T -> Option<int>)
    requires Sorted(t, key)
    requires forall j :: 0 <= j < |t| ==> !EtaGreater(key(h), key(t[j]))
    ensures Sorted([h] + t, key)
  {
    var s := [h] + t;
    forall i, j | 0 <= i < j < |s|
      ensures (key(s[j]).None? ==> key(s[i]).None?) &&
              (key(s[i]).Some? && key(s[j]).Some? ==> key(s[i]).value <= key(s[j]).value)
    {
      assert s[j] == t[j - 1];
      if i > 0 {
        assert s[i] == t[i - 1];
      }
    }
  }

  lemma {:induction false} InsertSorted<T>(x: T, s: seq<T>, key: T -> Option<int>)
    requires Sorted(s, key)
    ensures Sorted(Insert(x, s, key), key)
  {
    if s != [] && EtaGreater(key(x), key(s[0])) {
      var rest := Insert(x, s[1..], key);
      InsertSorted(x, s[1..], key);
      InsertElements(x, s[1..], key);
      forall j | 0 <= j < |rest|
        ensures !EtaGreater(key(s[0]), key(rest[j]))
      {
        assert rest[j] in multiset(rest);
        if rest[j] != x {
          assert rest[j] in multiset(s[1..]);
          var m :| 0 <= m < |s[1..]| && s[1..][m] == rest[j];
          assert s[1 + m] == rest[j];
        }
      }
      SortedCons(s[0], rest, key);
      assert Sorted(s[1..], key);
    } else if s != [] {
      forall j | 0 <= j < |s| ensures !EtaGreater(key(x), key(s[j])) {
        assert j == 0 || !EtaGreater(key(s[0]), key(s[j]));
      }
      SortedCons(x, s, key);
    }
  }

  /** The sort puts warehouse stock first and shipments by ascending eta. */
  lemma {:induction false} SortSorts<T>(s: seq<T>, key: T -> Option<int>)
    ensures Sorted(Sort(s, key), key)
  {
    if s != [] {
      SortSorts(s[1..], key);
      InsertSorted(s[0], Sort(s[1..], key), key);
    }
  }

  lemma {:induction false} InsertLength<T>(x: T, u: seq<T>, key: T -> Option<int>)
    ensures |Insert(x, u, key)| == |u| + 1
  {
    if u != [] && EtaGreater(key(x), key(u[0])) {
      InsertLength(x, u[1..], key);
    }
  }

  /** Scanning `[x] + u`, where `x` is greater than no element of `u`, finds
      `x` exactly when it fits, and otherwise what scanning `u` finds. */
  lemma FirstInFront<T>(x: T, u: seq<T>, key: T -> Option<int>, ok: set<T>)
    requires forall j :: 0 <= j < |u| ==> !EtaGreater(key(x), key(u[j]))
    ensures
      var t := [x] + u;
      var f := FirstIn(u, ok);
      var wins := x in ok && (f == |u| || !EtaGreater(key(x), key(u[f])));
      (FirstIn(t, ok) == |t| <==> !wins && f == |u|) &&
      (wins ==> t[FirstIn(t, ok)] == x) &&
      (!wins && f < |u| ==> FirstIn(t, ok) < |t| && t[FirstIn(t, ok)] == u[f])
  {
    var t := [x] + u;
    assert t[1..] == u;
    if x !in ok {
      assert FirstIn(t, ok) == 1 + FirstIn(u, ok);
    }
  }

  /** Scanning `Insert(x, u)` finds `x` exactly when `x` fits and is not
      greater than the first fitting element of the sorted `u`. */
  lemma {:induction false} FirstInInsert<T>(x: T, u: seq<T>, key: T -> Option<int>, ok: set<T>)
    requires Sorted(u, key)
    ensures |Insert(x, u, key)| == |u| + 1
    ensures
      var t := Insert(x, u, key);
      var f := FirstIn(u, ok);
      var wins := x in ok && (f == |u| || !EtaGreater(key(x), key(u[f])));
      (FirstIn(t, ok) == |t| <==> !wins && f == |u|) &&
      (wins ==> t[FirstIn(t, ok)] == x) &&
      (!wins && f < |u| ==> FirstIn(t, ok) < |t| && t[FirstIn(t, ok)] == u[f])
    decreases |u|, 1
  {
    InsertLength(x, u, key);
    if u != [] && EtaGreater(key(x), key(u[0])) {
      FirstInBehind(x, u, key, ok);
    } else {
      HeadBelowSorted(x, u, key);
      FirstInFront(x, u, key, ok);
    }
  }

  /** An element greater than no head of a sorted list is greater than none
      of its elements. */
  lemma HeadBelowSorted<T>(x: T, u: seq<T>, key: T -> Option<int>)
    requires Sorted(u, key)
    requires u != [] ==> !EtaGreater(key(x), key(u[0]))
    ensures forall j :: 0 <= j < |u| ==> !EtaGreater(key(x), key(u[j]))
  {
    forall j | 0 <= j < |u| ensures !EtaGreater(key(x), key(u[j])) {
      assert j == 0 || !EtaGreater(key(u[0]), key(u[j]));
    }
  }

  /** The case of `FirstInInsert` where `x` goes behind the head of `u`. */
  lemma {:induction false} FirstInBehind<T>(x: T, u: seq<T>, key: T -> Option<int>, ok: set<T>)
    requires Sorted(u, key) && u != [] && EtaGreater(key(x), key(u[0]))
    ensures
      var t := Insert(x, u, key);
      var f := FirstIn(u, ok);
      var wins := x in ok && (f == |u| || !EtaGreater(key(x), key(u[f])));
      |t| == |u| + 1 &&
      (FirstIn(t, ok) == |t| <==> !wins && f == |u|) &&
      (wins ==> t[FirstIn(t, ok)] == x) &&
      (!wins && f < |u| ==> FirstIn(t, ok) < |t| && t[FirstIn(t, ok)] == u[f])
    decreases |u|, 0
  {
    InsertLength(x, u, key);
    var t := Insert(x, u, key);
    assert t[0] == u[0] && t[1..] == Insert(x, u[1..], key);
    if u[0] !in ok {
      assert Sorted(u[1..], key);
      FirstInInsert(x, u[1..], key, ok);
      assert FirstIn(u, ok) == 1 + FirstIn(u[1..], ok);
      assert FirstIn(t, ok) == 1 + FirstIn(t[1..], ok);
    }
  }

  /** The first fitting batch of the sorted list is the earliest fitting
      batch of the unsorted list, and there is one exactly when some batch
      fits. */
  lemma {:induction false} FirstInSortIsEarliest<T>(s: seq<T>, key: T -> Option<int>, ok: set<T>)
    ensures |Sort(s, key)| == |s|
    ensures FirstIn(Sort(s, key), ok) == |s| <==> Earliest(s, key, ok) == |s|
    ensures Earliest(s, key, ok) < |s| ==>
              Sort(s, key)[FirstIn(Sort(s, key), ok)] == s[Earliest(s, key, ok)]
  {
    SortPermutes(s, key);
    if s != [] {
      var u := Sort(s[1..], key);
      FirstInSortIsEarliest(s[1..], key, ok);
      SortSorts(s[1..], key);
      FirstInInsert(s[0], u, key, ok);
    }
  }

  /** What `Earliest` picks: an element in `ok` whose eta no other element in
      `ok` precedes, and every element in `ok` before it in the list has a
      strictly later eta. When no element is in `ok` it returns `|s|`. */
  lemma {:induction false} EarliestIsPreferred<T>(s: seq<T>, key: T -> Option<int>, ok: set<T>)
    ensures var k := Earliest(s, key, ok);
      (k == |s| <==> forall j :: 0 <= j < |s| ==> s[j] !in ok) &&
      (k < |s| ==>
        s[k] in ok &&
        (forall j :: 0 <= j < |s| && s[j] in ok ==> !EtaGreater(key(s[k]), key(s[j]))) &&
        (forall j :: 0 <= j < k && s[j] in ok ==> EtaGreater(key(s[j]), key(s[k]))))
  {
    if s != [] {
      EarliestIsPreferred(s[1..], key, ok);
      var k := Earliest(s[1..], key, ok);
      if k < |s| - 1 {
        assert s[1..][k] == s[k + 1];
      }
      forall j | 0 < j < |s| ensures s[j] == s[1..][j - 1] { }
    }
  }
}
