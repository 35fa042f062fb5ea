/** The stable sort both runtimes provide: JavaScript's `Array.prototype.sort` with a
    comparator that subtracts keys, and Python's `sorted(..., key=...)`. Both are
    stable, so the model is an insertion sort that puts each element after every
    element with a key no larger than its own. */
module Sorting {

  ghost predicate SortedBy<T>(s: seq<T>, key: T -> int)
  {
    forall i, j :: 0 <= i < j < |s| ==> key(s[i]) <= key(s[j])
  }

  /** Inserts `x` into `s` after every element whose key is at most `key(x)`. */
  function Insert<T>(s: seq<T>, x: T, key: T -> int): (r: seq<T>)
    ensures |r| == |s| + 1
    ensures multiset(r) == multiset(s) + multiset{x}
  {
    if s == [] || key(s[|s| - 1]) <= key(x) then s + [x]
    else
      assert s == s[..|s| - 1] + [s[|s| - 1]];
      Insert(s[..|s| - 1], x, key) + [s[|s| - 1]]
  }

  lemma {:induction false} InsertSorted<T>(s: seq<T>, x: T, key: T -> int)
    requires SortedBy(s, key)
    ensures SortedBy(Insert(s, x, key), key)
  {
    if s != [] && key(s[|s| - 1]) > key(x) {
      var init, last := s[..|s| - 1], s[|s| - 1];
      InsertSorted(init, x, key);
      var r' := Insert(init, x, key);
      forall k | 0 <= k < |r'|
        ensures key(r'[k]) <= key(last)
      {
        assert r'[k] in multiset(r');
        if r'[k] != x {
          assert r'[k] in multiset(init);
          var j :| 0 <= j < |init| && init[j] == r'[k];
          assert s[j] == init[j];
        }
      }
    }
  }

  function SortByKey<T>(s: seq<T>, key: T -> int): (r: seq<T>)
    ensures |r| == |s|
    ensures multiset(r) == multiset(s)
    ensures SortedBy(r, key)
  {
    if s == [] then []
    else
      assert s == s[..|s| - 1] + [s[|s| - 1]];
      var sortedInit := SortByKey(s[..|s| - 1], key);
      InsertSorted(sortedInit, s[|s| - 1], key);
      Insert(sortedInit, s[|s| - 1], key)
  }

  /** The elements of `s` whose key is `k`, in their order in `s`. */
  function KeyFilter<T>(s: seq<T>, key: T -> int, k: int): seq<T>
  {
    if s == [] then []
    else KeyFilter(s[..|s| - 1], key, k) + (if key(s[|s| - 1]) == k then [s[|s| - 1]] else [])
  }

  lemma {:induction false} InsertKeyFilter<T>(s: seq<T>, x: T, key: T -> int, k: int)
    ensures KeyFilter(Insert(s, x, key), key, k) == KeyFilter(s, key, k) + (if key(x) == k then [x] else [])
  {
    var r := Insert(s, x, key);
    if s == [] || key(s[|s| - 1]) <= key(x) {
      assert r[..|r| - 1] == s;
    } else {
      var init, last := s[..|s| - 1], s[|s| - 1];
      InsertKeyFilter(init, x, key, k);
      assert r[..|r| - 1] == Insert(init, x, key);
    }
  }

  /** The sort is stable: for every key, the elements with that key keep their
      relative order. */
  lemma {:induction false} SortByKeyStable<T>(s: seq<T>, key: T -> int, k: int)
    ensures KeyFilter(SortByKey(s, key), key, k) == KeyFilter(s, key, k)
  {
    if s != [] {
      var init := s[..|s| - 1];
      SortByKeyStable(init, key, k);
      InsertKeyFilter(SortByKey(init, key), s[|s| - 1], key, k);
    }
  }

  /** `a.sort(...)`: sorts the array in place. */
  method SortInPlace<T>(a: array<T>, key: T -> int)
    modifies a
    ensures a[..] == SortByKey(old(a[..]), key)
  {
    var sorted := SortByKey(a[..], key);
    forall i | 0 <= i < a.Length {
      a[i] := sorted[i];
    }
  }
}
