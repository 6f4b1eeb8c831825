/** A stable sort by a numeric key, as list.sort and sorted perform it. */
module StableSort {
  import opened Common

  /** Puts an element before everything whose key is not smaller. */
  function Insert<T>(x: T, sorted: seq<T>, key: T -> real): seq<T> {
    if sorted == [] || key(x) <= key(sorted[0]) then [x] + sorted
    else [sorted[0]] + Insert(x, sorted[1..], key)
  }

  function SortBy<T>(xs: seq<T>, key: T -> real): seq<T> {
    if xs == [] then [] else Insert(xs[0], SortBy(xs[1..], key), key)
  }

  ghost predicate IsSorted<T>(xs: seq<T>, key: T -> real) {
    forall i, j :: 0 <= i < j < |xs| ==> key(xs[i]) <= key(xs[j])
  }

  /** The elements with one key, in order. */
  function WithKey<T>(xs: seq<T>, key: T -> real, k: real): seq<T> {
    if xs == [] then []
    else (if key(xs[0]) == k then [xs[0]] else []) + WithKey(xs[1..], key, k)
  }

  lemma {:induction false} InsertPermutes<T>(x: T, xs: seq<T>, key: T -> real)
    ensures multiset(Insert(x, xs, key)) == multiset(xs) + multiset{x}
  {
    if xs != [] && key(x) > key(xs[0]) {
      InsertPermutes(x, xs[1..], key);
      assert xs == [xs[0]] + xs[1..];
    }
  }

  lemma {:induction false} InsertSorts<T>(x: T, xs: seq<T>, key: T -> real)
    requires IsSorted(xs, key)
    ensures IsSorted(Insert(x, xs, key), key)
  {
    if xs != [] && key(x) > key(xs[0]) {
      InsertSorts(x, xs[1..], key);
      var rest := Insert(x, xs[1..], key);
      InsertPermutes(x, xs[1..], key);
      forall i | 0 <= i < |rest| ensures key(xs[0]) <= key(rest[i]) {
        assert rest[i] in multiset(rest);
        assert rest[i] == x || rest[i] in xs[1..];
      }
    }
  }

  lemma {:induction false} InsertIsStable<T>(x: T, xs: seq<T>, key: T -> real, k: real)
    ensures WithKey(Insert(x, xs, key), key, k) == (if key(x) == k then [x] else []) + WithKey(xs, key, k)
  {
    if xs != [] && key(x) > key(xs[0]) {
      InsertIsStable(x, xs[1..], key, k);
      var rest := WithKey(xs[1..], key, k);
      assert Insert(x, xs, key)[1..] == Insert(x, xs[1..], key);
      if key(x) == k {
        assert WithKey(Insert(x, xs, key), key, k) == [] + ([x] + rest) == [x] + ([] + rest);
      } else {
        assert [] + rest == rest;
      }
    } else {
      assert ([x] + xs)[1..] == xs;
    }
  }

  /** The sort orders, permutes, and keeps elements with equal keys in their order. */
  lemma {:induction false} SortIsStable<T>(xs: seq<T>, key: T -> real, k: real)
    ensures IsSorted(SortBy(xs, key), key)
    ensures multiset(SortBy(xs, key)) == multiset(xs)
    ensures WithKey(SortBy(xs, key), key, k) == WithKey(xs, key, k)
  {
    if xs != [] {
      SortIsStable(xs[1..], key, k);
      InsertPermutes(xs[0], SortBy(xs[1..], key), key);
      InsertSorts(xs[0], SortBy(xs[1..], key), key);
      InsertIsStable(xs[0], SortBy(xs[1..], key), key, k);
      HeadAndTail(xs);
    }
  }

  lemma {:induction false} LeastKeyComesFirst<T>(xs: seq<T>, key: T -> real, k: real)
    requires IsSorted(xs, key) && WithKey(xs, key, k) != []
    ensures xs != [] && key(xs[0]) <= k
  {
    if key(xs[0]) != k {
      LeastKeyComesFirst(xs[1..], key, k);
    }
  }

  lemma WithKeyOfTail<T>(xs: seq<T>, key: T -> real, k: real)
    requires xs != []
    ensures WithKey(xs[1..], key, k) == WithKey(xs, key, k)[if key(xs[0]) == k then 1 else 0..]
  {
  }

  lemma {:induction false} SortedIsDetermined<T>(xs: seq<T>, ys: seq<T>, key: T -> real)
    requires IsSorted(xs, key) && IsSorted(ys, key)
    requires forall k: real :: WithKey(xs, key, k) == WithKey(ys, key, k)
    ensures xs == ys
  {
    if xs != [] {
      LeastKeyComesFirst(ys, key, key(xs[0]));
    }
    if ys != [] {
      LeastKeyComesFirst(xs, key, key(ys[0]));
      assert WithKey(xs, key, key(xs[0]))[0] == xs[0];
      assert WithKey(ys, key, key(xs[0]))[0] == ys[0];
      forall k: real ensures WithKey(xs[1..], key, k) == WithKey(ys[1..], key, k) {
        WithKeyOfTail(xs, key, k);
        WithKeyOfTail(ys, key, k);
      }
      SortedIsDetermined(xs[1..], ys[1..], key);
      HeadAndTail(xs);
      HeadAndTail(ys);
    }
  }

  /** Every stable sort gives the same result as this one. */
  lemma StableSortIsUnique<T>(xs: seq<T>, ys: seq<T>, key: T -> real)
    requires IsSorted(ys, key) && forall k: real :: WithKey(ys, key, k) == WithKey(xs, key, k)
    ensures ys == SortBy(xs, key)
  {
    forall k: real ensures IsSorted(SortBy(xs, key), key) && WithKey(SortBy(xs, key), key, k) == WithKey(ys, key, k) {
      SortIsStable(xs, key, k);
      assert WithKey(ys, key, k) == WithKey(xs, key, k);
    }
    SortIsStable(xs, key, 0.0);
    SortedIsDetermined(ys, SortBy(xs, key), key);
  }

  /** The first of the sorted elements is the first among those with the least key. */
  lemma {:induction false} FirstOfSorted<T>(xs: seq<T>, key: T -> real)
    requires xs != []
    ensures SortBy(xs, key) != []
    ensures exists i :: 0 <= i < |xs| && SortBy(xs, key)[0] == xs[i]
                        && (forall j :: 0 <= j < |xs| ==> key(xs[i]) <= key(xs[j]))
                        && (forall j :: 0 <= j < i ==> key(xs[i]) < key(xs[j]))
  {
    if |xs| == 1 {
      assert SortBy(xs[1..], key) == [];
    } else {
      FirstOfSorted(xs[1..], key);
      var i :| 0 <= i < |xs| - 1 && SortBy(xs[1..], key)[0] == xs[1..][i]
               && (forall j :: 0 <= j < |xs| - 1 ==> key(xs[1..][i]) <= key(xs[1..][j]))
               && (forall j :: 0 <= j < i ==> key(xs[1..][i]) < key(xs[1..][j]));
      assert forall j :: 1 <= j < |xs| ==> xs[j] == xs[1..][j - 1];
      if key(xs[0]) <= key(xs[i + 1]) {
        assert SortBy(xs, key)[0] == xs[0];
      } else {
        assert SortBy(xs, key)[0] == xs[i + 1];
      }
    }
  }
}
