/**
  Python's `sorted(xs, key=f)` and `xs.sort(key=f, reverse=...)`: a stable
  sort by an integer key. Python's sort with `reverse=True` keeps elements of
  equal key in their original order, so it is the stable ascending sort on the
  negated key.
 */
module Sorting {

  predicate SortedBy<T>(s: seq<T>, key: T -> int) {
    forall i, j :: 0 <= i < j < |s| ==> key(s[i]) <= key(s[j])
  }

  /** The elements of `s` whose key is `k`, in their order in `s`. */
  function WithKey<T>(s: seq<T>, key: T -> int, k: int): (r: seq<T>)
    ensures |r| <= |s|
  {
    if s == [] then []
    else (if key(s[0]) == k then [s[0]] else []) + WithKey(s[1..], key, k)
  }

  /** Puts `x` in front of the first element whose key is not below its own. */
  function Insert<T>(x: T, t: seq<T>, key: T -> int): seq<T> {
    if t == [] || key(x) <= key(t[0]) then [x] + t
    else [t[0]] + Insert(x, t[1..], key)
  }

  /** The stable sort of `s` by `key`. */
  function Sort<T>(s: seq<T>, key: T -> int): seq<T> {
    if s == [] then [] else Insert(s[0], Sort(s[1..], key), key)
  }

  /** Sorting in descending key order with Python's `reverse=True`. */
  function SortDescending<T>(s: seq<T>, key: T -> int): seq<T> {
    Sort(s, x => -key(x))
  }

  lemma {:induction false} InsertSorted<T>(x: T, t: seq<T>, key: T -> int)
    requires SortedBy(t, key)
    ensures SortedBy(Insert(x, t, key), key)
    ensures forall i :: 0 <= i < |Insert(x, t, key)| ==> Insert(x, t, key)[i] == x || Insert(x, t, key)[i] in t
  {
    if t == [] || key(x) <= key(t[0]) {
    } else {
      InsertSorted(x, t[1..], key);
      var r := Insert(x, t[1..], key);
      assert Insert(x, t, key) == [t[0]] + r;
      forall i | 0 <= i < |r| ensures key(t[0]) <= key(r[i]) {
        if r[i] != x {
          assert r[i] in t[1..];
        }
      }
    }
  }

  lemma {:induction false} InsertPermutation<T>(x: T, t: seq<T>, key: T -> int)
    ensures multiset(Insert(x, t, key)) == multiset{x} + multiset(t)
  {
    if t == [] || key(x) <= key(t[0]) {
    } else {
      InsertPermutation(x, t[1..], key);
      assert t == [t[0]] + t[1..];
    }
  }

  lemma {:induction false} WithKeyAppend<T>(a: seq<T>, b: seq<T>, key: T -> int, k: int)
    ensures WithKey(a + b, key, k) == WithKey(a, key, k) + WithKey(b, key, k)
  {
    if a == [] {
      assert a + b == b;
    } else {
      var h := if key(a[0]) == k then [a[0]] else [];
      var ta, tb := WithKey(a[1..], key, k), WithKey(b, key, k);
      WithKeyAppend(a[1..], b, key, k);
      assert (a + b)[0] == a[0] && (a + b)[1..] == a[1..] + b;
      assert WithKey(a + b, key, k) == h + WithKey(a[1..] + b, key, k);
      assert WithKey(a, key, k) == h + ta;
      assert h + (ta + tb) == (h + ta) + tb;
    }
  }

  /** `x` lands before every element of its own key: insertion keeps ties in order. */
  lemma {:induction false} InsertStable<T>(x: T, t: seq<T>, key: T -> int, k: int)
    ensures WithKey(Insert(x, t, key), key, k) == WithKey([x], key, k) + WithKey(t, key, k)
  {
    if t == [] || key(x) <= key(t[0]) {
      WithKeyAppend([x], t, key, k);
    } else {
      InsertStable(x, t[1..], key, k);
      WithKeyAppend([t[0]], Insert(x, t[1..], key), key, k);
      WithKeyAppend([t[0]], t[1..], key, k);
      assert [t[0]] + t[1..] == t;
      if key(x) == k {
        assert key(t[0]) != k;
      }
    }
  }

  /** `Sort` returns a permutation of its input in key order. */
  lemma {:induction false} SortCorrect<T>(s: seq<T>, key: T -> int)
    ensures SortedBy(Sort(s, key), key)
    ensures multiset(Sort(s, key)) == multiset(s)
    ensures |Sort(s, key)| == |s|
  {
    if s != [] {
      SortCorrect(s[1..], key);
      InsertSorted(s[0], Sort(s[1..], key), key);
      InsertPermutation(s[0], Sort(s[1..], key), key);
      assert s == [s[0]] + s[1..];
      assert |multiset(Sort(s, key))| == |multiset(s)|;
    }
  }

  /** `Sort` is stable: the elements of each key keep their input order. */
  lemma {:induction false} SortStable<T>(s: seq<T>, key: T -> int, k: int)
    ensures WithKey(Sort(s, key), key, k) == WithKey(s, key, k)
  {
    if s != [] {
      SortStable(s[1..], key, k);
      InsertStable(s[0], Sort(s[1..], key), key, k);
      WithKeyAppend([s[0]], s[1..], key, k);
      assert [s[0]] + s[1..] == s;
    }
  }

  /** `SortDescending` orders by non-increasing key and keeps ties in input order. */
  lemma SortDescendingCorrect<T>(s: seq<T>, key: T -> int, k: int)
    ensures forall i, j :: 0 <= i < j < |SortDescending(s, key)| ==>
              key(SortDescending(s, key)[i]) >= key(SortDescending(s, key)[j])
    ensures multiset(SortDescending(s, key)) == multiset(s)
    ensures WithKey(SortDescending(s, key), x => -key(x), -k) == WithKey(s, x => -key(x), -k)
  {
    SortCorrect(s, x => -key(x));
    SortStable(s, x => -key(x), -k);
  }
}
