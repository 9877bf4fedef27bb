/**
 * A stable sort on a real-valued key, highest key first: Python's
 * sorted(..., key=k, reverse=True), which keeps equal-key elements in input order.
 */
module StableSort {

  /** Non-increasing by key. */
  predicate SortedDescending<T>(key: T -> real, s: seq<T>) {
    forall i, j :: 0 <= i < j < |s| ==> key(s[i]) >= key(s[j])
  }

  /** Inserts x before the first element whose key is not above x's. */
  function InsertDescending<T>(key: T -> real, x: T, s: seq<T>): seq<T> {
    if |s| == 0 || key(x) >= key(s[0]) then [x] + s
    else [s[0]] + InsertDescending(key, x, s[1..])
  }

  lemma SortedTail<T>(key: T -> real, s: seq<T>)
    requires SortedDescending(key, s) && |s| > 0
    ensures SortedDescending(key, s[1..])
  {
    assert forall i :: 0 <= i < |s| - 1 ==> s[1..][i] == s[i + 1];
  }

  /** Prepending an element no lower than the head keeps a list non-increasing. */
  lemma SortedCons<T>(key: T -> real, y: T, t: seq<T>)
    requires SortedDescending(key, t)
    requires |t| > 0 ==> key(y) >= key(t[0])
    ensures SortedDescending(key, [y] + t)
  {
    var s := [y] + t;
    forall i, j | 0 <= i < j < |s|
      ensures key(s[i]) >= key(s[j])
    {
      assert s[j] == t[j - 1];
      if i > 0 {
        assert s[i] == t[i - 1];
      } else if j > 1 {
        assert key(t[0]) >= key(t[j - 1]);
      }
    }
  }

  /** Insertion adds one element, and the new head is x or the old head. */
  lemma {:induction false} InsertDescendingShape<T>(key: T -> real, x: T, s: seq<T>)
    ensures |InsertDescending(key, x, s)| == |s| + 1
    ensures InsertDescending(key, x, s)[0] == x || (|s| > 0 && InsertDescending(key, x, s)[0] == s[0])
  {
    if |s| > 0 && key(x) < key(s[0]) {
      InsertDescendingShape(key, x, s[1..]);
    }
  }

  /** Insertion adds exactly x and loses nothing. */
  lemma {:induction false} InsertDescendingPermutes<T>(key: T -> real, x: T, s: seq<T>)
    ensures multiset(InsertDescending(key, x, s)) == multiset(s) + multiset{x}
  {
    if |s| > 0 && key(x) < key(s[0]) {
      InsertDescendingPermutes(key, x, s[1..]);
      assert s == [s[0]] + s[1..];
    }
  }

  /** Inserting into a non-increasing list keeps it non-increasing. */
  lemma {:induction false} InsertDescendingSorted<T>(key: T -> real, x: T, s: seq<T>)
    requires SortedDescending(key, s)
    ensures SortedDescending(key, InsertDescending(key, x, s))
  {
    if |s| == 0 || key(x) >= key(s[0]) {
      SortedCons(key, x, s);
    } else {
      SortedTail(key, s);
      var rest := InsertDescending(key, x, s[1..]);
      InsertDescendingSorted(key, x, s[1..]);
      InsertDescendingShape(key, x, s[1..]);
      assert |s| > 1 ==> key(s[0]) >= key(s[1]);
      SortedCons(key, s[0], rest);
    }
  }

  /** Insertion sort, highest key first. */
  function SortDescending<T>(key: T -> real, s: seq<T>): (r: seq<T>)
    ensures SortedDescending(key, r)
    ensures multiset(r) == multiset(s)
    ensures |r| == |s|
  {
    if |s| == 0 then []
    else
      assert s == [s[0]] + s[1..];
      var rest := SortDescending(key, s[1..]);
      InsertDescendingShape(key, s[0], rest);
      InsertDescendingPermutes(key, s[0], rest);
      InsertDescendingSorted(key, s[0], rest);
      InsertDescending(key, s[0], rest)
  }

  /** The elements carrying key k, in order. */
  function WithKey<T>(key: T -> real, s: seq<T>, k: real): (r: seq<T>)
    ensures |r| <= |s|
  {
    if |s| == 0 then []
    else (if key(s[0]) == k then [s[0]] else []) + WithKey(key, s[1..], k)
  }

  lemma WithKeyCons<T>(key: T -> real, y: T, t: seq<T>, k: real)
    ensures WithKey(key, [y] + t, k) == (if key(y) == k then [y] else []) + WithKey(key, t, k)
  {
    assert ([y] + t)[1..] == t;
  }

  /** Inserting x adds x to x's key class, at its front, and leaves every class otherwise alone. */
  lemma {:induction false} WithKeyInsert<T>(key: T -> real, x: T, s: seq<T>, k: real)
    ensures WithKey(key, InsertDescending(key, x, s), k) ==
      (if key(x) == k then [x] else []) + WithKey(key, s, k)
  {
    if |s| == 0 || key(x) >= key(s[0]) {
      WithKeyCons(key, x, s, k);
    } else {
      var rest := InsertDescending(key, x, s[1..]);
      var tail := WithKey(key, s[1..], k);
      WithKeyInsert(key, x, s[1..], k);
      WithKeyCons(key, s[0], rest, k);
      WithKeyCons(key, s[0], s[1..], k);
      assert [s[0]] + s[1..] == s;
      if key(x) == k {
        assert WithKey(key, rest, k) == [x] + tail;
        assert WithKey(key, s, k) == tail;
      } else if key(s[0]) == k {
        assert WithKey(key, rest, k) == tail;
      } else {
        assert WithKey(key, rest, k) == tail;
        assert WithKey(key, s, k) == tail;
      }
    }
  }

  /** Stability: the elements sharing any one key keep their input order. */
  lemma {:induction false} SortDescendingStable<T>(key: T -> real, s: seq<T>, k: real)
    ensures WithKey(key, SortDescending(key, s), k) == WithKey(key, s, k)
  {
    if |s| > 0 {
      SortDescendingStable(key, s[1..], k);
      WithKeyInsert(key, s[0], SortDescending(key, s[1..]), k);
    }
  }

  /** Two elements with distinct keys come out higher first, whichever order they went in. */
  lemma SortTwo<T>(key: T -> real, hi: T, lo: T)
    requires key(hi) > key(lo)
    ensures SortDescending(key, [hi, lo]) == [hi, lo]
    ensures SortDescending(key, [lo, hi]) == [hi, lo]
  {
    assert [hi, lo][1..] == [lo];
    assert [lo, hi][1..] == [hi];
    assert [lo][1..] == [] && [hi][1..] == [];
    assert SortDescending(key, [lo]) == [lo];
    assert SortDescending(key, [hi]) == [hi];
    assert InsertDescending(key, lo, []) == [lo];
  }

  /** A permutation holds every element of the original somewhere. */
  lemma PermutationKeepsElement<T>(a: seq<T>, b: seq<T>, i: int)
    requires multiset(a) == multiset(b)
    requires 0 <= i < |a|
    ensures |b| == |a|
    ensures exists k :: 0 <= k < |b| && b[k] == a[i]
  {
    assert |multiset(a)| == |multiset(b)|;
    assert a[i] in multiset(a);
    assert a[i] in b;
  }
}
