/** Python's `list.sort(key=...)`: a stable sort, written as insertion
    sort on sequences. The order is given as a relation `before` on keys,
    so that both ascending and `reverse=True` sorts are instances. */
module StableSort {
  import Text

  /** `before` is a strict total order on keys. */
  ghost predicate StrictTotalOrder<K(!new)>(before: (K, K) -> bool) {
    && (forall a :: !before(a, a))
    && (forall a, b, c :: before(a, b) && before(b, c) ==> before(a, c))
    && (forall a, b :: a != b ==> before(a, b) || before(b, a))
  }

  /** No element's key comes before the key of an element ahead of it. */
  ghost predicate Sorted<T, K>(key: T -> K, before: (K, K) -> bool, s: seq<T>) {
    forall i, j :: 0 <= i < j < |s| ==> !before(key(s[j]), key(s[i]))
  }

  /** The elements of `s` whose key is `k`, in the order of `s`. */
  function WithKey<T, K(==)>(key: T -> K, s: seq<T>, k: K): (r: seq<T>)
    ensures |r| <= |s|
  {
    if s == [] then []
    else (if key(s[0]) == k then [s[0]] else []) + WithKey(key, s[1..], k)
  }

  /** Inserts `x` after every element whose key does not come after it. */
  function Insert<T, K>(key: T -> K, before: (K, K) -> bool, x: T, s: seq<T>): (r: seq<T>)
    ensures multiset(r) == multiset(s) + multiset{x}
    ensures |r| == |s| + 1
  {
    if s == [] then [x]
    else if before(key(x), key(s[0])) then [x] + s
    else
      var r := [s[0]] + Insert(key, before, x, s[1..]);
      assert s == [s[0]] + s[1..];
      r
  }

  /** The stable sort of `s`: the result of inserting its elements one by
      one, in order. */
  function Sort<T, K>(key: T -> K, before: (K, K) -> bool, s: seq<T>): (r: seq<T>)
    ensures multiset(r) == multiset(s)
    ensures |r| == |s|
  {
    if s == [] then []
    else
      var init := s[..|s| - 1];
      assert s == init + [s[|s| - 1]];
      Insert(key, before, s[|s| - 1], Sort(key, before, init))
  }

  // ---------------------------------------------------------------- lemmas

  lemma {:induction false} InsertSorted<T, K(!new)>(key: T -> K, before: (K, K) -> bool, x: T, s: seq<T>)
    requires StrictTotalOrder(before)
    requires Sorted(key, before, s)
    ensures Sorted(key, before, Insert(key, before, x, s))
  {
    if s != [] && !before(key(x), key(s[0])) {
      SortedTail(key, before, s);
      InsertSorted(key, before, x, s[1..]);
      var t := Insert(key, before, x, s[1..]);
      assert Insert(key, before, x, s) == [s[0]] + t;
      InsertAfterHead(key, before, x, s);
      SortedCons(key, before, s[0], t);
    } else if s != [] {
      SortedCons(key, before, x, s);
    }
  }

  /** Every element of the insertion into the tail keeps its place
      behind the head. */
  lemma {:induction false} InsertAfterHead<T, K(!new)>(key: T -> K, before: (K, K) -> bool, x: T, s: seq<T>)
    requires Sorted(key, before, s)
    requires s != [] && !before(key(x), key(s[0]))
    ensures forall j :: 0 <= j < |Insert(key, before, x, s[1..])| ==> !before(key(Insert(key, before, x, s[1..])[j]), key(s[0]))
  {
    var t := Insert(key, before, x, s[1..]);
    forall j | 0 <= j < |t|
      ensures !before(key(t[j]), key(s[0]))
    {
      var e := t[j];
      assert e in multiset(t);
      assert e in multiset(s[1..]) + multiset{x};
      if e in multiset(s[1..]) {
        var m :| 0 <= m < |s[1..]| && s[1..][m] == e;
        assert s[1 + m] == e;
      }
    }
  }

  /** A sorted sequence stays sorted with a head no later than its elements. */
  lemma {:induction false} SortedCons<T, K>(key: T -> K, before: (K, K) -> bool, y: T, t: seq<T>)
    requires Sorted(key, before, t)
    requires forall j :: 0 <= j < |t| ==> !before(key(t[j]), key(y))
    ensures Sorted(key, before, [y] + t)
  {
    var r := [y] + t;
    forall i, j | 0 <= i < j < |r|
      ensures !before(key(r[j]), key(r[i]))
    {
      assert r[j] == t[j - 1];
      if i > 0 {
        assert r[i] == t[i - 1];
      }
    }
  }

  /** The sort result is ordered. */
  lemma {:induction false} SortSorted<T, K(!new)>(key: T -> K, before: (K, K) -> bool, s: seq<T>)
    requires StrictTotalOrder(before)
    ensures Sorted(key, before, Sort(key, before, s))
  {
    if s != [] {
      SortSorted(key, before, s[..|s| - 1]);
      InsertSorted(key, before, s[|s| - 1], Sort(key, before, s[..|s| - 1]));
    }
  }

  lemma {:induction false} WithKeyAppend<T, K>(key: T -> K, a: seq<T>, b: seq<T>, k: K)
    ensures WithKey(key, a + b, k) == WithKey(key, a, k) + WithKey(key, b, k)
  {
    if a != [] {
      assert (a + b)[1..] == a[1..] + b;
      WithKeyAppend(key, a[1..], b, k);
    } else {
      assert a + b == b;
    }
  }

  lemma {:induction false} WithKeyNone<T, K>(key: T -> K, s: seq<T>, k: K)
    requires forall i :: 0 <= i < |s| ==> key(s[i]) != k
    ensures WithKey(key, s, k) == []
  {
    if s != [] {
      WithKeyNone(key, s[1..], k);
    }
  }

  lemma {:induction false} InsertStable<T, K(!new)>(key: T -> K, before: (K, K) -> bool, x: T, s: seq<T>, k: K)
    requires StrictTotalOrder(before)
    requires Sorted(key, before, s)
    ensures WithKey(key, Insert(key, before, x, s), k)
         == WithKey(key, s, k) + (if key(x) == k then [x] else [])
  {
    if s == [] {
      WithKeyCons(key, x, [], k);
      assert [x] + [] == [x];
    } else if before(key(x), key(s[0])) {
      InsertStableFront(key, before, x, s, k);
    } else {
      SortedTail(key, before, s);
      InsertStable(key, before, x, s[1..], k);
      var t := Insert(key, before, x, s[1..]);
      assert Insert(key, before, x, s) == [s[0]] + t;
      WithKeyCons(key, s[0], t, k);
      WithKeyCons(key, s[0], s[1..], k);
      assert [s[0]] + s[1..] == s;
      var c0 := if key(s[0]) == k then [s[0]] else [];
      var cx := if key(x) == k then [x] else [];
      var rest := WithKey(key, s[1..], k);
      assert WithKey(key, Insert(key, before, x, s), k) == c0 + (rest + cx);
      assert WithKey(key, s, k) == c0 + rest;
      Text.AppendAssociative(c0, rest, cx);
    }
  }

  lemma {:induction false} WithKeyCons<T, K>(key: T -> K, y: T, t: seq<T>, k: K)
    ensures WithKey(key, [y] + t, k) == (if key(y) == k then [y] else []) + WithKey(key, t, k)
  {
    assert ([y] + t)[1..] == t;
  }

  /** Inserted in front, `x` comes after no element of its own key. */
  lemma {:induction false} InsertStableFront<T, K(!new)>(key: T -> K, before: (K, K) -> bool, x: T, s: seq<T>, k: K)
    requires StrictTotalOrder(before)
    requires Sorted(key, before, s)
    requires s != [] && before(key(x), key(s[0]))
    ensures WithKey(key, [x] + s, k) == WithKey(key, s, k) + (if key(x) == k then [x] else [])
  {
    assert ([x] + s)[1..] == s;
    if key(x) == k {
      forall i | 0 <= i < |s|
        ensures key(s[i]) != k
      {
        if i > 0 {
          assert !before(key(s[i]), key(s[0]));
        }
      }
      WithKeyNone(key, s, k);
    }
  }

  /** The sort is stable: the elements with any one key appear in the
      result in the same order as in the input. */
  lemma {:induction false} SortStable<T, K(!new)>(key: T -> K, before: (K, K) -> bool, s: seq<T>, k: K)
    requires StrictTotalOrder(before)
    ensures WithKey(key, Sort(key, before, s), k) == WithKey(key, s, k)
  {
    if s != [] {
      var init := s[..|s| - 1];
      var x := s[|s| - 1];
      SortStable(key, before, init, k);
      SortSorted(key, before, init);
      InsertStable(key, before, x, Sort(key, before, init), k);
      SortStableStep(key, before, s, k);
    }
  }

  lemma {:induction false} SortStableStep<T, K>(key: T -> K, before: (K, K) -> bool, s: seq<T>, k: K)
    requires s != []
    requires WithKey(key, Sort(key, before, s[..|s| - 1]), k) == WithKey(key, s[..|s| - 1], k)
    requires WithKey(key, Insert(key, before, s[|s| - 1], Sort(key, before, s[..|s| - 1])), k)
          == WithKey(key, Sort(key, before, s[..|s| - 1]), k) + (if key(s[|s| - 1]) == k then [s[|s| - 1]] else [])
    ensures WithKey(key, Sort(key, before, s), k) == WithKey(key, s, k)
  {
    var init := s[..|s| - 1];
    var x := s[|s| - 1];
    var tail := if key(x) == k then [x] else [];
    assert Sort(key, before, s) == Insert(key, before, x, Sort(key, before, init));
    assert WithKey(key, Sort(key, before, s), k) == WithKey(key, init, k) + tail;
    WithKeyLast(key, s, k);
  }

  lemma {:induction false} WithKeyLast<T, K>(key: T -> K, s: seq<T>, k: K)
    requires s != []
    ensures WithKey(key, s, k)
         == WithKey(key, s[..|s| - 1], k) + (if key(s[|s| - 1]) == k then [s[|s| - 1]] else [])
  {
    var init := s[..|s| - 1];
    var x := s[|s| - 1];
    assert s == init + [x];
    WithKeyAppend(key, init, [x], k);
    assert [x][1..] == [];
  }

  /** Sorting by the elements themselves. */
  function Id<T>(x: T): T { x }

  /** Under a strict total order there is only one sorted arrangement of
      a collection: two sorted permutations of each other are equal. */
  lemma {:induction false} SortedUnique<T(!new)>(before: (T, T) -> bool, a: seq<T>, b: seq<T>)
    requires StrictTotalOrder(before)
    requires Sorted(Id, before, a) && Sorted(Id, before, b)
    requires multiset(a) == multiset(b)
    ensures a == b
    decreases |a|
  {
    assert |a| == |multiset(a)| == |multiset(b)| == |b|;
    if a != [] {
      SameFirst(before, a, b);
      TailMultiset(a);
      TailMultiset(b);
      SortedTail(Id, before, a);
      SortedTail(Id, before, b);
      SortedUnique(before, a[1..], b[1..]);
      assert a == [a[0]] + a[1..] && b == [b[0]] + b[1..];
    }
  }

  /** Sorted permutations of each other start with the same element. */
  lemma {:induction false} SameFirst<T(!new)>(before: (T, T) -> bool, a: seq<T>, b: seq<T>)
    requires StrictTotalOrder(before)
    requires Sorted(Id, before, a) && Sorted(Id, before, b)
    requires multiset(a) == multiset(b) && a != [] && b != []
    ensures a[0] == b[0]
  {
    assert a[0] in multiset(b) && b[0] in multiset(a);
    var j :| 0 <= j < |b| && b[j] == a[0];
    var k :| 0 <= k < |a| && a[k] == b[0];
    assert !before(a[0], b[0]) by {
      if j > 0 {
        assert !before(Id(b[j]), Id(b[0]));
      }
    }
    assert !before(b[0], a[0]) by {
      if k > 0 {
        assert !before(Id(a[k]), Id(a[0]));
      }
    }
  }

  lemma {:induction false} TailMultiset<T>(s: seq<T>)
    requires s != []
    ensures multiset(s[1..]) == multiset(s) - multiset{s[0]}
  {
    assert s == [s[0]] + s[1..];
  }

  lemma {:induction false} SortedTail<T, K>(key: T -> K, before: (K, K) -> bool, s: seq<T>)
    requires Sorted(key, before, s) && s != []
    ensures Sorted(key, before, s[1..])
  {
    forall i, j | 0 <= i < j < |s[1..]|
      ensures !before(key(s[1..][j]), key(s[1..][i]))
    {
      assert s[1..][j] == s[j + 1] && s[1..][i] == s[i + 1];
    }
  }
}
