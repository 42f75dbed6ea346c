/** The stable sort that `Array.prototype.sort` performs with a numeric
    comparator `(a, b) => key(a) - key(b)`: ascending by an integer key, and
    elements with equal keys keep their original relative order. */
module Sorting {
  import opened Seqs

  ghost predicate SortedBy<T>(s: seq<T>, key: T -> int) {
    forall i, j :: 0 <= i < j < |s| ==> key(s[i]) <= key(s[j])
  }

  /** The elements of `s` whose key is `v`, in the order of `s`. */
  function KeyClass<T>(s: seq<T>, key: T -> int, v: int): seq<T> {
    if s == [] then []
    else (if key(s[0]) == v then [s[0]] else []) + KeyClass(s[1..], key, v)
  }

  lemma {:induction false} KeyClassAppend<T>(a: seq<T>, b: seq<T>, key: T -> int, v: int)
    ensures KeyClass(a + b, key, v) == KeyClass(a, key, v) + KeyClass(b, key, v)
  {
    if a == [] {
      assert a + b == b;
    } else {
      assert (a + b)[0] == a[0];
      assert (a + b)[1..] == a[1..] + b;
      KeyClassAppend(a[1..], b, key, v);
      calc {
        KeyClass(a + b, key, v);
        (if key(a[0]) == v then [a[0]] else []) + KeyClass(a[1..] + b, key, v);
        (if key(a[0]) == v then [a[0]] else []) + (KeyClass(a[1..], key, v) + KeyClass(b, key, v));
      }
    }
  }

  lemma {:induction false} KeyClassEmpty<T>(s: seq<T>, key: T -> int, v: int)
    requires forall y :: y in s ==> key(y) != v
    ensures KeyClass(s, key, v) == []
  {
    if s != [] {
      assert s[0] in s;
      KeyClassEmpty(s[1..], key, v);
    }
  }

  /** Places `x` after every element whose key is at most its own. */
  function Insert<T>(sorted: seq<T>, x: T, key: T -> int): (r: seq<T>)
    ensures |r| == |sorted| + 1
  {
    if sorted == [] || key(x) < key(sorted[0]) then [x] + sorted
    else [sorted[0]] + Insert(sorted[1..], x, key)
  }

  lemma {:induction false} InsertMultiset<T>(sorted: seq<T>, x: T, key: T -> int)
    ensures multiset(Insert(sorted, x, key)) == multiset(sorted) + multiset{x}
  {
    if sorted != [] && key(x) >= key(sorted[0]) {
      InsertMultiset(sorted[1..], x, key);
      assert sorted == [sorted[0]] + sorted[1..];
    }
  }

  lemma {:induction false} InsertSorted<T>(sorted: seq<T>, x: T, key: T -> int)
    requires SortedBy(sorted, key)
    ensures SortedBy(Insert(sorted, x, key), key)
  {
    if sorted != [] && key(x) >= key(sorted[0]) {
      var rest := Insert(sorted[1..], x, key);
      InsertSorted(sorted[1..], x, key);
      InsertMultiset(sorted[1..], x, key);
      forall y | y in rest ensures key(sorted[0]) <= key(y) {
        assert y in multiset(rest);
      }
      assert forall k :: 0 <= k < |rest| ==> rest[k] in rest;
    }
  }

  lemma {:induction false} InsertClass<T>(sorted: seq<T>, x: T, key: T -> int, v: int)
    requires SortedBy(sorted, key)
    ensures KeyClass(Insert(sorted, x, key), key, v) == KeyClass(sorted, key, v) + (if key(x) == v then [x] else [])
  {
    if sorted == [] || key(x) < key(sorted[0]) {
      if key(x) == v {
        assert forall k :: 0 <= k < |sorted| ==> key(sorted[0]) <= key(sorted[k]);
        KeyClassEmpty(sorted, key, v);
      }
      assert ([x] + sorted)[1..] == sorted;
    } else {
      InsertClass(sorted[1..], x, key, v);
      assert ([sorted[0]] + Insert(sorted[1..], x, key))[1..] == Insert(sorted[1..], x, key);
    }
  }

  /** Insertion sort, stable because each later element is inserted after the
      earlier elements with the same key. */
  function SortBy<T(==)>(s: seq<T>, key: T -> int): (r: seq<T>)
    ensures SortedBy(r, key)
    ensures multiset(r) == multiset(s)
    ensures forall v :: KeyClass(r, key, v) == KeyClass(s, key, v)
  {
    if s == [] then []
    else
      var init := s[..|s| - 1];
      var last := s[|s| - 1];
      assert s == init + [last];
      var sortedInit := SortBy(init, key);
      InsertSorted(sortedInit, last, key);
      InsertMultiset(sortedInit, last, key);
      forall v ensures KeyClass(Insert(sortedInit, last, key), key, v) == KeyClass(s, key, v) {
        KeyClassAppend(init, [last], key, v);
        InsertClass(sortedInit, last, key, v);
      }
      Insert(sortedInit, last, key)
  }

  /** An element whose key is at least every key of `sorted` goes at the end. */
  lemma {:induction false} InsertLargest<T>(sorted: seq<T>, x: T, key: T -> int)
    requires SortedBy(sorted, key)
    requires forall y :: y in sorted ==> key(y) <= key(x)
    ensures Insert(sorted, x, key) == sorted + [x]
  {
    if sorted != [] {
      assert sorted[0] in sorted;
      InsertLargest(sorted[1..], x, key);
      assert sorted == [sorted[0]] + sorted[1..];
    }
  }

  /** A sequence that is already sorted is left as it is. */
  lemma {:induction false} SortSorted<T(!new)>(s: seq<T>, key: T -> int)
    requires SortedBy(s, key)
    ensures SortBy(s, key) == s
  {
    if s != [] {
      var init := s[..|s| - 1];
      var last := s[|s| - 1];
      assert SortedBy(init, key) by {
        forall i, j | 0 <= i < j < |init| ensures key(init[i]) <= key(init[j]) {
          assert init[i] == s[i] && init[j] == s[j];
        }
      }
      forall y | y in init ensures key(y) <= key(last) {
        var i :| 0 <= i < |init| && init[i] == y;
        assert s[i] == y;
      }
      SortSorted(init, key);
      InsertLargest(init, last, key);
      assert s == init + [last];
    }
  }

  /** Filtering keeps a sequence sorted. */
  lemma {:induction false} FilterSorted<T(!new)>(s: seq<T>, p: T -> bool, key: T -> int)
    requires SortedBy(s, key)
    ensures SortedBy(Filter(s, p), key)
  {
    if s != [] {
      var rest := Filter(s[1..], p);
      FilterSorted(s[1..], p, key);
      if p(s[0]) {
        forall k | 0 <= k < |rest| ensures key(s[0]) <= key(rest[k]) {
          assert rest[k] in s[1..];
          var j :| 0 <= j < |s[1..]| && s[1..][j] == rest[k];
          assert s[j + 1] == rest[k];
        }
        var r := [s[0]] + rest;
        forall i, j | 0 <= i < j < |r| ensures key(r[i]) <= key(r[j]) {
          assert r[j] == rest[j - 1];
          if i > 0 {
            assert r[i] == rest[i - 1];
          }
        }
      }
    }
  }
}
