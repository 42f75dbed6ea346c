/** Sequence helpers shared by every part of the assistant: the JavaScript array
    operations `filter`, `some` and `find`, and the facts about order and
    duplicates that the rest of the model states its results with. */
module Seqs {

  datatype Option<+T> = None | Some(value: T)

  /** `r` is an order-preserving sublist of `s` (some elements of `s` dropped). */
  ghost predicate IsSubsequence<T>(r: seq<T>, s: seq<T>)
    decreases |s|
  {
    r == [] || (s != [] && ((r[0] == s[0] && IsSubsequence(r[1..], s[1..])) || IsSubsequence(r, s[1..])))
  }

  ghost predicate NoDuplicates<T>(s: seq<T>) {
    forall i, j :: 0 <= i < j < |s| ==> s[i] != s[j]
  }

  /** `Array.prototype.filter`: the elements satisfying `p`, in their original order. */
  function Filter<T(==,!new)>(s: seq<T>, p: T -> bool): (r: seq<T>)
    ensures |r| <= |s|
    ensures forall x :: x in r <==> x in s && p(x)
    ensures IsSubsequence(r, s)
    ensures multiset(r) <= multiset(s)
  {
    if s == [] then []
    else
      var rest := Filter(s[1..], p);
      assert s == [s[0]] + s[1..];
      if p(s[0]) then
        assert ([s[0]] + rest)[1..] == rest;
        [s[0]] + rest
      else rest
  }

  /** `Filter` keeps every copy of an element `p` accepts and drops every copy of
      one it rejects. */
  lemma {:induction false} FilterCounts<T(!new)>(s: seq<T>, p: T -> bool)
    ensures forall x :: multiset(Filter(s, p))[x] == if p(x) then multiset(s)[x] else 0
  {
    if s != [] {
      FilterCounts(s[1..], p);
      assert s == [s[0]] + s[1..];
      assert multiset(s) == multiset{s[0]} + multiset(s[1..]);
    }
  }

  /** `Array.prototype.some`. */
  function Any<T(==,!new)>(s: seq<T>, p: T -> bool): (r: bool)
    ensures r <==> exists x :: x in s && p(x)
  {
    if s == [] then false
    else
      assert s == [s[0]] + s[1..];
      p(s[0]) || Any(s[1..], p)
  }

  /** `Array.prototype.find`: the first element satisfying `p`, if any. */
  function Find<T(==,!new)>(s: seq<T>, p: T -> bool): (r: Option<T>)
    ensures r.None? <==> forall x :: x in s ==> !p(x)
    ensures r.Some? ==> exists i :: 0 <= i < |s| && s[i] == r.value && p(s[i]) && forall j :: 0 <= j < i ==> !p(s[j])
  {
    if s == [] then None
    else if p(s[0]) then Some(s[0])
    else
      var r := Find(s[1..], p);
      assert s == [s[0]] + s[1..];
      if r.Some? then
        var i :| 0 <= i < |s[1..]| && s[1..][i] == r.value && p(s[1..][i]) && forall j :: 0 <= j < i ==> !p(s[1..][j]);
        assert s[i + 1] == r.value && forall j :: 0 <= j < i + 1 ==> !p(s[j]);
        r
      else r
  }

  /** `slice(0, n)`. */
  function Take<T>(s: seq<T>, n: nat): (r: seq<T>)
    ensures |r| == if |s| <= n then |s| else n
    ensures r <= s
  {
    if |s| <= n then s else s[..n]
  }

  lemma {:induction false} FilterKeepsAll<T(!new)>(s: seq<T>, p: T -> bool)
    requires forall x :: x in s ==> p(x)
    ensures Filter(s, p) == s
  {
    if s != [] {
      assert s == [s[0]] + s[1..];
      FilterKeepsAll(s[1..], p);
    }
  }

  lemma {:induction false} FilterDropsAll<T(!new)>(s: seq<T>, p: T -> bool)
    requires forall x :: x in s ==> !p(x)
    ensures Filter(s, p) == []
  {
    if s != [] {
      FilterDropsAll(s[1..], p);
    }
  }

  lemma {:induction false} FilterAppend<T(!new)>(a: seq<T>, b: seq<T>, p: T -> bool)
    ensures Filter(a + b, p) == Filter(a, p) + Filter(b, p)
  {
    if a == [] {
      assert a + b == b;
    } else {
      assert (a + b)[1..] == a[1..] + b;
      assert (a + b)[0] == a[0];
      FilterAppend(a[1..], b, p);
    }
  }

  /** The first element kept by a filter is the first element of `s` that satisfies `p`. */
  lemma {:induction false} FilterHead<T(!new)>(s: seq<T>, p: T -> bool, i: nat)
    requires i < |s| && p(s[i])
    requires forall j :: 0 <= j < i ==> !p(s[j])
    ensures Filter(s, p) != [] && Filter(s, p)[0] == s[i]
  {
    if i > 0 {
      FilterHead(s[1..], p, i - 1);
    }
  }

  /** When exactly the elements at indices `lo` to `hi - 1` satisfy `p`, the filter is that slice. */
  lemma FilterSlice<T(!new)>(s: seq<T>, p: T -> bool, lo: nat, hi: nat)
    requires lo <= hi <= |s|
    requires forall i :: 0 <= i < |s| ==> (p(s[i]) <==> lo <= i < hi)
    ensures Filter(s, p) == s[lo..hi]
  {
    assert s == s[..lo] + s[lo..];
    FilterAppend(s[..lo], s[lo..], p);
    FilterBeforeSlice(s, p, lo, hi);
    FilterFromSlice(s, p, lo, hi);
  }

  lemma FilterBeforeSlice<T(!new)>(s: seq<T>, p: T -> bool, lo: nat, hi: nat)
    requires lo <= hi <= |s|
    requires forall i :: 0 <= i < |s| ==> (p(s[i]) <==> lo <= i < hi)
    ensures Filter(s[..lo], p) == []
  {
    var before := s[..lo];
    forall i | 0 <= i < |before| ensures !p(before[i]) {
      assert before[i] == s[i];
    }
    FilterByIndex(before, p, false);
  }

  lemma FilterFromSlice<T(!new)>(s: seq<T>, p: T -> bool, lo: nat, hi: nat)
    requires lo <= hi <= |s|
    requires forall i :: 0 <= i < |s| ==> (p(s[i]) <==> lo <= i < hi)
    ensures Filter(s[lo..], p) == s[lo..hi]
  {
    var from := s[lo..];
    forall i | 0 <= i < |from| ensures p(from[i]) <==> i < hi - lo {
      assert from[i] == s[lo + i];
    }
    FilterTakeWhile(from, p, hi - lo);
    SliceOfSuffix(s, lo, hi);
  }

  lemma SliceOfSuffix<T>(s: seq<T>, lo: nat, hi: nat)
    requires lo <= hi <= |s|
    ensures s[lo..][..hi - lo] == s[lo..hi]
  {
  }

  /** When exactly the first `n` elements satisfy `p`, the filter is those elements. */
  lemma {:induction false} FilterTakeWhile<T(!new)>(s: seq<T>, p: T -> bool, n: nat)
    requires n <= |s|
    requires forall i :: 0 <= i < |s| ==> (p(s[i]) <==> i < n)
    ensures Filter(s, p) == s[..n]
  {
    if n == 0 {
      FilterByIndex(s, p, false);
    } else {
      var rest := s[1..];
      forall i | 0 <= i < |rest| ensures p(rest[i]) <==> i < n - 1 {
        assert rest[i] == s[i + 1];
      }
      FilterTakeWhile(rest, p, n - 1);
      FilterStep(s, p);
      assert p(s[0]);
      assert s[..n] == [s[0]] + rest[..n - 1];
    }
  }

  /** One step of `Filter`. */
  lemma FilterStep<T(!new)>(s: seq<T>, p: T -> bool)
    requires s != []
    ensures Filter(s, p) == (if p(s[0]) then [s[0]] else []) + Filter(s[1..], p)
  {
  }

  /** Filtering where every element passes (or every element fails) the test. */
  lemma {:induction false} FilterByIndex<T(!new)>(s: seq<T>, p: T -> bool, all: bool)
    requires forall i :: 0 <= i < |s| ==> p(s[i]) == all
    ensures Filter(s, p) == if all then s else []
  {
    if s != [] {
      assert forall i :: 0 <= i < |s[1..]| ==> s[1..][i] == s[i + 1];
      FilterByIndex(s[1..], p, all);
      assert s == [s[0]] + s[1..];
    }
  }

  lemma {:induction false} SubsequenceOfItself<T>(s: seq<T>)
    ensures IsSubsequence(s, s)
  {
    if s != [] {
      SubsequenceOfItself(s[1..]);
    }
  }

  /** A single element of `s` is a subsequence of it. */
  lemma {:induction false} SingletonSubsequence<T>(s: seq<T>, x: T)
    requires x in s
    ensures IsSubsequence([x], s)
  {
    if s[0] != x {
      SingletonSubsequence(s[1..], x);
    } else {
      assert [x][1..] == [];
    }
  }

  /** `some` holds exactly when `filter` keeps something. */
  lemma AnyIffFilter<T(!new)>(s: seq<T>, p: T -> bool)
    ensures Any(s, p) <==> |Filter(s, p)| > 0
  {
    if Any(s, p) {
      var x :| x in s && p(x);
      assert x in Filter(s, p);
    }
  }

  lemma {:induction false} MultisetCountsOfDistinct<T>(s: seq<T>)
    requires NoDuplicates(s)
    ensures forall x :: multiset(s)[x] <= 1
  {
    if s != [] {
      assert s == [s[0]] + s[1..];
      assert NoDuplicates(s[1..]) by {
        forall i, j | 0 <= i < j < |s[1..]| ensures s[1..][i] != s[1..][j] {
          assert s[1..][i] == s[i + 1] && s[1..][j] == s[j + 1];
        }
      }
      MultisetCountsOfDistinct(s[1..]);
      assert s[0] !in s[1..];
    }
  }

  /** Any sequence whose elements are (with multiplicity) among those of a
      duplicate-free sequence is itself duplicate-free. */
  lemma SubMultisetOfDistinct<T>(r: seq<T>, s: seq<T>)
    requires NoDuplicates(s) && multiset(r) <= multiset(s)
    ensures NoDuplicates(r)
  {
    MultisetCountsOfDistinct(s);
    forall i, j | 0 <= i < j < |r| ensures r[i] != r[j] {
      assert r == r[..j] + r[j..];
      assert multiset(r) == multiset(r[..j]) + multiset(r[j..]);
      assert r[i] in r[..j] && r[j] in r[j..];
      assert multiset(r[..j])[r[i]] >= 1 && multiset(r[j..])[r[j]] >= 1;
      assert multiset(r)[r[j]] <= multiset(s)[r[j]] <= 1;
    }
  }
}
