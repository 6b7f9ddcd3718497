/**
 * Sequence operations the views and the store are built from: `Array.prototype.filter`,
 * `reduce` sums, "exactly one row matches" (what `.single()` of a query needs), and the
 * ordering of query results by a string column.  Recursive definitions peel off the LAST
 * element, so that a loop over a prefix `s[..i]` extends them one step at a time.
 */
module Sequences {
  import opened Options

  /** Elements of `s` that satisfy `p`, in their original order. */
  function Filter<T(==, !new)>(s: seq<T>, p: T -> bool): (r: seq<T>)
    ensures |r| <= |s|
    ensures forall x :: x in r <==> x in s && p(x)
    decreases |s|
  {
    if s == [] then []
    else
      var init := s[..|s| - 1];
      assert s == init + [s[|s| - 1]];
      Filter(init, p) + (if p(s[|s| - 1]) then [s[|s| - 1]] else [])
  }

  /** `r` can be obtained from `s` by deleting elements: same elements, same relative order. */
  predicate IsSubsequence<T(==)>(r: seq<T>, s: seq<T>)
    decreases |s|
  {
    if r == [] then true
    else if s == [] then false
    else if r[|r| - 1] == s[|s| - 1] then IsSubsequence(r[..|r| - 1], s[..|s| - 1])
    else IsSubsequence(r, s[..|s| - 1])
  }

  /** `filter` keeps every copy of an element that passes the test, and no copy of one that fails it. */
  lemma {:induction false} FilterCounts<T(!new)>(s: seq<T>, p: T -> bool)
    ensures forall x :: multiset(Filter(s, p))[x] == if p(x) then multiset(s)[x] else 0
    decreases |s|
  {
    if s != [] {
      var init, last := s[..|s| - 1], s[|s| - 1];
      assert s == init + [last];
      FilterCounts(init, p);
      assert Filter(s, p) == Filter(init, p) + (if p(last) then [last] else []);
    }
  }

  lemma {:induction false} FilterIsSubsequence<T(!new)>(s: seq<T>, p: T -> bool)
    ensures IsSubsequence(Filter(s, p), s)
    decreases |s|
  {
    if s != [] {
      var init, last := s[..|s| - 1], s[|s| - 1];
      FilterIsSubsequence(init, p);
      var r := Filter(s, p);
      if p(last) {
        assert r == Filter(init, p) + [last];
        assert r[..|r| - 1] == Filter(init, p);
      } else {
        assert r == Filter(init, p);
        if r != [] {
          assert r[|r| - 1] in r;
        }
      }
    }
  }

  /** A filter that every element passes keeps the whole sequence. */
  lemma {:induction false} FilterKeepsAll<T(!new)>(s: seq<T>, p: T -> bool)
    requires forall x :: x in s ==> p(x)
    ensures Filter(s, p) == s
    decreases |s|
  {
    if s != [] {
      var init := s[..|s| - 1];
      assert s == init + [s[|s| - 1]];
      FilterKeepsAll(init, p);
    }
  }

  /** Filtering twice, when the second test implies the first, is filtering once by the second. */
  lemma {:induction false} FilterOfFilter<T(!new)>(s: seq<T>, p: T -> bool, q: T -> bool)
    requires forall x :: x in s && q(x) ==> p(x)
    ensures Filter(Filter(s, p), q) == Filter(s, q)
    decreases |s|
  {
    if s != [] {
      var init, last := s[..|s| - 1], s[|s| - 1];
      assert s == init + [last];
      FilterOfFilter(init, p, q);
      assert Filter(s, q) == Filter(init, q) + (if q(last) then [last] else []);
      if p(last) {
        var f := Filter(init, p) + [last];
        assert Filter(s, p) == f;
        assert f[..|f| - 1] == Filter(init, p);
        assert Filter(f, q) == Filter(Filter(init, p), q) + (if q(last) then [last] else []);
      } else {
        assert last in s;
        assert Filter(s, p) == Filter(init, p);
      }
    }
  }

  /** Filtering a sequence extended by one element. */
  lemma FilterSnoc<T(!new)>(s: seq<T>, x: T, p: T -> bool)
    ensures Filter(s + [x], p) == Filter(s, p) + (if p(x) then [x] else [])
  {
    assert (s + [x])[..|s|] == s;
  }

  /** Two tests that agree on every element filter alike. */
  lemma {:induction false} FilterCongruent<T(!new)>(s: seq<T>, p: T -> bool, q: T -> bool)
    requires forall x :: x in s ==> p(x) == q(x)
    ensures Filter(s, p) == Filter(s, q)
    decreases |s|
  {
    if s != [] {
      var init := s[..|s| - 1];
      assert s == init + [s[|s| - 1]];
      FilterCongruent(init, p, q);
    }
  }

  /** A filter that no element passes is empty. */
  lemma FilterNone<T(!new)>(s: seq<T>, p: T -> bool)
    requires forall x :: x in s ==> !p(x)
    ensures Filter(s, p) == []
  {
  }

  /** `s.reduce((sum, x) => sum + f(x), 0)`. */
  function SumBy<T>(s: seq<T>, f: T -> int): int
    decreases |s|
  {
    if s == [] then 0 else SumBy(s[..|s| - 1], f) + f(s[|s| - 1])
  }

  lemma {:induction false} SumByAppend<T>(a: seq<T>, b: seq<T>, f: T -> int)
    ensures SumBy(a + b, f) == SumBy(a, f) + SumBy(b, f)
    decreases |b|
  {
    if b == [] {
      assert a + b == a;
    } else {
      var init := b[..|b| - 1];
      assert (a + b)[..|a + b| - 1] == a + init;
      assert (a + b)[|a + b| - 1] == b[|b| - 1];
      SumByAppend(a, init, f);
    }
  }

  lemma SumBySnoc<T>(s: seq<T>, x: T, f: T -> int)
    ensures SumBy(s + [x], f) == SumBy(s, f) + f(x)
  {
    assert (s + [x])[..|s|] == s;
  }

  /** Sums over two sequences agree when their terms agree position by position. */
  lemma {:induction false} SumByPointwise<A, B>(a: seq<A>, f: A -> int, b: seq<B>, g: B -> int)
    requires |a| == |b|
    requires forall i :: 0 <= i < |a| ==> f(a[i]) == g(b[i])
    ensures SumBy(a, f) == SumBy(b, g)
    decreases |a|
  {
    if a != [] {
      SumByPointwise(a[..|a| - 1], f, b[..|b| - 1], g);
    }
  }

  /** A sum of non-negative terms is non-negative. */
  lemma {:induction false} SumByNonNegative<T>(s: seq<T>, f: T -> int)
    requires forall i :: 0 <= i < |s| ==> 0 <= f(s[i])
    ensures 0 <= SumBy(s, f)
    decreases |s|
  {
    if s != [] {
      SumByNonNegative(s[..|s| - 1], f);
    }
  }

  /** Replacing one element changes a sum by exactly the difference of that element's terms. */
  lemma {:induction false} SumByUpdateAt<T>(a: seq<T>, b: seq<T>, k: nat, f: T -> int)
    requires |a| == |b| && k < |a|
    requires forall i :: 0 <= i < |a| && i != k ==> a[i] == b[i]
    ensures SumBy(b, f) == SumBy(a, f) - f(a[k]) + f(b[k])
    decreases |a|
  {
    var n := |a| - 1;
    if k == n {
      assert a[..n] == b[..n];
    } else {
      SumByUpdateAt(a[..n], b[..n], k, f);
    }
  }

  /** Positions of the elements of `s` that satisfy `p`, in increasing order. */
  function Matches<T>(s: seq<T>, p: T -> bool): (m: seq<nat>)
    ensures forall k :: 0 <= k < |m| ==> m[k] < |s| && p(s[m[k]])
    ensures forall i :: 0 <= i < |s| && p(s[i]) ==> i in m
    ensures forall a, b :: 0 <= a < b < |m| ==> m[a] < m[b]
    decreases |s|
  {
    if s == [] then []
    else
      var init := s[..|s| - 1];
      assert forall i :: 0 <= i < |init| ==> init[i] == s[i];
      Matches(init, p) + (if p(s[|s| - 1]) then [|s| - 1] else [])
  }

  /** A one-element sequence matches at position 0 or nowhere. */
  lemma MatchesOfOne<T>(x: T, p: T -> bool)
    ensures Matches([x], p) == if p(x) then [0] else []
  {
    assert [x][..0] == [];
  }

  /**
   * The position of the one element satisfying `p`, or None when none or several do:
   * the row a `.single()` query yields (it yields no row unless exactly one matches).
   */
  function Single<T>(s: seq<T>, p: T -> bool): (r: Option<nat>)
    ensures r.Some? ==> r.value < |s| && p(s[r.value])
    ensures r.Some? ==> forall j :: 0 <= j < |s| && j != r.value ==> !p(s[j])
    ensures r.None? ==> forall i :: 0 <= i < |s| && p(s[i]) ==> exists j :: 0 <= j < |s| && j != i && p(s[j])
  {
    var m := Matches(s, p);
    if |m| == 1 then Some(m[0])
    else
      MatchTwins(s, p);
      None
  }

  /** When the number of matches is not one, every match has another match beside it. */
  lemma MatchTwins<T>(s: seq<T>, p: T -> bool)
    requires |Matches(s, p)| != 1
    ensures forall i :: 0 <= i < |s| && p(s[i]) ==> exists j :: 0 <= j < |s| && j != i && p(s[j])
  {
    var m := Matches(s, p);
    forall i | 0 <= i < |s| && p(s[i])
      ensures exists j :: 0 <= j < |s| && j != i && p(s[j])
    {
      assert i in m;
      var a :| 0 <= a < |m| && m[a] == i;
      var b := if a == 0 then 1 else 0;
      var j := m[b];
      assert j != i by {
        if a < b { assert m[a] < m[b]; } else { assert m[b] < m[a]; }
      }
      assert 0 <= j < |s| && j != i && p(s[j]);
    }
  }

  /** No two elements of `s` have the same key (a primary-key constraint). */
  predicate UniqueKeys<T, K(==)>(s: seq<T>, key: T -> K) {
    forall i, j :: 0 <= i < |s| && 0 <= j < |s| && i != j ==> key(s[i]) != key(s[j])
  }

  /** No value occurs twice in `s`. */
  predicate Distinct<T(==)>(s: seq<T>) {
    forall i, j :: 0 <= i < |s| && 0 <= j < |s| && i != j ==> s[i] != s[j]
  }

  /** Some element of `s` has key `k`. */
  predicate HasKey<T, K(==)>(s: seq<T>, key: T -> K, k: K) {
    exists i :: 0 <= i < |s| && key(s[i]) == k
  }

  /** `x => key(x) !== k`: what a `DELETE ... WHERE key = k` keeps. */
  function KeyIsNot<T, K(==)>(key: T -> K, k: K): T -> bool {
    x => key(x) != k
  }

  /** Deleting by a primary key removes one row when the key is present and none otherwise. */
  lemma {:induction false} DeleteByUniqueKey<T(!new), K>(s: seq<T>, key: T -> K, k: K)
    requires UniqueKeys(s, key)
    ensures |Filter(s, KeyIsNot(key, k))| == if HasKey(s, key, k) then |s| - 1 else |s|
    decreases |s|
  {
    if s != [] {
      var init, last := s[..|s| - 1], s[|s| - 1];
      assert s == init + [last];
      assert UniqueKeys(init, key);
      DeleteByUniqueKey(init, key, k);
      if key(last) == k {
        assert !HasKey(init, key, k);
        assert HasKey(s, key, k);
      } else {
        assert HasKey(s, key, k) == HasKey(init, key, k);
      }
    }
  }

  /** Keeping some rows of a table keeps its key unique. */
  lemma {:induction false} FilterKeepsUniqueKeys<T(!new), K>(s: seq<T>, p: T -> bool, key: T -> K)
    requires UniqueKeys(s, key)
    ensures UniqueKeys(Filter(s, p), key)
    decreases |s|
  {
    if s != [] {
      var init, last := s[..|s| - 1], s[|s| - 1];
      assert s == init + [last];
      assert UniqueKeys(init, key);
      FilterKeepsUniqueKeys(init, p, key);
      forall x | x in Filter(init, p)
        ensures key(x) != key(last)
      {
        var i :| 0 <= i < |init| && init[i] == x;
        assert s[i] == x;
      }
    }
  }

  /** Lexicographic order of strings by character code. */
  predicate LexLe(a: string, b: string) {
    |a| == 0 || (|b| > 0 && (a[0] < b[0] || (a[0] == b[0] && LexLe(a[1..], b[1..]))))
  }

  lemma {:induction false} LexLeTotal(a: string, b: string)
    ensures LexLe(a, b) || LexLe(b, a)
  {
    if |a| > 0 && |b| > 0 && a[0] == b[0] {
      LexLeTotal(a[1..], b[1..]);
    }
  }

  /** Adjacent elements are in ascending key order. */
  predicate SortedBy<T>(s: seq<T>, key: T -> string) {
    forall i :: 0 < i < |s| ==> LexLe(key(s[i - 1]), key(s[i]))
  }

  function InsertBy<T>(x: T, s: seq<T>, key: T -> string): (r: seq<T>)
    ensures |r| == |s| + 1
    ensures r[0] == x || (|s| > 0 && r[0] == s[0])
  {
    if s == [] || LexLe(key(x), key(s[0])) then [x] + s
    else [s[0]] + InsertBy(x, s[1..], key)
  }

  /** `ORDER BY key`: a stable insertion sort. */
  function SortBy<T>(s: seq<T>, key: T -> string): seq<T> {
    if s == [] then [] else InsertBy(s[0], SortBy(s[1..], key), key)
  }

  lemma {:induction false} InsertBySorted<T>(x: T, s: seq<T>, key: T -> string)
    requires SortedBy(s, key)
    ensures SortedBy(InsertBy(x, s, key), key)
    ensures multiset(InsertBy(x, s, key)) == multiset(s) + multiset{x}
  {
    if s != [] && !LexLe(key(x), key(s[0])) {
      InsertBySorted(x, s[1..], key);
      LexLeTotal(key(x), key(s[0]));
      assert s == [s[0]] + s[1..];
    }
  }

  /** An ordered query returns the rows of the table sorted by the key, none lost or added. */
  lemma {:induction false} SortByCorrect<T>(s: seq<T>, key: T -> string)
    ensures SortedBy(SortBy(s, key), key)
    ensures multiset(SortBy(s, key)) == multiset(s)
  {
    if s != [] {
      SortByCorrect(s[1..], key);
      InsertBySorted(s[0], SortBy(s[1..], key), key);
      assert s == [s[0]] + s[1..];
    }
  }
}
