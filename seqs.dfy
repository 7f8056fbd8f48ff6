/**
 * Counting and ordering over sequences: the number of elements with a
 * property, and the sort that orders table rows by an integer column
 * (pandas' `sort_values`, whose order among equal keys is unspecified).
 */
module Seqs {

  /** The number of elements of s that satisfy p. */
  function CountWhere<T>(s: seq<T>, p: T -> bool): (n: nat)
    ensures n <= |s|
    decreases |s|
  {
    if s == [] then 0 else CountWhere(s[..|s| - 1], p) + (if p(s[|s| - 1]) then 1 else 0)
  }

  lemma {:induction false} CountWhereConcat<T>(a: seq<T>, b: seq<T>, p: T -> bool)
    ensures CountWhere(a + b, p) == CountWhere(a, p) + CountWhere(b, p)
    decreases |b|
  {
    if b == [] {
      assert a + b == a;
    } else {
      assert (a + b)[..|a + b| - 1] == a + b[..|b| - 1];
      CountWhereConcat(a, b[..|b| - 1], p);
    }
  }

  /** Taking out the element at k loses exactly that element. */
  lemma MultisetRemove<T>(b: seq<T>, k: nat)
    requires k < |b|
    ensures multiset(b[..k] + b[k + 1..]) == multiset(b) - multiset{b[k]}
  {
    assert b == b[..k] + [b[k]] + b[k + 1..];
    assert multiset(b) == multiset(b[..k]) + multiset{b[k]} + multiset(b[k + 1..]);
  }

  /** Taking out the element at k lowers the count by one exactly when it satisfies p. */
  lemma CountWhereRemove<T>(b: seq<T>, k: nat, p: T -> bool)
    requires k < |b|
    ensures CountWhere(b, p) == CountWhere(b[..k] + b[k + 1..], p) + (if p(b[k]) then 1 else 0)
  {
    assert b == b[..k] + ([b[k]] + b[k + 1..]);
    CountWhereConcat(b[..k], [b[k]] + b[k + 1..], p);
    CountWhereConcat([b[k]], b[k + 1..], p);
    CountWhereConcat(b[..k], b[k + 1..], p);
    assert CountWhere([b[k]], p) == (if p(b[k]) then 1 else 0) by {
      assert [b[k]][..0] == [];
    }
  }

  /** Counting does not depend on the order of the elements. */
  lemma {:induction false} CountWherePermutation<T>(a: seq<T>, b: seq<T>, p: T -> bool)
    requires multiset(a) == multiset(b)
    ensures CountWhere(a, p) == CountWhere(b, p)
    decreases |a|
  {
    if a != [] {
      var z := a[|a| - 1];
      var a' := a[..|a| - 1];
      assert a == a' + [z];
      assert multiset(a) == multiset(a') + multiset{z};
      assert z in multiset(b);
      var k :| 0 <= k < |b| && b[k] == z;
      MultisetRemove(b, k);
      CountWherePermutation(a', b[..k] + b[k + 1..], p);
      CountWhereRemove(b, k, p);
    }
  }

  /** Counting through a projection: m holds one image of each element of s, tested by p where s is tested by q. */
  lemma {:induction false} CountWhereProject<T, U>(s: seq<T>, q: T -> bool, m: seq<U>, p: U -> bool)
    requires |m| == |s|
    requires forall i :: 0 <= i < |s| ==> p(m[i]) == q(s[i])
    ensures CountWhere(m, p) == CountWhere(s, q)
    decreases |s|
  {
    if s != [] {
      var n := |s| - 1;
      assert forall i :: 0 <= i < n ==> s[..n][i] == s[i] && m[..n][i] == m[i];
      CountWhereProject(s[..n], q, m[..n], p);
    }
  }

  /** A weaker property counts at least as many elements, and strictly more if it holds somewhere the stronger one fails. */
  lemma {:induction false} CountWhereMono<T>(s: seq<T>, p: T -> bool, q: T -> bool)
    requires forall x :: p(x) ==> q(x)
    ensures CountWhere(s, p) <= CountWhere(s, q)
    ensures (exists k :: 0 <= k < |s| && q(s[k]) && !p(s[k])) ==> CountWhere(s, p) < CountWhere(s, q)
    decreases |s|
  {
    if s != [] {
      var s' := s[..|s| - 1];
      CountWhereMono(s', p, q);
      if exists k :: 0 <= k < |s| && q(s[k]) && !p(s[k]) {
        var k :| 0 <= k < |s| && q(s[k]) && !p(s[k]);
        if k < |s| - 1 {
          assert s'[k] == s[k];
        }
      }
    }
  }

  /** An element that fails p is not counted. */
  lemma {:induction false} CountWhereMiss<T>(s: seq<T>, p: T -> bool, k: nat)
    requires k < |s| && !p(s[k])
    ensures CountWhere(s, p) < |s|
    decreases |s|
  {
    if k < |s| - 1 {
      CountWhereMiss(s[..|s| - 1], p, k);
    }
  }

  /** The elements of s that satisfy p, in their order in s (a list comprehension with a condition). */
  function Filter<T>(s: seq<T>, p: T -> bool): seq<T>
    decreases |s|
  {
    if s == [] then [] else Filter(s[..|s| - 1], p) + (if p(s[|s| - 1]) then [s[|s| - 1]] else [])
  }

  /** The filter keeps every copy of each element that passes and nothing else. */
  lemma {:induction false} FilterContents<T(!new)>(s: seq<T>, p: T -> bool)
    ensures |Filter(s, p)| == CountWhere(s, p)
    ensures forall x :: x in Filter(s, p) <==> x in s && p(x)
    ensures forall x :: multiset(Filter(s, p))[x] == if p(x) then multiset(s)[x] else 0
    decreases |s|
  {
    if s != [] {
      var init := s[..|s| - 1];
      var last := s[|s| - 1];
      assert s == init + [last];
      FilterContents(init, p);
      assert multiset(s) == multiset(init) + multiset{last};
    }
  }

  /** Filtering works piecewise. */
  lemma {:induction false} FilterConcat<T(!new)>(a: seq<T>, b: seq<T>, p: T -> bool)
    ensures Filter(a + b, p) == Filter(a, p) + Filter(b, p)
    decreases |b|
  {
    if b == [] {
      assert a + b == a;
    } else {
      assert (a + b)[..|a + b| - 1] == a + b[..|b| - 1];
      FilterConcat(a, b[..|b| - 1], p);
    }
  }

  /** A filter that every element passes keeps the sequence; one that none passes empties it. */
  lemma {:induction false} FilterEvery<T(!new)>(s: seq<T>, p: T -> bool)
    ensures (forall i :: 0 <= i < |s| ==> p(s[i])) ==> Filter(s, p) == s
    ensures (forall i :: 0 <= i < |s| ==> !p(s[i])) ==> Filter(s, p) == []
    decreases |s|
  {
    if s != [] {
      FilterEvery(s[..|s| - 1], p);
      assert s[..|s| - 1] + [s[|s| - 1]] == s;
    }
  }

  /** No element occurs twice. */
  predicate Distinct<T(==)>(s: seq<T>)
  {
    forall i, j :: 0 <= i < j < |s| ==> s[i] != s[j]
  }

  /** A filter of a sequence without repetitions has none either. */
  lemma {:induction false} FilterDistinct<T(!new)>(s: seq<T>, p: T -> bool)
    requires Distinct(s)
    ensures Distinct(Filter(s, p))
    decreases |s|
  {
    if s != [] {
      var init := s[..|s| - 1];
      FilterDistinct(init, p);
      FilterContents(init, p);
      assert s[|s| - 1] !in init;
    }
  }

  /** Non-decreasing in the given integer key. */
  ghost predicate SortedByKey<T>(s: seq<T>, key: T -> int)
  {
    forall i, j :: 0 <= i < j < |s| ==> key(s[i]) <= key(s[j])
  }

  /** A head no larger than every element of a sorted tail keeps it sorted. */
  lemma ConsSorted<T>(h: T, t: seq<T>, key: T -> int)
    requires SortedByKey(t, key)
    requires forall i :: 0 <= i < |t| ==> key(h) <= key(t[i])
    ensures SortedByKey([h] + t, key)
  {
    var r := [h] + t;
    forall i, j | 0 <= i < j < |r| ensures key(r[i]) <= key(r[j]) {
      assert r[j] == t[j - 1];
      if i > 0 {
        assert r[i] == t[i - 1];
      }
    }
  }

  /** Every element of a permutation of `s[1..] + [x]` has a key at least that of s[0], when x's key is larger. */
  lemma AboveHead<T>(s: seq<T>, x: T, rest: seq<T>, key: T -> int)
    requires SortedByKey(s, key) && |s| > 0 && key(s[0]) < key(x)
    requires multiset(rest) == multiset(s[1..]) + multiset{x}
    ensures forall i :: 0 <= i < |rest| ==> key(s[0]) <= key(rest[i])
  {
    forall i | 0 <= i < |rest| ensures key(s[0]) <= key(rest[i]) {
      assert rest[i] in multiset(rest);
      if rest[i] != x {
        assert rest[i] in multiset(s[1..]);
        var j :| 0 <= j < |s[1..]| && s[1..][j] == rest[i];
        assert s[1..][j] == s[j + 1];
      }
    }
  }

  /** Inserts x before the first element with a larger key. */
  function Insert<T>(x: T, s: seq<T>, key: T -> int): (r: seq<T>)
    requires SortedByKey(s, key)
    ensures multiset(r) == multiset(s) + multiset{x}
    ensures SortedByKey(r, key)
    decreases |s|
  {
    if s == [] then [x]
    else if key(x) <= key(s[0]) then
      ConsSorted(x, s, key);
      [x] + s
    else
      var rest := Insert(x, s[1..], key);
      AboveHead(s, x, rest, key);
      ConsSorted(s[0], rest, key);
      assert s == [s[0]] + s[1..];
      [s[0]] + rest
  }

  /** Insertion sort: the rows reordered so that the key never decreases. */
  function SortByKey<T>(s: seq<T>, key: T -> int): (r: seq<T>)
    ensures multiset(r) == multiset(s)
    ensures SortedByKey(r, key)
    ensures |r| == |s|
    decreases |s|
  {
    if s == [] then []
    else
      assert s == s[..|s| - 1] + [s[|s| - 1]];
      var r := Insert(s[|s| - 1], SortByKey(s[..|s| - 1], key), key);
      assert |r| == |multiset(r)| == |s|;
      r
  }
}
