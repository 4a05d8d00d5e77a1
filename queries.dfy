/**
 * The LINQ operators the services apply to table rows: `Where`, `Count`,
 * `OrderBy` / `OrderByDescending` (as a stable insertion sort by an integer
 * key) and `Take`.
 */
module Queries {

  /** `Where(p)`: the elements satisfying `p`, in order. */
  function Filter<T(!new)>(s: seq<T>, p: T -> bool): (r: seq<T>)
    ensures |r| <= |s|
    ensures forall k :: 0 <= k < |r| ==> p(r[k])
    ensures forall x :: x in r <==> x in s && p(x)
  {
    if |s| == 0 then []
    else
      var rest := Filter(s[1..], p);
      assert s == [s[0]] + s[1..];
      if p(s[0]) then [s[0]] + rest else rest
  }

  /** `Count(p)`. */
  function Count<T(!new)>(s: seq<T>, p: T -> bool): (n: nat)
    ensures n <= |s|
  {
    |Filter(s, p)|
  }

  /** `Where` on a sequence extended at the end. */
  lemma {:induction false} FilterSnoc<T(!new)>(s: seq<T>, x: T, p: T -> bool)
    ensures Filter(s + [x], p) == Filter(s, p) + (if p(x) then [x] else [])
  {
    if |s| == 0 {
      assert s + [x] == [x];
      assert [x][1..] == [];
    } else {
      assert (s + [x])[0] == s[0];
      assert (s + [x])[1..] == s[1..] + [x];
      FilterSnoc(s[1..], x, p);
    }
  }

  /** A non-empty sequence is its front followed by its last element. */
  lemma LastSplit<T>(s: seq<T>)
    requires |s| > 0
    ensures s == s[..|s| - 1] + [s[|s| - 1]]
  {
  }

  /** Every element satisfies `p` or its negation, never both. */
  lemma {:induction false} CountSplits<T(!new)>(s: seq<T>, p: T -> bool)
    ensures Count(s, p) + Count(s, x => !p(x)) == |s|
  {
    if |s| > 0 {
      CountSplits(s[1..], p);
    }
  }

  /** The keys of `s`, taken in order, never decrease. */
  ghost predicate SortedBy<T>(s: seq<T>, key: T -> int) {
    forall i, j :: 0 <= i < j < |s| ==> key(s[i]) <= key(s[j])
  }

  /** A head no larger than every element of a sorted tail keeps it sorted. */
  lemma SortedCons<T>(h: T, t: seq<T>, key: T -> int)
    requires SortedBy(t, key)
    requires forall k :: 0 <= k < |t| ==> key(h) <= key(t[k])
    ensures SortedBy([h] + t, key)
  {
    var r := [h] + t;
    forall i, j | 0 <= i < j < |r| ensures key(r[i]) <= key(r[j]) {
      assert r[j] == t[j - 1];
      if i > 0 { assert r[i] == t[i - 1]; }
    }
  }

  /** Inserts `x` before the first element whose key exceeds its own. */
  function Insert<T>(x: T, s: seq<T>, key: T -> int): (r: seq<T>)
    requires SortedBy(s, key)
    ensures multiset(r) == multiset(s) + multiset{x}
    ensures SortedBy(r, key)
  {
    if |s| == 0 then [x]
    else if key(x) <= key(s[0]) then
      SortedCons(x, s, key);
      [x] + s
    else
      var tail := s[1..];
      assert SortedBy(tail, key);
      var t := Insert(x, tail, key);
      assert s == [s[0]] + tail;
      assert forall k :: 0 <= k < |t| ==> key(s[0]) <= key(t[k]) by {
        forall k | 0 <= k < |t| ensures key(s[0]) <= key(t[k]) {
          assert t[k] in multiset(t);
          assert t[k] in multiset(tail) + multiset{x};
          if t[k] != x {
            assert t[k] in tail;
          }
        }
      }
      SortedCons(s[0], t, key);
      [s[0]] + t
  }

  /** `s` ordered by `key`: a permutation of `s` whose keys never decrease. */
  function SortBy<T>(s: seq<T>, key: T -> int): (r: seq<T>)
    ensures multiset(r) == multiset(s)
    ensures SortedBy(r, key)
  {
    if |s| == 0 then []
    else
      assert s == [s[0]] + s[1..];
      Insert(s[0], SortBy(s[1..], key), key)
  }

  /** `Take(n)`: the first `n` elements, or all of them. */
  function Take<T>(s: seq<T>, n: nat): (r: seq<T>)
    ensures |r| <= n && |r| <= |s|
    ensures r == s[..|r|]
    ensures |s| <= n ==> r == s
  {
    if |s| <= n then s else s[..n]
  }

  /** Sequences with the same multiset hold the same elements. */
  lemma SameElements<T>(a: seq<T>, b: seq<T>)
    requires multiset(a) == multiset(b)
    ensures forall x :: x in a <==> x in b
  {
    forall x ensures x in a <==> x in b {
      assert x in a <==> x in multiset(a);
      assert x in b <==> x in multiset(b);
    }
  }

  /** `OrderBy(key).Take(n)`: at most `n` elements of `s`, sorted by `key`. */
  function TopBy<T>(s: seq<T>, key: T -> int, n: nat): (r: seq<T>)
    ensures |r| <= n
    ensures multiset(r) <= multiset(s)
    ensures forall x :: x in r ==> x in s
    ensures SortedBy(r, key)
    ensures |s| <= n ==> multiset(r) == multiset(s)
    ensures |r| == if |s| <= n then |s| else n
  {
    var sorted := SortBy(s, key);
    var r := Take(sorted, n);
    assert |sorted| == |s| by {
      assert |multiset(sorted)| == |multiset(s)|;
    }
    assert sorted == r + sorted[|r|..];
    assert multiset(sorted) == multiset(r) + multiset(sorted[|r|..]);
    assert multiset(r) <= multiset(s);
    forall x | x in r ensures x in s {
      assert x in multiset(r);
      assert x in multiset(s);
    }
    r
  }

  /** A prefix of a sorted sequence holds the smallest keys: every element of
      `s` that is not among the first `n` of `SortBy(s, key)` has a key at
      least as large as each of those. */
  lemma TakeSmallest<T>(s: seq<T>, key: T -> int, n: nat, x: T)
    requires x in s && x !in Take(SortBy(s, key), n)
    ensures forall y :: y in Take(SortBy(s, key), n) ==> key(y) <= key(x)
  {
    var r := SortBy(s, key);
    var p := Take(r, n);
    assert x in multiset(r);
    assert x in r;
    var i :| 0 <= i < |r| && r[i] == x;
    assert forall k :: 0 <= k < |p| ==> r[k] == p[k] && p[k] != x;
    forall y | y in p ensures key(y) <= key(x) {
      var j :| 0 <= j < |p| && p[j] == y;
      assert r[j] == y;
    }
  }

  /** No element occurs twice. */
  predicate Distinct<T(==)>(s: seq<T>) {
    forall i, j :: 0 <= i < j < |s| ==> s[i] != s[j]
  }

  /** In a sequence without repeats every element occurs once. */
  lemma {:induction false} DistinctOnce<T>(s: seq<T>)
    requires Distinct(s)
    ensures forall x :: multiset(s)[x] <= 1
  {
    if |s| > 0 {
      assert s == [s[0]] + s[1..];
      DistinctOnce(s[1..]);
      assert s[0] !in s[1..];
    }
  }

  /** A sequence whose elements each occur at most once has no repeats. */
  lemma OnceDistinct<T>(s: seq<T>)
    requires forall x :: multiset(s)[x] <= 1
    ensures Distinct(s)
  {
    forall i, j | 0 <= i < j < |s|
      ensures s[i] != s[j]
    {
      assert s == s[..j] + s[j..];
      assert s[j] in multiset(s[j..]);
      assert multiset(s)[s[j]] == multiset(s[..j])[s[j]] + multiset(s[j..])[s[j]];
      assert s[..j][i] == s[i];
    }
  }

  /** `Where` keeps a sequence free of repeats. */
  lemma {:induction false} FilterDistinct<T(!new)>(s: seq<T>, p: T -> bool)
    requires Distinct(s)
    ensures Distinct(Filter(s, p))
  {
    if |s| > 0 {
      FilterDistinct(s[1..], p);
      assert s[0] !in s[1..];
    }
  }

  /** `OrderBy(key).Take(n)` keeps a sequence free of repeats. */
  lemma TopByDistinct<T>(s: seq<T>, key: T -> int, n: nat)
    requires Distinct(s)
    ensures Distinct(TopBy(s, key, n))
  {
    var r := TopBy(s, key, n);
    DistinctOnce(s);
    forall x ensures multiset(r)[x] <= 1 {
      assert multiset(r)[x] <= multiset(s)[x];
    }
    OnceDistinct(r);
  }

  /** `TopBy` leaves an element out only when it is full and every element it
      holds has a key no larger than the one left out. */
  lemma TopByLeavesOutLargest<T>(s: seq<T>, key: T -> int, n: nat, x: T)
    requires x in s && x !in TopBy(s, key, n)
    ensures |TopBy(s, key, n)| == n
    ensures forall y :: y in TopBy(s, key, n) ==> key(y) <= key(x)
  {
    TakeSmallest(s, key, n, x);
    assert x in multiset(s) && x !in multiset(TopBy(s, key, n));
    assert |SortBy(s, key)| == |s| by {
      assert |multiset(SortBy(s, key))| == |multiset(s)|;
    }
  }
}
