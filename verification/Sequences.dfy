/**
Permutations, sums and sorting of sequences.

`Sort` stands for Go's sort.Slice and Python's sorted: its contract promises a sorted
permutation and nothing about how equal elements are arranged.
*/
module Sequences {
  ghost predicate Permutes<T>(a: seq<T>, b: seq<T>) {
    multiset(a) == multiset(b)
  }

  /** The sum of `f` over the first `i` elements. */
  function SumTo<T>(f: T -> int, s: seq<T>, i: nat): int
    requires i <= |s|
  {
    if i == 0 then 0 else SumTo(f, s, i - 1) + f(s[i - 1])
  }

  function Sum<T>(f: T -> int, s: seq<T>): int {
    SumTo(f, s, |s|)
  }

  ghost predicate DistinctBy<T, K>(key: T -> K, s: seq<T>) {
    forall i, j | 0 <= i < j < |s| :: key(s[i]) != key(s[j])
  }

  lemma DistinctByExtend<T, K>(key: T -> K, s: seq<T>, x: T)
    requires DistinctBy(key, s) && forall y | y in s :: key(y) != key(x)
    ensures DistinctBy(key, s + [x])
  {
    var r := s + [x];
    forall i, j | 0 <= i < j < |r|
      ensures key(r[i]) != key(r[j])
    {
      assert r[i] == s[i] && s[i] in s;
      assert j < |s| ==> r[j] == s[j];
    }
  }

  ghost predicate TotalPreorder<T(!new)>(leq: (T, T) -> bool) {
    && (forall a, b :: leq(a, b) || leq(b, a))
    && (forall a, b, c :: leq(a, b) && leq(b, c) ==> leq(a, c))
  }

  ghost predicate SortedBy<T>(leq: (T, T) -> bool, s: seq<T>) {
    forall i, j | 0 <= i < j < |s| :: leq(s[i], s[j])
  }

  /** `r` is one of the arrangements of `s` that a sort by `leq` may return. */
  ghost predicate Arranges<T>(leq: (T, T) -> bool, s: seq<T>, r: seq<T>) {
    Permutes(s, r) && SortedBy(leq, r)
  }

  method Sort<T(!new)>(leq: (T, T) -> bool, s: seq<T>) returns (r: seq<T>)
    requires TotalPreorder(leq)
    ensures Arranges(leq, s, r)
  {
    r := [];
    for i := 0 to |s|
      invariant Arranges(leq, s[..i], r)
    {
      assert s[..i + 1] == s[..i] + [s[i]];
      r := Insert(leq, r, s[i]);
    }
    assert s[..|s|] == s;
  }

  method Insert<T(!new)>(leq: (T, T) -> bool, s: seq<T>, x: T) returns (r: seq<T>)
    requires TotalPreorder(leq) && SortedBy(leq, s)
    ensures Arranges(leq, s + [x], r)
  {
    var k := |s|;
    while k > 0 && !leq(s[k - 1], x)
      invariant 0 <= k <= |s|
      invariant forall j | k <= j < |s| :: leq(x, s[j])
    {
      k := k - 1;
    }
    forall j | 0 <= j < k
      ensures leq(s[j], x)
    {
      assert j == k - 1 || leq(s[j], s[k - 1]);
    }
    InsertedAt(leq, s, x, k);
    r := s[..k] + [x] + s[k..];
  }

  lemma InsertedAt<T>(leq: (T, T) -> bool, s: seq<T>, x: T, k: nat)
    requires k <= |s| && SortedBy(leq, s)
    requires forall j | 0 <= j < k :: leq(s[j], x)
    requires forall j | k <= j < |s| :: leq(x, s[j])
    ensures Arranges(leq, s + [x], s[..k] + [x] + s[k..])
  {
    assert multiset(s[..k] + [x] + s[k..]) == multiset(s + [x]) by {
      assert s == s[..k] + s[k..];
    }
    var r := s[..k] + [x] + s[k..];
    forall i, j | 0 <= i < j < |r|
      ensures leq(r[i], r[j])
    {
      assert r[i] == if i < k then s[i] else if i == k then x else s[i - 1];
      assert r[j] == if j < k then s[j] else if j == k then x else s[j - 1];
    }
  }

  // ----- the part of a sequence with one key

  function ByKeyTo<T, K(==)>(key: T -> K, s: seq<T>, k: K, i: nat): seq<T>
    requires i <= |s|
  {
    if i == 0 then []
    else if key(s[i - 1]) == k then ByKeyTo(key, s, k, i - 1) + [s[i - 1]]
    else ByKeyTo(key, s, k, i - 1)
  }

  /** The elements with key `k`, in order. */
  function ByKey<T, K(==)>(key: T -> K, s: seq<T>, k: K): seq<T> {
    ByKeyTo(key, s, k, |s|)
  }

  lemma {:induction false} ByKeyOfPrefix<T, K>(key: T -> K, s: seq<T>, x: T, k: K, i: nat)
    requires i <= |s|
    ensures ByKeyTo(key, s + [x], k, i) == ByKeyTo(key, s, k, i)
  {
    if i > 0 {
      ByKeyOfPrefix(key, s, x, k, i - 1);
    }
  }

  lemma ByKeyAppend<T, K>(key: T -> K, s: seq<T>, x: T, k: K)
    ensures ByKey(key, s + [x], k) == ByKey(key, s, k) + if key(x) == k then [x] else []
  {
    ByKeyOfPrefix(key, s, x, k, |s|);
  }

  lemma {:induction false} ByKeyCounts<T, K>(key: T -> K, s: seq<T>, k: K, x: T, i: nat)
    requires i <= |s|
    ensures multiset(ByKeyTo(key, s, k, i))[x] == if key(x) == k then multiset(s[..i])[x] else 0
  {
    if i > 0 {
      ByKeyCounts(key, s, k, x, i - 1);
      assert s[..i] == s[..i - 1] + [s[i - 1]];
    }
  }

  // ----- concatenation

  lemma ConcatAssociative<T>(a: seq<T>, b: seq<T>, c: seq<T>)
    ensures a + b + c == a + (b + c)
  {
  }

  // ----- permutations

  lemma OccurrencesAppend<T>(s: seq<T>, y: T, x: T)
    ensures multiset(s + [y])[x] == multiset(s)[x] + if x == y then 1 else 0
  {
    assert multiset(s + [y]) == multiset(s) + multiset{y};
  }

  lemma PermutesMembers<T>(a: seq<T>, b: seq<T>, x: T)
    requires Permutes(a, b)
    ensures x in a <==> x in b
  {
    assert x in multiset(a) <==> x in multiset(b);
  }

  lemma PermutesLength<T>(a: seq<T>, b: seq<T>)
    requires Permutes(a, b)
    ensures |a| == |b|
  {
    assert |multiset(a)| == |multiset(b)|;
  }

  function Without<T>(s: seq<T>, k: nat): seq<T>
    requires k < |s|
  {
    s[..k] + s[k + 1..]
  }

  lemma SplitAt<T>(s: seq<T>, k: nat)
    requires k < |s|
    ensures s == s[..k] + [s[k]] + s[k + 1..]
  {
  }

  lemma WithoutMultiset<T>(s: seq<T>, k: nat)
    requires k < |s|
    ensures multiset(s) == multiset(Without(s, k)) + multiset{s[k]}
  {
    SplitAt(s, k);
  }

  lemma {:induction false} SumToLeft<T>(f: T -> int, a: seq<T>, b: seq<T>, i: nat)
    requires i <= |a|
    ensures SumTo(f, a + b, i) == SumTo(f, a, i)
  {
    if i > 0 {
      SumToLeft(f, a, b, i - 1);
    }
  }

  lemma {:induction false} SumToRight<T>(f: T -> int, a: seq<T>, b: seq<T>, j: nat)
    requires j <= |b|
    ensures SumTo(f, a + b, |a| + j) == Sum(f, a) + SumTo(f, b, j)
  {
    if j == 0 {
      SumToLeft(f, a, b, |a|);
    } else {
      SumToRight(f, a, b, j - 1);
    }
  }

  lemma SumAppend<T>(f: T -> int, a: seq<T>, b: seq<T>)
    ensures Sum(f, a + b) == Sum(f, a) + Sum(f, b)
  {
    SumToRight(f, a, b, |b|);
  }

  lemma SumOne<T>(f: T -> int, x: T)
    ensures Sum(f, [x]) == f(x)
  {
    assert SumTo(f, [x], 0) == 0;
  }

  lemma MultisetCancel<T>(m: multiset<T>, n: multiset<T>, x: T)
    requires m + multiset{x} == n + multiset{x}
    ensures m == n
  {
    assert m == m + multiset{x} - multiset{x};
    assert n == n + multiset{x} - multiset{x};
  }

  lemma SumMiddle<T>(f: T -> int, a: seq<T>, x: T, b: seq<T>)
    ensures Sum(f, a + [x] + b) == Sum(f, a + b) + f(x)
  {
    SumAppend(f, a + [x], b);
    SumAppend(f, a, [x]);
    SumAppend(f, a, b);
    SumOne(f, x);
  }

  lemma SumWithout<T>(f: T -> int, s: seq<T>, k: nat)
    requires k < |s|
    ensures Sum(f, s) == Sum(f, Without(s, k)) + f(s[k])
  {
    SplitAt(s, k);
    SumMiddle(f, s[..k], s[k], s[k + 1..]);
  }

  lemma {:induction false} SumPermutes<T>(f: T -> int, a: seq<T>, b: seq<T>)
    requires Permutes(a, b)
    ensures Sum(f, a) == Sum(f, b)
    decreases |a|
  {
    PermutesLength(a, b);
    if a != [] {
      var last := |a| - 1;
      PermutesMembers(a, b, a[last]);
      var k :| 0 <= k < |b| && b[k] == a[last];
      assert a == a[..last] + [a[last]];
      WithoutMultiset(b, k);
      MultisetCancel(multiset(a[..last]), multiset(Without(b, k)), a[last]);
      SumWithout(f, b, k);
      SumAppend(f, a[..last], [a[last]]);
      SumOne(f, a[last]);
      SumPermutes(f, a[..last], Without(b, k));
    }
  }

  /** With no negative summand, no prefix sum exceeds a later one. */
  lemma {:induction false} SumToMonotone<T>(f: T -> int, s: seq<T>, i: nat, j: nat)
    requires forall k | 0 <= k < |s| :: f(s[k]) >= 0
    requires i <= j <= |s|
    ensures SumTo(f, s, i) <= SumTo(f, s, j)
  {
    if i < j {
      SumToMonotone(f, s, i, j - 1);
    }
  }

  lemma {:induction false} TwoOccurrences<T>(s: seq<T>, i: nat, j: nat)
    requires i < j < |s| && s[i] == s[j]
    ensures multiset(s)[s[i]] >= 2
  {
    assert s == s[..j] + s[j..];
    assert s[i] in s[..j] && s[i] in s[j..];
  }

  lemma {:induction false} TwoIndices<T>(s: seq<T>, x: T) returns (i: nat, j: nat)
    requires multiset(s)[x] >= 2
    ensures i < j < |s| && s[i] == s[j] == x
  {
    i :| i < |s| && s[i] == x;
    WithoutMultiset(s, i);
    assert x in multiset(Without(s, i));
    var k :| 0 <= k < |Without(s, i)| && Without(s, i)[k] == x;
    if k < i {
      i, j := k, i;
    } else {
      j := k + 1;
    }
  }

  /** Two positions of one arrangement have two positions in the other. */
  lemma PermutesIndices<T>(a: seq<T>, b: seq<T>, i: nat, j: nat) returns (k: nat, l: nat)
    requires Permutes(a, b) && i < j < |b|
    ensures k < |a| && l < |a| && k != l && a[k] == b[i] && a[l] == b[j]
  {
    if b[i] == b[j] {
      TwoOccurrences(b, i, j);
      k, l := TwoIndices(a, b[i]);
    } else {
      PermutesMembers(a, b, b[i]);
      PermutesMembers(a, b, b[j]);
      k :| k < |a| && a[k] == b[i];
      l :| l < |a| && a[l] == b[j];
    }
  }

  lemma DistinctByPermutes<T, K>(key: T -> K, a: seq<T>, b: seq<T>)
    requires Permutes(a, b) && DistinctBy(key, a)
    ensures DistinctBy(key, b)
  {
    forall i, j | 0 <= i < j < |b|
      ensures key(b[i]) != key(b[j])
    {
      var k, l := PermutesIndices(a, b, i, j);
      assert if k < l then key(a[k]) != key(a[l]) else key(a[l]) != key(a[k]);
    }
  }

  function Map<T, U>(f: T -> U, s: seq<T>): (r: seq<U>)
    ensures |r| == |s|
    ensures forall i | 0 <= i < |s| :: r[i] == f(s[i])
  {
    seq(|s|, i requires 0 <= i < |s| => f(s[i]))
  }

  /** Two listings of the same elements, each once, are arrangements of each other. */
  lemma {:induction false} DistinctMembersPermute<T>(a: seq<T>, b: seq<T>)
    requires forall i, j | 0 <= i < j < |a| :: a[i] != a[j]
    requires forall i, j | 0 <= i < j < |b| :: b[i] != b[j]
    requires forall x :: x in a <==> x in b
    ensures Permutes(a, b)
  {
    forall x
      ensures multiset(a)[x] == multiset(b)[x]
    {
      OccursOnce(a, x);
      OccursOnce(b, x);
    }
  }

  lemma OccursOnce<T>(s: seq<T>, x: T)
    requires forall i, j | 0 <= i < j < |s| :: s[i] != s[j]
    ensures multiset(s)[x] == if x in s then 1 else 0
  {
    if multiset(s)[x] >= 2 {
      var i, j := TwoIndices(s, x);
    }
  }

  // ----- sums of functions

  lemma {:induction false} SumToPlus<T>(f: T -> int, g: T -> int, h: T -> int, s: seq<T>, i: nat)
    requires i <= |s| && forall j | 0 <= j < i :: h(s[j]) == f(s[j]) + g(s[j])
    ensures SumTo(h, s, i) == SumTo(f, s, i) + SumTo(g, s, i)
  {
    if i > 0 {
      SumToPlus(f, g, h, s, i - 1);
    }
  }

  lemma {:induction false} SumToSame<T>(f: T -> int, g: T -> int, s: seq<T>, i: nat)
    requires i <= |s| && forall j | 0 <= j < i :: f(s[j]) == g(s[j])
    ensures SumTo(f, s, i) == SumTo(g, s, i)
  {
    if i > 0 {
      SumToSame(f, g, s, i - 1);
    }
  }

  // ----- a sort has one result when no two different elements tie

  ghost predicate NoTies<T>(leq: (T, T) -> bool, s: seq<T>) {
    forall x, y | x in s && y in s && leq(x, y) && leq(y, x) :: x == y
  }

  lemma TailsPermute<T>(a: seq<T>, b: seq<T>)
    requires Permutes(a, b) && a != [] && b != [] && a[0] == b[0]
    ensures Permutes(a[1..], b[1..])
  {
    assert a == [a[0]] + a[1..];
    assert b == [b[0]] + b[1..];
    assert multiset(a[1..]) + multiset{a[0]} == multiset(a);
    assert multiset(b[1..]) + multiset{a[0]} == multiset(b);
    MultisetCancel(multiset(a[1..]), multiset(b[1..]), a[0]);
  }

  lemma HeadsAgree<T>(leq: (T, T) -> bool, a: seq<T>, b: seq<T>)
    requires Permutes(a, b) && SortedBy(leq, a) && SortedBy(leq, b)
    requires NoTies(leq, a) && a != [] && b != []
    ensures a[0] == b[0]
  {
    PermutesMembers(a, b, a[0]);
    PermutesMembers(a, b, b[0]);
    var i :| 0 <= i < |a| && a[i] == b[0];
    var j :| 0 <= j < |b| && b[j] == a[0];
    assert i == 0 || leq(a[0], a[i]);
    assert j == 0 || leq(b[0], b[j]);
  }

  lemma {:induction false} SortedUnique<T>(leq: (T, T) -> bool, a: seq<T>, b: seq<T>)
    requires Permutes(a, b) && SortedBy(leq, a) && SortedBy(leq, b)
    requires NoTies(leq, a)
    ensures a == b
    decreases |a|
  {
    PermutesLength(a, b);
    if a != [] {
      HeadsAgree(leq, a, b);
      TailsPermute(a, b);
      assert NoTies(leq, a[1..]);
      SortedUnique(leq, a[1..], b[1..]);
      assert a == [a[0]] + a[1..] && b == [b[0]] + b[1..];
    }
  }
}
