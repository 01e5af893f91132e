/** Display orders of the task lists. Every list in the system is ordered by
    a two-level key (a status group, then a position inside the group), so
    one stable insertion sort over such keys serves them all. */
module Ordering {

  /** Sort key: smaller `group` first, then smaller `order` first. A
      descending field is stored negated in `order`. */
  datatype Rank = Rank(group: int, order: int)

  /** Lexicographic comparison of keys: a total preorder. */
  predicate RankLe(a: Rank, b: Rank) {
    a.group < b.group || (a.group == b.group && a.order <= b.order)
  }

  predicate SortedBy<T>(s: seq<T>, key: T -> Rank) {
    forall i, j :: 0 <= i < j < |s| ==> RankLe(key(s[i]), key(s[j]))
  }

  /** Inserts `x` in front of the first element whose key is not below its
      own, so `x` lands before the elements it ties with. */
  function Insert<T>(x: T, s: seq<T>, key: T -> Rank): (r: seq<T>)
    requires SortedBy(s, key)
    ensures SortedBy(r, key)
    ensures multiset(r) == multiset(s) + multiset{x}
    ensures forall i :: 0 <= i < |r| ==> r[i] == x || r[i] in s
  {
    if s == [] || RankLe(key(x), key(s[0])) then
      [x] + s
    else
      TailSorted(s, key);
      var rest := Insert(x, s[1..], key);
      InsertBehindHead(x, s, rest, key);
      [s[0]] + rest
  }

  /** The list `s` rearranged by `key`; elements with equal keys keep their
      relative order, as JavaScript's stable `Array.prototype.sort` does. */
  function SortBy<T>(s: seq<T>, key: T -> Rank): (r: seq<T>)
    ensures SortedBy(r, key)
    ensures multiset(r) == multiset(s)
    ensures |r| == |s|
  {
    if s == [] then []
    else
      assert s == [s[0]] + s[1..];
      Insert(s[0], SortBy(s[1..], key), key)
  }

  /** When `x` goes behind the head of `s`, the head stays first and the
      elements are those of `s` plus `x`. */
  lemma InsertBehindHead<T>(x: T, s: seq<T>, rest: seq<T>, key: T -> Rank)
    requires s != [] && SortedBy(s, key) && !RankLe(key(x), key(s[0]))
    requires SortedBy(rest, key) && multiset(rest) == multiset(s[1..]) + multiset{x}
    requires forall i :: 0 <= i < |rest| ==> rest[i] == x || rest[i] in s[1..]
    ensures SortedBy([s[0]] + rest, key)
    ensures multiset([s[0]] + rest) == multiset(s) + multiset{x}
  {
    assert s == [s[0]] + s[1..];
    forall i | 0 <= i < |rest| ensures RankLe(key(s[0]), key(rest[i])) {
      if rest[i] != x {
        var j :| 0 <= j < |s[1..]| && s[1..][j] == rest[i];
        assert s[j + 1] == rest[i];
      }
    }
    var r := [s[0]] + rest;
    forall i, j | 0 <= i < j < |r| ensures RankLe(key(r[i]), key(r[j])) {
      if i > 0 {
        assert r[i] == rest[i - 1] && r[j] == rest[j - 1];
      } else {
        assert r[j] == rest[j - 1];
      }
    }
  }

  /** Re-sorting a list that is already in order leaves it as it is: ties
      keep their places because the sort is stable. */
  lemma {:induction false} SortBySorted<T>(s: seq<T>, key: T -> Rank)
    requires SortedBy(s, key)
    ensures SortBy(s, key) == s
  {
    if s != [] {
      var tail := s[1..];
      TailSorted(s, key);
      SortBySorted(tail, key);
      assert SortBy(s, key) == Insert(s[0], tail, key);
      assert tail == [] || RankLe(key(s[0]), key(tail[0]));
      assert s == [s[0]] + tail;
    }
  }

  /** The tail of a sorted list is sorted. */
  lemma TailSorted<T>(s: seq<T>, key: T -> Rank)
    requires s != [] && SortedBy(s, key)
    ensures SortedBy(s[1..], key)
  {
    assert forall p :: 0 <= p < |s[1..]| ==> s[1..][p] == s[p + 1];
  }

  /** The elements of `s` whose key is `g`, in their order in `s`. */
  function WithKey<T>(s: seq<T>, key: T -> Rank, g: Rank): seq<T> {
    if s == [] then []
    else (if key(s[0]) == g then [s[0]] else []) + WithKey(s[1..], key, g)
  }

  /** `x` goes in front of every element it ties with, so among the
      elements with any one key it comes first. */
  lemma {:induction false} InsertStable<T>(x: T, s: seq<T>, key: T -> Rank, g: Rank)
    requires SortedBy(s, key)
    ensures WithKey(Insert(x, s, key), key, g) == (if key(x) == g then [x] else []) + WithKey(s, key, g)
  {
    if s == [] || RankLe(key(x), key(s[0])) {
      var r := [x] + s;
      assert r[0] == x && r[1..] == s;
    } else {
      TailSorted(s, key);
      var rest := Insert(x, s[1..], key);
      InsertStable(x, s[1..], key, g);
      var r := [s[0]] + rest;
      assert r[0] == s[0] && r[1..] == rest;
      assert key(s[0]) != key(x);
    }
  }

  /** Stability: `SortBy` keeps the relative order of the elements that
      share a key. */
  lemma {:induction false} SortByStable<T>(s: seq<T>, key: T -> Rank)
    ensures forall g :: WithKey(SortBy(s, key), key, g) == WithKey(s, key, g)
  {
    if s != [] {
      SortByStable(s[1..], key);
      forall g ensures WithKey(SortBy(s, key), key, g) == WithKey(s, key, g) {
        InsertStable(s[0], SortBy(s[1..], key), key, g);
      }
    }
  }

  /** No two different elements of `s` share a key. */
  predicate KeyInjective<T(==)>(s: seq<T>, key: T -> Rank) {
    forall i, j :: 0 <= i < |s| && 0 <= j < |s| && key(s[i]) == key(s[j]) ==> s[i] == s[j]
  }

  /** When the key tells all elements apart, a list has exactly one sorted
      rearrangement: any two sorted permutations of it are equal, so the
      display order does not depend on the sorting algorithm. */
  lemma {:induction false} SortedPermutationUnique<T>(a: seq<T>, b: seq<T>, key: T -> Rank)
    requires SortedBy(a, key) && SortedBy(b, key)
    requires multiset(a) == multiset(b)
    requires KeyInjective(a, key)
    ensures a == b
  {
    if a == [] {
      assert |multiset(b)| == 0;
    } else {
      TailStep(a, b, key);
      SortedPermutationUnique(a[1..], b[1..], key);
      assert a == [a[0]] + a[1..];
      assert b == [b[0]] + b[1..];
    }
  }

  /** Two sorted permutations of a non-empty list with an injective key
      start with the same element: each head is a least element of both. */
  lemma SortedHeadsAgree<T>(a: seq<T>, b: seq<T>, key: T -> Rank)
    requires a != [] && SortedBy(a, key) && SortedBy(b, key)
    requires multiset(a) == multiset(b)
    requires KeyInjective(a, key)
    ensures b != [] && a[0] == b[0]
  {
    assert a[0] in multiset(b);
    var j :| 0 <= j < |b| && b[j] == a[0];
    assert b[0] in multiset(a);
    var i :| 0 <= i < |a| && a[i] == b[0];
    assert RankLe(key(b[0]), key(b[j]));
    assert RankLe(key(a[0]), key(a[i]));
  }

  /** After equal heads, the tails again meet the requirements of
      `SortedPermutationUnique`. */
  lemma TailStep<T>(a: seq<T>, b: seq<T>, key: T -> Rank)
    requires a != [] && SortedBy(a, key) && SortedBy(b, key)
    requires multiset(a) == multiset(b)
    requires KeyInjective(a, key)
    ensures b != [] && a[0] == b[0]
    ensures SortedBy(a[1..], key) && SortedBy(b[1..], key)
    ensures multiset(a[1..]) == multiset(b[1..])
    ensures KeyInjective(a[1..], key)
  {
    SortedHeadsAgree(a, b, key);
    TailMultiset(a);
    TailMultiset(b);
    TailSorted(a, key);
    TailSorted(b, key);
    TailInjective(a, key);
  }

  /** An injective key stays injective on the tail. */
  lemma TailInjective<T>(s: seq<T>, key: T -> Rank)
    requires s != [] && KeyInjective(s, key)
    ensures KeyInjective(s[1..], key)
  {
    assert forall p :: 0 <= p < |s[1..]| ==> s[1..][p] == s[p + 1];
  }

  lemma TailMultiset<T>(s: seq<T>)
    requires s != []
    ensures multiset(s[1..]) == multiset(s) - multiset{s[0]}
  {
    assert s == [s[0]] + s[1..];
  }
}
