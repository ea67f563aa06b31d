/** The Kotlin collection operations the app relies on: `filter`, the stable
    `sortedBy` / `sortedWith` / `sortedByDescending`, and `distinctBy`.
    An order is passed as a "less than or equal" function. */
module Sorting {

  /** `le` is total and transitive, as every comparator the app builds is. */
  ghost predicate TotalPreorder<T(!new)>(le: (T, T) -> bool) {
    (forall a: T, b: T :: le(a, b) || le(b, a))
    && (forall a: T, b: T, c: T :: le(a, b) && le(b, c) ==> le(a, c))
  }

  /** Each element is `le` its successor. */
  predicate Sorted<T>(s: seq<T>, le: (T, T) -> bool) {
    forall i :: 0 < i < |s| ==> le(s[i - 1], s[i])
  }

  /** `s.filter(p)`. */
  function Filter<T>(s: seq<T>, p: T -> bool): (r: seq<T>)
    ensures |r| <= |s|
    ensures forall i :: 0 <= i < |r| ==> p(r[i]) && r[i] in s
    ensures forall i :: 0 <= i < |s| && p(s[i]) ==> s[i] in r
    ensures multiset(r) <= multiset(s)
  {
    if s == [] then []
    else
      assert s == [s[0]] + s[1..];
      if p(s[0]) then [s[0]] + Filter(s[1..], p)
      else Filter(s[1..], p)
  }

  lemma {:induction false} FilterAll<T>(s: seq<T>, p: T -> bool)
    requires forall x :: x in s ==> p(x)
    ensures Filter(s, p) == s
  {
    if s != [] {
      FilterAll(s[1..], p);
    }
  }

  lemma {:induction false} FilterConcat<T>(a: seq<T>, b: seq<T>, p: T -> bool)
    ensures Filter(a + b, p) == Filter(a, p) + Filter(b, p)
  {
    if a == [] {
      assert a + b == b;
    } else {
      var ab := a + b;
      assert ab[0] == a[0] && ab[1..] == a[1..] + b;
      FilterConcat(a[1..], b, p);
      HeadStep(ab, p);
      HeadStep(a, p);
      if p(a[0]) {
        var fa, fb := Filter(a[1..], p), Filter(b, p);
        assert [a[0]] + (fa + fb) == ([a[0]] + fa) + fb;
      }
    }
  }

  /** Each element occurs in the result exactly as often as in the input
      when it passes, and not at all otherwise. */
  lemma {:induction false} FilterCount<T>(s: seq<T>, p: T -> bool, x: T)
    ensures multiset(Filter(s, p))[x] == if p(x) then multiset(s)[x] else 0
  {
    if s != [] {
      var h, t := s[0], s[1..];
      FilterCount(t, p, x);
      assert s == [h] + t;
      FilterCons(h, t, p);
      assert multiset(s) == multiset{h} + multiset(t);
    }
  }

  /** One step of `filter`: the head is kept exactly when it passes. */
  lemma FilterCons<T>(x: T, s: seq<T>, p: T -> bool)
    ensures Filter([x] + s, p) == if p(x) then [x] + Filter(s, p) else Filter(s, p)
  {
    assert ([x] + s)[1..] == s;
  }

  /** Places `x` in front of the first element it is `le`, so that among
      equivalent elements `x` comes first. */
  function Insert<T>(x: T, s: seq<T>, le: (T, T) -> bool): (r: seq<T>)
    ensures multiset(r) == multiset(s) + multiset{x}
    ensures |r| == |s| + 1
  {
    if s == [] then [x]
    else if le(x, s[0]) then [x] + s
    else
      assert s == [s[0]] + s[1..];
      [s[0]] + Insert(x, s[1..], le)
  }

  /** The stable sort: `sortedWith(le)`. */
  function SortBy<T>(s: seq<T>, le: (T, T) -> bool): (r: seq<T>)
    ensures multiset(r) == multiset(s)
    ensures |r| == |s|
  {
    if s == [] then []
    else
      assert s == [s[0]] + s[1..];
      Insert(s[0], SortBy(s[1..], le), le)
  }

  lemma {:induction false} InsertSorted<T(!new)>(x: T, s: seq<T>, le: (T, T) -> bool)
    requires TotalPreorder(le)
    requires Sorted(s, le)
    ensures Sorted(Insert(x, s, le), le)
    ensures s != [] ==> var r := Insert(x, s, le); r[0] == x || r[0] == s[0]
  {
    if s != [] && !le(x, s[0]) {
      assert Sorted(s[1..], le);
      InsertSorted(x, s[1..], le);
      var t := Insert(x, s[1..], le);
      assert le(s[0], x);
      if s[1..] != [] {
        assert le(s[0], s[1]);
      }
    }
  }

  /** The result of SortBy is sorted whenever the order is a total preorder. */
  lemma {:induction false} SortBySorted<T(!new)>(s: seq<T>, le: (T, T) -> bool)
    requires TotalPreorder(le)
    ensures Sorted(SortBy(s, le), le)
  {
    if s != [] {
      SortBySorted(s[1..], le);
      InsertSorted(s[0], SortBy(s[1..], le), le);
    }
  }

  /** The elements tied with `k` under `le`. */
  function TiedWith<T>(le: (T, T) -> bool, k: T): T -> bool {
    y => le(y, k) && le(k, y)
  }

  /** Any two elements that pass `p` are `le` each other: `p` picks out
      elements the order cannot tell apart. */
  ghost predicate AllTied<T(!new)>(p: T -> bool, le: (T, T) -> bool) {
    forall a: T, b: T :: p(a) && p(b) ==> le(a, b)
  }

  /** Under a total preorder the elements tied with `k` are all tied with each other. */
  lemma TiedWithAllTied<T(!new)>(le: (T, T) -> bool, k: T)
    requires TotalPreorder(le)
    ensures AllTied(TiedWith(le, k), le)
  {
  }

  /** Inserting `x` puts it before every element tied with it. */
  lemma {:induction false} InsertKeepsTies<T(!new)>(x: T, t: seq<T>, le: (T, T) -> bool, p: T -> bool)
    requires AllTied(p, le)
    ensures p(x) ==> Filter(Insert(x, t, le), p) == [x] + Filter(t, p)
    ensures !p(x) ==> Filter(Insert(x, t, le), p) == Filter(t, p)
  {
    if t == [] || le(x, t[0]) {
      InsertFront(x, t, le, p);
    } else {
      InsertKeepsTies(x, t[1..], le, p);
      if p(x) {
        InsertPassTied(x, t, le, p);
      } else {
        InsertPassUntied(x, t, le, p);
      }
    }
  }

  /** `x` lands in front of `t`. */
  lemma InsertFront<T>(x: T, t: seq<T>, le: (T, T) -> bool, p: T -> bool)
    requires t == [] || le(x, t[0])
    ensures p(x) ==> Filter(Insert(x, t, le), p) == [x] + Filter(t, p)
    ensures !p(x) ==> Filter(Insert(x, t, le), p) == Filter(t, p)
  {
    assert Insert(x, t, le) == [x] + t;
    FilterCons(x, t, p);
  }

  /** `x` passes the head of `t`, which is not tied with it. */
  lemma InsertPassTied<T>(x: T, t: seq<T>, le: (T, T) -> bool, p: T -> bool)
    requires t != [] && !le(x, t[0]) && p(x) && !p(t[0])
    requires Filter(Insert(x, t[1..], le), p) == [x] + Filter(t[1..], p)
    ensures Filter(Insert(x, t, le), p) == [x] + Filter(t, p)
  {
    assert t == [t[0]] + t[1..];
    FilterCons(t[0], Insert(x, t[1..], le), p);
    FilterCons(t[0], t[1..], p);
  }

  /** `x`, which `p` drops, passes the head of `t`. */
  lemma InsertPassUntied<T>(x: T, t: seq<T>, le: (T, T) -> bool, p: T -> bool)
    requires t != [] && !le(x, t[0]) && !p(x)
    requires Filter(Insert(x, t[1..], le), p) == Filter(t[1..], p)
    ensures Filter(Insert(x, t, le), p) == Filter(t, p)
  {
    assert t == [t[0]] + t[1..];
    FilterCons(t[0], Insert(x, t[1..], le), p);
    FilterCons(t[0], t[1..], p);
  }

  /** Sorting keeps elements the order cannot tell apart in their input order. */
  lemma {:induction false} SortByKeepsTies<T(!new)>(s: seq<T>, le: (T, T) -> bool, p: T -> bool)
    requires AllTied(p, le)
    ensures Filter(SortBy(s, le), p) == Filter(s, p)
  {
    if s != [] {
      SortByKeepsTies(s[1..], le, p);
      InsertKeepsTies(s[0], SortBy(s[1..], le), le, p);
      HeadStep(s, p);
    }
  }

  /** Filtering a non-empty sequence decides its head, then filters the rest. */
  lemma HeadStep<T>(s: seq<T>, p: T -> bool)
    requires s != []
    ensures p(s[0]) ==> Filter(s, p) == [s[0]] + Filter(s[1..], p)
    ensures !p(s[0]) ==> Filter(s, p) == Filter(s[1..], p)
  {
  }

  /** Stability: the elements tied with any `k` come out in their input order. */
  lemma SortByStable<T(!new)>(s: seq<T>, le: (T, T) -> bool, k: T)
    requires TotalPreorder(le)
    ensures Filter(SortBy(s, le), TiedWith(le, k)) == Filter(s, TiedWith(le, k))
  {
    TiedWithAllTied(le, k);
    SortByKeepsTies(s, le, TiedWith(le, k));
  }

  /** Adjacent sortedness under a transitive order is pairwise sortedness. */
  lemma {:induction false} SortedPairwise<T(!new)>(s: seq<T>, le: (T, T) -> bool, i: int, j: int)
    requires TotalPreorder(le)
    requires Sorted(s, le)
    requires 0 <= i < j < |s|
    ensures le(s[i], s[j])
    decreases j - i
  {
    if j > i + 1 {
      SortedPairwise(s, le, i, j - 1);
    }
  }

  /** The set of keys of a sequence. */
  function Keys<T, K>(s: seq<T>, key: T -> K): (r: set<K>)
    ensures forall i :: 0 <= i < |s| ==> key(s[i]) in r
    ensures forall k :: k in r ==> exists i :: 0 <= i < |s| && key(s[i]) == k
  {
    if s == [] then {} else Keys(s[..|s| - 1], key) + {key(s[|s| - 1])}
  }

  /** No two elements share a key. */
  predicate DistinctKeys<T, K(==)>(s: seq<T>, key: T -> K) {
    forall i, j :: 0 <= i < j < |s| ==> key(s[i]) != key(s[j])
  }

  /** `s.distinctBy(key)`: the first element of each key, in order. */
  function DistinctBy<T, K(==)>(s: seq<T>, key: T -> K): (r: seq<T>)
    ensures DistinctKeys(r, key)
    ensures Keys(r, key) == Keys(s, key)
    ensures forall j :: 0 <= j < |r| ==> r[j] in s
    ensures |r| <= |s|
  {
    if s == [] then []
    else
      var p := s[..|s| - 1];
      var x := s[|s| - 1];
      var r := DistinctBy(p, key);
      assert Keys(s, key) == Keys(p, key) + {key(x)};
      if key(x) in Keys(p, key) then r
      else
        AppendNewKey(r, x, key);
        r + [x]
  }

  /** Appending an element of a new key keeps keys distinct and adds that key. */
  lemma AppendNewKey<T, K>(r: seq<T>, x: T, key: T -> K)
    requires DistinctKeys(r, key) && key(x) !in Keys(r, key)
    ensures DistinctKeys(r + [x], key)
    ensures Keys(r + [x], key) == Keys(r, key) + {key(x)}
  {
    assert (r + [x])[..|r|] == r;
    forall i, j | 0 <= i < j < |r + [x]|
      ensures key((r + [x])[i]) != key((r + [x])[j])
    {
      if j == |r| {
        assert key(r[i]) in Keys(r, key);
      }
    }
  }

  /** Every element that is the first one of its key is kept by distinctBy. */
  lemma {:induction false} DistinctByHasFirst<T, K>(s: seq<T>, key: T -> K, i: int)
    requires 0 <= i < |s| && key(s[i]) !in Keys(s[..i], key)
    ensures s[i] in DistinctBy(s, key)
  {
    var p := s[..|s| - 1];
    if i < |s| - 1 {
      assert s[..i] == p[..i];
      DistinctByHasFirst(p, key, i);
      DistinctByGrows(s, key, s[i]);
    } else {
      assert s[..i] == p;
      DistinctByLast(s, key);
    }
  }

  /** What distinctBy keeps of a prefix it keeps of the whole. */
  lemma DistinctByGrows<T, K>(s: seq<T>, key: T -> K, y: T)
    requires s != [] && y in DistinctBy(s[..|s| - 1], key)
    ensures y in DistinctBy(s, key)
  {
    DistinctByLast(s, key);
  }

  /** `s.indexOfFirst { key(it) == k }`: the first index holding key `k`, or -1. */
  function FirstIndex<T, K(==)>(s: seq<T>, key: T -> K, k: K): (i: int)
    ensures -1 <= i < |s|
    ensures i >= 0 ==> key(s[i]) == k && forall j :: 0 <= j < i ==> key(s[j]) != k
    ensures i == -1 ==> forall j :: 0 <= j < |s| ==> key(s[j]) != k
  {
    if s == [] then -1
    else if key(s[0]) == k then 0
    else
      var r := FirstIndex(s[1..], key, k);
      if r == -1 then -1 else r + 1
  }

  /** The first index is the one index satisfying its characterisation. */
  lemma FirstIndexIs<T, K>(s: seq<T>, key: T -> K, k: K, i: int)
    requires -1 <= i < |s|
    requires i >= 0 ==> key(s[i]) == k && forall j :: 0 <= j < i ==> key(s[j]) != k
    requires i == -1 ==> forall j :: 0 <= j < |s| ==> key(s[j]) != k
    ensures FirstIndex(s, key, k) == i
  {
    if s != [] && key(s[0]) != k {
      FirstIndexIs(s[1..], key, k, if i == -1 then -1 else i - 1);
    }
  }

  /** Each element distinctBy keeps is the first one of its key. */
  lemma {:induction false} DistinctByKeepsFirst<T, K>(s: seq<T>, key: T -> K, j: int)
    requires 0 <= j < |DistinctBy(s, key)|
    ensures exists i :: 0 <= i < |s| && s[i] == DistinctBy(s, key)[j] && key(s[i]) !in Keys(s[..i], key)
  {
    var p := s[..|s| - 1];
    var x := s[|s| - 1];
    var r := DistinctBy(p, key);
    var d := DistinctBy(s, key);
    DistinctByLast(s, key);
    var i: int;
    if j < |r| {
      DistinctByKeepsFirst(p, key, j);
      i :| 0 <= i < |p| && p[i] == r[j] && key(p[i]) !in Keys(p[..i], key);
      PrefixOfPrefix(s, i);
    } else {
      i := |s| - 1;
    }
    assert 0 <= i < |s| && s[i] == d[j] && key(s[i]) !in Keys(s[..i], key);
  }

  lemma DistinctByLast<T, K>(s: seq<T>, key: T -> K)
    requires s != []
    ensures var p, x := s[..|s| - 1], s[|s| - 1];
      DistinctBy(s, key) == if key(x) in Keys(p, key) then DistinctBy(p, key) else DistinctBy(p, key) + [x]
  {
  }

  lemma PrefixOfPrefix<T>(s: seq<T>, i: int)
    requires 0 <= i < |s|
    ensures s[..|s| - 1][..i] == s[..i]
  {
  }

  /** Filtering keeps keys distinct. */
  lemma {:induction false} FilterDistinctKeys<T, K>(s: seq<T>, p: T -> bool, key: T -> K)
    requires DistinctKeys(s, key)
    ensures DistinctKeys(Filter(s, p), key)
  {
    if s != [] {
      assert DistinctKeys(s[1..], key);
      FilterDistinctKeys(s[1..], p, key);
      if p(s[0]) {
        assert forall i :: 0 <= i < |s[1..]| ==> key(s[1..][i]) != key(s[0]) by {
          forall i | 0 <= i < |s[1..]| ensures key(s[1..][i]) != key(s[0]) {
            assert s[1..][i] == s[i + 1];
          }
        }
        FilterKeyAbsent(s[1..], p, key, key(s[0]));
      }
    }
  }

  /** A key no element has is not had by any element kept by a filter. */
  lemma FilterKeyAbsent<T, K>(s: seq<T>, p: T -> bool, key: T -> K, k: K)
    requires forall i :: 0 <= i < |s| ==> key(s[i]) != k
    ensures forall j :: 0 <= j < |Filter(s, p)| ==> key(Filter(s, p)[j]) != k
  {
    var t := Filter(s, p);
    forall j | 0 <= j < |t| ensures key(t[j]) != k {
      var i :| 0 <= i < |s| && s[i] == t[j];
    }
  }

  lemma {:induction false} InsertDistinctKeys<T, K>(x: T, s: seq<T>, le: (T, T) -> bool, key: T -> K)
    requires DistinctKeys(s, key)
    requires forall i :: 0 <= i < |s| ==> key(s[i]) != key(x)
    ensures DistinctKeys(Insert(x, s, le), key)
  {
    if s != [] && !le(x, s[0]) {
      assert DistinctKeys(s[1..], key);
      InsertDistinctKeys(x, s[1..], le, key);
      var t := Insert(x, s[1..], le);
      forall j | 0 <= j < |t| ensures key(t[j]) != key(s[0]) {
        assert t[j] in multiset(s[1..]) + multiset{x};
        if t[j] != x {
          var k :| 0 <= k < |s[1..]| && s[1..][k] == t[j];
          assert s[k + 1] == t[j];
        }
      }
    }
  }

  /** Sorting keeps keys distinct. */
  lemma {:induction false} SortByDistinctKeys<T, K>(s: seq<T>, le: (T, T) -> bool, key: T -> K)
    requires DistinctKeys(s, key)
    ensures DistinctKeys(SortBy(s, le), key)
  {
    if s != [] {
      assert DistinctKeys(s[1..], key);
      SortByDistinctKeys(s[1..], le, key);
      var t := SortBy(s[1..], le);
      forall j | 0 <= j < |t| ensures key(t[j]) != key(s[0]) {
        assert t[j] in multiset(s[1..]);
        var k :| 0 <= k < |s[1..]| && s[1..][k] == t[j];
        assert s[k + 1] == t[j];
      }
      InsertDistinctKeys(s[0], t, le, key);
    }
  }
}
