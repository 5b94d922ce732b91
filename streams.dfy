/**
 * The java.util.stream pipeline steps the suite uses (filter, anyMatch,
 * findFirst, sorted, limit) as functions on sequences, each specified by what
 * it keeps and in which order.
 */
module Streams {
  import opened Outcomes

  /** `r` is `s` with some elements left out: the elements of `r` occur in `s` in the same order. */
  ghost predicate IsSubsequence<T>(r: seq<T>, s: seq<T>)
    decreases |s|
  {
    r == [] || (s != [] && ((r[0] == s[0] && IsSubsequence(r[1..], s[1..])) || IsSubsequence(r, s[1..])))
  }

  /** stream().filter(f): exactly the elements satisfying `f`, each as often as in `s`, in their order. */
  function Filter<T>(s: seq<T>, f: T -> bool): (r: seq<T>)
    ensures |r| <= |s|
    ensures forall i :: 0 <= i < |r| ==> f(r[i])
    ensures multiset(r) <= multiset(s)
    ensures forall i :: 0 <= i < |s| ==> multiset(r)[s[i]] == if f(s[i]) then multiset(s)[s[i]] else 0
    ensures IsSubsequence(r, s)
  {
    if s == [] then []
    else
      var rest := Filter(s[1..], f);
      assert s == [s[0]] + s[1..];
      assert multiset(s) == multiset{s[0]} + multiset(s[1..]);
      if f(s[0]) then
        assert ([s[0]] + rest)[1..] == rest;
        [s[0]] + rest
      else rest
  }

  /** A non-empty sequence is its front followed by its last element. */
  lemma SplitLast<T>(s: seq<T>)
    requires s != []
    ensures s == s[..|s| - 1] + [s[|s| - 1]]
  {
  }

  /** Membership in a filtered sequence: an element is kept iff it is in `s` and satisfies `f`. */
  lemma FilterMember<T>(s: seq<T>, f: T -> bool, x: T)
    ensures x in Filter(s, f) <==> x in s && f(x)
  {
    var r := Filter(s, f);
    if x in r {
      assert x in multiset(r);
    }
    if x in s && f(x) {
      var i :| 0 <= i < |s| && s[i] == x;
      assert multiset(r)[s[i]] > 0;
    }
  }

  /** Filtering keeps the sequence as it is when every element satisfies the predicate. */
  lemma {:induction false} FilterAll<T>(s: seq<T>, f: T -> bool)
    requires forall i :: 0 <= i < |s| ==> f(s[i])
    ensures Filter(s, f) == s
    decreases |s|
  {
    if s != [] {
      FilterAll(s[1..], f);
      assert [s[0]] + s[1..] == s;
    }
  }

  /** Filtering keeps the keys distinct: what is left is a subsequence. */
  lemma {:induction false} FilterDistinct<T, K>(s: seq<T>, f: T -> bool, key: T -> K)
    requires forall i, j :: 0 <= i < j < |s| ==> key(s[i]) != key(s[j])
    ensures forall i, j :: 0 <= i < j < |Filter(s, f)| ==> key(Filter(s, f)[i]) != key(Filter(s, f)[j])
    decreases |s|
  {
    if s != [] {
      var rest := Filter(s[1..], f);
      assert forall i, j :: 0 <= i < j < |s[1..]| ==> key(s[1..][i]) != key(s[1..][j]) by {
        forall i, j | 0 <= i < j < |s[1..]| ensures key(s[1..][i]) != key(s[1..][j]) {
          assert s[1..][i] == s[i + 1] && s[1..][j] == s[j + 1];
        }
      }
      FilterDistinct(s[1..], f, key);
      if f(s[0]) {
        var r := [s[0]] + rest;
        assert Filter(s, f) == r;
        forall i, j | 0 <= i < j < |r| ensures key(r[i]) != key(r[j]) {
          if i == 0 {
            var y := rest[j - 1];
            assert y in multiset(s[1..]) by {
              assert y in multiset(rest);
            }
            var k :| 0 <= k < |s[1..]| && s[1..][k] == y;
            assert s[k + 1] == y;
          } else {
            assert r[i] == rest[i - 1] && r[j] == rest[j - 1];
          }
        }
      }
    }
  }

  /** stream().anyMatch(f). */
  predicate AnyMatch<T>(s: seq<T>, f: T -> bool)
    decreases |s|
  {
    s != [] && (f(s[0]) || AnyMatch(s[1..], f))
  }

  lemma {:induction false} AnyMatchExists<T>(s: seq<T>, f: T -> bool)
    ensures AnyMatch(s, f) <==> exists i :: 0 <= i < |s| && f(s[i])
    decreases |s|
  {
    if s != [] {
      AnyMatchExists(s[1..], f);
      if f(s[0]) {
        assert 0 < |s| && f(s[0]);
      } else if exists i :: 0 <= i < |s| && f(s[i]) {
        var i :| 0 <= i < |s| && f(s[i]);
        assert 0 <= i - 1 < |s[1..]| && f(s[1..][i - 1]);
      }
    }
  }

  /** The position of the first element satisfying `f`, if there is one. */
  function FirstIndex<T>(s: seq<T>, f: T -> bool): (r: Option<nat>)
    ensures r.Some? ==> r.value < |s| && f(s[r.value]) && forall j :: 0 <= j < r.value ==> !f(s[j])
    ensures r.None? ==> forall j :: 0 <= j < |s| ==> !f(s[j])
  {
    if s == [] then None
    else if f(s[0]) then Some(0)
    else match FirstIndex(s[1..], f)
      case None => None
      case Some(i) => Some(i + 1)
  }

  /** stream().filter(f).findFirst(): the first element satisfying `f`, or nothing. */
  function FindFirst<T>(s: seq<T>, f: T -> bool): (r: Option<T>)
    ensures r.Some? <==> FirstIndex(s, f).Some?
    ensures r.Some? ==> r.value == s[FirstIndex(s, f).value]
  {
    match FirstIndex(s, f)
    case None => None
    case Some(i) => Some(s[i])
  }

  /** stream().limit(n). */
  function Limit<T>(s: seq<T>, n: nat): (r: seq<T>)
    ensures |r| == if |s| <= n then |s| else n
    ensures r == s[..|r|]
  {
    if |s| <= n then s else s[..n]
  }

  // ---------------------------------------------------------------------
  // sorted(comparator): a stable insertion sort by a key
  // ---------------------------------------------------------------------

  /** `le` orders every pair of keys and is transitive, as a Comparator must be. */
  ghost predicate TotalPreorder<K(!new)>(le: (K, K) -> bool) {
    && (forall a, b :: le(a, b) || le(b, a))
    && (forall a, b, c :: le(a, b) && le(b, c) ==> le(a, c))
  }

  ghost predicate SortedBy<T, K>(s: seq<T>, key: T -> K, le: (K, K) -> bool) {
    forall i, j :: 0 <= i < j < |s| ==> le(key(s[i]), key(s[j]))
  }

  /** Puts `x` before the first element whose key is not below its own. */
  function InsertBy<T, K(!new)>(x: T, s: seq<T>, key: T -> K, le: (K, K) -> bool): (r: seq<T>)
    requires TotalPreorder(le)
    requires SortedBy(s, key, le)
    ensures multiset(r) == multiset(s) + multiset{x}
    ensures SortedBy(r, key, le)
  {
    if s == [] then [x]
    else if le(key(x), key(s[0])) then
      InsertFrontSorted(x, s, key, le);
      [x] + s
    else
      var rest := InsertBy(x, s[1..], key, le);
      assert s == [s[0]] + s[1..];
      InsertBehindSorted(x, s, rest, key, le);
      [s[0]] + rest
  }

  lemma InsertFrontSorted<T, K(!new)>(x: T, s: seq<T>, key: T -> K, le: (K, K) -> bool)
    requires TotalPreorder(le)
    requires SortedBy(s, key, le)
    requires s != [] && le(key(x), key(s[0]))
    ensures SortedBy([x] + s, key, le)
  {
    var r := [x] + s;
    forall i, j | 0 <= i < j < |r| ensures le(key(r[i]), key(r[j])) {
      if i == 0 && j > 1 {
        assert le(key(s[0]), key(s[j - 1]));
      }
    }
  }

  lemma InsertBehindSorted<T, K(!new)>(x: T, s: seq<T>, rest: seq<T>, key: T -> K, le: (K, K) -> bool)
    requires TotalPreorder(le)
    requires SortedBy(s, key, le) && SortedBy(rest, key, le)
    requires s != [] && !le(key(x), key(s[0]))
    requires multiset(rest) == multiset(s[1..]) + multiset{x}
    ensures SortedBy([s[0]] + rest, key, le)
  {
    var r := [s[0]] + rest;
    forall j | 0 < j < |r| ensures le(key(s[0]), key(r[j])) {
      var y := rest[j - 1];
      assert y in multiset(rest);
      if y != x {
        assert y in multiset(s[1..]);
        var k :| 0 <= k < |s[1..]| && s[1..][k] == y;
        assert s[k + 1] == y;
      }
    }
    forall i, j | 0 <= i < j < |r| ensures le(key(r[i]), key(r[j])) {
      if i > 0 {
        assert r[i] == rest[i - 1] && r[j] == rest[j - 1];
      }
    }
  }

  /** Stream.sorted(comparing(key)): a permutation of `s` ordered by `le` on the keys. */
  function SortBy<T, K(!new)>(s: seq<T>, key: T -> K, le: (K, K) -> bool): (r: seq<T>)
    requires TotalPreorder(le)
    ensures multiset(r) == multiset(s)
    ensures SortedBy(r, key, le)
  {
    if s == [] then []
    else
      assert s == [s[0]] + s[1..];
      InsertBy(s[0], SortBy(s[1..], key, le), key, le)
  }

  /** The elements whose key ties with `k` under `le`: one class of equal keys. */
  function Empatados<T, K>(key: T -> K, le: (K, K) -> bool, k: K): (T -> bool) {
    (y: T) => le(key(y), k) && le(k, key(y))
  }

  /** Filtering a sequence that starts with `x`: `x` first if it passes, then the rest filtered. */
  lemma FilterCons<T>(x: T, s: seq<T>, f: T -> bool)
    ensures Filter([x] + s, f) == if f(x) then [x] + Filter(s, f) else Filter(s, f)
  {
    assert ([x] + s)[1..] == s;
  }

  /** Inserting `x` puts it before every element of its own tie class. */
  lemma {:induction false} InsertByEstable<T, K(!new)>(x: T, s: seq<T>, key: T -> K, le: (K, K) -> bool, k: K)
    requires TotalPreorder(le) && SortedBy(s, key, le)
    ensures Filter(InsertBy(x, s, key, le), Empatados(key, le, k)) ==
      if Empatados(key, le, k)(x) then [x] + Filter(s, Empatados(key, le, k)) else Filter(s, Empatados(key, le, k))
    decreases |s|
  {
    var f := Empatados(key, le, k);
    if s == [] {
      FilterCons(x, [], f);
    } else if le(key(x), key(s[0])) {
      FilterCons(x, s, f);
    } else {
      var t := s[1..];
      assert s == [s[0]] + t;
      assert SortedBy(t, key, le) by {
        forall i, j | 0 <= i < j < |t| ensures le(key(t[i]), key(t[j])) {
          assert t[i] == s[i + 1] && t[j] == s[j + 1];
        }
      }
      InsertByEstable(x, t, key, le, k);
      FilterCons(s[0], InsertBy(x, t, key, le), f);
      FilterCons(s[0], t, f);
      assert f(x) ==> !f(s[0]);
    }
  }

  /**
   * The sort is stable: within each class of equal keys the elements keep
   * the order they had in `s`.
   */
  lemma {:induction false} SortByEstable<T, K(!new)>(s: seq<T>, key: T -> K, le: (K, K) -> bool, k: K)
    requires TotalPreorder(le)
    ensures Filter(SortBy(s, key, le), Empatados(key, le, k)) == Filter(s, Empatados(key, le, k))
    decreases |s|
  {
    if s != [] {
      var f := Empatados(key, le, k);
      assert s == [s[0]] + s[1..];
      SortByEstable(s[1..], key, le, k);
      InsertByEstable(s[0], SortBy(s[1..], key, le), key, le, k);
      FilterCons(s[0], s[1..], f);
    }
  }

  /** Stability for every tie class at once. */
  lemma SortByEstableTodos<T, K(!new)>(s: seq<T>, key: T -> K, le: (K, K) -> bool)
    requires TotalPreorder(le)
    ensures forall k :: Filter(SortBy(s, key, le), Empatados(key, le, k)) == Filter(s, Empatados(key, le, k))
  {
    forall k ensures Filter(SortBy(s, key, le), Empatados(key, le, k)) == Filter(s, Empatados(key, le, k)) {
      SortByEstable(s, key, le, k);
    }
  }

  /** Two predicates that agree on every element of `s` keep the same elements. */
  lemma {:induction false} FilterAgree<T>(s: seq<T>, f: T -> bool, g: T -> bool)
    requires forall y :: y in s ==> f(y) == g(y)
    ensures Filter(s, f) == Filter(s, g)
    decreases |s|
  {
    if s != [] {
      assert forall y :: y in s[1..] ==> y in s;
      FilterAgree(s[1..], f, g);
    }
  }

  /** Sortedness only looks at the keys of the elements. */
  lemma SortedAgree<T, K>(s: seq<T>, k1: T -> K, k2: T -> K, le: (K, K) -> bool)
    requires SortedBy(s, k1, le) && forall y :: y in s ==> k1(y) == k2(y)
    ensures SortedBy(s, k2, le)
  {
    forall i, j | 0 <= i < j < |s| ensures le(k2(s[i]), k2(s[j])) {
      assert k1(s[i]) == k2(s[i]) && k1(s[j]) == k2(s[j]);
    }
  }

  lemma {:induction false} InsertByAgree<T, K(!new)>(x: T, s: seq<T>, k1: T -> K, k2: T -> K, le: (K, K) -> bool)
    requires TotalPreorder(le) && SortedBy(s, k1, le) && SortedBy(s, k2, le)
    requires k1(x) == k2(x) && forall y :: y in s ==> k1(y) == k2(y)
    ensures InsertBy(x, s, k1, le) == InsertBy(x, s, k2, le)
    decreases |s|
  {
    if s != [] && !le(k1(x), k1(s[0])) {
      assert forall y :: y in s[1..] ==> y in s;
      SortedAgree(s[1..], k1, k1, le);
      SortedAgree(s[1..], k1, k2, le);
      InsertByAgree(x, s[1..], k1, k2, le);
    }
  }

  /** Two keys that agree on every element of `s` sort it the same way. */
  lemma {:induction false} SortByAgree<T, K(!new)>(s: seq<T>, k1: T -> K, k2: T -> K, le: (K, K) -> bool)
    requires TotalPreorder(le) && forall y :: y in s ==> k1(y) == k2(y)
    ensures SortBy(s, k1, le) == SortBy(s, k2, le)
    decreases |s|
  {
    if s != [] {
      assert forall y :: y in s[1..] ==> y in s;
      SortByAgree(s[1..], k1, k2, le);
      var r := SortBy(s[1..], k1, le);
      assert forall y :: y in r ==> y in s by {
        forall y | y in r ensures y in s {
          assert y in multiset(r);
        }
      }
      SortedAgree(r, k1, k2, le);
      InsertByAgree(s[0], r, k1, k2, le);
    }
  }

  lemma SortByLength<T, K(!new)>(s: seq<T>, key: T -> K, le: (K, K) -> bool)
    requires TotalPreorder(le)
    ensures |SortBy(s, key, le)| == |s|
  {
    assert |multiset(SortBy(s, key, le))| == |multiset(s)|;
  }

  // ---------------------------------------------------------------------
  // The comparators the suite sorts with
  // ---------------------------------------------------------------------

  predicate RealAsc(a: real, b: real) { a <= b }
  predicate RealDesc(a: real, b: real) { a >= b }
  predicate IntAsc(a: int, b: int) { a <= b }
  predicate IntDesc(a: int, b: int) { a >= b }

  /** String.compareTo(a, b) <= 0 on the strings' UTF-16 code units: lexicographic, a prefix first. */
  predicate LexLe(a: seq<int>, b: seq<int>)
    decreases |a|
  {
    a == [] || (b != [] && (a[0] < b[0] || (a[0] == b[0] && LexLe(a[1..], b[1..]))))
  }

  lemma NumericOrders()
    ensures TotalPreorder(RealAsc) && TotalPreorder(RealDesc)
    ensures TotalPreorder(IntAsc) && TotalPreorder(IntDesc)
  {
  }

  lemma {:induction false} LexLeTotal(a: seq<int>, b: seq<int>)
    ensures LexLe(a, b) || LexLe(b, a)
    decreases |a|
  {
    if a != [] && b != [] && a[0] == b[0] {
      LexLeTotal(a[1..], b[1..]);
    }
  }

  lemma {:induction false} LexLeTransitive(a: seq<int>, b: seq<int>, c: seq<int>)
    requires LexLe(a, b) && LexLe(b, c)
    ensures LexLe(a, c)
    decreases |a|
  {
    if a != [] && a[0] == b[0] && b[0] == c[0] {
      LexLeTransitive(a[1..], b[1..], c[1..]);
    }
  }

  lemma LexOrder()
    ensures TotalPreorder(LexLe)
  {
    forall a, b ensures LexLe(a, b) || LexLe(b, a) {
      LexLeTotal(a, b);
    }
    forall a, b, c | LexLe(a, b) && LexLe(b, c) ensures LexLe(a, c) {
      LexLeTransitive(a, b, c);
    }
  }
}
