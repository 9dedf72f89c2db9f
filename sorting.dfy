/**
 * Ordering and truncation of lists as the application uses them: JavaScript's stable
 * `Array.prototype.sort` with a descending numeric comparator, the data store's
 * `order(column, { ascending: false })`, and `slice(0, n)` with a `+k` overflow badge.
 */
module Sorting {
  import opened Wrappers

  /** Keys never increase from left to right. */
  predicate SortedDesc<T>(s: seq<T>, key: T -> int) {
    forall i, j :: 0 <= i < j < |s| ==> key(s[i]) >= key(s[j])
  }

  /** Inserts `x` in front of the first element whose key is not greater than its own. */
  function InsertDesc<T>(x: T, s: seq<T>, key: T -> int): (r: seq<T>)
    requires SortedDesc(s, key)
    ensures SortedDesc(r, key)
    ensures multiset(r) == multiset(s) + multiset{x}
    ensures |r| == |s| + 1 && (r[0] == x || (s != [] && r[0] == s[0]))
  {
    if s == [] || key(x) >= key(s[0]) then [x] + s
    else
      var t := InsertDesc(x, s[1..], key);
      assert key(s[0]) >= key(t[0]);
      assert s == [s[0]] + s[1..];
      [s[0]] + t
  }

  /**
   * `[...xs].sort((a, b) => key(b) - key(a))`: a stable sort by descending key. The result is
   * ordered and is a permutation of the input; `SortStable` shows that equal keys keep their order.
   */
  function SortDesc<T>(s: seq<T>, key: T -> int): (r: seq<T>)
    ensures SortedDesc(r, key)
    ensures multiset(r) == multiset(s)
    ensures |r| == |s|
  {
    if s == [] then []
    else
      assert s == [s[0]] + s[1..];
      InsertDesc(s[0], SortDesc(s[1..], key), key)
  }

  /** The elements of `s` whose key is `k`, in their order in `s`. */
  function WithKey<T>(s: seq<T>, key: T -> int, k: int): seq<T> {
    if s == [] then [] else (if key(s[0]) == k then [s[0]] else []) + WithKey(s[1..], key, k)
  }

  lemma WithKeyCons<T>(a: T, t: seq<T>, key: T -> int, k: int)
    ensures WithKey([a] + t, key, k) == (if key(a) == k then [a] else []) + WithKey(t, key, k)
  {
    assert ([a] + t)[1..] == t;
  }

  lemma {:induction false} InsertWithKey<T>(x: T, s: seq<T>, key: T -> int, k: int)
    requires SortedDesc(s, key)
    ensures WithKey(InsertDesc(x, s, key), key, k) == (if key(x) == k then [x] else []) + WithKey(s, key, k)
  {
    if s == [] || key(x) >= key(s[0]) {
      WithKeyCons(x, s, key, k);
    } else {
      var t := InsertDesc(x, s[1..], key);
      InsertWithKey(x, s[1..], key, k);
      WithKeyCons(s[0], t, key, k);
      WithKeyCons(s[0], s[1..], key, k);
      assert [s[0]] + s[1..] == s;
      assert !(key(x) == k && key(s[0]) == k);
    }
  }

  /** Stability: the elements that share a key come out in the order they went in. */
  lemma {:induction false} SortStable<T>(s: seq<T>, key: T -> int, k: int)
    ensures WithKey(SortDesc(s, key), key, k) == WithKey(s, key, k)
  {
    if s != [] {
      SortStable(s[1..], key, k);
      InsertWithKey(s[0], SortDesc(s[1..], key), key, k);
    }
  }

  /** An input that is already ordered by descending key comes back unchanged. */
  lemma {:induction false} SortOfSorted<T>(s: seq<T>, key: T -> int)
    requires SortedDesc(s, key)
    ensures SortDesc(s, key) == s
  {
    if s != [] {
      assert SortedDesc(s[1..], key);
      SortOfSorted(s[1..], key);
    }
  }

  /** `xs.slice(0, n)`: the first `n` elements, or all of them when there are fewer. */
  function Take<T>(s: seq<T>, n: nat): (r: seq<T>)
    ensures |r| == if |s| < n then |s| else n
    ensures forall i :: 0 <= i < |r| ==> r[i] == s[i]
  {
    if |s| < n then s else s[..n]
  }

  /** The first `n` elements are taken from the list, each as often as it occurs there at most. */
  lemma TakeSubMultiset<T>(s: seq<T>, n: nat)
    ensures multiset(Take(s, n)) <= multiset(s)
  {
    if n <= |s| {
      assert s == s[..n] + s[n..];
    }
  }

  // ---------------------------------------------------------------------------------------------
  // Small facts about sequences, stated once for every element type

  lemma SplitAt<T>(b: seq<T>, k: nat)
    requires k < |b|
    ensures b == b[..k] + ([b[k]] + b[k + 1..])
    ensures ([b[k]] + b[k + 1..])[1..] == b[k + 1..]
  {
  }

  lemma MultisetRemove<T>(b: seq<T>, k: nat)
    requires k < |b|
    ensures multiset(b[..k] + b[k + 1..]) == multiset(b) - multiset{b[k]}
  {
    assert b == b[..k] + [b[k]] + b[k + 1..];
  }

  lemma MultisetTail<T>(a: seq<T>)
    requires a != []
    ensures multiset(a[1..]) == multiset(a) - multiset{a[0]}
  {
    assert a == [a[0]] + a[1..];
  }

  /** `xs.map(f)`. */
  function Map<T, U>(s: seq<T>, f: T -> U): (r: seq<U>)
    ensures |r| == |s|
    ensures forall i :: 0 <= i < |r| ==> r[i] == f(s[i])
  {
    if s == [] then [] else [f(s[0])] + Map(s[1..], f)
  }

  /** Taking one element out of a list takes its image out of the mapped list. */
  lemma {:induction false} MapRemove<T, U>(b: seq<T>, k: nat, f: T -> U)
    requires k < |b|
    ensures multiset(Map(b, f)) == multiset{f(b[k])} + multiset(Map(b[..k] + b[k + 1..], f))
  {
    if k == 0 {
      assert b[..0] + b[1..] == b[1..];
    } else {
      var t := b[1..];
      MapRemove(t, k - 1, f);
      var rest := t[..k - 1] + t[k..];
      assert b[..k] + b[k + 1..] == [b[0]] + rest;
      assert ([b[0]] + rest)[1..] == rest;
    }
  }

  /** Mapping a permutation gives a permutation of the mapped list. */
  lemma {:induction false} MapPermutation<T, U>(a: seq<T>, b: seq<T>, f: T -> U)
    requires multiset(a) == multiset(b)
    ensures multiset(Map(a, f)) == multiset(Map(b, f))
  {
    if a == [] {
      assert |b| == |multiset(b)| == 0;
    } else {
      var x := a[0];
      assert x in multiset(b);
      var k :| 0 <= k < |b| && b[k] == x;
      MultisetRemove(b, k);
      MultisetTail(a);
      MapPermutation(a[1..], b[..k] + b[k + 1..], f);
      MapRemove(b, k, f);
    }
  }

  /** The `+k` badge shown after the first `n` of `len` entries: present exactly when entries are hidden. */
  function Overflow(len: nat, n: nat): (r: Option<nat>)
    ensures r.Some? <==> len > n
    ensures r.Some? ==> n + r.value == len && r.value > 0
  {
    if len > n then Some(len - n) else None
  }

  /**
   * A row of badges for a list: nothing at all for an empty list (the section is not rendered),
   * otherwise the first `n` entries and, when entries are hidden, the `+k` badge.
   */
  datatype BadgeRow<T> = NoBadges | Badges(shown: seq<T>, more: Option<nat>)

  function BadgesOf<T>(s: seq<T>, n: nat): (r: BadgeRow<T>)
    ensures r.NoBadges? <==> s == []
    ensures r.Badges? ==> |r.shown| == (if |s| < n then |s| else n)
    ensures r.Badges? ==> r.shown == s[..|r.shown|]
    ensures r.Badges? ==> (r.more.Some? <==> |s| > n)
    ensures r.Badges? ==> |r.shown| + r.more.GetOr(0) == |s|
  {
    if s == [] then NoBadges
    else
      var shown := Take(s, n);
      assert shown == s[..|shown|];
      Badges(shown, Overflow(|s|, n))
  }

  /** Every entry of a non-empty list is either shown as a badge, in place, or counted in the `+k` badge. */
  lemma BadgesCoverList<T>(s: seq<T>, n: nat, i: nat)
    requires i < |s|
    ensures BadgesOf(s, n).Badges?
    ensures i < n ==> BadgesOf(s, n).shown[i] == s[i]
    ensures i >= n ==> BadgesOf(s, n).more == Some(|s| - n)
  {
  }
}
