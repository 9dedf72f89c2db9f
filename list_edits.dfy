/**
 * The bounded, duplicate-free string lists that the creation forms edit: the required skills of a
 * new team (at most 10) and the tags of a new idea (at most 5). An entry is added trimmed, only
 * when it is non-empty, not yet present and the list has room; removal drops every equal entry.
 */
module ListEdits {
  import JsText

  /** `xs.filter(x => x !== item)`: every entry equal to `item` goes, the rest keep their order. */
  function RemoveAll<T(==)>(xs: seq<T>, item: T): (r: seq<T>)
    ensures |r| <= |xs|
  {
    if xs == [] then []
    else (if xs[0] == item then [] else [xs[0]]) + RemoveAll(xs[1..], item)
  }

  /** What is left is exactly the entries other than `item`. */
  lemma {:induction false} RemoveAllMembers<T>(xs: seq<T>, item: T)
    ensures forall x :: x in RemoveAll(xs, item) <==> x in xs && x != item
  {
    if xs != [] {
      RemoveAllMembers(xs[1..], item);
      assert forall x :: x in xs <==> x == xs[0] || x in xs[1..];
    }
  }

  /** Removal drops every copy of `item` and keeps every other entry as often as it occurs. */
  lemma {:induction false} RemoveAllCounts<T>(xs: seq<T>, item: T)
    ensures multiset(RemoveAll(xs, item)) == multiset(xs)[item := 0]
  {
    if xs != [] {
      assert xs == [xs[0]] + xs[1..];
      RemoveAllCounts(xs[1..], item);
    }
  }

  /** Removal distributes over concatenation, so the kept entries stay in their original order. */
  lemma {:induction false} RemoveAllAppend<T>(a: seq<T>, b: seq<T>, item: T)
    ensures RemoveAll(a + b, item) == RemoveAll(a, item) + RemoveAll(b, item)
  {
    if a != [] {
      assert (a + b)[1..] == a[1..] + b;
      RemoveAllAppend(a[1..], b, item);
    } else {
      assert a + b == b;
    }
  }

  /** Removing an absent entry changes nothing. */
  lemma {:induction false} RemoveAllAbsent<T>(xs: seq<T>, item: T)
    requires item !in xs
    ensures RemoveAll(xs, item) == xs
  {
    if xs != [] {
      assert item !in xs[1..];
      RemoveAllAbsent(xs[1..], item);
      assert xs == [xs[0]] + xs[1..];
    }
  }

  /** No entry occurs twice. */
  predicate NoDuplicates(xs: seq<string>) {
    forall i, j :: 0 <= i < j < |xs| ==> xs[i] != xs[j]
  }

  /** An entry as the add handler stores it: non-empty and equal to its own trim. */
  predicate Clean(s: string) {
    s != [] && JsText.Trim(s) == s
  }

  /** The invariant the editor keeps: within the cap, no duplicates, every entry clean. */
  predicate WellFormed(xs: seq<string>, cap: nat) {
    && |xs| <= cap
    && NoDuplicates(xs)
    && forall i :: 0 <= i < |xs| ==> Clean(xs[i])
  }

  /** Whether the add handler accepts `raw` into `xs`. */
  predicate Accepts(xs: seq<string>, raw: string, cap: nat) {
    JsText.Trim(raw) != [] && JsText.Trim(raw) !in xs && |xs| < cap
  }

  /**
   * `if (raw.trim() && !xs.includes(raw.trim()) && xs.length < cap) xs = [...xs, raw.trim()]`.
   */
  function AddUnique(xs: seq<string>, raw: string, cap: nat): seq<string> {
    if Accepts(xs, raw, cap) then xs + [JsText.Trim(raw)] else xs
  }

  /** The list grows, by exactly the trimmed entry at the end, precisely when the handler accepts. */
  lemma AddUniqueGrows(xs: seq<string>, raw: string, cap: nat)
    ensures |AddUnique(xs, raw, cap)| == |xs| + 1 <==> Accepts(xs, raw, cap)
    ensures AddUnique(xs, raw, cap)[..|xs|] == xs
    ensures Accepts(xs, raw, cap) ==> AddUnique(xs, raw, cap)[|xs|] == JsText.Trim(raw)
  {
  }

  /** Adding keeps the invariant. */
  lemma AddKeepsWellFormed(xs: seq<string>, raw: string, cap: nat)
    requires WellFormed(xs, cap)
    ensures WellFormed(AddUnique(xs, raw, cap), cap)
  {
    if Accepts(xs, raw, cap) {
      var t := JsText.Trim(raw);
      var r := xs + [t];
      JsText.TrimIdempotent(raw);
      assert Clean(t);
      assert forall i :: 0 <= i < |xs| ==> r[i] == xs[i];
      assert r[|xs|] == t;
    }
  }

  lemma {:induction false} RemoveAllNoDuplicates(xs: seq<string>, item: string)
    requires NoDuplicates(xs)
    ensures NoDuplicates(RemoveAll(xs, item))
  {
    if xs != [] {
      var tail := RemoveAll(xs[1..], item);
      assert NoDuplicates(xs[1..]) by {
        forall i, j | 0 <= i < j < |xs[1..]| ensures xs[1..][i] != xs[1..][j] {
          assert xs[1..][i] == xs[i + 1] && xs[1..][j] == xs[j + 1];
        }
      }
      RemoveAllNoDuplicates(xs[1..], item);
      RemoveAllMembers(xs[1..], item);
      if xs[0] != item {
        var r := [xs[0]] + tail;
        forall i, j | 0 <= i < j < |r| ensures r[i] != r[j] {
          if i == 0 {
            assert r[j] == tail[j - 1];
            assert r[j] in xs[1..];
            var k :| 0 <= k < |xs[1..]| && xs[1..][k] == r[j];
            assert xs[k + 1] == r[j];
          } else {
            assert r[i] == tail[i - 1] && r[j] == tail[j - 1];
          }
        }
      }
    }
  }

  /** Removing keeps the invariant. */
  lemma RemoveKeepsWellFormed(xs: seq<string>, item: string, cap: nat)
    requires WellFormed(xs, cap)
    ensures WellFormed(RemoveAll(xs, item), cap)
  {
    RemoveAllNoDuplicates(xs, item);
    var r := RemoveAll(xs, item);
    RemoveAllMembers(xs, item);
    forall i | 0 <= i < |r| ensures Clean(r[i]) {
      assert r[i] in r;
      var k :| 0 <= k < |xs| && xs[k] == r[i];
    }
  }

  /** Adding an accepted entry and then removing it gives back the list. */
  lemma AddThenRemove(xs: seq<string>, raw: string, cap: nat)
    requires Accepts(xs, raw, cap)
    ensures RemoveAll(AddUnique(xs, raw, cap), JsText.Trim(raw)) == xs
  {
    var t := JsText.Trim(raw);
    RemoveAllAppend(xs, [t], t);
    RemoveAllAbsent(xs, t);
    assert [t][1..] == [];
  }

  /** Adding the same input twice is the same as adding it once. */
  lemma AddUniqueIdempotent(xs: seq<string>, raw: string, cap: nat)
    ensures AddUnique(AddUnique(xs, raw, cap), raw, cap) == AddUnique(xs, raw, cap)
  {
    if Accepts(xs, raw, cap) {
      assert JsText.Trim(raw) in AddUnique(xs, raw, cap);
    }
  }
}
