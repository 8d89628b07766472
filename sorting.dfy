/**
 * The library sort the app calls as `sorted { $0.code < $1.code }` and
 * `sort { $0.code < $1.code }`, modelled as a stable insertion sort on a
 * string key, and the order-preserving `filter`.
 */
module Sorting {
  import opened Text

  /** Every earlier element's key is at most every later element's key. */
  ghost predicate SortedBy<T>(s: seq<T>, key: T -> string) {
    forall i, j :: 0 <= i < j < |s| ==> StrLessOrEqual(key(s[i]), key(s[j]))
  }

  /** Every earlier element's key is strictly below every later element's key. */
  ghost predicate StrictlySortedBy<T>(s: seq<T>, key: T -> string) {
    forall i, j :: 0 <= i < j < |s| ==> StrLess(key(s[i]), key(s[j]))
  }

  /** Puts `x` in front of the first element whose key is not below `x`'s. */
  function Insert<T>(x: T, s: seq<T>, key: T -> string): (r: seq<T>)
    ensures multiset(r) == multiset(s) + multiset{x}
  {
    if s == [] || !StrLess(key(s[0]), key(x)) then [x] + s
    else
      assert s == [s[0]] + s[1..];
      [s[0]] + Insert(x, s[1..], key)
  }

  /** Dropping the last element keeps a sequence sorted. */
  lemma SortedByPrefix<T>(s: seq<T>, key: T -> string)
    requires s != [] && SortedBy(s, key)
    ensures SortedBy(s[..|s| - 1], key)
  {
  }

  /** The last two elements of a sorted sequence are in order. */
  lemma SortedByLast<T>(s: seq<T>, key: T -> string)
    requires |s| >= 2 && SortedBy(s, key)
    ensures StrLessOrEqual(key(s[|s| - 2]), key(s[|s| - 1]))
  {
  }

  /** Inserting into a sorted sequence keeps it sorted. */
  lemma {:induction false} InsertSorted<T>(x: T, s: seq<T>, key: T -> string)
    requires SortedBy(s, key)
    ensures SortedBy(Insert(x, s, key), key)
  {
    if s == [] || !StrLess(key(s[0]), key(x)) {
      if s != [] {
        var r := [x] + s;
        forall i, j | 0 <= i < j < |r| ensures StrLessOrEqual(key(r[i]), key(r[j])) {
          if i == 0 && j > 1 {
            StrLessOrEqualTransitive(key(x), key(s[0]), key(s[j - 1]));
          }
        }
      }
    } else {
      assert SortedBy(s[1..], key);
      InsertSorted(x, s[1..], key);
      var tail := Insert(x, s[1..], key);
      forall j | 0 <= j < |tail| ensures StrLessOrEqual(key(s[0]), key(tail[j])) {
        assert tail[j] in multiset(tail);
        if tail[j] == x {
          StrLessAsymmetric(key(s[0]), key(x));
        } else {
          assert tail[j] in multiset(s[1..]);
          var k :| 0 <= k < |s[1..]| && s[1..][k] == tail[j];
          assert s[k + 1] == tail[j];
        }
      }
      var r := [s[0]] + tail;
      forall i, j | 0 <= i < j < |r| ensures StrLessOrEqual(key(r[i]), key(r[j])) {
        if i > 0 { assert r[i] == tail[i - 1] && r[j] == tail[j - 1]; }
        else { assert r[j] == tail[j - 1]; }
      }
    }
  }

  function SortBy<T>(s: seq<T>, key: T -> string): (r: seq<T>)
    ensures multiset(r) == multiset(s)
    ensures SortedBy(r, key)
  {
    if s == [] then [] else
      assert s == [s[0]] + s[1..];
      var tail := SortBy(s[1..], key);
      InsertSorted(s[0], tail, key);
      Insert(s[0], tail, key)
  }

  /** The `filter` of Swift's standard library: the kept elements, in order. */
  function Filter<T(!new)>(s: seq<T>, keep: T -> bool): (r: seq<T>)
    ensures |r| <= |s|
    ensures forall x :: x in r <==> x in s && keep(x)
  {
    if s == [] then [] else
      (if keep(s[0]) then [s[0]] else []) + Filter(s[1..], keep)
  }

  /** The filtered multiset: every kept element as often as before, every other one not at all. */
  lemma {:induction false} FilterMultiset<T(!new)>(s: seq<T>, keep: T -> bool)
    ensures forall x :: multiset(Filter(s, keep))[x] == if keep(x) then multiset(s)[x] else 0
  {
    if s != [] {
      FilterMultiset(s[1..], keep);
      assert s == [s[0]] + s[1..];
    }
  }

  /** A test that keeps nothing filters everything out. */
  lemma {:induction false} FilterNone<T(!new)>(s: seq<T>, keep: T -> bool)
    requires forall x :: x in s ==> !keep(x)
    ensures Filter(s, keep) == []
  {
    if s != [] {
      assert forall x :: x in s[1..] ==> x in s;
      FilterNone(s[1..], keep);
    }
  }

  /** Filtering distributes over concatenation. */
  lemma {:induction false} FilterAppend<T(!new)>(a: seq<T>, b: seq<T>, keep: T -> bool)
    ensures Filter(a + b, keep) == Filter(a, keep) + Filter(b, keep)
  {
    if a == [] {
      assert a + b == b;
    } else {
      assert (a + b)[1..] == a[1..] + b;
      FilterAppend(a[1..], b, keep);
    }
  }

  /** Filtering one more element: `filter` visits the elements in order. */
  lemma FilterSnoc<T(!new)>(s: seq<T>, x: T, keep: T -> bool)
    ensures Filter(s + [x], keep) == Filter(s, keep) + (if keep(x) then [x] else [])
  {
    FilterAppend(s, [x], keep);
    assert Filter([x], keep) == (if keep(x) then [x] else []) + Filter([], keep);
  }

  /** Filtering twice with the same test is filtering once. */
  lemma {:induction false} FilterIdempotent<T(!new)>(s: seq<T>, keep: T -> bool)
    ensures Filter(Filter(s, keep), keep) == Filter(s, keep)
  {
    if s != [] {
      FilterIdempotent(s[1..], keep);
      var rest := Filter(s[1..], keep);
      if keep(s[0]) {
        var kept := [s[0]] + rest;
        assert Filter(s, keep) == kept;
        assert kept[0] == s[0] && kept[1..] == rest;
        assert Filter(kept, keep) == [s[0]] + Filter(rest, keep);
      } else {
        assert Filter(s, keep) == rest;
      }
    }
  }

  /** Tests that agree on every element filter alike. */
  lemma {:induction false} FilterCongruent<T(!new)>(s: seq<T>, keep: T -> bool, other: T -> bool)
    requires forall x :: x in s ==> keep(x) == other(x)
    ensures Filter(s, keep) == Filter(s, other)
  {
    if s != [] {
      assert forall x :: x in s[1..] ==> x in s;
      FilterCongruent(s[1..], keep, other);
    }
  }

  /** Filtering with a test that keeps everything changes nothing. */
  lemma {:induction false} AllKept<T(!new)>(s: seq<T>)
    ensures Filter(s, x => true) == s
  {
    if s != [] {
      AllKept(s[1..]);
      assert s == [s[0]] + s[1..];
    }
  }

  /** Filtering by one test and then another is filtering by both at once. */
  lemma {:induction false} FilterTwice<T(!new)>(s: seq<T>, first: T -> bool, second: T -> bool, both: T -> bool)
    requires forall x :: both(x) == (first(x) && second(x))
    ensures Filter(Filter(s, first), second) == Filter(s, both)
  {
    if s != [] {
      FilterTwice(s[1..], first, second, both);
      var rest := Filter(s[1..], first);
      if first(s[0]) {
        var kept := [s[0]] + rest;
        assert Filter(s, first) == kept;
        assert kept[0] == s[0] && kept[1..] == rest;
      } else {
        assert Filter(s, first) == rest;
      }
    }
  }

  /** Every element after the head of a sorted sequence has a key at least the head's. */
  lemma SortedHead<T>(s: seq<T>, key: T -> string)
    requires s != [] && SortedBy(s, key)
    ensures forall y :: y in s[1..] ==> StrLessOrEqual(key(s[0]), key(y))
  {
    forall y | y in s[1..] ensures StrLessOrEqual(key(s[0]), key(y)) {
      var k :| 0 <= k < |s[1..]| && s[1..][k] == y;
      assert s[k + 1] == y;
    }
  }

  /** Every element after the head of a strictly sorted sequence has a key above the head's. */
  lemma StrictlySortedHead<T>(s: seq<T>, key: T -> string)
    requires s != [] && StrictlySortedBy(s, key)
    ensures forall y :: y in s[1..] ==> StrLess(key(s[0]), key(y))
  {
    forall y | y in s[1..] ensures StrLess(key(s[0]), key(y)) {
      var k :| 0 <= k < |s[1..]| && s[1..][k] == y;
      assert s[k + 1] == y;
    }
  }

  /** Filtering keeps a sorted sequence sorted. */
  lemma {:induction false} FilterSorted<T(!new)>(s: seq<T>, keep: T -> bool, key: T -> string)
    requires SortedBy(s, key)
    ensures SortedBy(Filter(s, keep), key)
  {
    if s != [] {
      assert SortedBy(s[1..], key);
      FilterSorted(s[1..], keep, key);
      SortedHead(s, key);
      var rest := Filter(s[1..], keep);
      assert forall j :: 0 <= j < |rest| ==> rest[j] in s[1..];
    }
  }

  /** Filtering keeps a strictly sorted sequence strictly sorted. */
  lemma {:induction false} FilterStrictlySorted<T(!new)>(s: seq<T>, keep: T -> bool, key: T -> string)
    requires StrictlySortedBy(s, key)
    ensures StrictlySortedBy(Filter(s, keep), key)
  {
    if s != [] {
      assert StrictlySortedBy(s[1..], key);
      FilterStrictlySorted(s[1..], keep, key);
      StrictlySortedHead(s, key);
      var rest := Filter(s[1..], keep);
      assert forall j :: 0 <= j < |rest| ==> rest[j] in s[1..];
    }
  }

  /** No element occurs twice. */
  ghost predicate NoDuplicates<T>(s: seq<T>) {
    forall i, j :: 0 <= i < j < |s| ==> s[i] != s[j]
  }

  /** An element occurring at two positions occurs at least twice in the multiset. */
  lemma TwiceInMultiset<T>(s: seq<T>, i: nat, j: nat)
    requires i < j < |s| && s[i] == s[j]
    ensures multiset(s)[s[i]] >= 2
  {
    assert s == s[..j] + [s[j]] + s[j + 1..];
    assert s[i] in s[..j];
  }

  /** A sequence without duplicates has each element at most once. */
  lemma {:induction false} NoDuplicatesMultiset<T>(s: seq<T>)
    requires NoDuplicates(s)
    ensures forall x :: multiset(s)[x] <= 1
  {
    if s != [] {
      assert NoDuplicates(s[1..]);
      NoDuplicatesMultiset(s[1..]);
      assert s == [s[0]] + s[1..];
      assert s[0] !in s[1..];
    }
  }

  /** A sequence with each element at most once has no duplicates. */
  lemma MultisetNoDuplicates<T>(s: seq<T>)
    requires forall x :: multiset(s)[x] <= 1
    ensures NoDuplicates(s)
  {
    forall i, j | 0 <= i < j < |s| ensures s[i] != s[j] {
      if s[i] == s[j] { TwiceInMultiset(s, i, j); }
    }
  }

  /**
   * A sorted sequence without duplicates, whose key tells elements apart,
   * is strictly sorted.
   */
  lemma SortedDistinctIsStrict<T>(s: seq<T>, key: T -> string)
    requires SortedBy(s, key) && NoDuplicates(s)
    requires forall x, y :: key(x) == key(y) ==> x == y
    ensures StrictlySortedBy(s, key)
  {
    forall i, j | 0 <= i < j < |s| ensures StrLess(key(s[i]), key(s[j])) {
      StrLessTotal(key(s[i]), key(s[j]));
    }
  }
}
