/**
 * JavaScript `Array.prototype.sort` with a comparator of the form `(a, b) => key(a) - key(b)`.
 * ECMAScript 2019 requires the sort to be stable, so the result is the one stable insertion sort
 * gives: ordered by key, with elements of equal key in their original order.
 */
module Sorting {
  import opened Common

  /** `x` placed before the first element whose key is not smaller. */
  function Insert<T>(x: T, s: seq<T>, key: T -> int): (r: seq<T>)
    ensures |r| == |s| + 1
    ensures multiset(r) == multiset(s) + multiset{x}
  {
    if s == [] || key(x) <= key(s[0]) then [x] + s
    else
      assert s == [s[0]] + s[1..];
      [s[0]] + Insert(x, s[1..], key)
  }

  /** The stable sort by `key`. */
  function SortBy<T>(s: seq<T>, key: T -> int): (r: seq<T>)
    ensures |r| == |s|
    ensures multiset(r) == multiset(s)
  {
    if s == [] then []
    else
      assert s == [s[0]] + s[1..];
      Insert(s[0], SortBy(s[1..], key), key)
  }

  predicate SortedBy<T>(s: seq<T>, key: T -> int)
  {
    forall i, j :: 0 <= i < j < |s| ==> key(s[i]) <= key(s[j])
  }

  /** The elements whose key is `k`, in order. */
  function WithKey<T>(s: seq<T>, key: T -> int, k: int): (r: seq<T>)
    ensures forall i :: 0 <= i < |r| ==> key(r[i]) == k
    ensures |r| <= |s|
  {
    if s == [] then []
    else (if key(s[0]) == k then [s[0]] else []) + WithKey(s[1..], key, k)
  }

  lemma {:induction false} InsertSorted<T>(x: T, s: seq<T>, key: T -> int)
    requires SortedBy(s, key)
    ensures SortedBy(Insert(x, s, key), key)
    decreases |s|
  {
    if s != [] && key(x) > key(s[0]) {
      InsertSorted(x, s[1..], key);
      var t := Insert(x, s[1..], key);
      forall j | 0 <= j < |t|
        ensures key(s[0]) <= key(t[j])
      {
        assert t[j] in multiset(t);
        assert t[j] in multiset(s[1..]) + multiset{x};
        if t[j] != x {
          assert t[j] in s[1..];
        }
      }
      SortedCons(s[0], t, key);
    }
  }

  /** A sorted sequence stays sorted behind an element whose key bounds all of it from below. */
  lemma SortedCons<T>(h: T, t: seq<T>, key: T -> int)
    requires SortedBy(t, key) && forall j :: 0 <= j < |t| ==> key(h) <= key(t[j])
    ensures SortedBy([h] + t, key)
  {
    var r := [h] + t;
    forall i, j | 0 <= i < j < |r| ensures key(r[i]) <= key(r[j]) {
      if i > 0 {
        assert r[i] == t[i - 1];
      }
      assert r[j] == t[j - 1];
    }
  }

  /** Inserting `x` puts it in front of every element of its key already there. */
  lemma {:induction false} WithKeyInsert<T>(x: T, s: seq<T>, key: T -> int, k: int)
    ensures WithKey(Insert(x, s, key), key, k) == (if key(x) == k then [x] else []) + WithKey(s, key, k)
    decreases |s|
  {
    if s == [] || key(x) <= key(s[0]) {
      assert ([x] + s)[1..] == s;
    } else {
      WithKeyInsert(x, s[1..], key, k);
      assert ([s[0]] + Insert(x, s[1..], key))[1..] == Insert(x, s[1..], key);
    }
  }

  /** The result is ordered by key. */
  lemma {:induction false} SortBySorted<T>(s: seq<T>, key: T -> int)
    ensures SortedBy(SortBy(s, key), key)
    decreases |s|
  {
    if s != [] {
      SortBySorted(s[1..], key);
      InsertSorted(s[0], SortBy(s[1..], key), key);
    }
  }

  /** Stability: for every key the elements carrying it keep their original order. */
  lemma {:induction false} SortByStable<T>(s: seq<T>, key: T -> int, k: int)
    ensures WithKey(SortBy(s, key), key, k) == WithKey(s, key, k)
    decreases |s|
  {
    if s != [] {
      SortByStable(s[1..], key, k);
      WithKeyInsert(s[0], SortBy(s[1..], key), key, k);
    }
  }

  /** No element has key `k`. */
  lemma {:induction false} WithKeyNone<T>(s: seq<T>, key: T -> int, k: int)
    requires forall i :: 0 <= i < |s| ==> key(s[i]) != k
    ensures WithKey(s, key, k) == []
    decreases |s|
  {
    if s != [] {
      assert key(s[0]) != k;
      WithKeyNone(s[1..], key, k);
    }
  }

  /** The groups of keys `lo`, `lo + 1`, ..., `lo + n - 1`, laid end to end in key order. */
  function Grouped<T>(s: seq<T>, key: T -> int, lo: int, n: nat): seq<T>
    decreases n
  {
    if n == 0 then [] else WithKey(s, key, lo) + Grouped(s, key, lo + 1, n - 1)
  }

  /** An element below every key of the groups joins none of them. */
  lemma {:induction false} GroupedSkip<T>(s: seq<T>, key: T -> int, lo: int, n: nat)
    requires s != [] && key(s[0]) < lo
    ensures Grouped(s, key, lo, n) == Grouped(s[1..], key, lo, n)
    decreases n
  {
    if n > 0 {
      assert WithKey(s, key, lo) == [] + WithKey(s[1..], key, lo);
      EmptyAppend(WithKey(s[1..], key, lo));
      GroupedSkip(s, key, lo + 1, n - 1);
    }
  }

  /** The smallest element comes first. */
  lemma {:induction false} GroupedCons<T>(s: seq<T>, key: T -> int, lo: int, n: nat)
    requires s != [] && lo <= key(s[0]) < lo + n
    requires forall i :: 1 <= i < |s| ==> key(s[0]) <= key(s[i])
    ensures Grouped(s, key, lo, n) == [s[0]] + Grouped(s[1..], key, lo, n)
    decreases n
  {
    if key(s[0]) == lo {
      GroupedHead(s, key, lo, n);
    } else {
      var rest := s[1..];
      forall i | 0 <= i < |rest| ensures key(rest[i]) != lo {
        assert rest[i] == s[i + 1];
      }
      WithKeyNone(rest, key, lo);
      assert WithKey(s, key, lo) == [];
      GroupedCons(s, key, lo + 1, n - 1);
      EmptyAppend([s[0]] + Grouped(rest, key, lo + 1, n - 1));
      EmptyAppend(Grouped(rest, key, lo + 1, n - 1));
    }
  }

  /** The first group, when it is the first element's, starts with that element. */
  lemma GroupedHead<T>(s: seq<T>, key: T -> int, lo: int, n: nat)
    requires s != [] && key(s[0]) == lo && n > 0
    ensures Grouped(s, key, lo, n) == [s[0]] + Grouped(s[1..], key, lo, n)
  {
    var rest := s[1..];
    var w, g := WithKey(rest, key, lo), Grouped(rest, key, lo + 1, n - 1);
    assert WithKey(s, key, lo) == [s[0]] + w;
    GroupedSkip(s, key, lo + 1, n - 1);
    AppendAssoc([s[0]], w, g);
  }

  /** A sequence ordered by key, with keys from `lo` to `lo + n - 1`, is its groups in key order. */
  lemma {:induction false} SortedIsGrouped<T>(s: seq<T>, key: T -> int, lo: int, n: nat)
    requires SortedBy(s, key)
    requires forall i :: 0 <= i < |s| ==> lo <= key(s[i]) < lo + n
    ensures Grouped(s, key, lo, n) == s
    decreases |s|
  {
    if s == [] {
      GroupedEmpty(s, key, lo, n);
    } else {
      var rest := s[1..];
      assert SortedBy(rest, key) && forall i :: 0 <= i < |rest| ==> lo <= key(rest[i]) < lo + n by {
        forall i | 0 <= i < |rest| ensures rest[i] == s[i + 1] { }
      }
      SortedIsGrouped(rest, key, lo, n);
      GroupedCons(s, key, lo, n);
      assert s == [s[0]] + rest;
    }
  }

  lemma {:induction false} GroupedEmpty<T>(s: seq<T>, key: T -> int, lo: int, n: nat)
    requires s == []
    ensures Grouped(s, key, lo, n) == []
    decreases n
  {
    if n > 0 {
      GroupedEmpty(s, key, lo + 1, n - 1);
    }
  }

  /** Sequences whose elements of each key come in the same order have the same groups. */
  lemma {:induction false} GroupedSameGroups<T>(r: seq<T>, s: seq<T>, key: T -> int, lo: int, n: nat)
    requires forall k :: WithKey(r, key, k) == WithKey(s, key, k)
    ensures Grouped(r, key, lo, n) == Grouped(s, key, lo, n)
    decreases n
  {
    if n > 0 {
      GroupedSameGroups(r, s, key, lo + 1, n - 1);
    }
  }

  /** The groups of a sequence and of its stable sort are the same. */
  lemma GroupedSortBy<T>(s: seq<T>, key: T -> int, lo: int, n: nat)
    ensures Grouped(SortBy(s, key), key, lo, n) == Grouped(s, key, lo, n)
  {
    forall k ensures WithKey(SortBy(s, key), key, k) == WithKey(s, key, k) {
      SortByStable(s, key, k);
    }
    GroupedSameGroups(SortBy(s, key), s, key, lo, n);
  }

  /** With keys from `lo` to `lo + n - 1`, the stable sort lays the groups end to end in key order, each in its original order. */
  lemma SortByIsGrouped<T>(s: seq<T>, key: T -> int, lo: int, n: nat)
    requires forall i :: 0 <= i < |s| ==> lo <= key(s[i]) < lo + n
    ensures SortBy(s, key) == Grouped(s, key, lo, n)
  {
    var r := SortBy(s, key);
    forall i | 0 <= i < |r| ensures lo <= key(r[i]) < lo + n {
      assert r[i] in multiset(r);
      assert r[i] in multiset(s);
    }
    SortBySorted(s, key);
    SortedIsGrouped(r, key, lo, n);
    GroupedSortBy(s, key, lo, n);
  }
}
