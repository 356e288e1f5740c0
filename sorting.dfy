/** Array.prototype.sort with a comparator, as the handlers call it, modelled
    as one particular insertion sort: a comparator result greater than zero
    places its first argument after its second. For a comparator that is a
    consistent order the result is sorted by it; where the comparator is not
    consistent the language leaves the engine's order open, and the model
    fixes this one. */
module Sorting {

  /** Inserts `x` before the first element it does not have to follow. */
  function Insert<T>(x: T, s: seq<T>, cmp: (T, T) -> int): (r: seq<T>)
    ensures |r| == |s| + 1
    ensures multiset(r) == multiset(s) + multiset{x}
  {
    if s == [] || cmp(x, s[0]) <= 0 then [x] + s
    else
      assert s == [s[0]] + s[1..];
      [s[0]] + Insert(x, s[1..], cmp)
  }

  /** Stable insertion sort; the input is left as it is and a new sequence returned. */
  function SortBy<T>(s: seq<T>, cmp: (T, T) -> int): (r: seq<T>)
    ensures |r| == |s|
    ensures multiset(r) == multiset(s)
  {
    if s == [] then []
    else
      assert s == [s[0]] + s[1..];
      Insert(s[0], SortBy(s[1..], cmp), cmp)
  }

  ghost predicate Sorted<T>(s: seq<T>, cmp: (T, T) -> int)
  {
    forall i, j :: 0 <= i < j < |s| ==> cmp(s[i], s[j]) <= 0
  }

  /** The comparator is consistent on the values of `s`: it never asks for two
      values to follow each other, and "need not follow" is transitive. This is
      what the ECMAScript sort requires of a comparator for the result to be sorted. */
  ghost predicate Consistent<T>(cmp: (T, T) -> int, s: seq<T>)
  {
    && (forall a, b {:trigger a in s, b in s} :: a in s && b in s && cmp(a, b) > 0 ==> cmp(b, a) <= 0)
    && (forall a, b, c {:trigger a in s, b in s, c in s} ::
          a in s && b in s && c in s && cmp(a, b) <= 0 && cmp(b, c) <= 0 ==> cmp(a, c) <= 0)
  }

  lemma ConsistentSub<T>(cmp: (T, T) -> int, s: seq<T>, t: seq<T>)
    requires Consistent(cmp, s)
    requires forall x :: x in t ==> x in s
    ensures Consistent(cmp, t)
  {
    forall a, b | a in t && b in t && cmp(a, b) > 0 ensures cmp(b, a) <= 0 {
      assert a in s && b in s;
    }
    forall a, b, c | a in t && b in t && c in t && cmp(a, b) <= 0 && cmp(b, c) <= 0
      ensures cmp(a, c) <= 0
    {
      assert a in s && b in s && c in s;
    }
  }

  /** Every element of a sorted sequence that `x` need not follow may come after `x`. */
  lemma InsertFrontSorted<T>(x: T, s: seq<T>, cmp: (T, T) -> int)
    requires Sorted(s, cmp)
    requires Consistent(cmp, [x] + s)
    requires s == [] || cmp(x, s[0]) <= 0
    ensures Sorted([x] + s, cmp)
  {
    var r := [x] + s;
    forall i, j | 0 <= i < j < |r| ensures cmp(r[i], r[j]) <= 0 {
      if i == 0 && j > 1 {
        assert r[1] == s[0] && r[j] == s[j - 1];
        assert x in r && s[0] in r && s[j - 1] in r;
        assert cmp(s[0], s[j - 1]) <= 0;
      }
    }
  }

  lemma {:induction false} InsertSorted<T>(x: T, s: seq<T>, cmp: (T, T) -> int)
    requires Sorted(s, cmp)
    requires Consistent(cmp, [x] + s)
    ensures Sorted(Insert(x, s, cmp), cmp)
  {
    if s == [] || cmp(x, s[0]) <= 0 {
      InsertFrontSorted(x, s, cmp);
    } else {
      var t := s[1..];
      ConsistentSub(cmp, [x] + s, [x] + t);
      InsertSorted(x, t, cmp);
      var ins := Insert(x, t, cmp);
      var r := [s[0]] + ins;
      assert r == Insert(x, s, cmp);
      HeadBeforeInserted(x, s, cmp);
      forall i, j | 0 <= i < j < |r| ensures cmp(r[i], r[j]) <= 0 {
        if i == 0 {
          assert r[j] == ins[j - 1];
        } else {
          assert r[i] == ins[i - 1] && r[j] == ins[j - 1];
        }
      }
    }
  }

  /** The head of a sorted list that `x` has to follow need not follow any
      element of the rest with `x` inserted. */
  lemma HeadBeforeInserted<T>(x: T, s: seq<T>, cmp: (T, T) -> int)
    requires s != [] && cmp(x, s[0]) > 0
    requires Sorted(s, cmp)
    requires Consistent(cmp, [x] + s)
    ensures forall k :: 0 <= k < |Insert(x, s[1..], cmp)| ==> cmp(s[0], Insert(x, s[1..], cmp)[k]) <= 0
  {
    var t := s[1..];
    var ins := Insert(x, t, cmp);
    assert cmp(s[0], x) <= 0 by {
      assert s[0] in [x] + s && x in [x] + s;
    }
    forall k | 0 <= k < |ins| ensures cmp(s[0], ins[k]) <= 0 {
      assert ins[k] in multiset(ins);
      assert ins[k] == x || ins[k] in t;
      if ins[k] != x {
        var m :| 0 <= m < |t| && t[m] == ins[k];
        assert s[m + 1] == t[m];
      }
    }
  }

  /** With a consistent comparator the result is sorted. */
  lemma {:induction false} SortBySorted<T>(s: seq<T>, cmp: (T, T) -> int)
    requires Consistent(cmp, s)
    ensures Sorted(SortBy(s, cmp), cmp)
  {
    if s != [] {
      var t := s[1..];
      ConsistentSub(cmp, s, t);
      SortBySorted(t, cmp);
      var sorted := SortBy(t, cmp);
      forall y | y in [s[0]] + sorted ensures y in s {
        if y != s[0] {
          assert y in multiset(sorted);
          assert y in multiset(t);
        }
      }
      ConsistentSub(cmp, s, [s[0]] + sorted);
      InsertSorted(s[0], sorted, cmp);
    }
  }

  /** A comparator that is the difference of integer keys is consistent on every sequence. */
  lemma KeyComparatorConsistent<T>(cmp: (T, T) -> int, key: T -> int, s: seq<T>)
    requires forall a, b :: cmp(a, b) == key(a) - key(b)
    ensures Consistent(cmp, s)
  {
    forall a, b | a in s && b in s && cmp(a, b) > 0 ensures cmp(b, a) <= 0 {
      assert cmp(b, a) == key(b) - key(a);
    }
    forall a, b, c | a in s && b in s && c in s && cmp(a, b) <= 0 && cmp(b, c) <= 0
      ensures cmp(a, c) <= 0
    {
      assert cmp(a, c) == key(a) - key(c);
    }
  }

  /** Sorting by a key gives non-decreasing keys. */
  lemma SortByKey<T>(s: seq<T>, cmp: (T, T) -> int, key: T -> int)
    requires forall a, b :: cmp(a, b) == key(a) - key(b)
    ensures var r := SortBy(s, cmp);
      forall i, j :: 0 <= i < j < |r| ==> key(r[i]) <= key(r[j])
  {
    var r := SortBy(s, cmp);
    KeyComparatorConsistent(cmp, key, s);
    SortBySorted(s, cmp);
    assert Sorted(r, cmp);
    forall i, j | 0 <= i < j < |r| ensures key(r[i]) <= key(r[j]) {
      KeyOrder(r[i], r[j], cmp, key);
    }
  }

  lemma KeyOrder<T>(a: T, b: T, cmp: (T, T) -> int, key: T -> int)
    requires forall a, b :: cmp(a, b) == key(a) - key(b)
    requires cmp(a, b) <= 0
    ensures key(a) <= key(b)
  {
  }

  /** No two elements share a key. */
  ghost predicate KeyUnique<T>(s: seq<T>, key: T -> int)
  {
    forall i, j :: 0 <= i < j < |s| ==> key(s[i]) != key(s[j])
  }

  lemma {:induction false} InsertKeyUnique<T>(x: T, s: seq<T>, cmp: (T, T) -> int, key: T -> int)
    requires KeyUnique(s, key)
    requires forall y :: y in s ==> key(y) != key(x)
    ensures KeyUnique(Insert(x, s, cmp), key)
  {
    if s == [] || cmp(x, s[0]) <= 0 {
      var r := [x] + s;
      forall i, j | 0 <= i < j < |r| ensures key(r[i]) != key(r[j]) {
        if i == 0 { assert r[j] == s[j - 1]; }
        else { assert r[i] == s[i - 1] && r[j] == s[j - 1]; }
      }
    } else {
      var t := s[1..];
      assert KeyUnique(t, key) by {
        forall i, j | 0 <= i < j < |t| ensures key(t[i]) != key(t[j]) {
          assert t[i] == s[i + 1] && t[j] == s[j + 1];
        }
      }
      forall y | y in t ensures key(y) != key(x) {
        assert y in s;
      }
      InsertKeyUnique(x, t, cmp, key);
      var ins := Insert(x, t, cmp);
      var r := [s[0]] + ins;
      forall k | 0 <= k < |ins| ensures key(s[0]) != key(ins[k]) {
        assert ins[k] in multiset(ins);
        if ins[k] != x {
          assert ins[k] in multiset(t);
          var m :| 0 <= m < |t| && t[m] == ins[k];
          assert s[m + 1] == t[m];
        } else {
          assert s[0] in s;
        }
      }
      forall i, j | 0 <= i < j < |r| ensures key(r[i]) != key(r[j]) {
        if i == 0 { assert r[j] == ins[j - 1]; }
        else { assert r[i] == ins[i - 1] && r[j] == ins[j - 1]; }
      }
    }
  }

  /** Sorting moves elements around and so keeps keys that were unique unique. */
  lemma {:induction false} SortByKeyUnique<T>(s: seq<T>, cmp: (T, T) -> int, key: T -> int)
    requires KeyUnique(s, key)
    ensures KeyUnique(SortBy(s, cmp), key)
  {
    if s != [] {
      var t := s[1..];
      assert KeyUnique(t, key) by {
        forall i, j | 0 <= i < j < |t| ensures key(t[i]) != key(t[j]) {
          assert t[i] == s[i + 1] && t[j] == s[j + 1];
        }
      }
      SortByKeyUnique(t, cmp, key);
      var sorted := SortBy(t, cmp);
      forall y | y in sorted ensures key(y) != key(s[0]) {
        assert y in multiset(t);
        var m :| 0 <= m < |t| && t[m] == y;
        assert s[m + 1] == y;
      }
      InsertKeyUnique(s[0], sorted, cmp, key);
    }
  }
}
