/**
  `Array.prototype.sort` with a comparator that orders by one string key,
  as the bot uses it: by `name`, by `nickname`, and (through
  `caseInsensitiveCompare`) by the lower-cased text. The engine's own
  algorithm is not visible; an in-place insertion sort, which is stable as
  the engine's sort is, stands for it.
 */
module Sorting {
  import JsText

  /** Keys never decrease from left to right. */
  ghost predicate SortedBy<T>(s: seq<T>, key: T -> string)
  {
    forall i, j :: 0 <= i < j < |s| ==> JsText.LessOrEqual(key(s[i]), key(s[j]))
  }

  /** The key order on a list with one more element in front. */
  lemma SortedCons<T>(x: T, s: seq<T>, key: T -> string)
    ensures SortedBy([x] + s, key)
        <==> SortedBy(s, key) && forall y :: y in s ==> JsText.LessOrEqual(key(x), key(y))
  {
    var t := [x] + s;
    if SortedBy(s, key) && forall y :: y in s ==> JsText.LessOrEqual(key(x), key(y)) {
      forall i, j | 0 <= i < j < |t|
        ensures JsText.LessOrEqual(key(t[i]), key(t[j]))
      {
        if i == 0 {
          assert t[j] == s[j - 1] && s[j - 1] in s;
        } else {
          assert t[i] == s[i - 1] && t[j] == s[j - 1];
        }
      }
    }
    if SortedBy(t, key) {
      forall y | y in s
        ensures JsText.LessOrEqual(key(x), key(y))
      {
        var j :| 0 <= j < |s| && s[j] == y;
        assert t[0] == x && t[j + 1] == y;
        assert JsText.LessOrEqual(key(t[0]), key(t[j + 1]));
      }
      forall i, j | 0 <= i < j < |s|
        ensures JsText.LessOrEqual(key(s[i]), key(s[j]))
      {
        assert t[i + 1] == s[i] && t[j + 1] == s[j];
      }
    }
  }

  /**
    `x` put in front of the first element of `s` whose key is greater than
    its own: behind every element whose key is the same.
   */
  function Insert<T>(x: T, s: seq<T>, key: T -> string): (r: seq<T>)
    ensures multiset(r) == multiset(s) + multiset{x}
  {
    if s == [] || JsText.Less(key(x), key(s[0])) then [x] + s
    else
      assert s == [s[0]] + s[1..];
      [s[0]] + Insert(x, s[1..], key)
  }

  /**
    The order `Array.prototype.sort` leaves: by key, and, as ECMAScript
    requires of the sort since its 2019 edition, elements with equal keys
    in their original order.
   */
  function StableSort<T>(s: seq<T>, key: T -> string): (r: seq<T>)
    ensures multiset(r) == multiset(s)
  {
    if s == [] then []
    else
      assert s == s[..|s| - 1] + [s[|s| - 1]];
      Insert(s[|s| - 1], StableSort(s[..|s| - 1], key), key)
  }

  /** Inserting into an ordered list keeps it ordered. */
  lemma {:induction false} InsertSorted<T>(x: T, s: seq<T>, key: T -> string)
    requires SortedBy(s, key)
    ensures SortedBy(Insert(x, s, key), key)
  {
    if s == [] {
      SortedCons(x, s, key);
    } else if JsText.Less(key(x), key(s[0])) {
      SortedCons(x, s, key);
      forall y | y in s
        ensures JsText.LessOrEqual(key(x), key(y))
      {
        var j :| 0 <= j < |s| && s[j] == y;
        JsText.LessAsymmetric(key(x), key(s[0]));
        if j > 0 {
          JsText.LessOrEqualTransitive(key(x), key(s[0]), key(y));
        }
      }
    } else {
      assert s == [s[0]] + s[1..];
      SortedCons(s[0], s[1..], key);
      InsertSorted(x, s[1..], key);
      var r := Insert(x, s[1..], key);
      forall y | y in r
        ensures JsText.LessOrEqual(key(s[0]), key(y))
      {
        assert y in multiset(r);
        assert y == x || y in multiset(s[1..]);
      }
      SortedCons(s[0], r, key);
    }
  }

  /** `StableSort` orders by key. */
  lemma {:induction false} StableSortSorted<T>(s: seq<T>, key: T -> string)
    ensures SortedBy(StableSort(s, key), key)
  {
    if s != [] {
      StableSortSorted(s[..|s| - 1], key);
      InsertSorted(s[|s| - 1], StableSort(s[..|s| - 1], key), key);
    }
  }

  /**
    Where `Insert` puts `x` in an ordered list: at `j`, when the key in front
    of `j` is no greater than its own and every key from `j` on is greater.
   */
  lemma {:induction false} InsertAtSplit<T>(x: T, s: seq<T>, j: nat, key: T -> string)
    requires SortedBy(s, key) && j <= |s|
    requires j == 0 || !JsText.Less(key(x), key(s[j - 1]))
    requires forall p :: j <= p < |s| ==> JsText.Less(key(x), key(s[p]))
    ensures Insert(x, s, key) == s[..j] + [x] + s[j..]
  {
    if j == 0 {
      assert s[..0] == [] && s[0..] == s;
      if s != [] {
        assert JsText.Less(key(x), key(s[0]));
      }
      assert Insert(x, s, key) == [x] + s;
    } else {
      var rest := s[1..];
      assert s == [s[0]] + rest;
      SortedCons(s[0], rest, key);
      if j > 1 {
        assert s[j - 1] == rest[j - 2];
      } else {
        JsText.LessIrreflexive(key(s[0]));
      }
      JsText.LessOrEqualTransitive(key(s[0]), key(s[j - 1]), key(x));
      assert Insert(x, s, key) == [s[0]] + Insert(x, rest, key);
      InsertAtSplit(x, rest, j - 1, key);
      ConsAround(s, j, x);
    }
  }

  /** Splitting `s` at `j` after its first element, with `x` in between. */
  lemma ConsAround<T>(s: seq<T>, j: nat, x: T)
    requires 0 < j <= |s|
    ensures [s[0]] + (s[1..][..j - 1] + [x] + s[1..][j - 1..]) == s[..j] + [x] + s[j..]
  {
    assert s[1..][..j - 1] == s[1..j] && s[1..][j - 1..] == s[j..];
    assert s[..j] == [s[0]] + s[1..j];
  }

  /** Sorts `a` in place, stably: the result is `StableSort` of the input. */
  method SortByKey<T>(a: array<T>, key: T -> string)
    modifies a
    ensures a[..] == StableSort(old(a[..]), key)
    ensures SortedBy(a[..], key)
    ensures multiset(a[..]) == multiset(old(a[..]))
  {
    ghost var s := a[..];
    if a.Length == 0 {
      return;
    }
    var i := 1;
    StableSortStep(s, 0, key);
    while i < a.Length
      invariant 1 <= i <= a.Length
      invariant a[..i] == StableSort(s[..i], key)
      invariant a[i..] == s[i..]
    {
      StableSortSorted(s[..i], key);
      SuffixStep(a[..], s, i);
      InsertAt(a, i, key);
      StableSortStep(s, i, key);
      i := i + 1;
    }
    assert a[..a.Length] == a[..] && s[..a.Length] == s;
    StableSortSorted(s, key);
  }

  /** Sorting one more element of `s` inserts it into the sorted shorter prefix. */
  lemma StableSortStep<T>(s: seq<T>, i: nat, key: T -> string)
    requires i < |s|
    ensures StableSort(s[..i + 1], key) == Insert(s[i], StableSort(s[..i], key), key)
  {
    assert s[..i + 1][..i] == s[..i];
  }

  lemma SuffixStep<T>(b: seq<T>, s: seq<T>, i: nat)
    requires i < |b| == |s| && b[i..] == s[i..]
    ensures b[i] == s[i] && b[i + 1..] == s[i + 1..]
  {
    assert b[i..][0] == b[i] && s[i..][0] == s[i];
    assert b[i + 1..] == b[i..][1..] && s[i + 1..] == s[i..][1..];
  }

  /** Moves `a[i]` left past every greater key of the ordered `a[..i]`. */
  method InsertAt<T>(a: array<T>, i: int, key: T -> string)
    requires 0 < i < a.Length
    requires SortedBy(a[..i], key)
    modifies a
    ensures a[..i + 1] == Insert(old(a[i]), old(a[..i]), key)
    ensures a[i + 1..] == old(a[i + 1..])
  {
    ghost var t := a[..i];
    var x := a[i];
    var j := i;
    while j > 0 && JsText.Less(key(x), key(a[j - 1]))
      invariant 0 <= j <= i
      invariant forall p :: 0 <= p < j ==> a[p] == t[p]
      invariant forall p :: j < p <= i ==> a[p] == t[p - 1]
      invariant forall p :: j <= p < i ==> JsText.Less(key(x), key(t[p]))
      invariant forall p :: i < p < a.Length ==> a[p] == old(a[p])
    {
      a[j] := a[j - 1];
      j := j - 1;
    }
    a[j] := x;
    Placed(a[..], old(a[..]), t, x, i, j);
    InsertAtSplit(x, t, j, key);
  }

  /** The layout `InsertAt` leaves: `t[..j]`, then `x`, then `t[j..]`, then the untouched rest. */
  lemma Placed<T>(b: seq<T>, o: seq<T>, t: seq<T>, x: T, i: nat, j: nat)
    requires j <= i < |b| == |o| && |t| == i
    requires forall p :: 0 <= p < j ==> b[p] == t[p]
    requires b[j] == x
    requires forall p :: j < p <= i ==> b[p] == t[p - 1]
    requires forall p :: i < p < |b| ==> b[p] == o[p]
    ensures b[..i + 1] == t[..j] + [x] + t[j..]
    ensures b[i + 1..] == o[i + 1..]
  {
  }
}
