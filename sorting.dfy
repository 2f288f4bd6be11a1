/**
 * `Array.prototype.sort` with a comparator, as a function on sequences.
 * JavaScript's sort is stable; for a comparator that orders the elements
 * consistently there is exactly one stable sorted permutation, and insertion
 * sort below computes it: `before(a, b)` holds when the comparator does not
 * ask to move `a` behind `b` (its result is not positive), and an element is
 * inserted in front of the first element it may precede, so elements the
 * comparator calls equal keep their input order.
 */
module Sorting {
  import opened Lists

  function Insert<T>(x: T, s: seq<T>, before: (T, T) -> bool): (r: seq<T>)
    ensures |r| == |s| + 1 && multiset(r) == multiset(s) + multiset{x}
  {
    if s == [] || before(x, s[0]) then [x] + s
    else
      assert s == [s[0]] + s[1..];
      [s[0]] + Insert(x, s[1..], before)
  }

  function SortBy<T>(s: seq<T>, before: (T, T) -> bool): (r: seq<T>)
    ensures |r| == |s| && multiset(r) == multiset(s)
  {
    if s == [] then []
    else
      assert s == [s[0]] + s[1..];
      Insert(s[0], SortBy(s[1..], before), before)
  }

  ghost predicate SortedBy<T>(s: seq<T>, before: (T, T) -> bool) {
    forall i, j :: 0 <= i < j < |s| ==> before(s[i], s[j])
  }

  /** `before` is a total preorder on the elements of `s`. */
  ghost predicate PreorderOn<T>(s: seq<T>, before: (T, T) -> bool) {
    && (forall a, b :: a in s && b in s ==> before(a, b) || before(b, a))
    && (forall a, b, c :: a in s && b in s && c in s && before(a, b) && before(b, c) ==> before(a, c))
  }

  lemma {:induction false} InsertSorted<T>(x: T, s: seq<T>, before: (T, T) -> bool)
    requires SortedBy(s, before) && PreorderOn(s + [x], before)
    ensures SortedBy(Insert(x, s, before), before)
  {
    if s == [] {
    } else if before(x, s[0]) {
      InsertAtFront(x, s, before);
    } else {
      var tail := s[1..];
      assert x in s + [x] && s[0] in s + [x];
      assert before(s[0], x);
      assert forall a :: a in tail + [x] ==> a in s + [x];
      InsertSorted(x, tail, before);
      HeadBeforeInserted(x, s, before);
      ConsSorted(s[0], Insert(x, tail, before), before);
    }
  }

  /** An element that may precede the head of a sorted sequence may go in front of it. */
  lemma InsertAtFront<T>(x: T, s: seq<T>, before: (T, T) -> bool)
    requires s != [] && SortedBy(s, before) && PreorderOn(s + [x], before) && before(x, s[0])
    ensures SortedBy([x] + s, before)
  {
    var r := [x] + s;
    assert x in s + [x];
    forall j | 1 < j < |r| ensures before(x, r[j]) {
      assert r[j] == s[j - 1] && before(s[0], s[j - 1]);
      assert s[0] in s + [x] && s[j - 1] in s + [x];
    }
    forall i, j | 0 <= i < j < |r| ensures before(r[i], r[j]) {
      if i > 0 {
        assert r[i] == s[i - 1] && r[j] == s[j - 1];
      }
    }
  }

  /** The head of a sorted sequence may precede everything after inserting, behind it, an element it may precede. */
  lemma HeadBeforeInserted<T>(x: T, s: seq<T>, before: (T, T) -> bool)
    requires s != [] && SortedBy(s, before) && before(s[0], x)
    ensures forall j :: 0 <= j < |Insert(x, s[1..], before)| ==> before(s[0], Insert(x, s[1..], before)[j])
  {
    var tail := s[1..];
    var rest := Insert(x, tail, before);
    forall j | 0 <= j < |rest| ensures before(s[0], rest[j]) {
      assert rest[j] in multiset(rest);
      assert rest[j] == x || rest[j] in tail;
      if rest[j] != x {
        var k :| 0 <= k < |tail| && tail[k] == rest[j];
        assert s[k + 1] == rest[j];
      }
    }
  }

  /** A sorted sequence stays sorted with an element in front that may precede all of it. */
  lemma ConsSorted<T>(h: T, rest: seq<T>, before: (T, T) -> bool)
    requires SortedBy(rest, before) && forall j :: 0 <= j < |rest| ==> before(h, rest[j])
    ensures SortedBy([h] + rest, before)
  {
    var r := [h] + rest;
    forall i, j | 0 <= i < j < |r| ensures before(r[i], r[j]) {
      assert r[j] == rest[j - 1];
      if i > 0 {
        assert r[i] == rest[i - 1];
      }
    }
  }

  /** Under a consistent comparator, the result is ordered. */
  lemma {:induction false} SortBySorted<T>(s: seq<T>, before: (T, T) -> bool)
    requires PreorderOn(s, before)
    ensures SortedBy(SortBy(s, before), before)
  {
    if s != [] {
      var tail := s[1..];
      assert forall a :: a in tail ==> a in s;
      SortBySorted(tail, before);
      var sorted := SortBy(tail, before);
      forall a | a in sorted + [s[0]] ensures a in s {
        if a in sorted { assert a in multiset(sorted); assert a in multiset(tail); }
      }
      InsertSorted(s[0], sorted, before);
    }
  }

  /**
   * The first `k` elements of a sorted sequence may precede every element
   * that is left out.
   */
  lemma {:induction false} TakeIsTop<T>(s: seq<T>, k: nat, before: (T, T) -> bool)
    requires SortedBy(s, before)
    ensures forall x, y :: x in Take(s, k) && y in s && y !in Take(s, k) ==> before(x, y)
  {
    var t := Take(s, k);
    forall x, y | x in t && y in s && y !in t ensures before(x, y) {
      var i :| 0 <= i < |t| && t[i] == x;
      var j :| 0 <= j < |s| && s[j] == y;
      assert s[i] == x;
    }
  }

  /**
   * The first `k` elements of `SortBy(s, before)` come from `s`, are in
   * order, and each may precede every element of `s` left out.
   */
  lemma SortedPrefix<T>(s: seq<T>, k: nat, before: (T, T) -> bool)
    requires PreorderOn(s, before)
    ensures var t := Take(SortBy(s, before), k);
      && (forall x :: x in t ==> x in s)
      && (forall i, j :: 0 <= i < j < |t| ==> before(t[i], t[j]))
      && (forall x, y :: x in t && y in s && y !in t ==> before(x, y))
  {
    var sorted := SortBy(s, before);
    var t := Take(sorted, k);
    SortBySorted(s, before);
    TakeIsTop(sorted, k, before);
    forall x ensures x in sorted <==> x in s {
      assert x in sorted <==> x in multiset(sorted);
      assert x in s <==> x in multiset(s);
    }
    forall i, j | 0 <= i < j < |t| ensures before(t[i], t[j]) {
      assert t[i] == sorted[i] && t[j] == sorted[j];
    }
  }
}
