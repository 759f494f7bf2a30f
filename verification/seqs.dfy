/**
 * Sequence helpers used by the store's open-section list and the hotkey
 * normaliser: duplicate-free lists, first-occurrence de-duplication (what both
 * `Array.from(new Set(xs))` and `xs.filter((v, i) => xs.indexOf(v) === i)`
 * compute), removal of one value, and filtering.
 */
module Seqs {

  predicate NoDups<T(==,!new)>(xs: seq<T>) {
    forall i, j :: 0 <= i < j < |xs| ==> xs[i] != xs[j]
  }

  /** The values of `r`, all drawn from `xs`, come in the order of their first occurrence in `xs`. */
  predicate FirstOccurrenceOrder<T(==)>(r: seq<T>, xs: seq<T>) {
    forall i, j :: 0 <= i < j < |r| && r[i] in xs && r[j] in xs ==> IndexOf(xs, r[i]) < IndexOf(xs, r[j])
  }

  /** Keeps the first occurrence of every value, in order of first occurrence. */
  function Dedupe<T(==,!new)>(xs: seq<T>): (r: seq<T>)
    ensures NoDups(r)
    ensures forall x :: x in r <==> x in xs
    ensures FirstOccurrenceOrder(r, xs)
    ensures |r| <= |xs|
  {
    if |xs| == 0 then []
    else
      var init := xs[..|xs| - 1];
      var d := Dedupe(init);
      var x := xs[|xs| - 1];
      assert xs == init + [x];
      assert forall y :: y in xs <==> y in init || y == x;
      assert forall y :: y in init ==> IndexOf(xs, y) == IndexOf(init, y) by {
        forall y | y in init
          ensures IndexOf(xs, y) == IndexOf(init, y)
        {
          IndexOfSnoc(init, x, y);
        }
      }
      if x in d then d
      else
        IndexOfSnoc(init, x, x);
        d + [x]
  }

  /** Appending a value moves no first occurrence, and a new value is found at the end. */
  lemma IndexOfSnoc<T>(xs: seq<T>, x: T, y: T)
    requires y in xs + [x]
    ensures y in xs ==> IndexOf(xs + [x], y) == IndexOf(xs, y)
    ensures y !in xs ==> IndexOf(xs + [x], y) == |xs|
  {
    var k := IndexOf(xs + [x], y);
    if y in xs {
      var j := IndexOf(xs, y);
      assert (xs + [x])[j] == y;
      assert k <= j;
      assert xs[k] == y;
    } else {
      assert forall i :: 0 <= i < |xs| ==> (xs + [x])[i] != y;
    }
  }

  /** Appending a new value to a list appends it to the de-duplication. */
  lemma DedupeSnocNew<T(!new)>(init: seq<T>, x: T)
    requires x !in init
    ensures Dedupe(init + [x]) == Dedupe(init) + [x]
  {
    var xs := init + [x];
    assert xs[..|xs| - 1] == init;
    assert x !in Dedupe(init);
  }

  /** A list that already has no duplicates is its own de-duplication. */
  lemma {:induction false} DedupeOfNoDups<T(!new)>(xs: seq<T>)
    requires NoDups(xs)
    ensures Dedupe(xs) == xs
  {
    if |xs| > 0 {
      var init, x := xs[..|xs| - 1], xs[|xs| - 1];
      assert xs == init + [x];
      assert NoDups(init) && x !in init;
      DedupeOfNoDups(init);
      DedupeSnocNew(init, x);
    }
  }

  /** Every element except `x`, in order (a `Set.delete` on a duplicate-free list). */
  function Without<T(==,!new)>(xs: seq<T>, x: T): (r: seq<T>)
    ensures x !in r
    ensures forall y :: y != x ==> (y in r <==> y in xs)
    ensures NoDups(xs) ==> NoDups(r)
    ensures x !in xs ==> r == xs
  {
    if |xs| == 0 then []
    else
      var rest := Without(xs[..|xs| - 1], x);
      var last := xs[|xs| - 1];
      assert xs == xs[..|xs| - 1] + [last];
      assert NoDups(xs) ==> NoDups(xs[..|xs| - 1]) && last !in xs[..|xs| - 1];
      if last == x then rest else rest + [last]
  }

  /** Deleting a value from a duplicate-free list keeps the others in their order. */
  lemma {:induction false} WithoutKeepsOrder<T(!new)>(xs: seq<T>, x: T)
    requires NoDups(xs)
    ensures FirstOccurrenceOrder(Without(xs, x), xs)
  {
    if |xs| > 0 {
      var init := xs[..|xs| - 1];
      var last := xs[|xs| - 1];
      var rest := Without(init, x);
      assert xs == init + [last];
      assert NoDups(init) && last !in init;
      WithoutKeepsOrder(init, x);
      assert FirstOccurrenceOrder(rest, xs) by {
        OrderAfterSnoc(rest, init, last);
      }
      if last != x {
        assert Without(xs, x) == rest + [last];
        assert FirstOccurrenceOrder(rest + [last], xs) by {
          IndexOfSnoc(init, last, last);
          forall y | y in rest
            ensures IndexOf(xs, y) < IndexOf(xs, last)
          {
            IndexOfSnoc(init, last, y);
          }
          LaterValueLast(rest, xs, last);
        }
      }
    }
  }

  /** An order over a list's first occurrences survives appending to the list. */
  lemma OrderAfterSnoc<T>(r: seq<T>, xs: seq<T>, x: T)
    requires FirstOccurrenceOrder(r, xs)
    requires forall y :: y in r ==> y in xs
    ensures FirstOccurrenceOrder(r, xs + [x])
  {
    forall y | y in xs
      ensures IndexOf(xs + [x], y) == IndexOf(xs, y)
    {
      IndexOfSnoc(xs, x, y);
    }
  }

  /** A value first occurring after every value of an ordered list can be appended to it. */
  lemma LaterValueLast<T>(r: seq<T>, xs: seq<T>, x: T)
    requires FirstOccurrenceOrder(r, xs) && x in xs
    requires forall y :: y in r ==> y in xs && IndexOf(xs, y) < IndexOf(xs, x)
    ensures FirstOccurrenceOrder(r + [x], xs)
  {
    var s := r + [x];
    forall i, j | 0 <= i < j < |s| && s[i] in xs && s[j] in xs
      ensures IndexOf(xs, s[i]) < IndexOf(xs, s[j])
    {
      assert s[i] == r[i];
      if j < |r| {
        assert s[j] == r[j];
      }
    }
  }

  lemma WithoutAppend<T(!new)>(xs: seq<T>, x: T)
    ensures Without(xs + [x], x) == Without(xs, x)
  {
    assert (xs + [x])[..|xs + [x]| - 1] == xs;
  }

  lemma WithoutTwice<T(!new)>(xs: seq<T>, x: T)
    ensures Without(Without(xs, x), x) == Without(xs, x)
  {
  }

  /** The elements satisfying `p`, in their original order. */
  function Filter<T(!new)>(xs: seq<T>, p: T -> bool): (r: seq<T>)
    ensures |r| <= |xs|
    ensures forall y :: y in r <==> y in xs && p(y)
  {
    if |xs| == 0 then []
    else
      var rest := Filter(xs[..|xs| - 1], p);
      var last := xs[|xs| - 1];
      assert xs == xs[..|xs| - 1] + [last];
      if p(last) then rest + [last] else rest
  }

  /** The last survivor of a filter is the last element of the list that satisfies the test. */
  lemma {:induction false} FilterEndsWithLastMatch<T(!new)>(xs: seq<T>, p: T -> bool)
    requires |Filter(xs, p)| > 0
    ensures var r := Filter(xs, p);
      exists i :: 0 <= i < |xs| && xs[i] == r[|r| - 1] && forall j :: i < j < |xs| ==> !p(xs[j])
  {
    var init, last := xs[..|xs| - 1], xs[|xs| - 1];
    assert xs == init + [last];
    var r, rest := Filter(xs, p), Filter(init, p);
    if p(last) {
      assert r == rest + [last];
      assert xs[|xs| - 1] == r[|r| - 1];
    } else {
      assert r == rest;
      FilterEndsWithLastMatch(init, p);
      var i :| 0 <= i < |init| && init[i] == rest[|rest| - 1] && forall j :: i < j < |init| ==> !p(init[j]);
      assert xs[i] == r[|r| - 1];
      assert forall j :: i < j < |xs| ==> !p(xs[j]) by {
        forall j | i < j < |xs|
          ensures !p(xs[j])
        {
          if j < |init| {
            assert xs[j] == init[j];
          }
        }
      }
    }
  }

  /** Filtering a duplicate-free list keeps each survivor once, in its original relative order. */
  lemma {:induction false} FilterKeepsOrder<T(!new)>(xs: seq<T>, p: T -> bool)
    requires NoDups(xs)
    ensures NoDups(Filter(xs, p))
    ensures FirstOccurrenceOrder(Filter(xs, p), xs)
  {
    if |xs| > 0 {
      var init := xs[..|xs| - 1];
      var last := xs[|xs| - 1];
      var rest := Filter(init, p);
      assert xs == init + [last];
      assert NoDups(init) && last !in init;
      FilterKeepsOrder(init, p);
      assert FirstOccurrenceOrder(rest, xs) by {
        OrderAfterSnoc(rest, init, last);
      }
      if p(last) {
        assert Filter(xs, p) == rest + [last];
        assert FirstOccurrenceOrder(rest + [last], xs) by {
          IndexOfSnoc(init, last, last);
          forall y | y in rest
            ensures IndexOf(xs, y) < IndexOf(xs, last)
          {
            IndexOfSnoc(init, last, y);
          }
          LaterValueLast(rest, xs, last);
        }
      }
    }
  }

  /** The tail of a duplicate-free list holds everything but its head. */
  lemma TailMembers<T(!new)>(xs: seq<T>)
    requires |xs| > 0 && NoDups(xs)
    ensures forall m :: m in xs[1..] <==> m in xs && m != xs[0]
  {
    assert xs == [xs[0]] + xs[1..];
    forall m | m in xs[1..]
      ensures m != xs[0]
    {
      var k :| 0 <= k < |xs| - 1 && xs[1..][k] == m;
      assert xs[k + 1] == m;
    }
  }

  /** Filtering keeps a list whose every element passes the test. */
  lemma {:induction false} FilterKeepsAll<T(!new)>(xs: seq<T>, p: T -> bool)
    requires forall x :: x in xs ==> p(x)
    ensures Filter(xs, p) == xs
  {
    if |xs| > 0 {
      assert xs == xs[..|xs| - 1] + [xs[|xs| - 1]];
      assert forall x :: x in xs[..|xs| - 1] ==> x in xs;
      FilterKeepsAll(xs[..|xs| - 1], p);
    }
  }

  /** Filtering drops a trailing element that fails the test. */
  lemma FilterDropsLast<T(!new)>(xs: seq<T>, x: T, p: T -> bool)
    requires !p(x)
    ensures Filter(xs + [x], p) == Filter(xs, p)
  {
    assert (xs + [x])[..|xs + [x]| - 1] == xs;
  }

  /** The position of the first occurrence of `x`. */
  function IndexOf<T(==)>(xs: seq<T>, x: T): (k: nat)
    requires x in xs
    ensures k < |xs| && xs[k] == x
    ensures forall j :: 0 <= j < k ==> xs[j] != x
  {
    if xs[0] == x then 0 else 1 + IndexOf(xs[1..], x)
  }
}
