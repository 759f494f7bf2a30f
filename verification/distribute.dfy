/**
 * Distribution of a selection of three or more objects
 * (editor/src/commands/distribute.ts). The bounding boxes are sorted stably by
 * their leading edge on the chosen axis; the first and last in that order stay
 * where they are, and the interior ones are moved along the axis so that
 * either their centres are evenly spaced (`center`) or the gaps between
 * neighbours are all equal (`space`).
 */
module Distribute {
  import opened Geometry
  import opened Seqs
  import opened Scene
  import opened CommandUtils

  datatype Strategy = Centers | Spacing

  /**
   * The order a stable sort by `keys` puts indices in: by key, ties by
   * original position. This is a strict total order on the indices of `keys`.
   */
  predicate Before(keys: seq<real>, a: nat, b: nat) {
    a < |keys| && b < |keys| && (keys[a] < keys[b] || (keys[a] == keys[b] && a < b))
  }

  predicate SortedBy(keys: seq<real>, order: seq<nat>) {
    forall i, j :: 0 <= i < j < |order| ==> Before(keys, order[i], order[j])
  }

  /** Inserts index `x` into an already sorted list of indices. */
  function Insert(keys: seq<real>, x: nat, s: seq<nat>): (r: seq<nat>)
    requires x < |keys| && x !in s
    requires forall y: nat :: y in s ==> y < |keys|
    requires SortedBy(keys, s)
    ensures |r| == |s| + 1
    ensures forall y: nat :: y in r <==> y in s || y == x
    ensures SortedBy(keys, r)
  {
    if |s| == 0 then [x]
    else if Before(keys, x, s[0]) then
      assert forall j :: 0 < j < |s| ==> Before(keys, s[0], s[j]);
      [x] + s
    else
      assert s == [s[0]] + s[1..];
      var rest := Insert(keys, x, s[1..]);
      assert forall y :: y in rest ==> Before(keys, s[0], y) by {
        forall y | y in rest ensures Before(keys, s[0], y) {
          assert s[0] in s;
          if y != x {
            var j := IndexOf(s[1..], y);
            assert s[j + 1] == y;
          }
        }
      }
      [s[0]] + rest
  }

  /** The indices `0 .. n-1` in stable-sorted order. */
  function SortOrder(keys: seq<real>, n: nat): (order: seq<nat>)
    requires n <= |keys|
    ensures |order| == n
    ensures forall y: nat :: y in order <==> y < n
    ensures SortedBy(keys, order)
  {
    if n == 0 then [] else Insert(keys, n - 1, SortOrder(keys, n - 1))
  }

  /** The permutation that `rects.sort(...)` applies: position k of the sorted list holds `rects[order[k]]`. */
  function Order(rects: seq<Rect>, axis: Axis): (order: seq<nat>)
    ensures |order| == |rects|
    ensures forall y: nat :: y in order <==> y < |rects|
    ensures forall k :: 0 <= k < |order| ==> order[k] < |rects|
    ensures NoDups(order)
  {
    var order := SortOrder(Leadings(rects, axis), |rects|);
    assert forall k :: 0 <= k < |order| ==> order[k] in order;
    order
  }

  /** The permutation orders the boxes by leading edge, ties by their place in the selection: the sort is stable. */
  predicate StablyOrdered(rects: seq<Rect>, axis: Axis, order: seq<nat>)
    requires forall k :: 0 <= k < |order| ==> order[k] < |rects|
  {
    forall i, j :: 0 <= i < j < |order| ==>
      && Leading(rects[order[i]], axis) <= Leading(rects[order[j]], axis)
      && (Leading(rects[order[i]], axis) == Leading(rects[order[j]], axis) ==> order[i] < order[j])
  }

  lemma OrderIsStable(rects: seq<Rect>, axis: Axis)
    ensures StablyOrdered(rects, axis, Order(rects, axis))
  {
    var keys := Leadings(rects, axis);
    var order := Order(rects, axis);
    assert SortedBy(keys, order);
    assert forall i, j :: 0 <= i < j < |order| ==> Before(keys, order[i], order[j]);
  }

  /** The boxes in sorted order. */
  function Sorted(rects: seq<Rect>, axis: Axis): (s: seq<Rect>)
    ensures |s| == |rects|
  {
    var order := Order(rects, axis);
    seq(|rects|, k requires 0 <= k < |rects| => rects[order[k]])
  }

  /** `step`: the centre-to-centre distance between first and last, divided by `count - 1`. */
  function Step(s: seq<Rect>, axis: Axis): real
    requires |s| >= 2
  {
    (CenterOn(s[|s| - 1], axis) - CenterOn(s[0], axis)) / (|s| - 1) as real
  }

  /** `gap`: the span from first leading edge to last trailing edge, less the total size, divided by `count - 1`. */
  function Gap(s: seq<Rect>, axis: Axis): real
    requires |s| >= 2
  {
    (Trailing(s[|s| - 1], axis) - Leading(s[0], axis) - Sum(Extents(s, axis))) / (|s| - 1) as real
  }

  /** The `center` strategy's move for sorted position k: none for the ends, onto the interpolated centre otherwise. */
  function CenterAmount(s: seq<Rect>, axis: Axis, k: nat): real
    requires |s| >= 2 && k < |s|
  {
    if k == 0 || k == |s| - 1 then 0.0
    else CenterOn(s[0], axis) + Step(s, axis) * k as real - CenterOn(s[k], axis)
  }

  /**
   * The `space` strategy's walk over sorted positions k, k+1, ... of boxes
   * with the given leading edges and extents: the first position only
   * advances the cursor past itself and one gap, the last is left alone, and
   * every interior position is moved onto the cursor, which then advances by
   * its extent and one gap. Yields the move of each position.
   */
  function SpaceWalk(leads: seq<real>, exts: seq<real>, gap: real, k: nat, cursor: real): (amounts: seq<real>)
    requires |leads| == |exts| && k <= |leads|
    ensures |amounts| == |leads| - k
    decreases |leads| - k
  {
    if k == |leads| then []
    else if k == 0 then [0.0] + SpaceWalk(leads, exts, gap, 1, cursor + exts[0] + gap)
    else if k == |leads| - 1 then [0.0] + SpaceWalk(leads, exts, gap, k + 1, cursor)
    else [cursor - leads[k]] + SpaceWalk(leads, exts, gap, k + 1, cursor + exts[k] + gap)
  }

  /**
   * The `space` walk as the command runs it: one pass over the sorted
   * positions carrying a mutable cursor. It yields exactly the moves
   * `SpaceWalk` describes.
   */
  method WalkSpacing(leads: seq<real>, exts: seq<real>, gap: real, start: real) returns (amounts: seq<real>)
    requires |leads| == |exts|
    ensures amounts == SpaceWalk(leads, exts, gap, 0, start)
  {
    amounts := [];
    var cursor := start;
    for idx := 0 to |leads|
      invariant |amounts| == idx
      invariant amounts + SpaceWalk(leads, exts, gap, idx, cursor) == SpaceWalk(leads, exts, gap, 0, start)
    {
      ghost var rest := SpaceWalk(leads, exts, gap, idx, cursor);
      var move := if idx == 0 || idx == |leads| - 1 then 0.0 else cursor - leads[idx];
      var next := if idx == |leads| - 1 then cursor else cursor + exts[idx] + gap;
      assert rest == [move] + SpaceWalk(leads, exts, gap, idx + 1, next);
      assert amounts + rest == (amounts + [move]) + SpaceWalk(leads, exts, gap, idx + 1, next);
      amounts := amounts + [move];
      cursor := next;
    }
    assert amounts + [] == amounts;
  }

  /** The move of every sorted position under a strategy. */
  function Amounts(s: seq<Rect>, axis: Axis, strategy: Strategy): (amounts: seq<real>)
    requires |s| >= 2
    ensures |amounts| == |s|
  {
    match strategy
    case Centers => seq(|s|, k requires 0 <= k < |s| => CenterAmount(s, axis, k))
    case Spacing => SpaceWalk(Leadings(s, axis), Extents(s, axis), Gap(s, axis), 0, Leading(s[0], axis))
  }

  /** The boxes after distribution, in the original selection order. */
  function Distributed(rects: seq<Rect>, axis: Axis, strategy: Strategy): (out: seq<Rect>)
    requires |rects| >= 3
    ensures |out| == |rects|
    ensures forall i :: 0 <= i < |rects| ==>
      && out[i].width == rects[i].width && out[i].height == rects[i].height
      && Across(out[i], axis) == Across(rects[i], axis)
  {
    seq(|rects|, i requires 0 <= i < |rects| => Translate(rects[i], AlongAxis(axis, MoveOf(rects, axis, strategy, i))))
  }

  /** Where box i lands in the sorted order. */
  function PositionOf(rects: seq<Rect>, axis: Axis, i: nat): (k: nat)
    requires i < |rects|
    ensures k < |rects| && Order(rects, axis)[k] == i
  {
    var order := Order(rects, axis);
    assert i in order;
    IndexOf(order, i)
  }

  /** How far box i moves: the amount of the sorted position it holds. */
  function MoveOf(rects: seq<Rect>, axis: Axis, strategy: Strategy, i: nat): real
    requires |rects| >= 3 && i < |rects|
  {
    Amounts(Sorted(rects, axis), axis, strategy)[PositionOf(rects, axis, i)]
  }

  /** Sorted position k holds the box `order[k]`. */
  lemma SortedAt(rects: seq<Rect>, axis: Axis, k: nat)
    requires k < |rects|
    ensures Sorted(rects, axis)[k] == rects[Order(rects, axis)[k]]
  {
  }

  /** The result for the box at sorted position k is that box moved by position k's amount. */
  lemma DistributedAt(rects: seq<Rect>, axis: Axis, strategy: Strategy, k: nat)
    requires |rects| >= 3 && k < |rects|
    ensures Distributed(rects, axis, strategy)[Order(rects, axis)[k]]
         == Translate(Sorted(rects, axis)[k], AlongAxis(axis, Amounts(Sorted(rects, axis), axis, strategy)[k]))
  {
    var i := Order(rects, axis)[k];
    assert PositionOf(rects, axis, i) == k by {
      var order := Order(rects, axis);
      assert order[PositionOf(rects, axis, i)] == order[k];
      assert NoDups(order);
    }
    assert Sorted(rects, axis)[k] == rects[i] by {
      SortedAt(rects, axis, k);
    }
  }

  lemma SumPrefixStep(xs: seq<real>, k: nat)
    requires k < |xs|
    ensures Sum(xs[..k + 1]) == Sum(xs[..k]) + xs[k]
  {
    assert xs[..k + 1][..k] == xs[..k];
  }

  /** k gaps laid end to end. */
  function Gaps(k: nat, gap: real): real {
    if k == 0 then 0.0 else Gaps(k - 1, gap) + gap
  }

  /** Taking the first gap off the front. */
  lemma {:induction false} GapsFirst(k: nat, gap: real)
    requires k >= 1
    ensures Gaps(k, gap) == gap + Gaps(k - 1, gap)
  {
    if k > 1 {
      GapsFirst(k - 1, gap);
    }
  }

  lemma {:induction false} GapsIsProduct(k: nat, gap: real)
    ensures Gaps(k, gap) == k as real * gap
  {
    if k > 0 {
      GapsIsProduct(k - 1, gap);
      assert k as real * gap == (k - 1) as real * gap + gap;
    }
  }

  /** `(a / m) * m == a` for the division by `count - 1`. */
  lemma DivTimes(a: real, m: real)
    requires m != 0.0
    ensures a / m * m == a
  {
  }

  /** `m * (a / m) == a` for the division by `count - 1`. */
  lemma ScaleBack(a: real, m: real)
    requires m != 0.0
    ensures m * (a / m) == a
  {
    DivTimes(a, m);
  }

  /** `n` equal shares of `free` add up to `free`. */
  lemma SharesFill(free: real, n: nat)
    requires n >= 1
    ensures Gaps(n, free / n as real) == free
  {
    GapsIsProduct(n, free / n as real);
    ScaleBack(free, n as real);
  }

  /** `count - 1` gaps fill exactly the space the boxes leave free between the first leading and last trailing edge. */
  lemma GapsSpanTheFree(s: seq<Rect>, axis: Axis)
    requires |s| >= 2
    ensures Gaps(|s| - 1, Gap(s, axis)) == Trailing(s[|s| - 1], axis) - Leading(s[0], axis) - Sum(Extents(s, axis))
  {
    var free := Trailing(s[|s| - 1], axis) - Leading(s[0], axis) - Sum(Extents(s, axis));
    var n1: nat := |s| - 1;
    assert Gap(s, axis) == free / n1 as real;
    SharesFill(free, n1);
  }

  /** One interior step of the walk: move onto the cursor, then advance past this box and one gap. */
  lemma SpaceWalkInterior(leads: seq<real>, exts: seq<real>, gap: real, k: nat, c: real)
    requires |leads| == |exts| && 1 <= k < |leads| - 1
    ensures var w := SpaceWalk(leads, exts, gap, k, c);
      && w[0] == c - leads[k]
      && w[1..] == SpaceWalk(leads, exts, gap, k + 1, c + exts[k] + gap)
  {
  }

  /** Past its first entry, an interior walk is the walk from the next position with the advanced cursor. */
  lemma SpaceWalkShift(leads: seq<real>, exts: seq<real>, gap: real, k: nat, c: real, j: nat)
    requires |leads| == |exts| && 1 <= k < |leads| - 1 && 1 <= j < |leads| - k
    ensures SpaceWalk(leads, exts, gap, k, c)[j] == SpaceWalk(leads, exts, gap, k + 1, c + exts[k] + gap)[j - 1]
  {
    SpaceWalkInterior(leads, exts, gap, k, c);
    var w := SpaceWalk(leads, exts, gap, k, c);
    assert w[j] == w[1..][j - 1];
  }

  /**
   * The cursor of the `space` walk: entering sorted position k having started
   * at position k0 with cursor c, it has advanced past the extents of positions
   * k0 .. k-1 and one gap for each.
   */
  lemma {:induction false} SpaceWalkCursor(leads: seq<real>, exts: seq<real>, gap: real, k0: nat, c: real, k: nat)
    requires |leads| == |exts| && 1 <= k0 <= k < |leads| - 1
    ensures SpaceWalk(leads, exts, gap, k0, c)[k - k0]
         == c + (Sum(exts[..k]) - Sum(exts[..k0])) + Gaps(k - k0, gap) - leads[k]
    decreases k - k0
  {
    var w := SpaceWalk(leads, exts, gap, k0, c);
    if k0 == k {
      assert w[0] == c - leads[k] by {
        SpaceWalkInterior(leads, exts, gap, k0, c);
      }
      assert Gaps(0, gap) == 0.0;
    } else {
      var c' := c + exts[k0] + gap;
      var s0, s1, sk := Sum(exts[..k0]), Sum(exts[..k0 + 1]), Sum(exts[..k]);
      var g, g1 := Gaps(k - k0, gap), Gaps(k - (k0 + 1), gap);
      assert w[k - k0] == c' + (sk - s1) + g1 - leads[k] by {
        SpaceWalkShift(leads, exts, gap, k0, c, k - k0);
        SpaceWalkCursor(leads, exts, gap, k0 + 1, c', k);
      }
      assert s1 == s0 + exts[k0] by {
        SumPrefixStep(exts, k0);
      }
      assert g == gap + g1 by {
        GapsFirst(k - k0, gap);
      }
    }
  }

  /** The walk never moves the last sorted position. */
  lemma {:induction false} SpaceWalkLeavesLast(leads: seq<real>, exts: seq<real>, gap: real, k0: nat, c: real)
    requires |leads| == |exts| && 1 <= k0 <= |leads| - 1
    ensures SpaceWalk(leads, exts, gap, k0, c)[|leads| - 1 - k0] == 0.0
    decreases |leads| - k0
  {
    if k0 < |leads| - 1 {
      var c' := c + exts[k0] + gap;
      SpaceWalkLeavesLast(leads, exts, gap, k0 + 1, c');
      SpaceWalkShift(leads, exts, gap, k0, c, |leads| - 1 - k0);
    }
  }

  /** The first step of the walk: no move, then the cursor passes the first box and one gap. */
  lemma SpaceWalkStart(leads: seq<real>, exts: seq<real>, gap: real, c: real)
    requires |leads| == |exts| && |leads| >= 3
    ensures var w := SpaceWalk(leads, exts, gap, 0, c);
      && w[0] == 0.0
      && w[1..] == SpaceWalk(leads, exts, gap, 1, c + exts[0] + gap)
  {
  }

  /** The whole walk leaves the last position where it is. */
  lemma WalkLeavesLast(leads: seq<real>, exts: seq<real>, gap: real, c: real)
    requires |leads| == |exts| && |leads| >= 3
    ensures SpaceWalk(leads, exts, gap, 0, c)[|leads| - 1] == 0.0
  {
    var w, w1 := SpaceWalk(leads, exts, gap, 0, c), SpaceWalk(leads, exts, gap, 1, c + exts[0] + gap);
    assert w[1..] == w1 by {
      SpaceWalkStart(leads, exts, gap, c);
    }
    assert w1[|leads| - 2] == 0.0 by {
      SpaceWalkLeavesLast(leads, exts, gap, 1, c + exts[0] + gap);
    }
    assert w[|leads| - 1] == w[1..][|leads| - 2];
  }

  /**
   * The `space` strategy in closed form: sorted position k ends with its
   * leading edge at the first box's leading edge plus the extents of the
   * positions before it plus k gaps. This holds for the first and the last
   * position too, which the walk does not move.
   */
  lemma SpacingClosedForm(s: seq<Rect>, axis: Axis, k: nat)
    requires |s| >= 3 && k < |s|
    ensures Leading(s[k], axis) + Amounts(s, axis, Spacing)[k]
         == Leading(s[0], axis) + Sum(Extents(s, axis)[..k]) + Gaps(k, Gap(s, axis))
  {
    var gap, n := Gap(s, axis), |s|;
    var leads, exts := Leadings(s, axis), Extents(s, axis);
    var lead0 := Leading(s[0], axis);
    var c1 := lead0 + exts[0] + gap;
    var walk := SpaceWalk(leads, exts, gap, 0, lead0);
    assert Amounts(s, axis, Spacing) == walk;
    if k == 0 {
      assert walk[0] == 0.0 && Gaps(0, gap) == 0.0 && exts[..0] == [];
    } else if k < n - 1 {
      SpacingInterior(s, axis, k);
    } else {
      SpacingLast(s, axis);
    }
  }

  /** The closed form of the `space` strategy at an interior position, where the walk moves the box onto its cursor. */
  lemma SpacingInterior(s: seq<Rect>, axis: Axis, k: nat)
    requires |s| >= 3 && 1 <= k < |s| - 1
    ensures Leading(s[k], axis) + Amounts(s, axis, Spacing)[k]
         == Leading(s[0], axis) + Sum(Extents(s, axis)[..k]) + Gaps(k, Gap(s, axis))
  {
    var leads := Leadings(s, axis);
    assert leads[k] == Leading(s[k], axis) && leads[0] == Leading(s[0], axis);
    WalkInterior(leads, Extents(s, axis), Gap(s, axis), k);
  }

  /** A walk started at the first leading edge puts interior position k after the extents before it and k gaps. */
  lemma WalkInterior(leads: seq<real>, exts: seq<real>, gap: real, k: nat)
    requires |leads| == |exts| && |leads| >= 3 && 1 <= k < |leads| - 1
    ensures leads[k] + SpaceWalk(leads, exts, gap, 0, leads[0])[k] == leads[0] + Sum(exts[..k]) + Gaps(k, gap)
  {
    var c1 := leads[0] + exts[0] + gap;
    var walk := SpaceWalk(leads, exts, gap, 0, leads[0]);
    assert walk[k] == SpaceWalk(leads, exts, gap, 1, c1)[k - 1] by {
      SpaceWalkStart(leads, exts, gap, leads[0]);
    }
    assert SpaceWalk(leads, exts, gap, 1, c1)[k - 1] == c1 + (Sum(exts[..k]) - Sum(exts[..1])) + Gaps(k - 1, gap) - leads[k] by {
      SpaceWalkCursor(leads, exts, gap, 1, c1, k);
    }
    assert Sum(exts[..1]) == exts[0] by {
      SumPrefixStep(exts, 0);
      assert exts[..0] == [];
    }
    assert Gaps(k, gap) == gap + Gaps(k - 1, gap) by {
      GapsFirst(k, gap);
    }
  }

  /** The closed form of the `space` strategy at the last position, which the walk leaves where it is. */
  lemma SpacingLast(s: seq<Rect>, axis: Axis)
    requires |s| >= 3
    ensures Leading(s[|s| - 1], axis) + Amounts(s, axis, Spacing)[|s| - 1]
         == Leading(s[0], axis) + Sum(Extents(s, axis)[..|s| - 1]) + Gaps(|s| - 1, Gap(s, axis))
  {
    var gap, n := Gap(s, axis), |s|;
    var leads, exts := Leadings(s, axis), Extents(s, axis);
    var lead0 := Leading(s[0], axis);
    var ext := Extent(s[n - 1], axis);
    assert Amounts(s, axis, Spacing)[n - 1] == 0.0 by {
      assert Amounts(s, axis, Spacing) == SpaceWalk(leads, exts, gap, 0, lead0);
      WalkLeavesLast(leads, exts, gap, lead0);
    }
    assert Gaps(n - 1, gap) == Trailing(s[n - 1], axis) - lead0 - Sum(exts) by {
      GapsSpanTheFree(s, axis);
    }
    assert Trailing(s[n - 1], axis) == Leading(s[n - 1], axis) + ext;
    assert Sum(exts) == Sum(exts[..n - 1]) + ext by {
      assert exts[..n] == exts;
      SumPrefixStep(exts, n - 1);
    }
  }

  /** The `center` strategy in closed form: sorted position k ends with its centre k steps after the first centre. */
  lemma CentersClosedForm(s: seq<Rect>, axis: Axis, k: nat)
    requires |s| >= 3 && k < |s|
    ensures CenterOn(s[k], axis) + Amounts(s, axis, Centers)[k]
         == CenterOn(s[0], axis) + Gaps(k, Step(s, axis))
  {
    var n, step := |s|, Step(s, axis);
    GapsIsProduct(k, step);
    assert step * k as real == k as real * step;
    if k == n - 1 {
      DivTimes(CenterOn(s[n - 1], axis) - CenterOn(s[0], axis), (n - 1) as real);
    }
  }

  /** A move along an axis shifts every edge on that axis by the amount and keeps the extent. */
  lemma ShiftAlong(r: Rect, axis: Axis, a: real)
    ensures var t := Translate(r, AlongAxis(axis, a));
      && Leading(t, axis) == Leading(r, axis) + a
      && Extent(t, axis) == Extent(r, axis)
      && Trailing(t, axis) == Trailing(r, axis) + a
      && CenterOn(t, axis) == CenterOn(r, axis) + a
      && (a == 0.0 ==> t == r)
  {
  }

  /** Neither strategy moves the first or the last sorted position. */
  lemma EndAmountsAreZero(s: seq<Rect>, axis: Axis, strategy: Strategy)
    requires |s| >= 3
    ensures Amounts(s, axis, strategy)[0] == 0.0 && Amounts(s, axis, strategy)[|s| - 1] == 0.0
  {
    if strategy == Spacing {
      var gap, leads, exts := Gap(s, axis), Leadings(s, axis), Extents(s, axis);
      var c1 := Leading(s[0], axis) + exts[0] + gap;
      SpaceWalkStart(leads, exts, gap, Leading(s[0], axis));
      SpaceWalkLeavesLast(leads, exts, gap, 1, c1);
      assert Amounts(s, axis, strategy)[|s| - 1] == SpaceWalk(leads, exts, gap, 1, c1)[|s| - 2];
    }
  }

  /** Neither strategy moves the first or the last box of the sorted order. */
  lemma EndsStayPut(rects: seq<Rect>, axis: Axis, strategy: Strategy)
    requires |rects| >= 3
    ensures var out, order := Distributed(rects, axis, strategy), Order(rects, axis);
      && out[order[0]] == rects[order[0]]
      && out[order[|rects| - 1]] == rects[order[|rects| - 1]]
  {
    var n, s := |rects|, Sorted(rects, axis);
    EndAmountsAreZero(s, axis, strategy);
    DistributedAt(rects, axis, strategy, 0);
    DistributedAt(rects, axis, strategy, n - 1);
    SortedAt(rects, axis, 0);
    SortedAt(rects, axis, n - 1);
    ShiftAlong(s[0], axis, 0.0);
    ShiftAlong(s[n - 1], axis, 0.0);
  }

  /**
   * `space`: after distribution, every pair of neighbours in the sorted order
   * is separated by the same gap, the free space between the outer edges
   * shared out equally.
   */
  lemma SpacingMakesEqualGaps(rects: seq<Rect>, axis: Axis, k: nat)
    requires |rects| >= 3 && k < |rects| - 1
    ensures var out, order := Distributed(rects, axis, Spacing), Order(rects, axis);
      Leading(out[order[k + 1]], axis) - Trailing(out[order[k]], axis) == Gap(Sorted(rects, axis), axis)
  {
    var s, order := Sorted(rects, axis), Order(rects, axis);
    var amounts, exts := Amounts(s, axis, Spacing), Extents(s, axis);
    DistributedAt(rects, axis, Spacing, k);
    DistributedAt(rects, axis, Spacing, k + 1);
    ShiftAlong(s[k], axis, amounts[k]);
    ShiftAlong(s[k + 1], axis, amounts[k + 1]);
    SpacingClosedForm(s, axis, k);
    SpacingClosedForm(s, axis, k + 1);
    SumPrefixStep(exts, k);
  }

  /**
   * `space`: after distribution the outer span, from the first box's leading
   * edge to the last box's trailing edge in the sorted order, is the boxes'
   * extents plus `count - 1` of the gaps that now separate neighbours
   * (`Gaps(k, g)` is `k * g` by `GapsIsProduct`).
   */
  lemma SpacingKeepsTheSpan(rects: seq<Rect>, axis: Axis)
    requires |rects| >= 3
    ensures var out, order, s := Distributed(rects, axis, Spacing), Order(rects, axis), Sorted(rects, axis);
      Trailing(out[order[|rects| - 1]], axis) - Leading(out[order[0]], axis)
        == Sum(Extents(s, axis)) + Gaps(|rects| - 1, Gap(s, axis))
  {
    var n, s := |rects|, Sorted(rects, axis);
    var out, order := Distributed(rects, axis, Spacing), Order(rects, axis);
    assert out[order[0]] == s[0] && out[order[n - 1]] == s[n - 1] by {
      EndsStayPut(rects, axis, Spacing);
      SortedAt(rects, axis, 0);
      SortedAt(rects, axis, n - 1);
    }
    var total, gap := Sum(Extents(s, axis)), Gap(s, axis);
    assert Trailing(s[n - 1], axis) - Leading(s[0], axis) == total + Gaps(n - 1, gap) by {
      GapsSpanTheFree(s, axis);
    }
  }

  /** `center`: after distribution, neighbouring centres in the sorted order are one step apart. */
  lemma CentersAreEvenlySpaced(rects: seq<Rect>, axis: Axis, k: nat)
    requires |rects| >= 3 && k < |rects| - 1
    ensures var out, order := Distributed(rects, axis, Centers), Order(rects, axis);
      CenterOn(out[order[k + 1]], axis) - CenterOn(out[order[k]], axis) == Step(Sorted(rects, axis), axis)
  {
    var out, order := Distributed(rects, axis, Centers), Order(rects, axis);
    var s := Sorted(rects, axis);
    var first, step := CenterOn(s[0], axis), Step(s, axis);
    assert CenterOn(out[order[k]], axis) == first + Gaps(k, step) by {
      CenteredAt(rects, axis, k);
    }
    assert CenterOn(out[order[k + 1]], axis) == first + Gaps(k, step) + step by {
      CenteredAt(rects, axis, k + 1);
    }
  }

  /** Under `center`, the box at sorted position k ends k steps past the first centre. */
  lemma CenteredAt(rects: seq<Rect>, axis: Axis, k: nat)
    requires |rects| >= 3 && k < |rects|
    ensures CenterOn(Distributed(rects, axis, Centers)[Order(rects, axis)[k]], axis)
         == CenterOn(Sorted(rects, axis)[0], axis) + Gaps(k, Step(Sorted(rects, axis), axis))
  {
    var s := Sorted(rects, axis);
    var amounts := Amounts(s, axis, Centers);
    DistributedAt(rects, axis, Centers, k);
    ShiftAlong(s[k], axis, amounts[k]);
    CentersClosedForm(s, axis, k);
  }

  /** The example's boxes sort as first, third, second, with a gap of 40 to share out. */
  lemma ExampleLayout(a: Rect, b: Rect, c: Rect)
    requires a.left == 0.0 && b.left == 100.0 && c.left == 40.0
    requires a.width == 10.0 && b.width == 10.0 && c.width == 10.0
    ensures Order([a, b, c], Horizontal) == [0, 2, 1]
    ensures Gap(Sorted([a, b, c], Horizontal), Horizontal) == 40.0
  {
    var rects := [a, b, c];
    var order := Order(rects, Horizontal);
    assert order == [0, 2, 1] by {
      OrderIsStable(rects, Horizontal);
      assert Leading(rects[order[0]], Horizontal) <= Leading(rects[order[1]], Horizontal) <= Leading(rects[order[2]], Horizontal);
      assert order[0] in {0, 1, 2} && order[1] in {0, 1, 2} && order[2] in {0, 1, 2};
    }
    var s := Sorted(rects, Horizontal);
    assert s == [a, c, b];
    var exts := Extents(s, Horizontal);
    assert exts == [10.0, 10.0, 10.0];
    assert exts[..0] == [] && exts[..3] == exts;
    SumPrefixStep(exts, 0);
    SumPrefixStep(exts, 1);
    SumPrefixStep(exts, 2);
  }

  /**
   * Three boxes of width 10 at lefts 0, 100 and 40: the third, in the middle
   * of the sorted order, moves to left 50, and nothing else changes.
   */
  lemma SpacingExample(a: Rect, b: Rect, c: Rect)
    requires a.left == 0.0 && b.left == 100.0 && c.left == 40.0
    requires a.width == 10.0 && b.width == 10.0 && c.width == 10.0
    ensures Distributed([a, b, c], Horizontal, Spacing) == [a, b, c.(left := 50.0)]
  {
    var rects := [a, b, c];
    ExampleLayout(a, b, c);
    var out, order := Distributed(rects, Horizontal, Spacing), Order(rects, Horizontal);
    SpacingMakesEqualGaps(rects, Horizontal, 0);
    EndsStayPut(rects, Horizontal, Spacing);
    assert out[order[2]] == rects[order[2]];
    assert out[2].left == 50.0;
    assert Across(out[2], Horizontal) == Across(rects[2], Horizontal);
  }

  /** Three boxes whose left edges strictly increase are already in sorted order. */
  lemma ThreeInOrder(a: Rect, b: Rect, c: Rect)
    requires a.left < b.left < c.left
    ensures Order([a, b, c], Horizontal) == [0, 1, 2]
    ensures Sorted([a, b, c], Horizontal) == [a, b, c]
  {
    var rects := [a, b, c];
    var order := Order(rects, Horizontal);
    OrderIsStable(rects, Horizontal);
    assert order[0] in {0, 1, 2} && order[1] in {0, 1, 2} && order[2] in {0, 1, 2};
  }

  /** Three boxes whose middle one has the smallest left edge sort as middle, first, last. */
  lemma MiddleLeadsThree(a: Rect, b: Rect, c: Rect)
    requires b.left < a.left < c.left
    ensures Order([a, b, c], Horizontal) == [1, 0, 2]
    ensures Sorted([a, b, c], Horizontal) == [b, a, c]
  {
    var rects := [a, b, c];
    var order := Order(rects, Horizontal);
    OrderIsStable(rects, Horizontal);
    assert order[0] in {0, 1, 2} && order[1] in {0, 1, 2} && order[2] in {0, 1, 2};
  }

  /** The first run of the counterexample below: the wide middle box is centred at 35, so it starts at -15. */
  lemma CentersFirstRun(a: Rect, b: Rect, c: Rect)
    requires a.left == 0.0 && b.left == 50.0 && c.left == 60.0
    requires a.width == 10.0 && b.width == 100.0 && c.width == 10.0
    ensures Distributed([a, b, c], Horizontal, Centers) == [a, b.(left := -15.0), c]
  {
    var rects := [a, b, c];
    var out := Distributed(rects, Horizontal, Centers);
    assert Order(rects, Horizontal) == [0, 1, 2] && Sorted(rects, Horizontal) == rects by {
      ThreeInOrder(a, b, c);
    }
    assert out[1].left == -15.0 by {
      assert Step(rects, Horizontal) == 30.0;
      GapsIsProduct(1, 30.0);
      CenteredAt(rects, Horizontal, 1);
    }
    assert out[0] == a && out[2] == c by {
      EndsStayPut(rects, Horizontal, Centers);
    }
    assert out[1] == b.(left := -15.0);
  }

  /** The second run: the box now leading the order stays, and the one at left 0 is moved onto the centre 50. */
  lemma CentersSecondRun(p: Rect, q: Rect, r: Rect)
    requires p.left == 0.0 && q.left == -15.0 && r.left == 60.0
    requires p.width == 10.0 && q.width == 100.0 && r.width == 10.0
    ensures CenterOn(Distributed([p, q, r], Horizontal, Centers)[0], Horizontal) == 50.0
  {
    var rects := [p, q, r];
    MiddleLeadsThree(p, q, r);
    var s := Sorted(rects, Horizontal);
    assert Step(s, Horizontal) == 15.0;
    GapsIsProduct(1, 15.0);
    CenteredAt(rects, Horizontal, 1);
  }

  /**
   * Re-running `center` can move boxes again: with lefts 0, 50, 60 and widths
   * 10, 100, 10, the wide middle box is centred at 35 and so starts at -15,
   * ahead of the first box; the second run sorts it first and moves the box
   * that started at 0 (centre 5) onto the centre 50.
   */
  lemma CentersIsNotIdempotent(a: Rect, b: Rect, c: Rect)
    requires a.left == 0.0 && b.left == 50.0 && c.left == 60.0
    requires a.width == 10.0 && b.width == 100.0 && c.width == 10.0
    ensures var once := Distributed([a, b, c], Horizontal, Centers);
      && once[1].left == -15.0
      && CenterOn(Distributed(once, Horizontal, Centers)[0], Horizontal) == 50.0
      && Distributed(once, Horizontal, Centers) != once
  {
    CentersFirstRun(a, b, c);
    var once := [a, b.(left := -15.0), c];
    CentersSecondRun(a, b.(left := -15.0), c);
    assert CenterOn(once[0], Horizontal) == 5.0;
  }

  /** A box that differs from another only by its leading edge is reached from it by a move along the axis. */
  lemma MoveOnto(r: Rect, target: Rect, axis: Axis)
    requires target.width == r.width && target.height == r.height
    requires Across(target, axis) == Across(r, axis)
    ensures Translate(r, AlongAxis(axis, Leading(target, axis) - Leading(r, axis))) == target
  {
  }

  /** Moves every object along the axis so that its bounding box lands on the matching target box. */
  function MoveOntoBoxes(objs: seq<CanvasObject>, boxes: seq<Rect>, axis: Axis): (moved: seq<CanvasObject>)
    requires |boxes| == |objs|
    requires forall i :: 0 <= i < |objs| ==>
      && boxes[i].width == objs[i].bounds.width && boxes[i].height == objs[i].bounds.height
      && Across(boxes[i], axis) == Across(objs[i].bounds, axis)
    ensures |moved| == |objs|
    ensures forall i :: 0 <= i < |objs| ==> moved[i].bounds == boxes[i]
    ensures forall i :: 0 <= i < |objs| ==>
      moved[i] == Moved(objs[i], AlongAxis(axis, Leading(boxes[i], axis) - Leading(objs[i].bounds, axis)))
  {
    var moved := seq(|objs|, i requires 0 <= i < |objs| =>
      Moved(objs[i], AlongAxis(axis, Leading(boxes[i], axis) - Leading(objs[i].bounds, axis))));
    assert forall i :: 0 <= i < |objs| ==> moved[i].bounds == boxes[i] by {
      forall i | 0 <= i < |objs| ensures moved[i].bounds == boxes[i] {
        MoveOnto(objs[i].bounds, boxes[i], axis);
      }
    }
    moved
  }

  /**
   * The edit a distribute command makes to a selection: nothing, and a false
   * result, with fewer than three objects; otherwise every object is moved
   * along the axis so that its bounding box lands where the layout puts it.
   */
  function DistributeSelection(objs: seq<CanvasObject>, axis: Axis, strategy: Strategy): (e: SelectionEdit)
    ensures e.requests == []
    ensures e.ok <==> |objs| >= 3
    ensures !e.ok ==> e.objects == objs
    ensures e.ok ==>
      var out := Distributed(BoundsOf(objs), axis, strategy);
      && |e.objects| == |objs|
      && (forall i :: 0 <= i < |objs| ==> e.objects[i].bounds == out[i])
      && forall i :: 0 <= i < |objs| ==>
           e.objects[i] == Moved(objs[i], AlongAxis(axis, Leading(out[i], axis) - Leading(objs[i].bounds, axis)))
  {
    if |objs| < 3 then SelectionEdit(false, objs, [])
    else SelectionEdit(true, MoveOntoBoxes(objs, Distributed(BoundsOf(objs), axis, strategy), axis), [])
  }

  /** Distribute commands are enabled exactly when at least three objects are selected. */
  function IsEnabled(ctx: Context): (b: bool)
    ensures b <==> ctx.canvas.Some? && |GetActiveSelection(ctx.canvas.value).objects| >= 3
  {
    SelectionHasAtLeast(ctx, 3)
  }

  /**
   * Running a distribute command succeeds exactly when it is enabled. It
   * distributes the selected objects where the canvas holds them and
   * changes nothing else.
   */
  function Run(ctx: Context, axis: Axis, strategy: Strategy): (out: (bool, Context))
    ensures out.0 <==> IsEnabled(ctx)
    ensures !out.0 ==> out.1 == ctx
    ensures out.1.store == ctx.store
    ensures ctx.canvas.Some? ==>
      var c := ctx.canvas.value;
      && out.1.canvas.Some? && out.1.canvas.value.requests == c.requests
      && EditedSelection(c, out.1.canvas.value, DistributeSelection(GetActiveSelection(c).objects, axis, strategy).objects)
  {
    var out := RunOnSelection(ctx, objs => DistributeSelection(objs, axis, strategy));
    if ctx.canvas.Some? && !out.0 then
      var c := ctx.canvas.value;
      assert c.requests + [] == c.requests;
      out
    else out
  }

  /**
   * Distributing edits the canvas's own objects: after an enabled run the
   * object at each selected position has the box the layout gives it, and
   * every other object is untouched.
   */
  lemma RunMovesTheCanvasObjects(ctx: Context, axis: Axis, strategy: Strategy)
    requires IsEnabled(ctx)
    ensures var c, d := ctx.canvas.value, Run(ctx, axis, strategy).1.canvas.value;
      var sel := GetActiveSelection(c);
      var out := Distributed(BoundsOf(sel.objects), axis, strategy);
      && (forall k :: 0 <= k < |sel.positions| ==> d.objects[sel.positions[k]].bounds == out[k])
      && (forall i :: 0 <= i < |c.objects| && i !in sel.positions ==> d.objects[i] == c.objects[i])
  {
    var c, d := ctx.canvas.value, Run(ctx, axis, strategy).1.canvas.value;
    var sel := GetActiveSelection(c);
    var e := DistributeSelection(sel.objects, axis, strategy);
    assert GetActiveSelection(d).objects == e.objects;
    forall k | 0 <= k < |sel.positions|
      ensures d.objects[sel.positions[k]] == e.objects[k]
    {
      assert d.objects[sel.positions[k]] == GetActiveSelection(d).objects[k];
    }
  }
}
