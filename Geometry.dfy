/**
 * The geometry of the stack, recomputed from the selected index on every
 * render: how deep each slot sits behind the front card, the padding and
 * z-order that follow from that depth, the index the front moves to when
 * it is dismissed, and the measured extent that the dismissal slides by.
 */
module Geometry {

  /**
   * The depth multiplier of slot `index` when slot `selectedIndex` is in
   * front: 0 for the front slot, the forward distance for a slot after it,
   * and the distance wrapping past the last slot for a slot before it. The
   * three comparisons are exhaustive, so the `else` branch of the widget's
   * `when`, which throws `IllegalStateException`, is unreachable.
   */
  function Depth(selectedIndex: int, index: int, cardCount: int): (d: int)
    ensures d == 0 <==> (index == selectedIndex ||
                         (selectedIndex > index && cardCount == selectedIndex - index))
    ensures 0 <= selectedIndex < cardCount && 0 <= index < cardCount ==> 0 <= d < cardCount
  {
    if selectedIndex == index then 0
    else if selectedIndex < index then index - selectedIndex
    else if selectedIndex > index then cardCount - selectedIndex + index
    else assert false; 0
  }

  /**
   * For slots in range the depth is the cyclic distance from the front
   * slot, `(index - selectedIndex) mod cardCount`.
   */
  lemma DepthIsCyclicDistance(selectedIndex: int, index: int, cardCount: int)
    requires IsSlot(selectedIndex, cardCount) && IsSlot(index, cardCount)
    ensures Depth(selectedIndex, index, cardCount) == (index - selectedIndex) % cardCount
  {
    CyclicMod(index - selectedIndex, cardCount);
  }

  /** Euclidean remainder of a value at most one modulus away from zero. */
  lemma CyclicMod(x: int, n: int)
    requires 0 < n && -n <= x <= n
    ensures x % n == (if x < 0 then x + n else if x < n then x else 0)
  {
    var q := x / n;
    assert x == q * n + x % n;
    QuotientBounds(q, n);
  }

  lemma QuotientBounds(q: int, n: int)
    requires n > 0
    ensures q >= 2 ==> q * n >= 2 * n
    ensures q <= -2 ==> q * n <= -2 * n
  {
    assert q * n == (q - 2) * n + 2 * n;
    assert q * n == (q + 2) * n - 2 * n;
  }

  /**
   * The padding of a slot: its depth in units of the padding between cards.
   * With a non-zero unit only the front slot is unpadded; with a positive
   * unit every slot stays short of `cardCount` units.
   */
  function Padding(selectedIndex: int, index: int, cardCount: int, unit: int): (p: int)
    ensures IsSlot(selectedIndex, cardCount) && IsSlot(index, cardCount) && unit != 0 ==>
              (p == 0 <==> index == selectedIndex)
    ensures IsSlot(selectedIndex, cardCount) && IsSlot(index, cardCount) && unit > 0 ==>
              0 <= p < cardCount * unit
  {
    var d := Depth(selectedIndex, index, cardCount);
    ScaledDepth(d, cardCount, unit);
    d * unit
  }

  /**
   * The z-order of a slot: minus its padding, so less padding is drawn
   * above. With a positive unit the front slot is at 0 and every other slot
   * strictly below it, by less than `cardCount` units.
   */
  function ZIndex(selectedIndex: int, index: int, cardCount: int, unit: int): (z: int)
    ensures IsSlot(selectedIndex, cardCount) && IsSlot(index, cardCount) && unit > 0 ==>
              -cardCount * unit < z <= 0 && (z == 0 <==> index == selectedIndex)
  {
    -Padding(selectedIndex, index, cardCount, unit)
  }

  /** A depth scaled by a unit is zero only for depth zero, and stays in range. */
  lemma ScaledDepth(d: int, n: int, unit: int)
    ensures unit != 0 ==> (d * unit == 0 <==> d == 0)
    ensures unit > 0 && 0 <= d < n ==> 0 <= d * unit < n * unit
  {
    if unit > 0 && 0 <= d < n {
      ScaleIsMonotone(d, n, unit);
    }
  }

  /** A valid slot of a stack of `cardCount` cards. */
  predicate IsSlot(index: int, cardCount: int)
  {
    0 <= index < cardCount
  }

  /** The slot that sits at depth `d` behind front slot `selectedIndex`. */
  function SlotAtDepth(selectedIndex: int, d: int, cardCount: int): int
  {
    if selectedIndex + d < cardCount then selectedIndex + d else selectedIndex + d - cardCount
  }

  /**
   * Depth and SlotAtDepth are inverse to each other over the slots: every
   * depth in `[0, cardCount)` is taken by exactly one slot.
   */
  lemma DepthIsBijection(selectedIndex: int, cardCount: int)
    requires IsSlot(selectedIndex, cardCount)
    ensures forall d :: 0 <= d < cardCount ==>
              IsSlot(SlotAtDepth(selectedIndex, d, cardCount), cardCount) &&
              Depth(selectedIndex, SlotAtDepth(selectedIndex, d, cardCount), cardCount) == d
    ensures forall i :: IsSlot(i, cardCount) ==>
              SlotAtDepth(selectedIndex, Depth(selectedIndex, i, cardCount), cardCount) == i
    ensures forall i, j ::
              (IsSlot(i, cardCount) && IsSlot(j, cardCount) &&
               Depth(selectedIndex, i, cardCount) == Depth(selectedIndex, j, cardCount)) ==> i == j
  {
  }

  /** The depths of slots `0 .. cardCount-1`, in slot order. */
  function Depths(selectedIndex: int, cardCount: nat): (ds: seq<int>)
    ensures |ds| == cardCount
  {
    seq(cardCount, i => Depth(selectedIndex, i, cardCount))
  }

  /** The sequence `0 .. n-1`. */
  function Range(n: nat): (r: seq<int>)
    ensures |r| == n
  {
    seq(n, i => i)
  }

  /**
   * Laid out slot by slot, the depths are the sequence `0 .. cardCount-1`
   * rotated left by `cardCount - selectedIndex`: the slots before the front
   * one are the deepest.
   */
  lemma {:induction false} DepthsRotateRange(selectedIndex: int, cardCount: nat)
    requires IsSlot(selectedIndex, cardCount)
    ensures Depths(selectedIndex, cardCount) ==
            Range(cardCount)[cardCount - selectedIndex..] + Range(cardCount)[..cardCount - selectedIndex]
  {
    var r := Range(cardCount);
    var k := cardCount - selectedIndex;
    var rotated := r[k..] + r[..k];
    assert |rotated| == cardCount;
    forall i | 0 <= i < cardCount
      ensures Depths(selectedIndex, cardCount)[i] == rotated[i]
    {
      if i < selectedIndex {
        assert rotated[i] == r[k + i];
      } else {
        assert rotated[i] == r[i - selectedIndex];
      }
    }
  }

  /** The depths of all slots are a permutation of `0 .. cardCount-1`. */
  lemma {:induction false} DepthsPermuteSlots(selectedIndex: int, cardCount: nat)
    requires IsSlot(selectedIndex, cardCount)
    ensures multiset(Depths(selectedIndex, cardCount)) == multiset(Range(cardCount))
  {
    DepthsRotateRange(selectedIndex, cardCount);
    var r := Range(cardCount);
    var k := cardCount - selectedIndex;
    assert r == r[..k] + r[k..];
    calc {
      multiset(Depths(selectedIndex, cardCount));
      multiset(r[k..] + r[..k]);
      multiset(r[k..]) + multiset(r[..k]);
      multiset(r[..k] + r[k..]);
      multiset(r);
    }
  }

  /**
   * With a non-zero padding unit exactly the front slot has padding 0; with
   * a positive unit it also has the strictly largest z-order, and the
   * z-order falls as the depth grows.
   */
  lemma FrontSlotIsTopmost(selectedIndex: int, cardCount: int, unit: int)
    requires IsSlot(selectedIndex, cardCount)
    ensures unit != 0 ==> forall i :: IsSlot(i, cardCount) ==>
              (Padding(selectedIndex, i, cardCount, unit) == 0 <==> i == selectedIndex)
    ensures unit > 0 ==> forall i :: IsSlot(i, cardCount) && i != selectedIndex ==>
              ZIndex(selectedIndex, i, cardCount, unit) < ZIndex(selectedIndex, selectedIndex, cardCount, unit)
    ensures unit > 0 ==> forall i, j :: IsSlot(i, cardCount) && IsSlot(j, cardCount) ==>
              (Depth(selectedIndex, i, cardCount) < Depth(selectedIndex, j, cardCount) <==>
               ZIndex(selectedIndex, j, cardCount, unit) < ZIndex(selectedIndex, i, cardCount, unit))
  {
    if unit != 0 {
      forall i | IsSlot(i, cardCount)
        ensures Padding(selectedIndex, i, cardCount, unit) == 0 <==> i == selectedIndex
      {
        ZeroProduct(Depth(selectedIndex, i, cardCount), unit);
      }
    }
    if unit > 0 {
      forall i, j | IsSlot(i, cardCount) && IsSlot(j, cardCount)
        ensures Depth(selectedIndex, i, cardCount) < Depth(selectedIndex, j, cardCount) <==>
                ZIndex(selectedIndex, j, cardCount, unit) < ZIndex(selectedIndex, i, cardCount, unit)
      {
        ScaleIsMonotone(Depth(selectedIndex, i, cardCount), Depth(selectedIndex, j, cardCount), unit);
      }
      forall i | IsSlot(i, cardCount) && i != selectedIndex
        ensures ZIndex(selectedIndex, i, cardCount, unit) < ZIndex(selectedIndex, selectedIndex, cardCount, unit)
      {
        ScaleIsMonotone(0, Depth(selectedIndex, i, cardCount), unit);
      }
    }
  }

  lemma ZeroProduct(a: int, b: int)
    requires b != 0
    ensures a * b == 0 <==> a == 0
  {
  }

  lemma ScaleIsMonotone(a: int, b: int, unit: int)
    requires unit > 0
    ensures a < b <==> a * unit < b * unit
  {
    if a < b {
      assert b * unit - a * unit == (b - a) * unit;
    } else {
      assert a * unit - b * unit == (a - b) * unit;
    }
  }

  /**
   * The index the front moves to when the front card is dismissed: the
   * next slot, wrapping to 0 after the last one.
   */
  function NextIndex(index: int, cardCount: int): (k: int)
    ensures IsSlot(index, cardCount) ==> IsSlot(k, cardCount)
    ensures k == 0 || k == index + 1
  {
    if cardCount > index + 1 then index + 1 else 0
  }

  /** On a valid slot the next index is the successor modulo the card count. */
  lemma NextIndexIsSuccessor(index: int, cardCount: int)
    requires IsSlot(index, cardCount)
    ensures NextIndex(index, cardCount) == (index + 1) % cardCount
  {
    CyclicMod(index + 1, cardCount);
  }

  /**
   * Advancing moves the dismissed card to the back of the stack and every
   * other card one place forward.
   */
  lemma AdvanceSendsFrontToBack(selectedIndex: int, cardCount: int)
    requires IsSlot(selectedIndex, cardCount)
    ensures Depth(NextIndex(selectedIndex, cardCount), selectedIndex, cardCount) == cardCount - 1
    ensures forall i :: IsSlot(i, cardCount) && i != selectedIndex ==>
              Depth(NextIndex(selectedIndex, cardCount), i, cardCount) == Depth(selectedIndex, i, cardCount) - 1
  {
  }

  /** The front index after `k` dismissals starting from `selectedIndex`. */
  function AdvanceTimes(selectedIndex: int, k: nat, cardCount: int): int
  {
    if k == 0 then selectedIndex else NextIndex(AdvanceTimes(selectedIndex, k - 1, cardCount), cardCount)
  }

  /**
   * Within one round the front index moves forward by one per dismissal,
   * wrapping once past the last slot.
   */
  lemma {:induction false} AdvanceTimesShifts(selectedIndex: int, k: nat, cardCount: int)
    requires IsSlot(selectedIndex, cardCount) && k <= cardCount
    ensures AdvanceTimes(selectedIndex, k, cardCount) ==
            if selectedIndex + k < cardCount then selectedIndex + k else selectedIndex + k - cardCount
  {
    if k > 0 {
      AdvanceTimesShifts(selectedIndex, k - 1, cardCount);
    }
  }

  /** `cardCount` dismissals bring the front index back to where it started. */
  lemma AdvanceFullRound(selectedIndex: int, cardCount: int)
    requires IsSlot(selectedIndex, cardCount)
    ensures AdvanceTimes(selectedIndex, cardCount, cardCount) == selectedIndex
    ensures forall k :: 0 < k < cardCount ==> AdvanceTimes(selectedIndex, k, cardCount) != selectedIndex
  {
    AdvanceTimesShifts(selectedIndex, cardCount, cardCount);
    forall k | 0 < k < cardCount
      ensures AdvanceTimes(selectedIndex, k, cardCount) != selectedIndex
    {
      AdvanceTimesShifts(selectedIndex, k, cardCount);
    }
  }

  /**
   * The measured extent after one size report: the larger of the extent
   * kept so far and the reported width (vertical stacks) or height
   * (horizontal stacks); ties keep the reported value.
   */
  function MeasuredExtent(vertical: bool, current: int, width: int, height: int): (r: int)
    ensures var seen := if vertical then width else height;
            r >= current && r >= seen && (r == current || r == seen)
  {
    if vertical then
      (if current > width then current else width)
    else
      (if current > height then current else height)
  }

  /** A size report from the layout: a width and a height in pixels. */
  datatype Size = Size(width: nat, height: nat)

  /** The extent kept after the reports `sizes`, starting from 0. */
  function RunningMax(vertical: bool, sizes: seq<Size>): int
  {
    if sizes == [] then 0
    else
      var last := sizes[|sizes| - 1];
      MeasuredExtent(vertical, RunningMax(vertical, sizes[..|sizes| - 1]), last.width, last.height)
  }

  /** The extent a report contributes: its width or its height. */
  function Extent(vertical: bool, s: Size): nat
  {
    if vertical then s.width else s.height
  }

  /**
   * The kept extent is the largest extent reported so far (0 before any
   * report): no smaller than any report, and equal to one of them.
   */
  lemma {:induction false} RunningMaxIsMaximum(vertical: bool, sizes: seq<Size>)
    ensures RunningMax(vertical, sizes) >= 0
    ensures forall i :: 0 <= i < |sizes| ==> RunningMax(vertical, sizes) >= Extent(vertical, sizes[i])
    ensures sizes != [] ==> exists i :: 0 <= i < |sizes| && RunningMax(vertical, sizes) == Extent(vertical, sizes[i])
  {
    if sizes != [] {
      var front := sizes[..|sizes| - 1];
      RunningMaxIsMaximum(vertical, front);
      var m := RunningMax(vertical, sizes);
      assert forall i :: 0 <= i < |front| ==> front[i] == sizes[i];
      if m == Extent(vertical, sizes[|sizes| - 1]) {
      } else {
        assert m == RunningMax(vertical, front);
        assert front != [];
        var i :| 0 <= i < |front| && RunningMax(vertical, front) == Extent(vertical, front[i]);
        assert m == Extent(vertical, sizes[i]);
      }
    }
  }

  /** A further report never lowers the kept extent. */
  lemma {:induction false} RunningMaxGrows(vertical: bool, sizes: seq<Size>, more: seq<Size>)
    ensures RunningMax(vertical, sizes) <= RunningMax(vertical, sizes + more)
    decreases |more|
  {
    if more != [] {
      var all := sizes + more;
      assert all[..|all| - 1] == sizes + more[..|more| - 1];
      RunningMaxGrows(vertical, sizes, more[..|more| - 1]);
    } else {
      assert sizes + more == sizes;
    }
  }
}
