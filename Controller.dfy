/**
 * The card-cycling controller: the selected (front) index, the per-slot
 * measured extent, and the advance routine a tap on the front card runs.
 * The animations of the advance routine are recorded as an ordered trace of
 * the targets they are started towards, not as time.
 */
module Controller {
  import opened Orientations
  import opened Geometry
  import opened StackConfigs
  import CardStackChecks
  import StackCardViewChecks

  /** An animation started on the dismissed card, by its target value. */
  datatype Anim = Offset(targetPx: int) | Rotate(degrees: int)

  /**
   * One observable step of a tap: the user callback, a sequential animation
   * that completes before the next step, the update of the selected index,
   * or a set of animations launched together that run concurrently.
   */
  datatype Event =
    | Callback(slot: int)
    | Animate(anim: Anim)
    | SetIndex(newIndex: int)
    | Launch(anims: set<Anim>)

  /** The padding and z-order of one slot as rendered. */
  datatype CardVisual = CardVisual(padding: int, zIndex: int)

  /**
   * A tap on slot `index` is acted on only on the front slot of a stack of
   * two or more. An accepted tap on a slot in range is on the slot at depth
   * 0, and the index it advances to is another slot in range.
   */
  predicate TapAccepted(selectedIndex: int, index: int, cardCount: int): (ok: bool)
    ensures ok ==> cardCount >= 2
    ensures ok && IsSlot(index, cardCount) ==>
              Depth(selectedIndex, index, cardCount) == 0 &&
              IsSlot(NextIndex(index, cardCount), cardCount) && NextIndex(index, cardCount) != index
    ensures (cardCount >= 2 && IsSlot(selectedIndex, cardCount) && IsSlot(index, cardCount) &&
             Depth(selectedIndex, index, cardCount) == 0) ==> ok
  {
    cardCount > 1 && selectedIndex == index
  }

  /**
   * The events of an accepted tap on slot `index`: the callback when one is
   * registered; then, with animations on, offset out to the measured extent,
   * index update, rotation out, and the rotation back and offset reset
   * launched together; with animations off only the index update.
   */
  function TapTrace(index: int, pxValue: int, runAnimations: bool, rotation: int,
                    newIndex: int, hasCallback: bool): (t: seq<Event>)
    ensures |t| == (if hasCallback then 1 else 0) + (if runAnimations then 4 else 1)
    ensures SetIndex(newIndex) in t
    ensures t[|t| - 1] == (if runAnimations then Launch({Rotate(0), Offset(0)}) else SetIndex(newIndex))
  {
    (if hasCallback then [Callback(index)] else []) +
    (if runAnimations then [Animate(Offset(pxValue))] else []) +
    [SetIndex(newIndex)] +
    (if runAnimations then [Animate(Rotate(rotation)), Launch({Rotate(0), Offset(0)})] else [])
  }

  /**
   * The order of an accepted tap's events. The index is updated exactly
   * once. The callback, when registered, comes first and only once. With
   * animations on, the offset-out animation to the measured extent
   * completes before the index update, the rotation out starts after it,
   * and the trace ends with the rotation back and the offset reset launched
   * together; with animations off there is no animation at all.
   */
  lemma {:induction false} TapTraceOrder(index: int, pxValue: int, runAnimations: bool, rotation: int,
                                         newIndex: int, hasCallback: bool)
    ensures var t := TapTrace(index, pxValue, runAnimations, rotation, newIndex, hasCallback);
      var j := if hasCallback then (if runAnimations then 2 else 1) else (if runAnimations then 1 else 0);
      && 0 <= j < |t| && t[j] == SetIndex(newIndex)
      && (forall k :: 0 <= k < |t| && k != j ==> !t[k].SetIndex?)
      && (hasCallback <==> t[0] == Callback(index))
      && (forall k :: 0 < k < |t| ==> !t[k].Callback?)
      && (runAnimations ==> t[j - 1] == Animate(Offset(pxValue)))
      && (runAnimations ==> forall k :: 0 <= k < j ==> !(t[k].Animate? && t[k].anim.Rotate?))
      && (runAnimations ==> t[j + 1] == Animate(Rotate(rotation)))
      && (runAnimations ==> t[|t| - 1] == Launch({Rotate(0), Offset(0)}))
      && (!runAnimations ==> forall k :: 0 <= k < |t| ==> t[k].Callback? || t[k].SetIndex?)
  {
    var t := TapTrace(index, pxValue, runAnimations, rotation, newIndex, hasCallback);
    if hasCallback && runAnimations {
      assert t == [Callback(index), Animate(Offset(pxValue)), SetIndex(newIndex),
                   Animate(Rotate(rotation)), Launch({Rotate(0), Offset(0)})];
    } else if hasCallback {
      assert t == [Callback(index), SetIndex(newIndex)];
    } else if runAnimations {
      assert t == [Animate(Offset(pxValue)), SetIndex(newIndex),
                   Animate(Rotate(rotation)), Launch({Rotate(0), Offset(0)})];
    } else {
      assert t == [SetIndex(newIndex)];
    }
  }

  /**
   * A stack of one card is inert, and a stack of two or more always
   * accepts a tap on its front slot and moves the front to another slot.
   */
  lemma TapAcceptance(selectedIndex: int, index: int, cardCount: int)
    requires IsSlot(selectedIndex, cardCount) && IsSlot(index, cardCount)
    ensures cardCount == 1 ==> !TapAccepted(selectedIndex, index, cardCount)
    ensures cardCount >= 2 && index == selectedIndex ==>
              TapAccepted(selectedIndex, index, cardCount) && NextIndex(index, cardCount) != selectedIndex
  {
  }

  /**
   * A stack accepted by the newer count entry point is never inert, and
   * every tap it accepts runs the full animated sequence.
   */
  lemma ValidatedStackIsLive(cardCount: int, paddingUnit: int, animationDuration: int, selectedIndex: int)
    requires CardStackChecks.ValidateCount(cardCount, paddingUnit, animationDuration).Ok?
    requires IsSlot(selectedIndex, cardCount)
    ensures TapAccepted(selectedIndex, selectedIndex, cardCount)
    ensures CardStackChecks.ValidateCount(cardCount, paddingUnit, animationDuration).value.runAnimations
  {
  }

  /**
   * The older count entry point accepts a single card, and that stack can
   * never change state or fire its callback.
   */
  lemma OlderSingleCardStackIsInert(paddingUnit: int, animationDuration: int, index: int, selectedIndex: int)
    requires paddingUnit != 0
    ensures StackCardViewChecks.ValidateCount(1, paddingUnit, animationDuration).Ok?
    ensures !TapAccepted(selectedIndex, index, 1)
  {
  }

  /**
   * The list entry point re-reads the card count on every composition while
   * the selected index survives. When the list shrinks to `cardCount` cards
   * with the index at `cardCount` or beyond, slot `selectedIndex - cardCount`
   * is drawn at depth 0 like a front card, the slots before it get a
   * negative depth, and no tap on any slot is accepted again: the stack is
   * frozen.
   */
  lemma ShrunkListFreezesStack(selectedIndex: int, cardCount: int)
    requires 1 <= cardCount <= selectedIndex < 2 * cardCount
    ensures IsSlot(selectedIndex - cardCount, cardCount)
    ensures Depth(selectedIndex, selectedIndex - cardCount, cardCount) == 0
    ensures forall i :: IsSlot(i, cardCount) && i < selectedIndex - cardCount ==> Depth(selectedIndex, i, cardCount) < 0
    ensures forall i :: IsSlot(i, cardCount) ==> !TapAccepted(selectedIndex, i, cardCount)
  {
  }

  /**
   * One stack instance: its configuration (fixed once it is mounted), the
   * selected index (kept across renders, starting at 0), the measured
   * extent of every slot, and the trace of events taps have produced.
   */
  class CardStackController {
    const cardCount: nat
    const paddingUnit: int
    const runAnimations: bool
    const orientation: Orientation
    const hasCallback: bool
    const measured: array<int>
    var selectedIndex: int
    var trace: seq<Event>

    /** The size reports each slot has received since it was last composed. */
    ghost var reports: seq<seq<Size>>

    ghost predicate Valid()
      reads this, measured
    {
      && measured.Length == cardCount
      && |reports| == cardCount
      && (if cardCount == 0 then selectedIndex == 0 else IsSlot(selectedIndex, cardCount))
      && forall i :: 0 <= i < cardCount ==> measured[i] == RunningMax(orientation.Vertical?, reports[i])
    }

    /** Mounts a stack from a validated configuration. */
    constructor (config: StackConfig, orientation: Orientation, hasCallback: bool)
      requires config.cardCount >= 0
      ensures Valid() && fresh(measured)
      ensures cardCount == config.cardCount && paddingUnit == config.paddingUnit
      ensures runAnimations == config.runAnimations
      ensures this.orientation == orientation && this.hasCallback == hasCallback
      ensures selectedIndex == 0 && trace == []
      ensures forall i :: 0 <= i < cardCount ==> measured[i] == 0 && reports[i] == []
    {
      cardCount := config.cardCount;
      paddingUnit := config.paddingUnit;
      runAnimations := config.runAnimations;
      this.orientation := orientation;
      this.hasCallback := hasCallback;
      measured := new int[config.cardCount](_ => 0);
      selectedIndex := 0;
      trace := [];
      reports := seq(config.cardCount, _ => []);
    }

    /**
     * A size report for slot `slot`: its measured extent becomes the larger
     * of the kept extent and the reported width (vertical) or height
     * (horizontal). Nothing else changes.
     */
    method Measure(slot: int, width: nat, height: nat)
      requires Valid() && IsSlot(slot, cardCount)
      modifies measured, this`reports
      ensures Valid()
      ensures measured[slot] == MeasuredExtent(orientation.Vertical?, old(measured[slot]), width, height)
      ensures forall i :: 0 <= i < cardCount && i != slot ==> measured[i] == old(measured[i])
      ensures reports == old(reports)[slot := old(reports[slot]) + [Size(width, height)]]
      ensures selectedIndex == old(selectedIndex) && trace == old(trace)
    {
      var vertical := orientation.Vertical?;
      ghost var seen := reports[slot] + [Size(width, height)];
      assert seen[..|seen| - 1] == reports[slot];
      measured[slot] := MeasuredExtent(vertical, measured[slot], width, height);
      reports := reports[slot := seen];
    }

    /**
     * Composing the slots again starts every slot's measured extent afresh
     * at 0. Nothing else changes.
     */
    method Recompose()
      requires Valid()
      modifies measured, this`reports
      ensures Valid()
      ensures forall i :: 0 <= i < cardCount ==> measured[i] == 0 && reports[i] == []
      ensures selectedIndex == old(selectedIndex) && trace == old(trace)
    {
      for i := 0 to cardCount
        invariant forall k :: 0 <= k < i ==> measured[k] == 0
      {
        measured[i] := 0;
      }
      reports := seq(cardCount, _ => []);
    }

    /**
     * The padding and z-order of every slot for the current front slot.
     * With a non-zero unit only the front slot has padding 0; with a
     * positive unit it is also drawn above every other slot.
     */
    method Layout() returns (cards: seq<CardVisual>)
      requires Valid()
      ensures |cards| == cardCount
      ensures forall i :: 0 <= i < cardCount ==>
                cards[i] == CardVisual(Padding(selectedIndex, i, cardCount, paddingUnit),
                                       ZIndex(selectedIndex, i, cardCount, paddingUnit))
      ensures paddingUnit != 0 ==> forall i :: 0 <= i < cardCount ==> (cards[i].padding == 0 <==> i == selectedIndex)
      ensures paddingUnit > 0 ==> forall i :: 0 <= i < cardCount && i != selectedIndex ==>
                cards[i].zIndex < cards[selectedIndex].zIndex
    {
      cards := [];
      for i := 0 to cardCount
        invariant |cards| == i
        invariant forall k :: 0 <= k < i ==>
                    cards[k] == CardVisual(Padding(selectedIndex, k, cardCount, paddingUnit),
                                           ZIndex(selectedIndex, k, cardCount, paddingUnit))
      {
        var padding := Depth(selectedIndex, i, cardCount) * paddingUnit;
        cards := cards + [CardVisual(padding, -padding)];
      }
      if cardCount > 0 {
        FrontSlotIsTopmost(selectedIndex, cardCount, paddingUnit);
      }
    }

    /**
     * A tap on slot `index`. Unless the stack has two or more cards and the
     * slot is the front one, nothing changes. Otherwise the callback fires
     * with `index` and the advance routine runs: the front moves to the next
     * slot and the trace grows by the events of `TapTrace`, in that order.
     */
    method Tap(index: int)
      requires Valid() && IsSlot(index, cardCount)
      modifies this`selectedIndex, this`trace
      ensures Valid()
      ensures old(TapAccepted(selectedIndex, index, cardCount)) ==>
                selectedIndex == NextIndex(index, cardCount) &&
                trace == old(trace) + TapTrace(index, measured[index], runAnimations, Rotation(orientation),
                                               NextIndex(index, cardCount), hasCallback)
      ensures !old(TapAccepted(selectedIndex, index, cardCount)) ==>
                selectedIndex == old(selectedIndex) && trace == old(trace)
    {
      if cardCount > 1 && selectedIndex == index {
        if hasCallback {
          trace := trace + [Callback(index)];
        }
        AnimateOnClick(measured[index], index);
      }
    }

    /**
     * The advance routine: slide the card out by `pxValue`, then move the
     * front to the next slot, then rotate the card out and launch its
     * rotation back and offset reset together. With animations off only the
     * front moves.
     */
    method AnimateOnClick(pxValue: int, index: int)
      requires Valid() && IsSlot(index, cardCount)
      modifies this`selectedIndex, this`trace
      ensures Valid()
      ensures selectedIndex == NextIndex(index, cardCount)
      ensures trace == old(trace) + TapTrace(index, pxValue, runAnimations, Rotation(orientation),
                                             NextIndex(index, cardCount), false)
    {
      if runAnimations {
        trace := trace + [Animate(Offset(pxValue))];
      }
      var newIndex := if cardCount > index + 1 then index + 1 else 0;
      selectedIndex := newIndex;
      trace := trace + [SetIndex(newIndex)];
      if runAnimations {
        trace := trace + [Animate(Rotate(Rotation(orientation)))];
        trace := trace + [Launch({Rotate(0), Offset(0)})];
      }
    }
  }

  /**
   * Three cards, newer policy, vertical defaults: a tap on the front card
   * slides it out by its widest measured width, makes slot 1 the front,
   * rotates it out and launches its return; a second tap on slot 0 is then
   * ignored, and after three accepted taps slot 0 is in front again.
   */
  method ThreeCardScenario()
  {
    var config := CardStackChecks.ValidateCount(3, 8, 300);
    var stack := new CardStackController(config.value, Vertical(), true);
    stack.Measure(0, 320, 200);
    stack.Measure(0, 300, 240);
    assert stack.measured[0] == 320;
    stack.Tap(0);
    assert stack.selectedIndex == 1;
    assert stack.trace == [Callback(0), Animate(Offset(320)), SetIndex(1),
                           Animate(Rotate(45)), Launch({Rotate(0), Offset(0)})];
    var before := stack.trace;
    stack.Tap(0);
    assert stack.selectedIndex == 1 && stack.trace == before;
    var cards := stack.Layout();
    assert cards[1] == CardVisual(0, 0) && cards[2] == CardVisual(8, -8) && cards[0] == CardVisual(16, -16);
    stack.Tap(1);
    stack.Tap(2);
    assert stack.selectedIndex == 0;
  }

  /**
   * Older policy, no animations: a tap yields the callback and the index
   * update only, and a single-card stack ignores every tap.
   */
  method OlderVariantScenario()
  {
    var config := StackCardViewChecks.ValidateCount(2, 8, 0);
    var stack := new CardStackController(config.value, Horizontal(), true);
    stack.Tap(0);
    assert stack.trace == [Callback(0), SetIndex(1)];
    var single := StackCardViewChecks.ValidateCount(1, 8, 300);
    var inert := new CardStackController(single.value, Vertical(), true);
    inert.Tap(0);
    assert inert.selectedIndex == 0 && inert.trace == [];
  }
}
