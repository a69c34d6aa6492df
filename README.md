# CardStack card-cycling controller, in Dafny

This project models the logic core of the CardStack widget, a Jetpack Compose
component. The widget draws a deck of overlapping cards. A tap on the front
card slides it out, makes the next card the front one and sends the tapped
card to the back. The model strips away the rendering and the animation
driver. What remains is integer-valued:

- **Orientations** (`Orientation.dfy`): the sealed `Orientation` type, its
  alignment and animation-style enums, and their defaults. It also holds the
  three mappings that resolve an orientation: the content alignment corner,
  the ±45° rotation of the dismissed card, and the direction of its offset.
- **Geometry** (`Geometry.dfy`): the depth multiplier of each slot behind the
  front slot, the padding and z-order derived from it, the next front index
  (wrapping to 0), and the measured extent. The measured extent is a running
  maximum of the reported widths (vertical) or heights (horizontal).
- **Validation** (`Validation.dfy`): the two configuration policies. The
  newer `CardStack.kt` requires at least two cards in the count entry point,
  a positive padding and a duration of at least 1. The older
  `StackCardView.kt` requires at least one card in the count entry point
  (its list entry point checks no count) and a padding other than 0, and
  does not check the duration.
- **Controller** (`Controller.dfy`): the `CardStackController` class. It
  holds the selected index (starting at 0), a `measured` array with one
  extent per slot, and a trace of events.
  - `Tap` accepts a tap only on the front slot of a stack of two or more
    cards.
  - An accepted tap records the callback. It then records the advance
    routine's steps in order: offset out, index update, rotation out, and the
    rotation back and offset reset launched together.
  - With animations off, only the index update is recorded.
  - `Measure` keeps the running maximum. `Layout` computes every slot's
    padding and z-order.

Both Kotlin files declare the same component. The model shares one geometry
and one state machine between them. Only the validation policy differs, and
with it whether animations can be off.

Three behaviours of the code worth knowing:

- The older variant's padding check rejects only a padding of exactly zero,
  not every padding ≤ 0. A negative unit therefore passes (see Findings).
- The front card has the largest z-order only when the padding unit is
  positive. With a negative unit the order is reversed.
- The newer variant's list entry point performs no count check. It accepts
  stacks of zero or one card, even though its count entry point rejects them.

Units: `Dp` padding, pixel sizes and degrees are modelled as integers.
`RotationDegrees` is 45.

## Model

| member | source | states |
|---|---|---|
| `Orientations.Alignment` | cardstack/src/main/java/com/omercemcicekli/cardstack/CardStack.kt:144-160 | A vertical stack is anchored TopCenter or BottomCenter, and a horizontal one CenterStart or CenterEnd. TopCenter iff TopToBottom; CenterStart iff StartToEnd. |
| `Orientations.AlignmentDeterminesLayout` | cardstack/src/main/java/com/omercemcicekli/cardstack/CardStack.kt:144-160 | The anchor determines the variant and its alignment: equal anchors imply the same variant with equal alignment. |
| `Orientations.Rotation` | cardstack/src/main/java/com/omercemcicekli/cardstack/CardStack.kt:162-173 | The rotation is always +45 or −45. It is positive exactly for Vertical+ToRight and Horizontal+FromBottom. |
| `Orientations.OffsetVector` | cardstack/src/main/java/com/omercemcicekli/cardstack/CardStack.kt:207-224 | A vertical stack moves only along x and a horizontal one only along y. Its one moving component is +v when the rotation is positive (ToRight, FromBottom) and −v when it is negative (ToLeft, FromTop). |
| `Orientations.RotationFollowsOffset` | cardstack/src/main/java/com/omercemcicekli/cardstack/StackCardView.kt:195-212 | For a positive offset value, the moving component is positive exactly when the rotation is. The card is displaced exactly when the value is non-zero. |
| `Orientations.DefaultOrientations` | cardstack/src/main/java/com/omercemcicekli/cardstack/Orientation.kt:4-10 | `Vertical()` is (TopToBottom, ToRight) and resolves to TopCenter and +45. `Horizontal()` is (StartToEnd, FromTop) and resolves to CenterStart and −45. |
| `Orientations.OrientationIsSealedRecord` | cardstack/src/main/java/com/omercemcicekli/cardstack/Orientation.kt:3-11 | Every orientation is exactly one variant. Two orientations are equal iff they are the same variant with equal alignment and style. |
| `Geometry.Depth` | cardstack/src/main/java/com/omercemcicekli/cardstack/CardStack.kt:196-201 | The multiplier is 0 iff the slot is the selected one, or it wraps exactly onto it. For in-range slots it lies in [0, cardCount). The failure branch of the `when` is proved unreachable. |
| `Geometry.DepthIsCyclicDistance` | cardstack/src/main/java/com/omercemcicekli/cardstack/StackCardView.kt:184-189 | For in-range slots the multiplier equals `(index - selectedIndex) mod cardCount`. |
| `Geometry.Padding` | cardstack/src/main/java/com/omercemcicekli/cardstack/CardStack.kt:196-201 | With a non-zero unit, a slot in range has padding 0 iff it is the front slot. With a positive unit every slot's padding is in [0, cardCount × unit). |
| `Geometry.ZIndex` | cardstack/src/main/java/com/omercemcicekli/cardstack/CardStack.kt:233-235 | With a positive unit, the front slot's z-order is 0, every other slot's is strictly below 0, and none falls to −cardCount × unit. |
| `Geometry.DepthIsBijection` | cardstack/src/main/java/com/omercemcicekli/cardstack/CardStack.kt:196-201 | Depth and SlotAtDepth are mutually inverse over the slots, so every depth in [0, cardCount) belongs to exactly one slot. |
| `Geometry.DepthsRotateRange` | cardstack/src/main/java/com/omercemcicekli/cardstack/CardStack.kt:196-201 | Listed slot by slot, the depths are `0..cardCount-1` rotated by `cardCount - selectedIndex`. |
| `Geometry.DepthsPermuteSlots` | cardstack/src/main/java/com/omercemcicekli/cardstack/CardStack.kt:196-201 | The multiset of all slots' depths is exactly {0, …, cardCount−1}. |
| `Geometry.FrontSlotIsTopmost` | cardstack/src/main/java/com/omercemcicekli/cardstack/CardStack.kt:196-235 | With a non-zero unit, only the front slot has padding 0. With a positive unit, the front slot has the strictly largest z-order (−padding), and the z-order falls exactly as depth grows. |
| `Geometry.NextIndex` | cardstack/src/main/java/com/omercemcicekli/cardstack/CardStack.kt:285-290 | From a valid slot the next index is a valid slot. It is either `index + 1` or 0. |
| `Geometry.NextIndexIsSuccessor` | cardstack/src/main/java/com/omercemcicekli/cardstack/StackCardView.kt:272-277 | On a valid slot, the next index is `(index + 1) mod cardCount`. |
| `Geometry.AdvanceSendsFrontToBack` | cardstack/src/main/java/com/omercemcicekli/cardstack/CardStack.kt:285-290 | After an advance, the old front slot has depth cardCount−1 (the back). Every other slot moves one place forward. |
| `Geometry.AdvanceTimesShifts` | cardstack/src/main/java/com/omercemcicekli/cardstack/CardStack.kt:285-290 | k ≤ cardCount advances move the front index forward by k, wrapping once. |
| `Geometry.AdvanceFullRound` | cardstack/src/main/java/com/omercemcicekli/cardstack/StackCardView.kt:272-277 | cardCount advances return the front index to its start. No shorter positive number of advances does. |
| `Geometry.MeasuredExtent` | cardstack/src/main/java/com/omercemcicekli/cardstack/CardStack.kt:238-250 | After one size report, the kept extent is ≥ the previous extent and ≥ the reported width (vertical) or height (horizontal). It equals one of the two. |
| `Geometry.RunningMaxIsMaximum` | cardstack/src/main/java/com/omercemcicekli/cardstack/CardStack.kt:194-250 | After any sequence of reports, the kept extent is ≥ 0 and ≥ every reported extent. Once there is a report, it equals one of them. |
| `Geometry.RunningMaxGrows` | cardstack/src/main/java/com/omercemcicekli/cardstack/StackCardView.kt:227-239 | Further reports never lower the kept extent. |
| `CardStackChecks.CheckCardCount` | cardstack/src/main/java/com/omercemcicekli/cardstack/CardStack.kt:129-132 | Passes iff the count is at least 2. Fails with "Can't use 1 or less card count." otherwise. |
| `CardStackChecks.CheckPadding` | cardstack/src/main/java/com/omercemcicekli/cardstack/CardStack.kt:134-137 | Passes iff the padding is positive. Fails with "Can't use 0 or less for padding between cards." otherwise. |
| `CardStackChecks.CheckAnimationDuration` | cardstack/src/main/java/com/omercemcicekli/cardstack/CardStack.kt:139-142 | Passes iff the duration is at least 1. Fails with "Can't use 0 or less for animation duration." otherwise. |
| `CardStackChecks.ValidateCount` | cardstack/src/main/java/com/omercemcicekli/cardstack/CardStack.kt:94-142 | Newer count entry point. It accepts iff cardCount ≥ 2, padding > 0 and duration ≥ 1, and the configuration keeps the count, padding and duration unchanged and runs animations (duration > 0, line 98). Errors come in check order: count, then padding, then duration, each with its own message. |
| `CardStackChecks.ValidateList` | cardstack/src/main/java/com/omercemcicekli/cardstack/CardStack.kt:45-50 | Newer list entry point. It accepts iff padding > 0 and duration ≥ 1, with no condition on the count (0 and 1 pass). The configuration keeps its arguments and runs animations (duration > 0, line 50). |
| `CardStackChecks.ValidatedFrontIsTopmost` | cardstack/src/main/java/com/omercemcicekli/cardstack/CardStack.kt:134-137 | In any stack the newer policy accepts, the front slot has padding 0. Every other slot has positive padding and a strictly lower z-order. |
| `StackCardViewChecks.CheckCardCount` | cardstack/src/main/java/com/omercemcicekli/cardstack/StackCardView.kt:122-125 | Passes iff the count is at least 1. Fails with "Can't use 0 or negative card count." otherwise. The only count it passes that the newer check rejects is 1. |
| `StackCardViewChecks.CheckPadding` | cardstack/src/main/java/com/omercemcicekli/cardstack/StackCardView.kt:127-130 | Passes iff the padding is non-zero. Fails with "Can't use 0 dp padding for items." otherwise. The only paddings it passes that the newer check rejects are negative. |
| `StackCardViewChecks.ValidateCount` | cardstack/src/main/java/com/omercemcicekli/cardstack/StackCardView.kt:88-130 | Older count entry point. It accepts iff cardCount ≥ 1 and padding ≠ 0. The configuration keeps its arguments, and animations run iff duration > 0 (line 91). The count error precedes the padding error. |
| `StackCardViewChecks.ValidateList` | cardstack/src/main/java/com/omercemcicekli/cardstack/StackCardView.kt:40-44 | Older list entry point. It accepts iff padding ≠ 0. The configuration keeps its arguments, and animations run iff duration > 0 (line 44). |
| `StackCardViewChecks.NewerPolicyIsStricter` | cardstack/src/main/java/com/omercemcicekli/cardstack/StackCardView.kt:122-130 | Whatever the newer count entry point accepts, the older one accepts with the same configuration. The older one also accepts one card, a negative padding and a zero duration (with animations off). |
| `StackCardViewChecks.NegativePaddingBuriesFrontCard` | cardstack/src/main/java/com/omercemcicekli/cardstack/StackCardView.kt:127-130 | Under the older policy, a negative padding passes validation, and then the front slot has a strictly lower z-order than every other slot. |
| `Controller.TapAccepted` | cardstack/src/main/java/com/omercemcicekli/cardstack/CardStack.kt:257 | An accepted tap needs two or more cards. On an in-range slot it is the slot at depth 0, and it advances to a different in-range slot. Conversely, with two or more cards and both indices in range, a tap on the depth-0 slot is accepted. |
| `Controller.TapTrace` | cardstack/src/main/java/com/omercemcicekli/cardstack/CardStack.kt:281-296 | An accepted tap produces one event for the callback when registered, plus four events with animations on or one with them off. It contains the index update, and it ends with the joint launch (animations on) or the index update (animations off). |
| `Controller.TapTraceOrder` | cardstack/src/main/java/com/omercemcicekli/cardstack/CardStack.kt:281-296 | An accepted tap updates the index exactly once, and a registered callback comes first and only once. With animations on: offset to the measured extent immediately before the update, no rotation before it, rotation out right after it, and the rotation back and offset reset launched together last. With animations off there are no animation events. |
| `Controller.TapAcceptance` | cardstack/src/main/java/com/omercemcicekli/cardstack/CardStack.kt:257 | A one-card stack accepts no tap. A stack of two or more accepts a tap on its front slot and moves the front to a different slot. |
| `Controller.ValidatedStackIsLive` | cardstack/src/main/java/com/omercemcicekli/cardstack/CardStack.kt:129-132 | Every stack the newer count entry point accepts accepts a tap on its front slot, and runs animations. |
| `Controller.OlderSingleCardStackIsInert` | cardstack/src/main/java/com/omercemcicekli/cardstack/StackCardView.kt:122-125 | The older count entry point accepts a single card, and such a stack accepts no tap at all. |
| `Controller.ShrunkListFreezesStack` | cardstack/src/main/java/com/omercemcicekli/cardstack/CardStack.kt:48-53 | The count is re-read from the list on every composition while the index is kept. If the list shrinks so that the kept index lies in [cardCount, 2 × cardCount), as from 3 cards to 2 with index 2, slot `selectedIndex − cardCount` is drawn at depth 0, the slots before it get a negative depth, and no tap on any slot is accepted again. |
| `Controller.CardStackController.constructor` | cardstack/src/main/java/com/omercemcicekli/cardstack/CardStack.kt:98-101 | A mounted stack starts with selected index 0, an empty trace and every measured extent 0, and carries the configuration it was given. |
| `Controller.CardStackController.Measure` | cardstack/src/main/java/com/omercemcicekli/cardstack/CardStack.kt:238-250 | A size report updates only its slot's extent, to MeasuredExtent of the old extent. The object invariant ties each extent to the running maximum of its slot's reports. Index and trace are unchanged. |
| `Controller.CardStackController.Recompose` | cardstack/src/main/java/com/omercemcicekli/cardstack/CardStack.kt:194 | A new composition restarts every slot's extent at 0. Index and trace are unchanged. |
| `Controller.CardStackController.Layout` | cardstack/src/main/java/com/omercemcicekli/cardstack/CardStack.kt:233-235 | Each slot's padding is depth × unit and its z-order is −padding. With a non-zero unit only the front slot has padding 0. With a positive unit the front slot is drawn above all others. |
| `Controller.CardStackController.Tap` | cardstack/src/main/java/com/omercemcicekli/cardstack/CardStack.kt:256-261 | A tap not accepted leaves index and trace unchanged. An accepted tap sets the index to NextIndex and appends TapTrace: the callback with the tapped index, then the advance routine with the slot's measured extent as offset target. |
| `Controller.CardStackController.AnimateOnClick` | cardstack/src/main/java/com/omercemcicekli/cardstack/StackCardView.kt:267-284 | The advance routine sets the index to NextIndex and appends its steps in source order. With animations off it appends only the index update. |

## Findings

| source | as written | input that shows it | evidently intended | confidence | as-written member | corrected member |
|---|---|---|---|---|---|---|
| cardstack/src/main/java/com/omercemcicekli/cardstack/StackCardView.kt:127-130 | The padding check rejects only a padding of exactly 0. | Count entry point, 3 cards, padding −8: accepted. The front slot's z-order is 0 and the other slots' are 8 and 16, so the only tappable card is drawn beneath the rest. | Reject every padding ≤ 0, as `CardStack.kt:134-137` does. | medium, not executed | `StackCardViewChecks.NegativePaddingBuriesFrontCard` | `CardStackChecks.ValidatedFrontIsTopmost` |

## Left out

- Compose rendering is not modelled: `Box`, `Card`, the `padding`/`offset`/`rotate`/`zIndex` modifiers as layout operations, the choice of padding side (`PaddingValues`), shapes, elevation, borders and the card contents. These are framework calls, so only the values handed to them are modelled.
- The animation driver is reduced to targets and their order: `Animatable`, `animateDpAsState`, `tween`, durations and easing curves are left out. The smooth padding transition after an index change is not modelled either. Only the target values of the dismissed card's animations appear, as trace events.
- Coroutines are reduced to sequencing. A tap and its advance routine run as one atomic step. The two final child launches are recorded as one `Launch` event holding an unordered set. A second tap arriving while an earlier advance is still suspended in its offset-out animation is not modelled, and neither is cancellation on unmount.
- The user callback's own effect is out of reach. Only its invocation, and the index it receives, is recorded.
- `Dp` and `Float` arithmetic are replaced by integers: padding units, pixel sizes and degrees. The truncation `offsetAnimation.value.toInt()` is not modelled, because the offset value is taken to be an integer already.
- State persistence (`rememberSaveable`) is modelled only as the initial index 0 and a field that keeps its value between taps.
- `Controller.CardStackController.Recompose`: the measured extent lives in a plain local of each composition of a card, so it restarts at 0 whenever the card is composed again. When the framework recomposes a card, and whether it re-reports the size afterwards, is framework behaviour. The model therefore leaves it to the host to call `Recompose`.
- Controller.CardStackController: the card count is fixed when the stack is mounted. The list entry points re-read it from `cardContents.size` on every composition while the selected index survives, and a change of list length between taps is not modelled as a transition of the class. `Controller.ShrunkListFreezesStack` states what the geometry and the tap guard give when the list shrinks below the kept index.
- The entry points' default arguments are not modelled: `paddingBetweenCards = 8.dp`, `animationDuration = 300`, `onCardClick = null` and `orientation = Vertical()`. They only fill in arguments a caller leaves out, so the model takes every argument explicitly.
- The two Kotlin files declare the same public entry points in one package. That is a build-level conflict, not behaviour, and is not modelled.
