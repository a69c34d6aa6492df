/**
 * The orientation configuration of a card stack and the three pure mappings
 * that resolve it into layout parameters: the corner the stack is anchored
 * to, the signed rotation of the card that is dismissed, and the direction
 * in which that card slides out.
 */
module Orientations {

  /** Where the stack grows from when it is laid out vertically. */
  datatype VerticalAlignment = TopToBottom | BottomToTop

  /** Where the stack grows from when it is laid out horizontally. */
  datatype HorizontalAlignment = StartToEnd | EndToStart

  /** The side a vertically stacked front card is dismissed towards. */
  datatype VerticalAnimationStyle = ToRight | ToLeft

  /** The side a horizontally stacked front card is dismissed towards. */
  datatype HorizontalAnimationStyle = FromTop | FromBottom

  /**
   * The sealed orientation type: exactly one of two variants, each a record
   * of an alignment and an animation style with the same defaults as the
   * widget (`Vertical()` and `Horizontal()` without arguments).
   */
  datatype Orientation =
    | Vertical(verticalAlignment: VerticalAlignment := TopToBottom,
               verticalStyle: VerticalAnimationStyle := ToRight)
    | Horizontal(horizontalAlignment: HorizontalAlignment := StartToEnd,
                 horizontalStyle: HorizontalAnimationStyle := FromTop)

  /** The anchor of the stack inside its box. */
  datatype ContentAlignment = TopCenter | BottomCenter | CenterStart | CenterEnd

  /** A pixel offset, as applied to the card that slides out. */
  datatype IntOffset = IntOffset(x: int, y: int)

  /** The magnitude of the dismissal rotation, in degrees. */
  const RotationDegrees: int := 45

  /**
   * The corner the stack is anchored to. A vertical stack is centred
   * horizontally and sits at the top or the bottom; a horizontal stack is
   * centred vertically and sits at the start or the end.
   */
  function Alignment(o: Orientation): (a: ContentAlignment)
    ensures (a == TopCenter || a == BottomCenter) <==> o.Vertical?
    ensures o.Vertical? ==> (a == TopCenter <==> o.verticalAlignment == TopToBottom)
    ensures o.Horizontal? ==> (a == CenterStart <==> o.horizontalAlignment == StartToEnd)
  {
    match o
    case Vertical(alignment, _) =>
      if alignment == TopToBottom then TopCenter else BottomCenter
    case Horizontal(alignment, _) =>
      if alignment == StartToEnd then CenterStart else CenterEnd
  }

  /**
   * The rotation the dismissed card turns to: always 45 degrees in
   * magnitude, positive exactly for `ToRight` and `FromBottom`.
   */
  function Rotation(o: Orientation): (r: int)
    ensures r == RotationDegrees || r == -RotationDegrees
    ensures r > 0 <==> (o.Vertical? && o.verticalStyle == ToRight) ||
                       (o.Horizontal? && o.horizontalStyle == FromBottom)
  {
    match o
    case Vertical(_, style) =>
      if style == ToRight then RotationDegrees else -RotationDegrees
    case Horizontal(_, style) =>
      if style == FromTop then -RotationDegrees else assert style == FromBottom; RotationDegrees
  }

  /**
   * The on-screen offset of a card whose offset animation currently holds
   * the value `v`: along x for a vertical stack, along y for a horizontal
   * one, negated for `ToLeft` and `FromTop`. The one component that can
   * be non-zero is `v` itself when the rotation is positive and `-v` when
   * it is negative.
   */
  function OffsetVector(o: Orientation, v: int): (p: IntOffset)
    ensures o.Vertical? ==> p.y == 0
    ensures o.Horizontal? ==> p.x == 0
    ensures p.x + p.y == (if Rotation(o) > 0 then v else -v)
  {
    match o
    case Vertical(_, style) =>
      IntOffset(if style == ToRight then v else -v, 0)
    case Horizontal(_, style) =>
      IntOffset(0, if style == FromTop then -v else v)
  }

  /**
   * The dismissed card turns the same way as it slides: for a positive
   * offset value the component along the stack's cross axis has the sign
   * of the rotation, and the card is displaced exactly when the value is
   * non-zero.
   */
  lemma RotationFollowsOffset(o: Orientation, v: int)
    ensures v > 0 ==> (Rotation(o) > 0 <==> OffsetVector(o, v).x + OffsetVector(o, v).y > 0)
    ensures OffsetVector(o, v) == IntOffset(0, 0) <==> v == 0
  {
  }

  /**
   * The anchor determines the variant and its alignment: two orientations
   * with the same anchor are of the same variant and have equal alignment.
   */
  lemma AlignmentDeterminesLayout(o1: Orientation, o2: Orientation)
    requires Alignment(o1) == Alignment(o2)
    ensures o1.Vertical? == o2.Vertical?
    ensures o1.Vertical? ==> o1.verticalAlignment == o2.verticalAlignment
    ensures o1.Horizontal? ==> o1.horizontalAlignment == o2.horizontalAlignment
  {
  }

  /** The argument-less constructors carry the widget's default settings. */
  lemma DefaultOrientations()
    ensures Vertical() == Vertical(TopToBottom, ToRight)
    ensures Horizontal() == Horizontal(StartToEnd, FromTop)
    ensures Alignment(Vertical()) == TopCenter && Rotation(Vertical()) == RotationDegrees
    ensures Alignment(Horizontal()) == CenterStart && Rotation(Horizontal()) == -RotationDegrees
  {
  }

  /**
   * Orientation is a sealed pair of records: every value is exactly one
   * variant, and equality is equality of the variant and both fields.
   */
  lemma OrientationIsSealedRecord(o1: Orientation, o2: Orientation)
    ensures o1.Vertical? != o1.Horizontal?
    ensures o1 == o2 <==>
      (o1.Vertical? && o2.Vertical? && o1.verticalAlignment == o2.verticalAlignment && o1.verticalStyle == o2.verticalStyle) ||
      (o1.Horizontal? && o2.Horizontal? && o1.horizontalAlignment == o2.horizontalAlignment && o1.horizontalStyle == o2.horizontalStyle)
  {
  }
}
