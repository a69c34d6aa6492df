/**
 * The configuration a stack is built from, and the configuration error its
 * entry points raise instead of rendering.
 */
module StackConfigs {

  /** The argument error raised by a failed configuration check. */
  datatype ConfigError = IllegalArgument(message: string)

  /** The result of one configuration check. */
  datatype Outcome = Pass | Fail(error: ConfigError)

  /** The result of an entry point: a configuration, or the error it raised. */
  datatype Result<T> = Ok(value: T) | Err(error: ConfigError)

  /**
   * A validated configuration: the number of cards, the padding between
   * cards, the animation duration and whether animations run at all, which
   * both entry points of both variants derive from the duration alone.
   */
  datatype StackConfig = StackConfig(cardCount: int, paddingUnit: int, animationDuration: int, runAnimations: bool)

  /** The configuration carries the arguments it was built from unchanged. */
  predicate Carries(c: StackConfig, cardCount: int, paddingUnit: int, animationDuration: int)
  {
    c.cardCount == cardCount && c.paddingUnit == paddingUnit && c.animationDuration == animationDuration
  }

}

/**
 * The validation policy of the newer variant: at least two cards for the
 * count entry point, a strictly positive padding and a duration of at least
 * one millisecond for both entry points.
 */
module CardStackChecks {
  import opened StackConfigs
  import opened Geometry

  const CardCountMessage: string := "Can't use 1 or less card count."
  const PaddingMessage: string := "Can't use 0 or less for padding between cards."
  const DurationMessage: string := "Can't use 0 or less for animation duration."

  /** Rejects fewer than two cards. */
  function CheckCardCount(cardCount: int): (r: Outcome)
    ensures r.Pass? <==> cardCount >= 2
    ensures r.Fail? ==> r.error.message == CardCountMessage
  {
    if cardCount < 2 then Fail(IllegalArgument(CardCountMessage)) else Pass
  }

  /** Rejects a padding of zero or less. */
  function CheckPadding(paddingUnit: int): (r: Outcome)
    ensures r.Pass? <==> paddingUnit > 0
    ensures r.Fail? ==> r.error.message == PaddingMessage
  {
    if paddingUnit <= 0 then Fail(IllegalArgument(PaddingMessage)) else Pass
  }

  /** Rejects a duration below one millisecond. */
  function CheckAnimationDuration(animationDuration: int): (r: Outcome)
    ensures r.Pass? <==> animationDuration >= 1
    ensures r.Fail? ==> r.error.message == DurationMessage
  {
    if animationDuration < 1 then Fail(IllegalArgument(DurationMessage)) else Pass
  }

  /**
   * The entry point taking a card count: the count, padding and duration
   * checks run in that order and the first that fails decides the error.
   * Whatever it accepts runs animations.
   */
  function ValidateCount(cardCount: int, paddingUnit: int, animationDuration: int): (r: Result<StackConfig>)
    ensures r.Ok? <==> cardCount >= 2 && paddingUnit > 0 && animationDuration >= 1
    ensures r.Ok? ==> r.value.runAnimations && Carries(r.value, cardCount, paddingUnit, animationDuration)
    ensures cardCount < 2 ==> r == Err(IllegalArgument(CardCountMessage))
    ensures cardCount >= 2 && paddingUnit <= 0 ==> r == Err(IllegalArgument(PaddingMessage))
    ensures cardCount >= 2 && paddingUnit > 0 && animationDuration < 1 ==> r == Err(IllegalArgument(DurationMessage))
  {
    if CheckCardCount(cardCount).Fail? then Err(CheckCardCount(cardCount).error)
    else if CheckPadding(paddingUnit).Fail? then Err(CheckPadding(paddingUnit).error)
    else if CheckAnimationDuration(animationDuration).Fail? then Err(CheckAnimationDuration(animationDuration).error)
    else Ok(StackConfig(cardCount, paddingUnit, animationDuration, animationDuration > 0))
  }

  /**
   * The entry point taking a list of card contents: the count is the list's
   * length and is not checked, so stacks of zero or one card are accepted;
   * padding and duration are checked as above.
   */
  function ValidateList(cardCount: nat, paddingUnit: int, animationDuration: int): (r: Result<StackConfig>)
    ensures r.Ok? <==> paddingUnit > 0 && animationDuration >= 1
    ensures r.Ok? ==> r.value.runAnimations && Carries(r.value, cardCount, paddingUnit, animationDuration)
    ensures paddingUnit <= 0 ==> r == Err(IllegalArgument(PaddingMessage))
    ensures paddingUnit > 0 && animationDuration < 1 ==> r == Err(IllegalArgument(DurationMessage))
  {
    if CheckPadding(paddingUnit).Fail? then Err(CheckPadding(paddingUnit).error)
    else if CheckAnimationDuration(animationDuration).Fail? then Err(CheckAnimationDuration(animationDuration).error)
    else Ok(StackConfig(cardCount, paddingUnit, animationDuration, animationDuration > 0))
  }

  /**
   * In any accepted stack the front slot has padding 0, every other slot
   * has positive padding, and the front slot is drawn strictly above all
   * others.
   */
  lemma ValidatedFrontIsTopmost(cardCount: nat, paddingUnit: int, animationDuration: int, selectedIndex: int)
    requires ValidateList(cardCount, paddingUnit, animationDuration).Ok?
    requires IsSlot(selectedIndex, cardCount)
    ensures forall i :: IsSlot(i, cardCount) && i != selectedIndex ==>
              Padding(selectedIndex, i, cardCount, paddingUnit) > 0 &&
              ZIndex(selectedIndex, i, cardCount, paddingUnit) < ZIndex(selectedIndex, selectedIndex, cardCount, paddingUnit)
    ensures Padding(selectedIndex, selectedIndex, cardCount, paddingUnit) == 0
  {
    FrontSlotIsTopmost(selectedIndex, cardCount, paddingUnit);
  }
}

/**
 * The validation policy of the older variant: the count entry point only
 * rejects fewer than one card, padding is only rejected when it is exactly
 * zero, and the duration is not checked, so a duration of zero or less
 * turns animations off.
 */
module StackCardViewChecks {
  import opened StackConfigs
  import opened Geometry
  import CardStackChecks

  const CardCountMessage: string := "Can't use 0 or negative card count."
  const PaddingMessage: string := "Can't use 0 dp padding for items."

  /** Rejects fewer than one card, letting a single card through. */
  function CheckCardCount(cardCount: int): (r: Outcome)
    ensures r.Pass? <==> cardCount >= 1
    ensures r.Fail? ==> r.error.message == CardCountMessage
    ensures r.Pass? ==> CardStackChecks.CheckCardCount(cardCount).Pass? || cardCount == 1
  {
    if cardCount < 1 then Fail(IllegalArgument(CardCountMessage)) else Pass
  }

  /** Rejects only a padding of exactly zero, letting negative ones through. */
  function CheckPadding(paddingUnit: int): (r: Outcome)
    ensures r.Pass? <==> paddingUnit != 0
    ensures r.Fail? ==> r.error.message == PaddingMessage
    ensures r.Pass? ==> CardStackChecks.CheckPadding(paddingUnit).Pass? || paddingUnit < 0
  {
    if paddingUnit == 0 then Fail(IllegalArgument(PaddingMessage)) else Pass
  }

  /** The entry point taking a card count: count check, then padding check. */
  function ValidateCount(cardCount: int, paddingUnit: int, animationDuration: int): (r: Result<StackConfig>)
    ensures r.Ok? <==> cardCount >= 1 && paddingUnit != 0
    ensures r.Ok? ==> Carries(r.value, cardCount, paddingUnit, animationDuration)
    ensures r.Ok? ==> (r.value.runAnimations <==> animationDuration > 0)
    ensures cardCount < 1 ==> r == Err(IllegalArgument(CardCountMessage))
    ensures cardCount >= 1 && paddingUnit == 0 ==> r == Err(IllegalArgument(PaddingMessage))
  {
    if CheckCardCount(cardCount).Fail? then Err(CheckCardCount(cardCount).error)
    else if CheckPadding(paddingUnit).Fail? then Err(CheckPadding(paddingUnit).error)
    else Ok(StackConfig(cardCount, paddingUnit, animationDuration, animationDuration > 0))
  }

  /** The entry point taking a list of card contents: only the padding check. */
  function ValidateList(cardCount: nat, paddingUnit: int, animationDuration: int): (r: Result<StackConfig>)
    ensures r.Ok? <==> paddingUnit != 0
    ensures r.Ok? ==> Carries(r.value, cardCount, paddingUnit, animationDuration)
    ensures r.Ok? ==> (r.value.runAnimations <==> animationDuration > 0)
    ensures paddingUnit == 0 ==> r == Err(IllegalArgument(PaddingMessage))
  {
    if CheckPadding(paddingUnit).Fail? then Err(CheckPadding(paddingUnit).error)
    else Ok(StackConfig(cardCount, paddingUnit, animationDuration, animationDuration > 0))
  }

  /**
   * The newer policy is strictly stronger: whatever it accepts the older one
   * accepts with the same configuration, while the older one also accepts a
   * single card, a negative padding and a zero duration.
   */
  lemma NewerPolicyIsStricter(cardCount: int, paddingUnit: int, animationDuration: int)
    ensures CardStackChecks.ValidateCount(cardCount, paddingUnit, animationDuration).Ok? ==>
              ValidateCount(cardCount, paddingUnit, animationDuration) ==
              CardStackChecks.ValidateCount(cardCount, paddingUnit, animationDuration)
    ensures ValidateCount(1, 8, 300).Ok? && CardStackChecks.ValidateCount(1, 8, 300).Err?
    ensures ValidateCount(2, -8, 300).Ok? && CardStackChecks.ValidateCount(2, -8, 300).Err?
    ensures ValidateCount(2, 8, 0).Ok? && !ValidateCount(2, 8, 0).value.runAnimations
  {
  }

  /**
   * The padding check of this variant lets a negative padding through, and
   * with a negative unit the z-order is inverted: the front slot, the only
   * one that accepts taps, is drawn strictly below every other slot.
   */
  lemma NegativePaddingBuriesFrontCard(cardCount: int, paddingUnit: int, animationDuration: int, selectedIndex: int)
    requires cardCount >= 2 && paddingUnit < 0 && IsSlot(selectedIndex, cardCount)
    ensures ValidateCount(cardCount, paddingUnit, animationDuration).Ok?
    ensures forall i :: IsSlot(i, cardCount) && i != selectedIndex ==>
              ZIndex(selectedIndex, selectedIndex, cardCount, paddingUnit) < ZIndex(selectedIndex, i, cardCount, paddingUnit)
  {
    forall i | IsSlot(i, cardCount) && i != selectedIndex
      ensures ZIndex(selectedIndex, selectedIndex, cardCount, paddingUnit) < ZIndex(selectedIndex, i, cardCount, paddingUnit)
    {
      ScaleIsMonotone(0, Depth(selectedIndex, i, cardCount), -paddingUnit);
      assert Depth(selectedIndex, i, cardCount) * paddingUnit == -(Depth(selectedIndex, i, cardCount) * -paddingUnit);
    }
  }
}
