/** The achievement carousel: four cards, the current one in front, its two
    neighbours to the right and left, and the remaining card hidden behind.
    Scale and opacity are left out. */
module Achievements {
  import opened Carousel

  /** `achievements.length`. */
  const AchievementCount := 4

  /** The integer-valued parts of a card's placement. */
  datatype CardStyle = CardStyle(x: int, zIndex: int, rotateY: int)

  /** Placement for a card `d` places from the current one among `total` cards. */
  function StyleAt(d: int, total: int): (s: CardStyle)
    ensures s.zIndex == 30 <==> d == 0
    ensures s.zIndex == 20 <==> d != 0 && (d == 1 || d == -1 || d == total - 1 || d == -total + 1)
    ensures s.zIndex in {0, 20, 30}
    ensures s.x == 0 <==> s.rotateY == 0
    ensures s.x > 0 <==> s.rotateY < 0
  {
    if d == 0 then CardStyle(0, 30, 0)
    else if d == 1 || d == -total + 1 then CardStyle(320, 20, -15)
    else if d == -1 || d == total - 1 then CardStyle(-320, 20, 15)
    else CardStyle(if d > 0 then 500 else -500, 0, if d > 0 then -25 else 25)
  }

  /** `getCardStyle(index)` with `currentIndex` = `current`. */
  function CardStyleOf(index: nat, current: nat): (s: CardStyle)
    requires index < AchievementCount && current < AchievementCount
    ensures s.zIndex == 30 <==> index == current
    ensures s.x > 0 <==> s.rotateY < 0
  {
    StyleAt(WrappedOffset(index, current, AchievementCount), AchievementCount)
  }

  /** Only the current card is centred at the front. */
  lemma CentreOnlyForCurrent(index: nat, current: nat)
    requires index < AchievementCount && current < AchievementCount
    ensures CardStyleOf(index, current).x == 0 <==> index == current
    ensures CardStyleOf(index, current).zIndex == 30 <==> index == current
  {
  }

  /** The next card sits to the right and the previous one to the left, both
      one layer behind the current card. */
  lemma NeighboursOnEitherSide(current: nat)
    requires current < AchievementCount
    ensures CardStyleOf(NextIndex(current, AchievementCount), current) == CardStyle(320, 20, -15)
    ensures CardStyleOf(PrevIndex(current, AchievementCount), current) == CardStyle(-320, 20, 15)
  {
  }

  /** With four cards the offsets stay within two places, so the alternatives
      `-totalCards + 1` and `totalCards - 1` never decide a placement. */
  lemma AlternativesUnreachable(index: nat, current: nat)
    requires index < AchievementCount && current < AchievementCount
    ensures var d := WrappedOffset(index, current, AchievementCount);
      -2 <= d <= 2 && d != -AchievementCount + 1 && d != AchievementCount - 1
  {
  }

  /** The card opposite the current one. */
  function OppositeCard(current: nat): nat {
    (current + 2) % AchievementCount
  }

  /** Exactly one card is hidden: the one opposite the current card. It is pushed
      right while the current card is one of the first two, and left otherwise. */
  lemma ExactlyOneHidden(index: nat, current: nat)
    requires index < AchievementCount && current < AchievementCount
    ensures CardStyleOf(index, current).zIndex == 0 <==> index == OppositeCard(current)
    ensures index == OppositeCard(current) ==>
      CardStyleOf(index, current).x == if current < 2 then 500 else -500
  {
  }
}
