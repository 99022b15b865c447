/** The testimonial carousel: five cards fanned out around the current one.
    `getCardStyle` places a card by its wrap-around offset; a horizontal drag
    beyond 50 pixels moves one card. Scale and opacity are left out. */
module Testimonials {
  import opened Carousel

  /** `testimonials.length`. */
  const TestimonialCount := 5
  const DragThreshold: real := 50.0

  /** The integer-valued parts of a card's placement. */
  datatype CardStyle = CardStyle(x: int, y: int, zIndex: int, rotateY: int, rotateZ: int)

  function Abs(d: int): nat {
    if d < 0 then -d else d
  }

  /** Placement for a card `d` places from the current one: centre, one away,
      two away, or off screen on the side of its sign. */
  function StyleAt(d: int): (s: CardStyle)
    ensures s.x == 0 <==> d == 0
    ensures s.x > 0 <==> d > 0
    ensures Abs(d) <= 2 ==> s.zIndex == 50 - 10 * Abs(d) && s.y == 30 * Abs(d)
    ensures Abs(d) > 2 ==> s.zIndex == 10 && s.y == 80
  {
    if d == 0 then CardStyle(0, 0, 50, 0, 0)
    else if Abs(d) == 1 then CardStyle(d * 280, 30, 40, d * -20, d * 3)
    else if Abs(d) == 2 then CardStyle(d * 220, 60, 30, d * -25, d * 5)
    else CardStyle(if d > 0 then 500 else -500, 80, 10, if d > 0 then -30 else 30, if d > 0 then 8 else -8)
  }

  /** `getCardStyle(index)` with `currentIndex` = `current`. */
  function CardStyleOf(index: nat, current: nat): (s: CardStyle)
    requires index < TestimonialCount && current < TestimonialCount
    ensures s.zIndex == 50 - 10 * Abs(WrappedOffset(index, current, TestimonialCount))
    ensures s.zIndex in {30, 40, 50}
  {
    StyleAt(WrappedOffset(index, current, TestimonialCount))
  }

  /** The same placement reflected in the vertical axis through the centre. */
  function Mirror(s: CardStyle): CardStyle {
    CardStyle(-s.x, s.y, s.zIndex, -s.rotateY, -s.rotateZ)
  }

  /** Cards at offsets `d` and `-d` are mirror images: opposite x and rotations,
      the same height and stacking. */
  lemma StyleMirrored(d: int)
    ensures StyleAt(-d) == Mirror(StyleAt(d))
  {
  }

  /** Only the current card is centred at the front. */
  lemma CentreOnlyForCurrent(index: nat, current: nat)
    requires index < TestimonialCount && current < TestimonialCount
    ensures CardStyleOf(index, current).x == 0 <==> index == current
    ensures CardStyleOf(index, current).zIndex == 50 <==> index == current
  {
  }

  /** With five cards every offset is within two places, so no card is ever sent
      off screen. */
  lemma NeverOffScreen(index: nat, current: nat)
    requires index < TestimonialCount && current < TestimonialCount
    ensures Abs(WrappedOffset(index, current, TestimonialCount)) <= 2
    ensures CardStyleOf(index, current).zIndex in {30, 40, 50}
  {
  }

  /** Each of the five positions from two left to two right holds exactly one card. */
  lemma OneCardPerPosition(current: nat, d: int)
    requires current < TestimonialCount && -2 <= d <= 2
    ensures var i := CardAt(current, d, TestimonialCount);
      0 <= i < TestimonialCount && WrappedOffset(i, current, TestimonialCount) == d
    ensures forall i :: 0 <= i < TestimonialCount && WrappedOffset(i, current, TestimonialCount) == d ==>
      i == CardAt(current, d, TestimonialCount)
  {
    forall i | 0 <= i < TestimonialCount && WrappedOffset(i, current, TestimonialCount) == d
      ensures i == CardAt(current, d, TestimonialCount)
    {
      OffsetLocatesCard(i, current, TestimonialCount);
    }
  }

  datatype Swipe = Forward | Back | Stay

  /** `handleDragEnd`'s choice for a drag of `dx` pixels (`info.offset.x`, a
      fractional number). */
  function SwipeFor(dx: real): (s: Swipe)
    ensures s == Forward <==> dx < -DragThreshold
    ensures s == Back <==> dx > DragThreshold
    ensures s == Stay <==> -DragThreshold <= dx <= DragThreshold
  {
    if dx < -DragThreshold then Forward else if dx > DragThreshold then Back else Stay
  }

  /** `handleDragEnd`: a drag far enough left shows the next card, far enough right
      the previous one; a shorter drag changes nothing. Dragging is switched on
      only on narrow screens (`drag={isMobile ? 'x' : false}`), so this runs only
      there. */
  method HandleDragEnd(c: Carousel, dx: real)
    requires c.Valid() && c.size == TestimonialCount
    modifies c
    ensures c.Valid()
    ensures dx < -DragThreshold ==> c.current == NextIndex(old(c.current), c.size) && !c.autoPlaying
    ensures dx > DragThreshold ==> c.current == PrevIndex(old(c.current), c.size) && !c.autoPlaying
    ensures -DragThreshold <= dx <= DragThreshold ==>
      c.current == old(c.current) && c.autoPlaying == old(c.autoPlaying)
  {
    var swipe := SwipeFor(dx);
    if swipe == Forward {
      c.NextSlide();
    } else if swipe == Back {
      c.PrevSlide();
    }
  }
}
