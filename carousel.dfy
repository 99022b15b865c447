/** The index arithmetic shared by the testimonial and achievement carousels:
    `currentIndex` and `isAutoPlaying` state, next and previous slide modulo the
    number of cards, direct selection, the autoplay tick, and the wrap-around
    offset that places each card relative to the current one. All indices are
    non-negative, so JavaScript's truncating `%` agrees with Dafny's. */
module Carousel {

  /** `(prev + 1) % n`. */
  function NextIndex(i: nat, n: nat): (r: nat)
    requires n > 0
    ensures r < n
    ensures i < n ==> r == if i == n - 1 then 0 else i + 1
  {
    (i + 1) % n
  }

  /** `(prev - 1 + n) % n`. */
  function PrevIndex(i: nat, n: nat): (r: nat)
    requires n > 0
    ensures r < n
    ensures i < n ==> r == if i == 0 then n - 1 else i - 1
  {
    (i - 1 + n) % n
  }

  /** Going back undoes going forward, and the other way round. */
  lemma PrevNextInverse(i: nat, n: nat)
    requires i < n
    ensures PrevIndex(NextIndex(i, n), n) == i
    ensures NextIndex(PrevIndex(i, n), n) == i
  {
  }

  /** The index after `k` autoplay ticks from `i`. */
  function Advance(i: nat, n: nat, k: nat): nat
    requires n > 0
  {
    if k == 0 then i else NextIndex(Advance(i, n, k - 1), n)
  }

  /** Within one round, `k` ticks move the carousel `k` places, wrapping past the
      last card back to the first. */
  lemma {:induction false} AdvanceWithinRound(i: nat, n: nat, k: nat)
    requires i < n && k <= n
    ensures Advance(i, n, k) == if i + k < n then i + k else i + k - n
  {
    if k > 0 {
      AdvanceWithinRound(i, n, k - 1);
    }
  }

  /** A full round of `n` ticks brings the carousel back to where it was, and no
      shorter positive number of ticks does. */
  lemma FullCycle(i: nat, n: nat, k: nat)
    requires i < n && 0 < k <= n
    ensures Advance(i, n, k) == i <==> k == n
  {
    AdvanceWithinRound(i, n, k);
  }

  /** `getCardStyle`'s `adjustedDiff`: `index - currentIndex`, moved by one round
      when it is more than half the number of cards away (the comparisons with
      `totalCards / 2` are on reals, hence the doubling here). */
  function WrappedOffset(index: int, current: int, n: nat): (d: int)
    requires 0 <= index < n && 0 <= current < n
    ensures d == index - current || d == index - current - n || d == index - current + n
    ensures 2 * d <= n && -(2 * d) <= n
    ensures d == 0 <==> index == current
  {
    var diff := index - current;
    var adjusted := if 2 * diff > n then diff - n else diff;
    if 2 * diff + n < 0 then diff + n else adjusted
  }

  /** For a fixed current card, distinct cards get distinct offsets. */
  lemma OffsetInjective(a: int, b: int, current: int, n: nat)
    requires 0 <= a < n && 0 <= b < n && 0 <= current < n
    requires WrappedOffset(a, current, n) == WrappedOffset(b, current, n)
    ensures a == b
  {
  }

  /** The card that sits `d` places from the current one. */
  function CardAt(current: int, d: int, n: nat): int {
    if current + d < 0 then current + d + n
    else if current + d >= n then current + d - n
    else current + d
  }

  /** Each card is found again at its own offset. */
  lemma OffsetLocatesCard(index: int, current: int, n: nat)
    requires 0 <= index < n && 0 <= current < n
    ensures CardAt(current, WrappedOffset(index, current, n), n) == index
  {
  }

  /** One carousel component's state. */
  class Carousel {
    /** `testimonials.length` or `achievements.length`. */
    const size: nat
    var current: nat
    var autoPlaying: bool

    ghost predicate Valid()
      reads this
    {
      0 < size && current < size
    }

    /** `useState(0)` and `useState(true)`. */
    constructor (n: nat)
      requires n > 0
      ensures Valid() && size == n && current == 0 && autoPlaying
    {
      size := n;
      current := 0;
      autoPlaying := true;
    }

    /** `nextSlide`: one card on, and autoplay paused. */
    method NextSlide()
      requires Valid()
      modifies this
      ensures Valid() && current == NextIndex(old(current), size) && !autoPlaying
    {
      current := (current + 1) % size;
      autoPlaying := false;
    }

    /** `prevSlide`: one card back, and autoplay paused. */
    method PrevSlide()
      requires Valid()
      modifies this
      ensures Valid() && current == PrevIndex(old(current), size) && !autoPlaying
    {
      current := (current - 1 + size) % size;
      autoPlaying := false;
    }

    /** `goToSlide(index)` from a card or a dot: exactly that card, autoplay paused. */
    method GoToSlide(index: nat)
      requires Valid() && index < size
      modifies this
      ensures Valid() && current == index && !autoPlaying
    {
      current := index;
      autoPlaying := false;
    }

    /** One firing of the autoplay interval, which exists only while autoplay is on. */
    method AutoplayTick()
      requires Valid()
      modifies this
      ensures Valid() && autoPlaying == old(autoPlaying)
      ensures current == if old(autoPlaying) then NextIndex(old(current), size) else old(current)
    {
      if autoPlaying {
        current := (current + 1) % size;
      }
    }

    /** The ten-second timeout that turns autoplay back on after a manual move. */
    method ResumeAutoplay()
      requires Valid()
      modifies this
      ensures Valid() && current == old(current) && autoPlaying
    {
      autoPlaying := true;
    }
  }
}
