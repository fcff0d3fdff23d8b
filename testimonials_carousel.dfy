/**
 * `src/components/ui/TestimonialsCarousel.tsx`: the active testimonial,
 * moved by a timer, by horizontal swipes and by the dots.
 */
module Testimonials {
  import opened Wrappers
  import opened Cyclic

  /** A swipe must travel more than this many pixels. */
  const SwipeThreshold: int := 40

  function Abs(x: int): int {
    if x < 0 then -x else x
  }

  /** The index after a touch that travelled `dx` pixels (negative: leftwards). */
  function Swiped(n: int, size: int, dx: int): (r: int)
    requires size > 0
    ensures -SwipeThreshold <= dx <= SwipeThreshold ==> r == n
    ensures dx < -SwipeThreshold ==> r == Next(n, size)
    ensures dx > SwipeThreshold ==> r == Prev(n, size)
    ensures 0 <= n < size ==> 0 <= r < size
  {
    if Abs(dx) > SwipeThreshold then (if dx < 0 then Next(n, size) else Prev(n, size)) else n
  }

  /** A swipe to the left undone by a swipe to the right, and the reverse. */
  lemma SwipeBackAndForth(n: int, size: int, left: int, right: int)
    requires 0 <= n < size
    requires left < -SwipeThreshold && right > SwipeThreshold
    ensures Swiped(Swiped(n, size, left), size, right) == n
    ensures Swiped(Swiped(n, size, right), size, left) == n
  {
    NextPrevInverse(n, size);
  }

  class TestimonialsCarousel {
    /** `items.length` */
    const size: nat
    var activeIndex: int
    /** The `startX` ref: where the current touch began, if one did. */
    var startX: Option<int>

    /** The active testimonial exists. */
    ghost predicate Valid()
      reads this
    {
      0 <= activeIndex < size
    }

    /** The first render; `items` must be non-empty, since `items[0]` is rendered. */
    constructor (size: nat)
      requires size > 0
      ensures Valid() && this.size == size && activeIndex == 0 && startX.None?
    {
      this.size := size;
      activeIndex, startX := 0, None;
    }

    /** The interval is only set up for more than one testimonial. */
    predicate AutoAdvances() {
      size > 1
    }

    /** A timer period elapsing: the next testimonial, if the timer runs. */
    method Tick()
      requires Valid()
      modifies this`activeIndex
      ensures Valid()
      ensures activeIndex == if AutoAdvances() then Next(old(activeIndex), size) else old(activeIndex)
    {
      if AutoAdvances() {
        activeIndex := Next(activeIndex, size);
      }
    }

    /** `handleTouchStart` */
    method TouchStart(x: int)
      requires Valid()
      modifies this`startX
      ensures Valid() && startX == Some(x)
    {
      startX := Some(x);
    }

    /**
     * `handleTouchEnd`: ignored without a recorded start; otherwise a long
     * enough swipe moves the index, and the recorded start is cleared.
     */
    method TouchEnd(x: int)
      requires Valid()
      modifies this`startX, this`activeIndex
      ensures Valid()
      ensures old(startX).None? ==> activeIndex == old(activeIndex) && startX.None?
      ensures old(startX).Some? ==>
        activeIndex == Swiped(old(activeIndex), size, x - old(startX).value) && startX.None?
    {
      if startX.None? {
        return;
      }
      var dx := x - startX.value;
      if Abs(dx) > SwipeThreshold {
        activeIndex := if dx < 0 then Next(activeIndex, size) else Prev(activeIndex, size);
      }
      startX := None;
    }

    /** Clicking dot `idx` (the dots are drawn for the indices of `items`). */
    method DotClick(idx: int)
      requires Valid() && 0 <= idx < size
      modifies this`activeIndex
      ensures Valid() && activeIndex == idx
    {
      activeIndex := idx;
    }

    /** The dots drawn under the card, one per testimonial; `true` is the highlighted one. */
    function Dots(): (row: seq<bool>)
      reads this
      ensures |row| == size
    {
      DotRow(size, activeIndex)
    }

    /** Exactly one of the drawn dots is highlighted: the active testimonial's. */
    lemma OneActiveDot()
      requires Valid()
      ensures Dots()[activeIndex] && (set idx | 0 <= idx < size && Dots()[idx]) == {activeIndex}
    {
      OneDotHighlighted(size, activeIndex);
    }
  }
}
