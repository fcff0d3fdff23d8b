/**
 * `src/components/ui/IndustryQuotesCarousel.tsx`: the quote shown, moved by
 * an interval and by the dots.
 */
module IndustryQuotes {
  import opened Cyclic

  class IndustryQuotesCarousel {
    /** `quotes.length` */
    const count: nat
    var current: int

    ghost predicate Valid()
      reads this
    {
      0 <= current < count
    }

    /**
     * The first render. There is no guard for an empty list: `quotes[0]` is
     * read while rendering and the timer would compute a remainder by zero,
     * so `quotes` must be non-empty.
     */
    constructor (count: nat)
      requires count > 0
      ensures Valid() && this.count == count && current == 0
    {
      this.count := count;
      current := 0;
    }

    /** The interval firing: `(prev + 1) % quotes.length`. */
    method Tick()
      requires Valid()
      modifies this`current
      ensures Valid() && current == Next(old(current), count)
    {
      current := Next(current, count);
    }

    /** Clicking dot `idx`. */
    method DotClick(idx: int)
      requires Valid() && 0 <= idx < count
      modifies this`current
      ensures Valid() && current == idx
    {
      current := idx;
    }

    /** The dots drawn under the quote, one per quote; `true` is the wide, highlighted one. */
    function Dots(): (row: seq<bool>)
      reads this
      ensures |row| == count
    {
      DotRow(count, current)
    }

    /** Exactly one dot is highlighted: the current quote's. */
    lemma OneHighlighted()
      requires Valid()
      ensures Dots()[current] && (set idx | 0 <= idx < count && Dots()[idx]) == {current}
    {
      OneDotHighlighted(count, current);
    }
  }

  /** `quotes.length` ticks bring the carousel back to the quote it started from. */
  method FullRotation(c: IndustryQuotesCarousel)
    requires c.Valid()
    modifies c
    ensures c.Valid() && c.current == old(c.current)
  {
    var k := 0;
    while k < c.count
      invariant 0 <= k <= c.count
      invariant c.Valid() && c.current == Advance(old(c.current), c.count, k)
    {
      c.Tick();
      k := k + 1;
    }
    FullTurn(old(c.current), c.count);
  }
}
