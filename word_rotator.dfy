/**
 * `src/components/ui/animations/WordRotator.tsx`: the word shown, advanced
 * by an interval that stops while the pointer hovers.
 */
module WordRotation {
  import opened Wrappers
  import opened Cyclic

  class WordRotator {
    const words: seq<string>
    var index: int
    var paused: bool

    /** The index names a word, or stays 0 when there is none. */
    ghost predicate Valid()
      reads this
    {
      0 <= index && (index < |words| || index == 0)
    }

    constructor (words: seq<string>)
      ensures Valid() && this.words == words && index == 0 && !paused
    {
      this.words := words;
      index, paused := 0, false;
    }

    /** The interval runs only while not paused and with more than one word. */
    predicate Ticking()
      reads this
    {
      !paused && |words| > 1
    }

    /** An interval period elapsing: `(n + 1) % words.length` if the interval runs. */
    method Tick()
      requires Valid()
      modifies this`index
      ensures Valid() && paused == old(paused)
      ensures index == if old(Ticking()) then Next(old(index), |words|) else old(index)
    {
      if Ticking() {
        index := Next(index, |words|);
      }
    }

    /** `onMouseEnter`: pause; the word stays. */
    method MouseEnter()
      requires Valid()
      modifies this`paused
      ensures Valid() && paused && index == old(index)
    {
      paused := true;
    }

    /** `onMouseLeave`: resume; the word stays. */
    method MouseLeave()
      requires Valid()
      modifies this`paused
      ensures Valid() && !paused && index == old(index)
    {
      paused := false;
    }

    /** `words[index]`; nothing is shown for an empty list. */
    function Displayed(): (w: Option<string>)
      requires Valid()
      reads this
      ensures w.Some? <==> |words| > 0
      ensures w.Some? ==> w.value in words
      ensures |words| > 0 ==> w == Some(words[index])
    {
      if index < |words| then Some(words[index]) else None
    }
  }
}
