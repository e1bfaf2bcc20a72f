/**
 * The script's global state and its four handlers, as a class whose fields
 * the handlers update in place. Each method is proved to perform the
 * transition the matching function of SlideNavigator describes.
 */
module ScrollJack {
  import opened SlideNavigator

  class Navigator {
    /** Accumulated wheel ticks since the last render (`delta`). */
    var delta: int
    /** The current slide (`currentSlideIndex`). */
    var index: int
    /** The `numSlides` global: the upper clamp of the index. */
    const numSlides: int
    /** The `scrollThreshold` global. */
    const threshold: int
    /** Per slide in page order, whether it carries the `active` class. */
    const active: array<bool>

    /** The configuration the handlers read. */
    function Cfg(): Config {
      Config(numSlides, threshold)
    }

    /** The state as a value of the model. */
    function View(): Nav
      reads this, active
    {
      Nav(delta, index, active[..])
    }

    /** The index lies within the clamps and the accumulator below the threshold. */
    ghost predicate Valid()
      reads this
    {
      1 <= threshold && 0 <= index <= numSlides && -threshold < delta < threshold
    }

    /**
     * Page load: the index starts at 0 and, unlike the script, the accumulator
     * at 0; the slides keep the classes the page gave them.
     */
    constructor (numSlides: int, threshold: int, initialActive: seq<bool>)
      requires 0 <= numSlides && 1 <= threshold
      ensures Valid() && fresh(active)
      ensures Cfg() == Config(numSlides, threshold)
      ensures View() == Nav(0, 0, initialActive)
    {
      this.numSlides := numSlides;
      this.threshold := threshold;
      delta := 0;
      index := 0;
      active := new bool[|initialActive|](i requires 0 <= i < |initialActive| => initialActive[i]);
    }

    /** `showSlide`: reset the accumulator, then set every slide's flag in place. */
    method ShowSlide()
      modifies this`delta, active
      ensures delta == 0 && index == old(index)
      ensures forall i :: 0 <= i < active.Length ==> active[i] == (i >= index)
      ensures View() == Render(old(View()))
      ensures old(Valid()) ==> Valid()
    {
      delta := 0;
      var i := 0;
      while i < active.Length
        invariant 0 <= i <= active.Length && delta == 0
        invariant forall k :: 0 <= k < i ==> active[k] == (k >= index)
      {
        active[i] := i >= index;
        i := i + 1;
      }
      assert active[..] == Render(old(View())).active;
    }

    /** `prevSlide`: step back, clamp at 0, render. */
    method PrevSlide()
      modifies this`delta, this`index, active
      ensures View() == Retreat(old(View()))
      ensures 1 <= threshold && old(0 <= index <= numSlides) ==> Valid()
    {
      index := index - 1;
      if index < 0 {
        index := 0;
      }
      ShowSlide();
    }

    /** `nextSlide`: step forward, clamp at `numSlides`, render. */
    method NextSlide()
      modifies this`delta, this`index, active
      ensures View() == Advance(Cfg(), old(View()))
      ensures 1 <= threshold && old(0 <= index <= numSlides) ==> Valid()
    {
      index := index + 1;
      if index > numSlides {
        index := numSlides;
      }
      ShowSlide();
    }

    /**
     * `elementScroll`: handle one wheel event. The result is the handler's
     * return value; it is always false, which makes jQuery cancel the
     * browser's own scrolling.
     */
    method ElementScroll(detail: int, wheelDelta: int) returns (propagate: bool)
      requires Valid()
      modifies this`delta, this`index, active
      ensures Valid()
      ensures !propagate
      ensures View() == Scroll(Cfg(), old(View()), Wheel(detail, wheelDelta))
    {
      ghost var before := View();
      if detail < 0 || wheelDelta > 0 {
        delta := delta - 1;
        if Abs(delta) >= threshold {
          PrevSlide();
        }
      } else {
        delta := delta + 1;
        if delta >= threshold {
          NextSlide();
        }
      }
      propagate := false;
      assert Calm(Cfg(), before) && InRange(Cfg(), before);
    }
  }
}
