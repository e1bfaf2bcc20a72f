/**
 * The scroll-jacking slide navigator of style/js/scroll-jack.js, stated on
 * values: the two counters the script keeps (`delta`, the accumulated wheel
 * ticks, and `currentSlideIndex`) together with the `active` class of every
 * slide, and one transition per wheel event. The class in scroll_jack.dfy
 * performs the same transitions in place and is proved equal to these
 * functions.
 */
module SlideNavigator {

  /** The free globals the script reads: `numSlides` and `scrollThreshold`. */
  datatype Config = Config(numSlides: int, threshold: int)

  /**
   * The navigator's state: the accumulated wheel ticks, the current slide
   * index and, per slide in page order, whether it carries the `active` class.
   */
  datatype Nav = Nav(delta: int, index: int, active: seq<bool>)

  /** The two fields of the browser's wheel event the handler looks at. */
  datatype Event = Wheel(detail: int, wheelDelta: int)

  /**
   * Direction test of the handler: `DOMMouseScroll` reports scrolling up as a
   * negative `detail`, `mousewheel` as a positive `wheelDelta`; every other
   * event counts as scrolling down.
   */
  predicate IsUp(e: Event) {
    e.detail < 0 || e.wheelDelta > 0
  }

  /** `Math.abs` on integers. */
  function Abs(x: int): int {
    if x < 0 then -x else x
  }

  /** The index lies in the range the clamps maintain, both ends included. */
  predicate InRange(c: Config, s: Nav) {
    0 <= s.index <= c.numSlides
  }

  /** The accumulated ticks have not reached the threshold in either direction. */
  predicate Calm(c: Config, s: Nav) {
    -c.threshold < s.delta < c.threshold
  }

  /**
   * The `active` flags show the index: a slide is active exactly when its
   * position is at or after the current index (a cumulative reveal).
   */
  predicate Displays(s: Nav) {
    forall i :: 0 <= i < |s.active| ==> s.active[i] == (i >= s.index)
  }

  /** `showSlide`: clears the accumulated ticks and re-renders every slide. */
  function Render(s: Nav): (r: Nav)
    ensures r.index == s.index && r.delta == 0
    ensures |r.active| == |s.active| && Displays(r)
  {
    Nav(0, s.index, seq(|s.active|, i => i >= s.index))
  }

  /** `prevSlide`: one slide back, saturating at the first slide, then render. */
  function Retreat(s: Nav): (r: Nav)
    ensures r.index >= 0
    ensures s.index > 0 ==> r.index == s.index - 1
    ensures s.index <= 0 ==> r.index == 0
    ensures r.delta == 0 && |r.active| == |s.active| && Displays(r)
  {
    var i := s.index - 1;
    Render(s.(index := if i < 0 then 0 else i))
  }

  /**
   * `nextSlide`: one slide forward, saturating at `numSlides` itself (not at
   * `numSlides - 1`), then render.
   */
  function Advance(c: Config, s: Nav): (r: Nav)
    ensures r.index <= c.numSlides
    ensures s.index < c.numSlides ==> r.index == s.index + 1
    ensures s.index >= c.numSlides ==> r.index == c.numSlides
    ensures r.delta == 0 && |r.active| == |s.active| && Displays(r)
  {
    var i := s.index + 1;
    Render(s.(index := if i > c.numSlides then c.numSlides else i))
  }

  /**
   * `elementScroll`: an up event takes one tick off and steps back once the
   * magnitude reaches the threshold; a down event adds one tick and steps
   * forward once the signed count reaches it.
   */
  function Scroll(c: Config, s: Nav, e: Event): (r: Nav)
    ensures |r.active| == |s.active|
    ensures r.index != s.index ==> r.delta == 0 && Displays(r)
    ensures r.delta != 0 ==>
              r.index == s.index && r.active == s.active &&
              r.delta == s.delta + (if IsUp(e) then -1 else 1)
    ensures InRange(c, s) ==> InRange(c, r)
    ensures InRange(c, s) && IsUp(e) ==> s.index - 1 <= r.index <= s.index
    ensures InRange(c, s) && !IsUp(e) ==> s.index <= r.index <= s.index + 1
    ensures 1 <= c.threshold && Calm(c, s) ==> Calm(c, r)
  {
    if IsUp(e) then
      var t := s.(delta := s.delta - 1);
      if Abs(t.delta) >= c.threshold then Retreat(t) else t
    else
      var t := s.(delta := s.delta + 1);
      if t.delta >= c.threshold then Advance(c, t) else t
  }

  /** The state after handling `events` one at a time, in order. */
  function Run(c: Config, s: Nav, events: seq<Event>): (r: Nav)
    ensures |r.active| == |s.active|
    decreases |events|
  {
    if events == [] then s else Run(c, Scroll(c, s, events[0]), events[1..])
  }

  predicate AllUp(events: seq<Event>) {
    forall j :: 0 <= j < |events| ==> IsUp(events[j])
  }

  predicate AllDown(events: seq<Event>) {
    forall j :: 0 <= j < |events| ==> !IsUp(events[j])
  }

  /** Bounds invariant: no sequence of wheel events takes the index out of `[0, numSlides]`. */
  lemma {:induction false} RunStaysInRange(c: Config, s: Nav, events: seq<Event>)
    requires InRange(c, s)
    ensures InRange(c, Run(c, s, events))
    decreases |events|
  {
    if events != [] {
      RunStaysInRange(c, Scroll(c, s, events[0]), events[1..]);
    }
  }

  /** With a positive threshold the accumulator stays strictly inside `(-threshold, threshold)`. */
  lemma {:induction false} RunStaysCalm(c: Config, s: Nav, events: seq<Event>)
    requires 1 <= c.threshold && Calm(c, s)
    ensures Calm(c, Run(c, s, events))
    decreases |events|
  {
    if events != [] {
      RunStaysCalm(c, Scroll(c, s, events[0]), events[1..]);
    }
  }

  /**
   * Under the bound that RunStaysCalm maintains, the magnitude test of an up
   * event fires exactly when the signed count reaches `-threshold`, and the
   * signed test of a down event exactly when it reaches `threshold`.
   */
  lemma CalmThresholdTests(c: Config, s: Nav)
    requires 1 <= c.threshold && Calm(c, s)
    ensures Abs(s.delta - 1) >= c.threshold <==> s.delta - 1 == -c.threshold
    ensures s.delta + 1 >= c.threshold <==> s.delta + 1 == c.threshold
  {
  }

  /** Fewer down events than the remaining distance to the threshold only count ticks. */
  lemma {:induction false} DownsBelowThreshold(c: Config, s: Nav, events: seq<Event>)
    requires AllDown(events)
    requires s.delta + |events| < c.threshold
    ensures Run(c, s, events) == s.(delta := s.delta + |events|)
    decreases |events|
  {
    if events != [] {
      assert !IsUp(events[0]);
      var t := Scroll(c, s, events[0]);
      assert t == s.(delta := s.delta + 1);
      DownsBelowThreshold(c, t, events[1..]);
    }
  }

  /**
   * Down events that bring the count exactly to the threshold move one slide
   * forward (saturating at `numSlides`) and reset the count.
   */
  lemma {:induction false} DownsReachThreshold(c: Config, s: Nav, events: seq<Event>)
    requires AllDown(events)
    requires 1 <= |events| && s.delta + |events| == c.threshold
    ensures Run(c, s, events) == Advance(c, s)
  {
    var n := |events| - 1;
    var before, last := events[..n], events[n];
    assert events == before + [last];
    RunAppend(c, s, before, [last]);
    assert AllDown(before);
    DownsBelowThreshold(c, s, before);
    assert !IsUp(last);
  }

  /** Up events whose running count stays clear of the threshold only take ticks off. */
  lemma {:induction false} UpsBelowThreshold(c: Config, s: Nav, events: seq<Event>)
    requires AllUp(events)
    requires s.delta <= c.threshold && -c.threshold < s.delta - |events|
    ensures Run(c, s, events) == s.(delta := s.delta - |events|)
    decreases |events|
  {
    if events != [] {
      assert IsUp(events[0]);
      var t := Scroll(c, s, events[0]);
      assert t == s.(delta := s.delta - 1);
      UpsBelowThreshold(c, t, events[1..]);
    }
  }

  /**
   * Up events that bring the count exactly to `-threshold` move one slide
   * back (saturating at 0) and reset the count.
   */
  lemma {:induction false} UpsReachThreshold(c: Config, s: Nav, events: seq<Event>)
    requires AllUp(events)
    requires 1 <= |events| && s.delta <= c.threshold && s.delta - |events| == -c.threshold
    ensures Run(c, s, events) == Retreat(s)
  {
    var n := |events| - 1;
    var before, last := events[..n], events[n];
    assert events == before + [last];
    RunAppend(c, s, before, [last]);
    assert AllUp(before);
    UpsBelowThreshold(c, s, before);
    assert IsUp(last);
  }

  /** Handling two batches of events in turn is handling their concatenation. */
  lemma {:induction false} RunAppend(c: Config, s: Nav, xs: seq<Event>, ys: seq<Event>)
    ensures Run(c, s, xs + ys) == Run(c, Run(c, s, xs), ys)
    decreases |xs|
  {
    if xs != [] {
      assert (xs + ys)[0] == xs[0];
      assert (xs + ys)[1..] == xs[1..] + ys;
      RunAppend(c, Scroll(c, s, xs[0]), xs[1..], ys);
    } else {
      assert xs + ys == ys;
    }
  }

  /** At index `numSlides` down events never move the index: no wrap-around. */
  lemma {:induction false} DownsAtLastSlide(c: Config, s: Nav, events: seq<Event>)
    requires AllDown(events) && s.index == c.numSlides
    ensures Run(c, s, events).index == c.numSlides
    decreases |events|
  {
    if events != [] {
      assert !IsUp(events[0]);
      DownsAtLastSlide(c, Scroll(c, s, events[0]), events[1..]);
    }
  }

  /** At index 0 up events never move the index: no wrap-around. */
  lemma {:induction false} UpsAtFirstSlide(c: Config, s: Nav, events: seq<Event>)
    requires AllUp(events) && s.index == 0
    ensures Run(c, s, events).index == 0
    decreases |events|
  {
    if events != [] {
      assert IsUp(events[0]);
      UpsAtFirstSlide(c, Scroll(c, s, events[0]), events[1..]);
    }
  }

  /**
   * Once the index has moved, the flags show it from then on: slides at or
   * after the current index are active and the others are not.
   */
  lemma {:induction false} RunDisplaysAfterTransition(c: Config, s: Nav, events: seq<Event>)
    requires Run(c, s, events).index != s.index
    ensures Displays(Run(c, s, events))
    decreases |events|
  {
    var t := Scroll(c, s, events[0]);
    if t.index != s.index {
      RunKeepsDisplay(c, t, events[1..]);
    } else {
      RunDisplaysAfterTransition(c, t, events[1..]);
    }
  }

  /** Every event keeps the flags in step with the index once they are. */
  lemma {:induction false} RunKeepsDisplay(c: Config, s: Nav, events: seq<Event>)
    requires Displays(s)
    ensures Displays(Run(c, s, events))
    decreases |events|
  {
    if events != [] {
      var t := Scroll(c, s, events[0]);
      assert t.index == s.index ==> t.active == s.active || t.delta == 0;
      RunKeepsDisplay(c, t, events[1..]);
    }
  }

  /**
   * The upper clamp lets the index step past the last slide: when `numSlides`
   * is the number of slides, down events that reach the threshold on the last
   * slide move to index `numSlides`, where no slide is active.
   */
  lemma PastLastSlideShowsNothing(c: Config, s: Nav, events: seq<Event>)
    requires 1 <= c.numSlides == |s.active| && s.index == c.numSlides - 1
    requires AllDown(events) && 1 <= |events| && s.delta + |events| == c.threshold
    ensures Run(c, s, events).index == c.numSlides
    ensures forall i :: 0 <= i < |s.active| ==> !Run(c, s, events).active[i]
  {
    DownsReachThreshold(c, s, events);
  }

  /**
   * How the direction test reads the two kinds of wheel event. A
   * `DOMMouseScroll` event has no `wheelDelta` and a `mousewheel` event has
   * `detail` 0; an absent field compares like 0 (`undefined < 0` and
   * `undefined > 0` are both false in JavaScript).
   */
  lemma DirectionByEventKind(detail: int, wheelDelta: int)
    ensures IsUp(Wheel(detail, 0)) <==> detail < 0
    ensures IsUp(Wheel(0, wheelDelta)) <==> wheelDelta > 0
    ensures IsUp(Wheel(detail, wheelDelta)) <==> !(detail >= 0 && wheelDelta <= 0)
  {
  }

  /**
   * Five slides rendered at index 0 with threshold 3: three down events move
   * to index 1, leaving slide 0 inactive and slides 1 to 4 active.
   */
  lemma ThreeDownsOnFiveSlides(events: seq<Event>)
    requires |events| == 3 && AllDown(events)
    ensures Run(Config(5, 3), Nav(0, 0, [true, true, true, true, true]), events)
         == Nav(0, 1, [false, true, true, true, true])
  {
    var c, s := Config(5, 3), Nav(0, 0, [true, true, true, true, true]);
    DownsReachThreshold(c, s, events);
    assert Advance(c, s).active == [false, true, true, true, true];
  }
}
