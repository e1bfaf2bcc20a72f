# Scroll-jacking slide navigator

A Dafny model of the slide navigator in `style/js/scroll-jack.js`. The
script turns mouse-wheel events into moves between full-page slides. It keeps
two global counters: `delta`, the wheel ticks accumulated since the last move,
and `currentSlideIndex`. Each event is classified as "up" (`detail < 0` or
`wheelDelta > 0`) or "down" and moves `delta` by one tick. An up event steps
back one slide once `Math.abs(delta)` reaches `scrollThreshold`. A down event
steps forward once `delta` itself reaches it. Every step clamps the index to
`[0, numSlides]`, then `showSlide` resets `delta` to 0 and marks every slide
at or after the current index `active`. This is a cumulative reveal, not a
single highlighted slide. The handler always returns `false`, so the browser
does not scroll the page itself.

Two modules:

- `SlideNavigator` (`slide_navigator.dfy`) states the navigator on values. A
  state `Nav` holds `delta`, the index and the per-slide `active` flags.
  `Render`, `Retreat`, `Advance` and `Scroll` are the transitions of
  `showSlide`, `prevSlide`, `nextSlide` and `elementScroll`. `Run` handles a
  sequence of events in order. The lemmas prove what any sequence of events
  does.
- `ScrollJack` (`scroll_jack.dfy`) holds the class `Navigator`. Its fields
  are the two counters, the `numSlides` and `scrollThreshold` globals, and an
  `array<bool>` of active flags. Its methods update these fields in place, as
  the script's functions do. Each method is proved equal to its transition
  function through `View()`.

The clamp is at `numSlides` inclusive, not `numSlides - 1`
(`scroll-jack.js:58-59`), so the index can reach one past the last slide when
`numSlides` is the slide count. No slide is then active
(`PastLastSlideShowsNothing`). The number of slides (the length of the
flag array) and `numSlides` are kept apart, because the script reads both as
independent globals.

The up test uses `Math.abs(delta)` and the down test uses the signed `delta`.
Both are modelled as written. `CalmThresholdTests` shows that the two tests
agree while the accumulator stays in `(-threshold, threshold)`, and
`RunStaysCalm` proves that it always does.

## Model

| member | source | states |
|---|---|---|
| SlideNavigator.Render | style/js/scroll-jack.js:31-40 | keeps the index, resets the accumulator to 0, keeps the slide count, and marks slide i active exactly when i >= index |
| SlideNavigator.Retreat | style/js/scroll-jack.js:43-52 | the index drops by one from a positive index and lands on 0 otherwise (never negative); then the slides are rendered with the accumulator at 0 |
| SlideNavigator.Advance | style/js/scroll-jack.js:54-63 | the index rises by one below numSlides and lands on numSlides otherwise (never above it); then the slides are rendered with the accumulator at 0 |
| SlideNavigator.Scroll | style/js/scroll-jack.js:4-28 | one event: the slide count is fixed; a changed index comes with a reset accumulator and rendered flags; a nonzero accumulator means only a tick was counted (-1 up, +1 down); an in-range index stays in range, up moves back by at most one and down forward by at most one; with threshold >= 1 the accumulator stays inside (-threshold, threshold) |
| SlideNavigator.Run | style/js/scroll-jack.js:4-28 | handling a sequence of events never changes the number of slides |
| SlideNavigator.RunStaysInRange | style/js/scroll-jack.js:43-63 | from an index in [0, numSlides], every sequence of events leaves it in [0, numSlides] |
| SlideNavigator.RunStaysCalm | style/js/scroll-jack.js:6-24 | with threshold >= 1 and the accumulator inside (-threshold, threshold), every sequence of events keeps it there |
| SlideNavigator.CalmThresholdTests | style/js/scroll-jack.js:11-21 | inside that bound the magnitude test of an up event fires exactly when the count reaches -threshold, and the down test exactly when it reaches threshold |
| SlideNavigator.DownsBelowThreshold | style/js/scroll-jack.js:17-23 | down events that do not bring the count to the threshold add one tick each and change nothing else |
| SlideNavigator.DownsReachThreshold | style/js/scroll-jack.js:17-23 | down events that bring the count exactly to the threshold give the state of one nextSlide: next index, saturating at numSlides, and accumulator 0 |
| SlideNavigator.UpsBelowThreshold | style/js/scroll-jack.js:6-14 | up events that keep the count above -threshold take one tick off each and change nothing else |
| SlideNavigator.UpsReachThreshold | style/js/scroll-jack.js:6-14 | up events that bring the count exactly to -threshold give the state of one prevSlide: previous index, saturating at 0, and accumulator 0 |
| SlideNavigator.DownsAtLastSlide | style/js/scroll-jack.js:56-60 | at index numSlides, down events never change the index (no wrap-around) |
| SlideNavigator.UpsAtFirstSlide | style/js/scroll-jack.js:45-49 | at index 0, up events never change the index (no wrap-around) |
| SlideNavigator.RunDisplaysAfterTransition | style/js/scroll-jack.js:36-38 | once a sequence of events has moved the index, the flags mark exactly the slides at or after the new index |
| SlideNavigator.RunKeepsDisplay | style/js/scroll-jack.js:36-38 | once the flags show the index, every later event keeps them in step with it |
| SlideNavigator.PastLastSlideShowsNothing | style/js/scroll-jack.js:56-62 | when numSlides is the number of slides, down events reaching the threshold on the last slide move to index numSlides, and then no slide is active |
| SlideNavigator.IsUp | style/js/scroll-jack.js:7 | an event is up exactly when detail < 0 or wheelDelta > 0, down otherwise |
| SlideNavigator.DirectionByEventKind | style/js/scroll-jack.js:7 | a DOMMouseScroll event (no wheelDelta) is up exactly when detail < 0, a mousewheel event (detail 0) exactly when wheelDelta > 0; an event is down exactly when detail >= 0 and wheelDelta <= 0 |
| SlideNavigator.ThreeDownsOnFiveSlides | style/js/scroll-jack.js:17-23 | five slides, threshold 3, index 0: three down events move to index 1, with slide 0 inactive and slides 1 to 4 active |
| ScrollJack.Navigator.constructor | style/js/scroll-jack.js:1-2 | the index starts at 0 and the accumulator at 0; the slides keep their initial flags |
| ScrollJack.Navigator.ShowSlide | style/js/scroll-jack.js:31-40 | resets delta to 0, keeps the index, sets each flag in place to i >= index, changes nothing else, and keeps the class invariant |
| ScrollJack.Navigator.PrevSlide | style/js/scroll-jack.js:43-52 | the new state is Retreat of the old one; from an in-range index the class invariant holds afterwards |
| ScrollJack.Navigator.NextSlide | style/js/scroll-jack.js:54-63 | the new state is Advance of the old one; from an in-range index the class invariant holds afterwards |
| ScrollJack.Navigator.ElementScroll | style/js/scroll-jack.js:4-28 | classifies the event by detail < 0 or wheelDelta > 0; the new state is Scroll of the old one; the class invariant is kept; the result is always false (native scrolling suppressed) |

## Left out

- `Gulpfile.js`: SCSS compilation, file watching and live reload run through third-party plugins. It is build glue with no logic of its own.
- The jQuery binding of the handler to `DOMMouseScroll` and `mousewheel` (`scroll-jack.js:65-67`). The browser delivers events one at a time, so a run of the handler is a sequence of calls (`Run`). Event-dispatch order and concurrency are not modelled.
- Absent event fields: a `DOMMouseScroll` event has no `wheelDelta` and a `mousewheel` event has `detail` 0. `Event` takes both fields as integers and an absent one as 0, which loses nothing: `undefined < 0` and `undefined > 0` are both false, as for 0 (`DirectionByEventKind`).
- DOM class toggling with `$(slide).toggleClass` (`scroll-jack.js:37`). Each slide is a boolean flag in an array.
- ScrollJack.Navigator.constructor: the script declares `delta` without a value (`scroll-jack.js:1`). In JavaScript it is `undefined` and becomes `NaN` after the first `++`/`--`, and then neither threshold test can fire until something calls `showSlide`. The model starts `delta` at 0 and does not model `NaN` arithmetic.
- ScrollJack.Navigator.constructor: `slides`, `numSlides` and `scrollThreshold` are globals defined outside this repository. The constructor takes them as parameters and requires `numSlides >= 0` and `scrollThreshold >= 1`. The class invariant `Valid()` depends on both. The transition functions of `SlideNavigator` place no such requirement, and their lemmas state their own conditions.
- JavaScript numbers are doubles. The counters are modelled as unbounded integers, which agree with doubles for any count of events short of 2^53.
