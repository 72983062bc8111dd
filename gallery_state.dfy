/** The state of the `WeddingGallery` carousel (scripts/gallery.js) as a value,
    and one function per operation giving the state it leaves behind. The class
    in module Gallery keeps the same state in fields and is proved to follow
    these functions step by step. `goToSlide` is split at its `await`: the
    first half is BeginTransition, the continuation after the fixed delay is
    CompleteTransition. Timers are explicit: `autoPlayArmed` is a non-null
    interval handle, a firing of any live interval is AutoPlayTick. */
module GalleryState {
  import opened Wrappers
  import opened GalleryHash
  import opened ModArith

  /** The CSS classes the controller toggles on a slide. */
  datatype SlideClass = Active | Prev | Next

  /** A transition direction: 'next' (forward) or 'prev' (backward). */
  datatype Direction = Forward | Backward

  /** The `direction` argument of goToSlide: 'auto' or an explicit one. */
  datatype DirectionArg = Auto | Given(dir: Direction)

  /** The keys the keydown listeners distinguish (`e.key`). */
  datatype Key = ArrowLeft | ArrowRight | Space | Home | End | Escape | OtherKey

  datatype Swipe = SwipeNext | SwipePrevious | NoSwipe

  const SwipeThreshold: int := 50

  datatype Carousel = Carousel(
    currentSlide: nat,
    totalSlides: nat,
    classes: seq<set<SlideClass>>,  // the class list of each slide element
    isAnimating: bool,
    transitionFrom: nat,            // `oldSlide` of the goToSlide waiting to complete
    isAutoPlaying: bool,
    autoPlayArmed: bool,            // `autoPlayInterval` is not null
    leakedIntervals: nat,           // intervals still running whose handle was overwritten
    touchStartX: int,
    touchEndX: int,
    hasDotsContainer: bool,         // `.gallery-dots` exists once createDots has run: it was in the page, or `.gallery-nav` was there to hold a new one
    dots: seq<bool>,                // dot i holds 'active'
    hash: string,                   // window.location.hash
    overlays: nat,                  // `.gallery-fullscreen` elements in the document
    fullscreenKeyHandlers: nat,     // keydown listeners added by openFullscreen
    latestKeyHandlerAttached: bool) // the listener `this.fullscreenKeyHandler` names is still registered

  /** What every operation preserves. */
  predicate Consistent(c: Carousel) {
    && c.totalSlides >= 1
    && |c.classes| == c.totalSlides
    && c.currentSlide < c.totalSlides
    && c.transitionFrom < c.totalSlides
    && (if c.hasDotsContainer then |c.dots| == c.totalSlides else c.dots == [])
    && (c.autoPlayArmed ==> c.isAutoPlaying && c.totalSlides > 1)
    && (c.leakedIntervals > 0 ==> c.totalSlides > 1)
    && (c.latestKeyHandlerAttached ==> c.fullscreenKeyHandlers > 0)
  }

  /** Slide j carries 'active' exactly when j is the current slide. */
  predicate ActiveOnlyAtCurrent(c: Carousel) {
    forall j :: 0 <= j < |c.classes| ==> (Active in c.classes[j] <==> j == c.currentSlide)
  }

  /** Dot i is marked active exactly when i == k. */
  predicate DotsShow(dots: seq<bool>, k: int) {
    forall i :: 0 <= i < |dots| ==> (dots[i] <==> i == k)
  }

  function DotsFor(n: nat, k: int): (ds: seq<bool>)
    ensures |ds| == n && DotsShow(ds, k)
  {
    seq(n, i => i == k)
  }

  // ----- construction -------------------------------------------------------

  /** `createNavigation`: rebuild one dot per slide, dot 0 marked active. */
  function CreateNavigation(c: Carousel): (r: Carousel)
    ensures c.hasDotsContainer ==> r == c.(dots := r.dots) && |r.dots| == c.totalSlides && DotsShow(r.dots, 0)
    ensures !c.hasDotsContainer ==> r == c
  {
    if c.hasDotsContainer then c.(dots := DotsFor(c.totalSlides, 0)) else c
  }

  /** The constructor and `init`: first slide active, dots built, autoplay started. */
  function Init(slideCount: nat, hasDotsContainer: bool, hash: string): (c: Carousel)
    requires slideCount >= 1
    ensures Consistent(c) && ActiveOnlyAtCurrent(c)
    ensures c.currentSlide == 0 && c.totalSlides == slideCount && !c.isAnimating
    ensures c.isAutoPlaying && (c.autoPlayArmed <==> slideCount > 1) && c.leakedIntervals == 0
    ensures DotsShow(c.dots, 0) && c.hash == hash && c.overlays == 0
  {
    var classes := [{Active}] + seq(slideCount - 1, _ => {});
    assert forall j :: 1 <= j < slideCount ==> classes[j] == {};
    var c0 := Carousel(0, slideCount, classes, false, 0, true, false, 0, 0, 0,
                       hasDotsContainer, [], hash, 0, 0, false);
    StartAutoPlay(CreateNavigation(c0))
  }

  // ----- autoplay -----------------------------------------------------------

  /** `startAutoPlay`: arms an interval only when autoplay is on and there is
      more than one slide; arming over a live handle orphans that interval. */
  function StartAutoPlay(c: Carousel): (r: Carousel)
    ensures r == c.(autoPlayArmed := r.autoPlayArmed, leakedIntervals := r.leakedIntervals)
    ensures r.autoPlayArmed && !c.autoPlayArmed ==> c.isAutoPlaying && c.totalSlides > 1
    ensures c.isAutoPlaying && c.totalSlides > 1 ==> r.autoPlayArmed
    ensures r.leakedIntervals == c.leakedIntervals + (if c.autoPlayArmed && c.isAutoPlaying && c.totalSlides > 1 then 1 else 0)
  {
    if !c.isAutoPlaying || c.totalSlides <= 1 then c
    else c.(autoPlayArmed := true, leakedIntervals := c.leakedIntervals + if c.autoPlayArmed then 1 else 0)
  }

  /** `stopAutoPlay`: clears the interval the handle names and nulls the handle. */
  function StopAutoPlay(c: Carousel): (r: Carousel)
    ensures !r.autoPlayArmed && r == c.(autoPlayArmed := false)
  {
    if c.autoPlayArmed then c.(autoPlayArmed := false) else c
  }

  /** `resetAutoPlay`: nothing when autoplay is off; otherwise a fresh interval
      (when there is more than one slide) and never an orphaned one. */
  function ResetAutoPlay(c: Carousel): (r: Carousel)
    requires Consistent(c)
    ensures Consistent(r)
    ensures !c.isAutoPlaying ==> r == c
    ensures c.isAutoPlaying ==> r == c.(autoPlayArmed := c.totalSlides > 1)
  {
    if c.isAutoPlaying then StartAutoPlay(StopAutoPlay(c)) else c
  }

  /** `toggleAutoPlay`: flips the flag (the value it returns) and arms or clears the timer to match. */
  function ToggleAutoPlay(c: Carousel): (r: Carousel)
    requires Consistent(c)
    ensures Consistent(r)
    ensures r.isAutoPlaying == !c.isAutoPlaying
    ensures r.autoPlayArmed <==> r.isAutoPlaying && c.totalSlides > 1
    ensures r == c.(isAutoPlaying := r.isAutoPlaying, autoPlayArmed := r.autoPlayArmed)
  {
    var c1 := c.(isAutoPlaying := !c.isAutoPlaying);
    if c1.isAutoPlaying then StartAutoPlay(c1) else StopAutoPlay(c1)
  }

  /** The `visibilitychange` listener. Becoming visible while a handle is still
      live (it was re-armed by a navigation while hidden) orphans an interval. */
  function VisibilityChange(c: Carousel, hidden: bool): (r: Carousel)
    requires Consistent(c)
    ensures Consistent(r)
    ensures hidden ==> r == c.(autoPlayArmed := false)
    ensures !hidden ==> (r.autoPlayArmed <==> c.isAutoPlaying && c.totalSlides > 1)
    ensures !hidden ==> r.leakedIntervals == c.leakedIntervals + (if c.autoPlayArmed then 1 else 0)
    ensures r == c.(autoPlayArmed := r.autoPlayArmed, leakedIntervals := r.leakedIntervals)
  {
    if hidden then StopAutoPlay(c)
    else if c.isAutoPlaying then StartAutoPlay(c)
    else c
  }

  // ----- navigation ---------------------------------------------------------

  /** The animation direction goToSlide computes. */
  function Resolve(dir: DirectionArg, index: nat, current: nat): Direction {
    match dir
    case Auto => if index > current then Forward else Backward
    case Given(d) => d
  }

  /** The class the incoming slide gets: the direction's own name. */
  function EntryClass(d: Direction): SlideClass {
    if d == Forward then Next else Prev
  }

  /** The class the outgoing slide gets: the opposite name. */
  function ExitClass(d: Direction): SlideClass {
    if d == Forward then Prev else Next
  }

  /** goToSlide up to its `await` (scripts/gallery.js:229-249). */
  function BeginTransition(c: Carousel, index: nat, dir: DirectionArg): (r: Carousel)
    requires Consistent(c) && index < c.totalSlides
    ensures Consistent(r) && r.totalSlides == c.totalSlides
    ensures c.isAnimating || index == c.currentSlide ==> r == c
    ensures !c.isAnimating && index != c.currentSlide ==>
      && r.isAnimating && r.currentSlide == index && r.transitionFrom == c.currentSlide
      && Active !in r.classes[c.currentSlide] && Active in r.classes[index]
      && (forall j :: 0 <= j < c.totalSlides && j != index && j != c.currentSlide ==> r.classes[j] == c.classes[j])
      && r == ResetAutoPlay(c).(isAnimating := true, currentSlide := index,
                                transitionFrom := c.currentSlide, classes := r.classes)
    ensures !c.isAnimating && index != c.currentSlide &&
            ((dir == Auto && index > c.currentSlide) || dir == Given(Forward)) ==>
      Next in r.classes[index] && Prev in r.classes[c.currentSlide]
    ensures !c.isAnimating && index != c.currentSlide &&
            ((dir == Auto && index < c.currentSlide) || dir == Given(Backward)) ==>
      Prev in r.classes[index] && Next in r.classes[c.currentSlide]
    ensures ActiveOnlyAtCurrent(c) ==> ActiveOnlyAtCurrent(r)
  {
    if c.isAnimating || index == c.currentSlide then c
    else
      var d := Resolve(dir, index, c.currentSlide);
      var c1 := ResetAutoPlay(c.(isAnimating := true));
      var leaving := c.currentSlide;
      var cls := c1.classes[leaving := c1.classes[leaving] - {Active} + {ExitClass(d)}];
      var cls2 := cls[index := cls[index] + {Active, EntryClass(d)}];
      c1.(currentSlide := index, transitionFrom := leaving, classes := cls2)
  }

  /** `updateDots`: every dot marked active exactly when it is the current slide's. */
  function UpdateDots(c: Carousel): (r: Carousel)
    ensures |r.dots| == |c.dots| && DotsShow(r.dots, c.currentSlide) && r == c.(dots := r.dots)
  {
    c.(dots := DotsFor(|c.dots|, c.currentSlide))
  }

  /** `updateURLHash`: `#gallery-<currentSlide + 1>`, replaced only when different. */
  function UpdateURLHash(c: Carousel): (r: Carousel)
    ensures r.hash == HashFor(c.currentSlide) && r == c.(hash := r.hash)
  {
    var h := HashFor(c.currentSlide);
    if c.hash != h then c.(hash := h) else c
  }

  /** goToSlide after its `await` (scripts/gallery.js:255-264). It cleans the
      slide it left and the slide that is current now (read afresh). */
  function CompleteTransition(c: Carousel): (r: Carousel)
    requires Consistent(c) && c.isAnimating
    ensures Consistent(r) && r.totalSlides == c.totalSlides
    ensures !r.isAnimating && r.currentSlide == c.currentSlide
    ensures Prev !in r.classes[c.transitionFrom] && Next !in r.classes[c.transitionFrom]
    ensures Prev !in r.classes[r.currentSlide] && Next !in r.classes[r.currentSlide]
    ensures forall j :: 0 <= j < r.totalSlides ==> (Active in r.classes[j] <==> Active in c.classes[j])
    ensures forall j :: 0 <= j < r.totalSlides && j != c.transitionFrom && j != c.currentSlide ==>
              r.classes[j] == c.classes[j]
    ensures |r.dots| == |c.dots| && DotsShow(r.dots, r.currentSlide)
    ensures r.hash == HashFor(r.currentSlide)
    ensures r == c.(isAnimating := false, classes := r.classes, dots := r.dots, hash := r.hash)
    ensures ActiveOnlyAtCurrent(c) ==> ActiveOnlyAtCurrent(r)
  {
    var leaving := c.transitionFrom;
    var cls := c.classes[leaving := c.classes[leaving] - {Prev, Next}];
    var cls2 := cls[c.currentSlide := cls[c.currentSlide] - {Next, Prev}];
    var c1 := UpdateDots(c.(classes := cls2));
    var c2 := UpdateURLHash(c1);
    c2.(isAnimating := false)
  }

  function NextIndex(current: nat, total: nat): nat
    requires total > 0
  {
    (current + 1) % total
  }

  function PreviousIndex(current: nat, total: nat): nat
    requires total > 0
  {
    (current - 1 + total) % total
  }

  /** Both targets stay in range and wrap around at the ends; with one slide
      both are the current slide; each undoes the other. */
  lemma IndexArithmetic(current: nat, total: nat)
    requires current < total
    ensures NextIndex(current, total) < total && PreviousIndex(current, total) < total
    ensures NextIndex(current, total) == if current == total - 1 then 0 else current + 1
    ensures PreviousIndex(current, total) == if current == 0 then total - 1 else current - 1
    ensures PreviousIndex(NextIndex(current, total), total) == current
    ensures NextIndex(PreviousIndex(current, total), total) == current
  {
    var next, prev := NextIndex(current, total), PreviousIndex(current, total);
    if current == total - 1 {
      ModOfMultiplePlus(1, total, 0);
      assert next == 0;
    } else {
      SmallMod(current + 1, total);
    }
    if current == 0 {
      SmallMod(total - 1, total);
      assert prev == total - 1;
    } else {
      ModOfMultiplePlus(1, total, current - 1);
      assert prev == current - 1;
    }
    if next == 0 {
      SmallMod(total - 1, total);
    } else {
      ModOfMultiplePlus(1, total, current);
    }
    if current == 0 {
      ModOfMultiplePlus(1, total, 0);
    } else {
      SmallMod(current, total);
    }
  }

  /** `nextSlide`. */
  function NextSlide(c: Carousel): (r: Carousel)
    requires Consistent(c)
    ensures Consistent(r)
    ensures c.totalSlides == 1 ==> r == c
    ensures r == BeginTransition(c, NextIndex(c.currentSlide, c.totalSlides), Given(Forward))
  {
    IndexArithmetic(c.currentSlide, c.totalSlides);
    BeginTransition(c, NextIndex(c.currentSlide, c.totalSlides), Given(Forward))
  }

  /** `previousSlide`. */
  function PreviousSlide(c: Carousel): (r: Carousel)
    requires Consistent(c)
    ensures Consistent(r)
    ensures c.totalSlides == 1 ==> r == c
    ensures r == BeginTransition(c, PreviousIndex(c.currentSlide, c.totalSlides), Given(Backward))
  {
    IndexArithmetic(c.currentSlide, c.totalSlides);
    BeginTransition(c, PreviousIndex(c.currentSlide, c.totalSlides), Given(Backward))
  }

  /** A firing of any live autoplay interval. */
  function AutoPlayTick(c: Carousel): (r: Carousel)
    requires Consistent(c) && (c.autoPlayArmed || c.leakedIntervals > 0)
    ensures Consistent(r) && r == NextSlide(c)
  {
    NextSlide(c)
  }

  // ----- gestures -----------------------------------------------------------

  function Abs(x: int): nat {
    if x < 0 then -x else x
  }

  /** `handleSwipe`'s decision on `diff = touchStartX - touchEndX`. */
  function SwipeFor(diff: int): (s: Swipe)
    ensures s == SwipeNext <==> diff > SwipeThreshold
    ensures s == SwipePrevious <==> diff < -SwipeThreshold
    ensures s == NoSwipe <==> -SwipeThreshold <= diff <= SwipeThreshold
  {
    if Abs(diff) > SwipeThreshold then (if diff > 0 then SwipeNext else SwipePrevious) else NoSwipe
  }

  function HandleSwipe(c: Carousel): (r: Carousel)
    requires Consistent(c)
    ensures Consistent(r)
  {
    match SwipeFor(c.touchStartX - c.touchEndX)
    case SwipeNext => NextSlide(c)
    case SwipePrevious => PreviousSlide(c)
    case NoSwipe => c
  }

  /** The `touchstart` listener. */
  function TouchStart(c: Carousel, x: int): (r: Carousel)
    ensures r == c.(touchStartX := x)
  {
    c.(touchStartX := x)
  }

  /** The `touchend` listener. */
  function TouchEnd(c: Carousel, x: int): (r: Carousel)
    requires Consistent(c)
    ensures Consistent(r)
    ensures -SwipeThreshold <= c.touchStartX - x <= SwipeThreshold ==> r == c.(touchEndX := x)
    ensures c.touchStartX - x > SwipeThreshold ==> r == NextSlide(c.(touchEndX := x))
    ensures c.touchStartX - x < -SwipeThreshold ==> r == PreviousSlide(c.(touchEndX := x))
  {
    HandleSwipe(c.(touchEndX := x))
  }

  /** The `wheel` listener: down is next, anything else (zero included) is previous. */
  function Wheel(c: Carousel, deltaY: int): (r: Carousel)
    requires Consistent(c)
    ensures Consistent(r)
    ensures r == if deltaY > 0 then NextSlide(c) else PreviousSlide(c)
  {
    if deltaY > 0 then NextSlide(c) else PreviousSlide(c)
  }

  // ----- fullscreen ---------------------------------------------------------

  /** `openFullscreen(index)`: one more overlay and one more keydown listener,
      which becomes the one `this.fullscreenKeyHandler` names; the carousel
      index is not touched. */
  function OpenFullscreen(c: Carousel, index: nat): (r: Carousel)
    requires Consistent(c) && index < c.totalSlides
    ensures Consistent(r)
    ensures r == c.(overlays := c.overlays + 1, fullscreenKeyHandlers := c.fullscreenKeyHandlers + 1,
                    latestKeyHandlerAttached := true)
  {
    c.(overlays := c.overlays + 1, fullscreenKeyHandlers := c.fullscreenKeyHandlers + 1,
       latestKeyHandlerAttached := true)
  }

  /** `closeFullscreen`: removes the first overlay, if any. */
  function CloseFullscreen(c: Carousel): (r: Carousel)
    ensures r == c.(overlays := if c.overlays > 0 then c.overlays - 1 else 0)
  {
    if c.overlays > 0 then c.(overlays := c.overlays - 1) else c
  }

  /** `updateFullscreenView(index)`: with an overlay present, moves the index
      and the dots at once, whatever the transition lock says, and leaves every
      slide's classes as they are. */
  function UpdateFullscreenView(c: Carousel, index: nat): (r: Carousel)
    requires Consistent(c) && index < c.totalSlides
    ensures Consistent(r)
    ensures c.overlays == 0 ==> r == c
    ensures c.overlays > 0 ==> r.currentSlide == index && |r.dots| == |c.dots| && DotsShow(r.dots, index)
    ensures c.overlays > 0 ==> r == c.(currentSlide := index, dots := r.dots)
  {
    if c.overlays > 0 then UpdateDots(c.(currentSlide := index)) else c
  }

  function FullscreenNext(c: Carousel): (r: Carousel)
    requires Consistent(c)
    ensures Consistent(r)
    ensures r == UpdateFullscreenView(c, NextIndex(c.currentSlide, c.totalSlides))
  {
    IndexArithmetic(c.currentSlide, c.totalSlides);
    UpdateFullscreenView(c, NextIndex(c.currentSlide, c.totalSlides))
  }

  function FullscreenPrevious(c: Carousel): (r: Carousel)
    requires Consistent(c)
    ensures Consistent(r)
    ensures r == UpdateFullscreenView(c, PreviousIndex(c.currentSlide, c.totalSlides))
  {
    IndexArithmetic(c.currentSlide, c.totalSlides);
    UpdateFullscreenView(c, PreviousIndex(c.currentSlide, c.totalSlides))
  }

  /** `destroy`: stops autoplay and removes the fullscreen listener added
      last, if it is still registered. The earlier fullscreen listeners, the
      other listeners, the overlays and any orphaned interval stay. */
  function Destroy(c: Carousel): (r: Carousel)
    requires Consistent(c)
    ensures Consistent(r)
    ensures !r.autoPlayArmed && !r.latestKeyHandlerAttached
    ensures r.fullscreenKeyHandlers == c.fullscreenKeyHandlers - (if c.latestKeyHandlerAttached then 1 else 0)
    ensures r == c.(autoPlayArmed := false, fullscreenKeyHandlers := r.fullscreenKeyHandlers,
                    latestKeyHandlerAttached := false)
  {
    var c1 := StopAutoPlay(c);
    if c1.latestKeyHandlerAttached then
      c1.(fullscreenKeyHandlers := c1.fullscreenKeyHandlers - 1, latestKeyHandlerAttached := false)
    else c1
  }

  // ----- keyboard -----------------------------------------------------------

  /** The keydown listener added by `addEventListeners`; it ignores keys typed
      into an INPUT or TEXTAREA and keys while an overlay is open. */
  function MainKeyHandler(c: Carousel, key: Key, inTextField: bool): (r: Carousel)
    requires Consistent(c)
    ensures Consistent(r)
    ensures inTextField || c.overlays > 0 ==> r == c
  {
    if inTextField || c.overlays > 0 then c
    else
      match key
      case ArrowLeft => PreviousSlide(c)
      case ArrowRight => NextSlide(c)
      case Space => ToggleAutoPlay(c)
      case Home => BeginTransition(c, 0, Auto)
      case End => BeginTransition(c, c.totalSlides - 1, Auto)
      case _ => c
  }

  /** One keydown listener added by `setupFullscreenKeyboard`. */
  function FullscreenKeyHandler(c: Carousel, key: Key): (r: Carousel)
    requires Consistent(c)
    ensures Consistent(r)
    ensures r.fullscreenKeyHandlers == c.fullscreenKeyHandlers
  {
    if c.overlays == 0 then c
    else
      match key
      case ArrowLeft => FullscreenPrevious(c)
      case ArrowRight => FullscreenNext(c)
      case Escape => CloseFullscreen(c)
      case Space => ToggleAutoPlay(c)
      case _ => c
  }

  /** The first `k` fullscreen listeners, run in the order they were added. */
  function FullscreenKeyHandlers(c: Carousel, key: Key, k: nat): (r: Carousel)
    requires Consistent(c)
    ensures Consistent(r)
    ensures r.fullscreenKeyHandlers == c.fullscreenKeyHandlers
    decreases k
  {
    if k == 0 then c else FullscreenKeyHandler(FullscreenKeyHandlers(c, key, k - 1), key)
  }

  /** One keydown event: the main listener, then every fullscreen listener. */
  function KeyDown(c: Carousel, key: Key, inTextField: bool): (r: Carousel)
    requires Consistent(c)
    ensures Consistent(r)
  {
    var c1 := MainKeyHandler(c, key, inTextField);
    FullscreenKeyHandlers(c1, key, c1.fullscreenKeyHandlers)
  }

  // ----- URL hash and dynamic slides ----------------------------------------

  /** `checkURLHash`: navigates to `n - 1` for the first `gallery-<n>` in the
      fragment, only when that is a slide; otherwise nothing. */
  function CheckURLHash(c: Carousel): (r: Carousel)
    requires Consistent(c)
    ensures Consistent(r)
    ensures ParseHash(c.hash).None? ==> r == c
    ensures ParseHash(c.hash).Some? && !(1 <= ParseHash(c.hash).value <= c.totalSlides) ==> r == c
    ensures ParseHash(c.hash).Some? && 1 <= ParseHash(c.hash).value <= c.totalSlides ==>
              r == BeginTransition(c, ParseHash(c.hash).value - 1, Auto)
  {
    match ParseHash(c.hash)
    case None => c
    case Some(n) => if 1 <= n <= c.totalSlides then BeginTransition(c, n - 1, Auto) else c
  }

  /** `addSlide`: one more slide with none of the controller's classes; the
      dots are rebuilt with dot 0 marked, while the index stays where it was. */
  function AddSlide(c: Carousel): (r: Carousel)
    requires Consistent(c)
    ensures Consistent(r)
    ensures r.totalSlides == c.totalSlides + 1 && r.currentSlide == c.currentSlide
    ensures r.classes == c.classes + [{}]
    ensures c.hasDotsContainer ==> DotsShow(r.dots, 0)
    ensures r == c.(totalSlides := r.totalSlides, classes := r.classes, dots := r.dots)
  {
    CreateNavigation(c.(classes := c.classes + [{}], totalSlides := c.totalSlides + 1))
  }
}
