/** The `WeddingGallery` controller (scripts/gallery.js) as a class whose fields
    are updated in place, step by step as the source updates them. Every
    method is proved to leave exactly the state the matching function of
    module GalleryState computes from the state before the call, and to keep
    the invariant `Valid`. */
module Gallery {
  import opened Wrappers
  import opened GalleryHash
  import opened GalleryState

  class WeddingGallery {
    var currentSlide: nat
    var totalSlides: nat
    var classes: seq<set<SlideClass>>
    var isAnimating: bool
    var transitionFrom: nat
    var isAutoPlaying: bool
    var autoPlayArmed: bool
    var leakedIntervals: nat
    var touchStartX: int
    var touchEndX: int
    const hasDotsContainer: bool
    var dots: seq<bool>
    var hash: string
    var overlays: nat
    var fullscreenKeyHandlers: nat
    var latestKeyHandlerAttached: bool

    /** The fields, read as one carousel state. */
    function Model(): Carousel
      reads this
    {
      Carousel(currentSlide, totalSlides, classes, isAnimating, transitionFrom,
               isAutoPlaying, autoPlayArmed, leakedIntervals, touchStartX, touchEndX,
               hasDotsContainer, dots, hash, overlays, fullscreenKeyHandlers,
               latestKeyHandlerAttached)
    }

    predicate Valid()
      reads this
    {
      Consistent(Model())
    }

    /** `new WeddingGallery()` over a page with `slideCount` slides: the
        constructor, `setupGallery` (first slide active), `createNavigation`
        and `startAutoPlay`. */
    constructor(slideCount: nat, hasDots: bool, initialHash: string)
      requires slideCount >= 1
      ensures Valid() && Model() == Init(slideCount, hasDots, initialHash)
    {
      currentSlide := 0;
      totalSlides := slideCount;
      classes := [{Active}] + seq(slideCount - 1, _ => {});
      isAnimating := false;
      transitionFrom := 0;
      isAutoPlaying := true;
      autoPlayArmed := false;
      leakedIntervals := 0;
      touchStartX := 0;
      touchEndX := 0;
      hasDotsContainer := hasDots;
      dots := [];
      hash := initialHash;
      overlays := 0;
      fullscreenKeyHandlers := 0;
      latestKeyHandlerAttached := false;
      new;
      CreateNavigation();
      StartAutoPlay();
    }

    /** `createNavigation`: when the dots container exists, empties it and
        appends one dot per slide, only dot 0 marked active. */
    method CreateNavigation()
      modifies this
      ensures Model() == GalleryState.CreateNavigation(old(Model()))
    {
      if !hasDotsContainer {
        return;
      }
      var built: seq<bool> := [];
      var i := 0;
      while i < totalSlides
        invariant 0 <= i <= totalSlides
        invariant |built| == i
        invariant forall j :: 0 <= j < i ==> (built[j] <==> j == 0)
      {
        built := built + [i == 0];
        i := i + 1;
      }
      assert built == DotsFor(totalSlides, 0);
      dots := built;
    }

    method StartAutoPlay()
      modifies this
      ensures Model() == GalleryState.StartAutoPlay(old(Model()))
    {
      if !isAutoPlaying || totalSlides <= 1 {
        return;
      }
      if autoPlayArmed {
        leakedIntervals := leakedIntervals + 1;
      }
      autoPlayArmed := true;
    }

    method StopAutoPlay()
      modifies this
      ensures Model() == GalleryState.StopAutoPlay(old(Model()))
    {
      if autoPlayArmed {
        autoPlayArmed := false;
      }
    }

    method ResetAutoPlay()
      requires Valid()
      modifies this
      ensures Valid() && Model() == GalleryState.ResetAutoPlay(old(Model()))
    {
      if isAutoPlaying {
        StopAutoPlay();
        StartAutoPlay();
      }
    }

    /** `toggleAutoPlay`, returning the new flag. */
    method ToggleAutoPlay() returns (playing: bool)
      requires Valid()
      modifies this
      ensures Valid() && Model() == GalleryState.ToggleAutoPlay(old(Model()))
      ensures playing == isAutoPlaying
    {
      isAutoPlaying := !isAutoPlaying;
      if isAutoPlaying {
        StartAutoPlay();
      } else {
        StopAutoPlay();
      }
      playing := isAutoPlaying;
    }

    /** The `visibilitychange` listener. */
    method VisibilityChange(hidden: bool)
      requires Valid()
      modifies this
      ensures Valid() && Model() == GalleryState.VisibilityChange(old(Model()), hidden)
    {
      if hidden {
        StopAutoPlay();
      } else if isAutoPlaying {
        StartAutoPlay();
      }
    }

    /** goToSlide up to its `await`. */
    method BeginTransition(index: nat, dir: DirectionArg)
      requires Valid() && index < totalSlides
      modifies this
      ensures Valid() && Model() == GalleryState.BeginTransition(old(Model()), index, dir)
    {
      if isAnimating || index == currentSlide {
        return;
      }
      isAnimating := true;
      var d := Resolve(dir, index, currentSlide);
      ResetAutoPlay();
      var oldSlide := currentSlide;
      currentSlide := index;
      classes := classes[oldSlide := classes[oldSlide] - {Active} + {ExitClass(d)}];
      classes := classes[currentSlide := classes[currentSlide] + {Active, EntryClass(d)}];
      transitionFrom := oldSlide;
    }

    /** goToSlide after its `await`. */
    method CompleteTransition()
      requires Valid() && isAnimating
      modifies this
      ensures Valid() && Model() == GalleryState.CompleteTransition(old(Model()))
    {
      classes := classes[transitionFrom := classes[transitionFrom] - {Prev, Next}];
      classes := classes[currentSlide := classes[currentSlide] - {Next, Prev}];
      UpdateDots();
      UpdateURLHash();
      isAnimating := false;
    }

    /** `updateDots`: toggles 'active' on each dot in turn. */
    method UpdateDots()
      modifies this
      ensures Model() == GalleryState.UpdateDots(old(Model()))
    {
      var i := 0;
      while i < |dots|
        invariant 0 <= i <= |dots| && |dots| == |old(dots)|
        invariant forall j :: 0 <= j < i ==> (dots[j] <==> j == currentSlide)
        invariant Model() == old(Model()).(dots := dots)
      {
        dots := dots[i := i == currentSlide];
        i := i + 1;
      }
      assert dots == DotsFor(|old(dots)|, currentSlide);
    }

    method UpdateURLHash()
      modifies this
      ensures Model() == GalleryState.UpdateURLHash(old(Model()))
    {
      var newHash := HashFor(currentSlide);
      if hash != newHash {
        hash := newHash;
      }
    }

    method NextSlide()
      requires Valid()
      modifies this
      ensures Valid() && Model() == GalleryState.NextSlide(old(Model()))
    {
      var nextIndex := (currentSlide + 1) % totalSlides;
      BeginTransition(nextIndex, Given(Forward));
    }

    method PreviousSlide()
      requires Valid()
      modifies this
      ensures Valid() && Model() == GalleryState.PreviousSlide(old(Model()))
    {
      IndexArithmetic(currentSlide, totalSlides);
      var prevIndex := (currentSlide - 1 + totalSlides) % totalSlides;
      BeginTransition(prevIndex, Given(Backward));
    }

    /** One firing of a live autoplay interval. */
    method AutoPlayTick()
      requires Valid() && (autoPlayArmed || leakedIntervals > 0)
      modifies this
      ensures Valid() && Model() == GalleryState.AutoPlayTick(old(Model()))
    {
      NextSlide();
    }

    method HandleSwipe()
      requires Valid()
      modifies this
      ensures Valid() && Model() == GalleryState.HandleSwipe(old(Model()))
    {
      var diff := touchStartX - touchEndX;
      if Abs(diff) > SwipeThreshold {
        if diff > 0 {
          NextSlide();
        } else {
          PreviousSlide();
        }
      }
    }

    method TouchStart(x: int)
      modifies this
      ensures Model() == GalleryState.TouchStart(old(Model()), x)
    {
      touchStartX := x;
    }

    method TouchEnd(x: int)
      requires Valid()
      modifies this
      ensures Valid() && Model() == GalleryState.TouchEnd(old(Model()), x)
    {
      touchEndX := x;
      HandleSwipe();
    }

    method Wheel(deltaY: int)
      requires Valid()
      modifies this
      ensures Valid() && Model() == GalleryState.Wheel(old(Model()), deltaY)
    {
      if deltaY > 0 {
        NextSlide();
      } else {
        PreviousSlide();
      }
    }

    /** `openFullscreen(index)`: appends an overlay and registers one more
        fullscreen keydown listener. */
    method OpenFullscreen(index: nat)
      requires Valid() && index < totalSlides
      modifies this
      ensures Valid() && Model() == GalleryState.OpenFullscreen(old(Model()), index)
    {
      overlays := overlays + 1;
      fullscreenKeyHandlers := fullscreenKeyHandlers + 1;
      latestKeyHandlerAttached := true;
    }

    /** `destroy`. */
    method Destroy()
      requires Valid()
      modifies this
      ensures Valid() && Model() == GalleryState.Destroy(old(Model()))
    {
      StopAutoPlay();
      if latestKeyHandlerAttached {
        fullscreenKeyHandlers := fullscreenKeyHandlers - 1;
        latestKeyHandlerAttached := false;
      }
    }

    method CloseFullscreen()
      modifies this
      ensures Model() == GalleryState.CloseFullscreen(old(Model()))
    {
      if overlays > 0 {
        overlays := overlays - 1;
      }
    }

    method UpdateFullscreenView(index: nat)
      requires Valid() && index < totalSlides
      modifies this
      ensures Valid() && Model() == GalleryState.UpdateFullscreenView(old(Model()), index)
    {
      if overlays > 0 {
        currentSlide := index;
        UpdateDots();
      }
    }

    method FullscreenNext()
      requires Valid()
      modifies this
      ensures Valid() && Model() == GalleryState.FullscreenNext(old(Model()))
    {
      var nextIndex := (currentSlide + 1) % totalSlides;
      UpdateFullscreenView(nextIndex);
    }

    method FullscreenPrevious()
      requires Valid()
      modifies this
      ensures Valid() && Model() == GalleryState.FullscreenPrevious(old(Model()))
    {
      IndexArithmetic(currentSlide, totalSlides);
      var prevIndex := (currentSlide - 1 + totalSlides) % totalSlides;
      UpdateFullscreenView(prevIndex);
    }

    /** The keydown listener registered by `addEventListeners`. */
    method MainKeyHandler(key: Key, inTextField: bool)
      requires Valid()
      modifies this
      ensures Valid() && Model() == GalleryState.MainKeyHandler(old(Model()), key, inTextField)
    {
      if inTextField || overlays > 0 {
        return;
      }
      match key
      case ArrowLeft => PreviousSlide();
      case ArrowRight => NextSlide();
      case Space => var _ := ToggleAutoPlay();
      case Home => BeginTransition(0, Auto);
      case End => BeginTransition(totalSlides - 1, Auto);
      case _ =>
    }

    /** One keydown listener registered by `setupFullscreenKeyboard`. */
    method FullscreenKeyHandler(key: Key)
      requires Valid()
      modifies this
      ensures Valid() && Model() == GalleryState.FullscreenKeyHandler(old(Model()), key)
    {
      if overlays == 0 {
        return;
      }
      match key
      case ArrowLeft => FullscreenPrevious();
      case ArrowRight => FullscreenNext();
      case Escape => CloseFullscreen();
      case Space => var _ := ToggleAutoPlay();
      case _ =>
    }

    /** A keydown event: the listeners run in the order they were added, the
        main one first, then one per `openFullscreen` call so far. */
    method KeyDown(key: Key, inTextField: bool)
      requires Valid()
      modifies this
      ensures Valid() && Model() == GalleryState.KeyDown(old(Model()), key, inTextField)
    {
      MainKeyHandler(key, inTextField);
      ghost var c1 := Model();
      var n := fullscreenKeyHandlers;
      var j := 0;
      while j < n
        invariant 0 <= j <= n && n == c1.fullscreenKeyHandlers
        invariant Valid() && Model() == FullscreenKeyHandlers(c1, key, j)
      {
        FullscreenKeyHandler(key);
        j := j + 1;
      }
    }

    /** `checkURLHash`: jumps to the slide the fragment names, if any. */
    method CheckURLHash()
      requires Valid()
      modifies this
      ensures Valid() && Model() == GalleryState.CheckURLHash(old(Model()))
    {
      match ParseHash(hash)
      case None =>
      case Some(n) =>
        var slideIndex := n - 1;
        if slideIndex >= 0 && slideIndex < totalSlides {
          BeginTransition(slideIndex, Auto);
        }
    }

    /** `addSlide`: appends a slide without controller classes and rebuilds the dots. */
    method AddSlide()
      requires Valid()
      modifies this
      ensures Valid() && Model() == GalleryState.AddSlide(old(Model()))
    {
      classes := classes + [{}];
      totalSlides := totalSlides + 1;
      CreateNavigation();
    }
  }
}
