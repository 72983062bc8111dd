/** Properties of the carousel that relate several operations. */
module GalleryProperties {
  import opened Wrappers
  import opened Decimal
  import opened GalleryHash
  import opened GalleryState
  import opened ModArith

  // ----- repeated navigation ------------------------------------------------

  /** A `nextSlide` followed by the completion of its transition. */
  function SettleNext(c: Carousel): (r: Carousel)
    requires Consistent(c) && !c.isAnimating && c.totalSlides > 1
    ensures Consistent(r) && !r.isAnimating && r.totalSlides == c.totalSlides
    ensures r.currentSlide == NextIndex(c.currentSlide, c.totalSlides)
    ensures DotsShow(r.dots, r.currentSlide) && r.hash == HashFor(r.currentSlide)
  {
    IndexArithmetic(c.currentSlide, c.totalSlides);
    CompleteTransition(NextSlide(c))
  }

  /** `k` settled `nextSlide` calls. The index lands on `(start + k) mod N`:
      it never leaves the range and wraps from N - 1 to 0. */
  function Advance(c: Carousel, k: nat): (r: Carousel)
    requires Consistent(c) && !c.isAnimating && c.totalSlides > 1
    ensures Consistent(r) && !r.isAnimating && r.totalSlides == c.totalSlides
    ensures r.currentSlide == (c.currentSlide + k) % c.totalSlides
    decreases k
  {
    if k == 0 then
      SmallMod(c.currentSlide, c.totalSlides);
      c
    else
      var p := Advance(c, k - 1);
      var r := SettleNext(p);
      AdvanceIndexStep(c.currentSlide, k, c.totalSlides, p.currentSlide, r.currentSlide);
      r
  }

  lemma AdvanceIndexStep(start: nat, k: nat, n: nat, before: nat, after: nat)
    requires n > 0 && k > 0
    requires before == (start + (k - 1)) % n && after == NextIndex(before, n)
    ensures after == (start + k) % n
  {
    ModSucc(start + (k - 1), n);
    assert start + (k - 1) + 1 == start + k;
  }

  /** Once at least one transition has completed, the dots and the URL hash
      name the slide shown. */
  lemma AdvanceSettled(c: Carousel, k: nat)
    requires Consistent(c) && !c.isAnimating && c.totalSlides > 1 && k > 0
    ensures DotsShow(Advance(c, k).dots, Advance(c, k).currentSlide)
    ensures Advance(c, k).hash == HashFor(Advance(c, k).currentSlide)
  {
    var p := Advance(c, k - 1);
    assert Advance(c, k) == SettleNext(p);
  }

  /** Starting at slide 0 of N, N - 1 settled `nextSlide` calls reach the
      last slide ... */
  lemma ReachLast(c: Carousel, k: nat)
    requires Consistent(c) && !c.isAnimating && c.totalSlides > 1 && c.currentSlide == 0
    requires k == c.totalSlides - 1
    ensures Advance(c, k).currentSlide == c.totalSlides - 1
  {
    SmallMod(k, c.totalSlides);
  }

  /** ... and the N-th wraps to slide 0, whose hash is `#gallery-1`. */
  lemma WrapToFirst(c: Carousel, k: nat)
    requires Consistent(c) && !c.isAnimating && c.totalSlides > 1 && c.currentSlide == 0
    requires k == c.totalSlides
    ensures Advance(c, k).currentSlide == 0
    ensures Advance(c, k).hash == "#gallery-1"
  {
    ModOfMultiplePlus(1, k, 0);
    SettledHashAtFirst(c, k);
  }

  lemma SettledHashAtFirst(c: Carousel, k: nat)
    requires Consistent(c) && !c.isAnimating && c.totalSlides > 1 && k > 0
    requires Advance(c, k).currentSlide == 0
    ensures Advance(c, k).hash == "#gallery-1"
  {
    AdvanceSettled(c, k);
    FirstSlideHash();
  }

  lemma FirstSlideHash()
    ensures HashFor(0) == "#gallery-1"
  {
    assert FromNat(1) == "1";
  }

  // ----- locking and timers -------------------------------------------------

  /** While a transition is in flight, every navigation input is dropped
      (not queued): the index, the lock and everything else stay put. */
  lemma InputsDroppedWhileAnimating(c: Carousel, key: Key, inTextField: bool, deltaY: int)
    requires Consistent(c) && c.isAnimating && c.overlays == 0
    requires key != Space
    ensures KeyDown(c, key, inTextField) == c
    ensures Wheel(c, deltaY) == c
    ensures NextSlide(c) == c && PreviousSlide(c) == c
  {
    KeyDownWithoutOverlay(c, key, inTextField);
  }

  /** With no overlay open the fullscreen listeners do nothing, so a key press
      is exactly the main listener's decision. */
  lemma KeyDownWithoutOverlay(c: Carousel, key: Key, inTextField: bool)
    requires Consistent(c) && c.overlays == 0
    ensures KeyDown(c, key, inTextField) == MainKeyHandler(c, key, inTextField)
  {
    var c1 := MainKeyHandler(c, key, inTextField);
    assert c1.overlays == 0;
    IdleHandlers(c1, key, c1.fullscreenKeyHandlers);
  }

  /** The main listener's dispatch, with no overlay open and the key not
      typed into a text field: the arrows navigate, Space toggles autoplay,
      Home and End go to the first and last slide, and every other key does
      nothing. Keys typed into a text field never do anything. */
  lemma MainKeyDispatch(c: Carousel)
    requires Consistent(c) && c.overlays == 0
    ensures KeyDown(c, ArrowLeft, false) == PreviousSlide(c)
    ensures KeyDown(c, ArrowRight, false) == NextSlide(c)
    ensures KeyDown(c, Space, false) == ToggleAutoPlay(c)
    ensures KeyDown(c, Home, false) == BeginTransition(c, 0, Auto)
    ensures KeyDown(c, End, false) == BeginTransition(c, c.totalSlides - 1, Auto)
    ensures KeyDown(c, Escape, false) == c && KeyDown(c, OtherKey, false) == c
    ensures !c.isAnimating ==>
              KeyDown(c, Home, false).currentSlide == 0 && KeyDown(c, End, false).currentSlide == c.totalSlides - 1
    ensures forall key: Key :: KeyDown(c, key, true) == c
  {
    KeyDownWithoutOverlay(c, ArrowLeft, false);
    KeyDownWithoutOverlay(c, ArrowRight, false);
    KeyDownWithoutOverlay(c, Space, false);
    KeyDownWithoutOverlay(c, Home, false);
    KeyDownWithoutOverlay(c, End, false);
    KeyDownWithoutOverlay(c, Escape, false);
    KeyDownWithoutOverlay(c, OtherKey, false);
    forall key: Key
      ensures KeyDown(c, key, true) == c
    {
      KeyDownWithoutOverlay(c, key, true);
    }
  }

  /** One fullscreen listener's dispatch while an overlay is open: the arrows
      move the fullscreen view, Escape closes an overlay, Space toggles
      autoplay, and Home, End and every other key do nothing. */
  lemma FullscreenKeyDispatch(c: Carousel)
    requires Consistent(c) && c.overlays > 0
    ensures FullscreenKeyHandler(c, ArrowLeft) == FullscreenPrevious(c)
    ensures FullscreenKeyHandler(c, ArrowRight) == FullscreenNext(c)
    ensures FullscreenKeyHandler(c, Escape) == CloseFullscreen(c)
    ensures FullscreenKeyHandler(c, Space) == ToggleAutoPlay(c)
    ensures FullscreenKeyHandler(c, Home) == c && FullscreenKeyHandler(c, End) == c
    ensures FullscreenKeyHandler(c, OtherKey) == c
  {
  }

  lemma {:induction false} IdleHandlers(c: Carousel, key: Key, k: nat)
    requires Consistent(c) && c.overlays == 0
    ensures FullscreenKeyHandlers(c, key, k) == c
    decreases k
  {
    if k > 0 {
      IdleHandlers(c, key, k - 1);
    }
  }

  /** With an overlay open the main listener steps aside and every listener
      that openFullscreen ever added runs. */
  lemma KeyDownWithOverlay(c: Carousel, key: Key, inTextField: bool)
    requires Consistent(c) && c.overlays > 0
    ensures KeyDown(c, key, inTextField) == FullscreenKeyHandlers(c, key, c.fullscreenKeyHandlers)
  {
  }

  /** Each right arrow in fullscreen moves the index once per listener, so
      after `k` openFullscreen calls one press advances `k` slides. */
  lemma {:induction false} FullscreenRightArrows(c: Carousel, k: nat)
    requires Consistent(c) && c.overlays > 0
    ensures FullscreenKeyHandlers(c, ArrowRight, k).currentSlide == (c.currentSlide + k) % c.totalSlides
    ensures FullscreenKeyHandlers(c, ArrowRight, k).overlays == c.overlays
    ensures FullscreenKeyHandlers(c, ArrowRight, k).totalSlides == c.totalSlides
    decreases k
  {
    if k > 0 {
      FullscreenRightArrows(c, k - 1);
      var p := FullscreenKeyHandlers(c, ArrowRight, k - 1);
      IndexArithmetic(p.currentSlide, p.totalSlides);
      ModSucc(c.currentSlide + k - 1, c.totalSlides);
    } else {
      assert c.currentSlide % c.totalSlides == c.currentSlide;
    }
  }

  /** Left arrows in fullscreen, likewise, `k` slides backwards with wrap-around. */
  lemma {:induction false} FullscreenLeftArrows(c: Carousel, k: nat)
    requires Consistent(c) && c.overlays > 0
    ensures FullscreenKeyHandlers(c, ArrowLeft, k).currentSlide == (c.currentSlide - k) % c.totalSlides
    ensures FullscreenKeyHandlers(c, ArrowLeft, k).overlays == c.overlays
    ensures FullscreenKeyHandlers(c, ArrowLeft, k).totalSlides == c.totalSlides
    decreases k
  {
    if k > 0 {
      FullscreenLeftArrows(c, k - 1);
      var p := FullscreenKeyHandlers(c, ArrowLeft, k - 1);
      IndexArithmetic(p.currentSlide, p.totalSlides);
      ModPred(c.currentSlide - (k - 1), c.totalSlides);
      assert c.currentSlide - (k - 1) - 1 == c.currentSlide - k;
    } else {
      assert c.currentSlide % c.totalSlides == c.currentSlide;
    }
  }

  /** Escape: each listener that still finds an overlay removes one. */
  lemma {:induction false} FullscreenEscapes(c: Carousel, k: nat)
    requires Consistent(c)
    ensures FullscreenKeyHandlers(c, Escape, k).overlays == if k >= c.overlays then 0 else c.overlays - k
    ensures FullscreenKeyHandlers(c, Escape, k).currentSlide == c.currentSlide
    decreases k
  {
    if k > 0 {
      FullscreenEscapes(c, k - 1);
    }
  }

  /** Space in fullscreen toggles autoplay once per listener. */
  lemma {:induction false} FullscreenSpaces(c: Carousel, k: nat)
    requires Consistent(c) && c.overlays > 0
    ensures FullscreenKeyHandlers(c, Space, k).isAutoPlaying == (c.isAutoPlaying != (k % 2 == 1))
    ensures FullscreenKeyHandlers(c, Space, k).overlays == c.overlays
    decreases k
  {
    if k > 0 {
      FullscreenSpaces(c, k - 1);
    }
  }

  /** A navigation while the page is hidden re-arms the timer, so becoming
      visible again arms a second interval over the live handle: the first
      keeps firing and no stopAutoPlay can reach it. */
  lemma HiddenNavigationLeaksInterval(c: Carousel, index: nat)
    requires Consistent(c) && c.isAutoPlaying && c.totalSlides > 1
    requires !c.isAnimating && index < c.totalSlides && index != c.currentSlide
    ensures var r := VisibilityChange(BeginTransition(VisibilityChange(c, true), index, Auto), false);
            r.leakedIntervals == c.leakedIntervals + 1 && r.autoPlayArmed
  {
  }

  /** Toggling autoplay twice restores the flag and leaves one armed handle at
      most, and never an orphaned interval. */
  lemma ToggleTwice(c: Carousel)
    requires Consistent(c)
    ensures ToggleAutoPlay(ToggleAutoPlay(c)).isAutoPlaying == c.isAutoPlaying
    ensures ToggleAutoPlay(ToggleAutoPlay(c)).leakedIntervals == c.leakedIntervals
    ensures ToggleAutoPlay(ToggleAutoPlay(c)).autoPlayArmed <==> c.isAutoPlaying && c.totalSlides > 1
  {
  }

  // ----- URL hash -----------------------------------------------------------

  /** Loading with the fragment written for slide `i` starts a transition to `i`. */
  lemma HashNavigates(c: Carousel, i: nat)
    requires Consistent(c) && !c.isAnimating && i < c.totalSlides && i != c.currentSlide
    requires c.hash == HashFor(i)
    ensures CheckURLHash(c).currentSlide == i && CheckURLHash(c).isAnimating
  {
    HashRoundTrip(i);
  }

  /** After a transition settles, reading the fragment back names the current
      slide, so the start-up check would not move. */
  lemma SettledHashNamesCurrent(c: Carousel)
    requires Consistent(c) && c.isAnimating
    ensures ParseHash(CompleteTransition(c).hash) == Some(c.currentSlide + 1)
    ensures CheckURLHash(CompleteTransition(c)) == CompleteTransition(c)
  {
    HashRoundTrip(c.currentSlide);
  }

  // ----- what the source leaves inconsistent --------------------------------

  /** Fullscreen navigation moves the index and the dots but not the 'active'
      class, so the next windowed navigation leaves two slides active. */
  lemma FullscreenLeavesActiveBehind(c: Carousel)
    requires Consistent(c) && ActiveOnlyAtCurrent(c) && !c.isAnimating
    requires c.overlays == 1 && c.totalSlides >= 3
    ensures var r := NextSlide(CloseFullscreen(FullscreenNext(c)));
            var second := (c.currentSlide + 2) % c.totalSlides;
            second != c.currentSlide && Active in r.classes[c.currentSlide] && Active in r.classes[second]
  {
    var n := c.totalSlides;
    var c1 := FullscreenNext(c);
    IndexArithmetic(c.currentSlide, n);
    var c2 := CloseFullscreen(c1);
    IndexArithmetic(c2.currentSlide, n);
    ModSucc(c.currentSlide + 1, n);
    assert c2.currentSlide == (c.currentSlide + 1) % n;
    assert (c.currentSlide + 2) % n != c.currentSlide by {
      if c.currentSlide + 2 < n {
      } else {
        assert c.currentSlide + 2 - n < c.currentSlide;
        ModOfMultiplePlus(1, n, c.currentSlide + 2 - n);
      }
    }
  }

  /** addSlide keeps the index but marks dot 0, so the dots disagree with the
      current slide whenever it is not the first. */
  lemma AddSlideMarksFirstDot(c: Carousel)
    requires Consistent(c) && c.hasDotsContainer && c.currentSlide != 0
    ensures !DotsShow(AddSlide(c).dots, AddSlide(c).currentSlide)
  {
    var r := AddSlide(c);
    assert r.dots[0];
  }

  /** Each `createNavigation` call that finds the dots container (from `init`
      and from every `addSlide`) adds one more click listener to the previous
      and next buttons, so one
      click may run `nextSlide` several times. Only the first has an effect:
      it either changes nothing or starts a transition, and the lock drops
      the rest. */
  lemma RepeatedNextClickIsDropped(c: Carousel)
    requires Consistent(c)
    ensures NextSlide(NextSlide(c)) == NextSlide(c)
    ensures PreviousSlide(PreviousSlide(c)) == PreviousSlide(c)
  {
    IndexArithmetic(c.currentSlide, c.totalSlides);
  }

  // ----- destroy ------------------------------------------------------------

  /** `destroy` removes only the fullscreen listener added last: after two
      `openFullscreen` calls one of the two is still registered. */
  lemma DestroyRemovesOnlyLatest(c: Carousel, i: nat)
    requires Consistent(c) && i < c.totalSlides
    ensures Destroy(OpenFullscreen(OpenFullscreen(c, i), i)).fullscreenKeyHandlers == c.fullscreenKeyHandlers + 1
  {
  }

  /** A second `destroy` removes nothing more: the handle it would remove is
      already gone. */
  lemma DestroyTwice(c: Carousel)
    requires Consistent(c)
    ensures Destroy(Destroy(c)) == Destroy(c)
  {
  }

  /** `destroy` clears only the armed handle. An orphaned interval keeps
      firing, and its next tick navigates and arms a fresh interval again. */
  lemma DestroyedGalleryKeepsTurning(c: Carousel)
    requires Consistent(c) && c.leakedIntervals > 0 && c.isAutoPlaying && !c.isAnimating
    ensures Destroy(c).leakedIntervals == c.leakedIntervals
    ensures var r := AutoPlayTick(Destroy(c));
      r.currentSlide == NextIndex(c.currentSlide, c.totalSlides) && r.isAnimating && r.autoPlayArmed
  {
    IndexArithmetic(c.currentSlide, c.totalSlides);
  }
}
