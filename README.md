# Wedding invitation page: a verified model of its controllers

The site is a single-page wedding invitation. Its behaviour lives in three
scripts, and this project models the parts of them that keep state or make
decisions:

- **The photo gallery** (`WeddingGallery`, scripts/gallery.js). It covers:
  - the current slide index and the transition lock that makes navigation
    take one step at a time;
  - the autoplay interval, including the intervals orphaned when a second
    one is armed over a live handle;
  - the navigation dots and the swipe, wheel and keyboard listeners;
  - the fullscreen overlay and the keydown listener each `openFullscreen`
    adds;
  - the `#gallery-<n>` URL fragment written after each navigation and read
    back at start-up;
  - `addSlide`.
- **The page controller** (`WeddingInvitation`, scripts/main.js). It covers:
  - the light/dark theme;
  - the countdown to the wedding: the millisecond decomposition, the
    two-digit texts, and rewriting only the units that changed;
  - the animation class an element gets when it scrolls into view;
  - the RSVP form's field validation and the submit-time loop that checks
    every field before anything is sent.
- **The music toggle** (`SimpleAudioPlayer`, scripts/audio-player.js): the
  interaction and playing flags, the icon and the control's title.

## Layout

The gallery and the music player each have two parts. A `datatype` holds
the state, with one function per operation giving the state that operation
leaves. A `class` keeps the same state in fields, and each of its methods
ensures `Model() == Operation(old(Model()))`. The countdown display is a
class whose methods are specified by functions of its `texts` map. The
theme, the RSVP validation and the scroll animation keep no object state of
their own, so they are functions only. The properties the source promises
are lemmas about the functions.

| file | module | contents |
|---|---|---|
| option.dfy | `Wrappers` | `Option` |
| decimal.dfy | `Decimal` | integer to decimal digits (`toString`), digits to value (`parseInt`), the greedy digit run of `\d+` |
| modarith.dfy | `ModArith` | facts about `%` with a symbolic divisor |
| gallery_hash.dfy | `GalleryHash` | the fragment written for a slide and the first `gallery-<digits>` match in a fragment |
| gallery_state.dfy | `GalleryState` | the carousel state and one function per gallery operation |
| gallery.dfy | `Gallery` | `class WeddingGallery`, whose loops (dots, keydown listeners) are proved against those functions |
| gallery_properties.dfy | `GalleryProperties` | repeated navigation, the lock, timers, the fragment round trip, and what the source leaves inconsistent |
| countdown.dfy | `Countdown` | `calculateTimeUnits`, unit texts, `class CountdownDisplay` |
| rsvp.dfy | `Rsvp` | `trim`, UTF-16 length, string-to-number conversion, `validateField`, the submit loop |
| theme.dfy | `Theme` | `initTheme`, `applyTheme`, `toggleTheme`, the system-preference listener |
| scroll.dfy | `ScrollAnimation` | `handleElementInView` |
| audio.dfy | `AudioState`, `AudioPlayer` | the music toggle as a value and as `class SimpleAudioPlayer` |

The `goToSlide` method is `async`. The model splits it at its `await`:

- `BeginTransition` is the part before the await: the lock, the autoplay
  reset, the new index and the entry/exit classes.
- `CompleteTransition` is the continuation that runs after the fixed delay:
  class clean-up, dots, fragment, unlock.

The caller chooses when the continuation runs. Any input may come in
between, which is exactly what the lock is for.

## Model

| member | source | states |
|---|---|---|
| GalleryState.Init | scripts/gallery.js:6-55 | Start-up with at least one slide satisfies the following: the first slide is the only active one, the index is 0 and the lock is off, autoplay is on, and the dots mark slide 0. An interval is armed exactly when there is more than one slide. No interval is orphaned. Its `hasDotsContainer` argument says whether a `.gallery-dots` element exists after `createDots` (scripts/gallery.js:218-225, called at the end of `setupGallery`): either the page had one, or a `.gallery-nav` existed to receive the new one. |
| Gallery.WeddingGallery.constructor | scripts/gallery.js:6-55 | The fields start as `Init` says. |
| GalleryState.CreateNavigation | scripts/gallery.js:190-216 | With a dots container, the dots are rebuilt with one per slide and only dot 0 marked. Otherwise nothing changes. |
| Gallery.WeddingGallery.CreateNavigation | scripts/gallery.js:190-216 | Its loop builds the dots one at a time and ends in the `CreateNavigation` state. |
| GalleryState.StartAutoPlay | scripts/gallery.js:286-294 | An interval is armed only when autoplay is on and there is more than one slide. Arming over a live handle orphans one more interval. Nothing else changes. |
| Gallery.WeddingGallery.StartAutoPlay | scripts/gallery.js:286-294 | Leaves the `StartAutoPlay` state. |
| GalleryState.StopAutoPlay | scripts/gallery.js:296-302 | The handle is cleared; the orphaned intervals are not. |
| Gallery.WeddingGallery.StopAutoPlay | scripts/gallery.js:296-302 | Leaves the `StopAutoPlay` state. |
| GalleryState.ResetAutoPlay | scripts/gallery.js:304-309 | With autoplay off, nothing changes. With autoplay on, the handle is armed exactly when there is more than one slide, and no interval is orphaned. |
| Gallery.WeddingGallery.ResetAutoPlay | scripts/gallery.js:304-309 | Leaves the `ResetAutoPlay` state. |
| GalleryState.ToggleAutoPlay | scripts/gallery.js:311-321 | The flag flips. The handle is armed exactly when the new flag is on and there is more than one slide. Nothing else changes. |
| Gallery.WeddingGallery.ToggleAutoPlay | scripts/gallery.js:311-321 | Leaves the `ToggleAutoPlay` state and returns the new flag. |
| GalleryState.VisibilityChange | scripts/gallery.js:481-487 | Hiding the page clears the handle. Showing it re-arms the handle when autoplay is on, and orphans an interval if a handle was still live. |
| Gallery.WeddingGallery.VisibilityChange | scripts/gallery.js:481-487 | Leaves the `VisibilityChange` state. |
| GalleryState.BeginTransition | scripts/gallery.js:228-249 | While locked, or for the current index, nothing changes. Otherwise it does the following: it locks; it moves to the index and remembers the slide it left; it moves 'active' from the old slide to the new one; it gives the entry and exit classes for the resolved direction; it resets autoplay. Other slides are untouched. "Exactly one active slide" is preserved. |
| GalleryState.Resolve | scripts/gallery.js:234-236 | The direction goToSlide uses: a given direction as given; for 'auto', forward exactly when the target is after the current slide. Its effect on the classes is stated by `BeginTransition`. |
| Gallery.WeddingGallery.BeginTransition | scripts/gallery.js:228-249 | Leaves the `BeginTransition` state. |
| GalleryState.CompleteTransition | scripts/gallery.js:252-264 | The lock is released. 'prev' and 'next' are removed from the slide left and from the current slide. The dots mark the current slide. The fragment names it. Every slide keeps its 'active' class as it was. |
| Gallery.WeddingGallery.CompleteTransition | scripts/gallery.js:252-264 | Leaves the `CompleteTransition` state. |
| GalleryState.UpdateDots | scripts/gallery.js:436-441 | Each dot is marked exactly when it is the current slide's. Nothing else changes. |
| Gallery.WeddingGallery.UpdateDots | scripts/gallery.js:436-441 | Its in-place loop over the dots ends in the `UpdateDots` state. |
| GalleryState.UpdateURLHash | scripts/gallery.js:536-542 | The fragment becomes `#gallery-<current + 1>`. Nothing else changes. |
| Gallery.WeddingGallery.UpdateURLHash | scripts/gallery.js:536-542 | Leaves the `UpdateURLHash` state. |
| GalleryHash.HashFor | scripts/gallery.js:538-540 | The fragment written for a slide starts with `#gallery-`. |
| GalleryHash.FirstMatch | scripts/gallery.js:547 | Finds the leftmost position where `gallery-` and a digit match, and none before it; None means there is no match anywhere. |
| GalleryHash.ParseHash | scripts/gallery.js:547-550 | There is a number exactly when the expression matches somewhere. |
| GalleryHash.HashRoundTrip | scripts/gallery.js:536-555 | Reading back the fragment written for slide `i` gives `i + 1`. |
| GalleryHash.HashForInjective | scripts/gallery.js:538 | Different slides get different fragments. |
| Decimal.FromNat | scripts/gallery.js:538 | The decimal spelling of a number is at least one digit, with no leading zero. |
| Decimal.ValueOfFromNat | scripts/gallery.js:550 | `parseInt` reads back the number that `toString` wrote. |
| Decimal.DigitRun | scripts/gallery.js:547 | The `\d+` group is the longest run of digits starting at a position. |
| GalleryState.CheckURLHash | scripts/gallery.js:544-555 | With no match, or a number outside 1..N, nothing changes. Otherwise it navigates as goToSlide to `n - 1` does, so it is subject to the lock. |
| Gallery.WeddingGallery.CheckURLHash | scripts/gallery.js:544-555 | Leaves the `CheckURLHash` state. |
| GalleryState.IndexArithmetic | scripts/gallery.js:269-277 | Both targets are in range and wrap `N-1 → 0` and `0 → N-1`. Each undoes the other. |
| GalleryState.NextIndex | scripts/gallery.js:270 | `(current + 1) % N`; `IndexArithmetic` states that it stays in range, wraps `N-1 → 0` and is undone by `PreviousIndex`. |
| GalleryState.PreviousIndex | scripts/gallery.js:275 | `(current - 1 + N) % N`; `IndexArithmetic` states that it stays in range, wraps `0 → N-1` and is undone by `NextIndex`. |
| GalleryState.NextSlide | scripts/gallery.js:269-272 | A forward transition to `(current + 1) % N`. With one slide nothing changes. |
| Gallery.WeddingGallery.NextSlide | scripts/gallery.js:269-272 | Leaves the `NextSlide` state. |
| GalleryState.PreviousSlide | scripts/gallery.js:274-277 | A backward transition to `(current - 1 + N) % N`. With one slide nothing changes. |
| Gallery.WeddingGallery.PreviousSlide | scripts/gallery.js:274-277 | Leaves the `PreviousSlide` state. |
| GalleryState.AutoPlayTick | scripts/gallery.js:289-291 | A firing of any live interval, armed or orphaned, is a `nextSlide`. |
| Gallery.WeddingGallery.AutoPlayTick | scripts/gallery.js:289-291 | Leaves the `AutoPlayTick` state. |
| GalleryState.SwipeFor | scripts/gallery.js:335-345 | The swipe goes forward exactly when the travel is more than 50, backward exactly when it is less than -50, and otherwise nowhere. |
| GalleryState.HandleSwipe | scripts/gallery.js:335-345 | The carousel stays consistent. |
| Gallery.WeddingGallery.HandleSwipe | scripts/gallery.js:335-345 | Leaves the `HandleSwipe` state. |
| GalleryState.TouchStart | scripts/gallery.js:325-327 | Records the start position only. |
| Gallery.WeddingGallery.TouchStart | scripts/gallery.js:325-327 | Leaves the `TouchStart` state. |
| GalleryState.TouchEnd | scripts/gallery.js:329-332 | Records the end position, then goes next, previous or nowhere by the 50-pixel threshold. |
| Gallery.WeddingGallery.TouchEnd | scripts/gallery.js:329-332 | Leaves the `TouchEnd` state. |
| GalleryState.Wheel | scripts/gallery.js:493-500 | Scrolling down goes next; anything else, `deltaY == 0` included, goes previous. |
| Gallery.WeddingGallery.Wheel | scripts/gallery.js:493-500 | Leaves the `Wheel` state. |
| GalleryState.OpenFullscreen | scripts/gallery.js:348-371 | One more overlay and one more fullscreen keydown listener, which becomes the one `destroy` would remove. The index is untouched. |
| Gallery.WeddingGallery.OpenFullscreen | scripts/gallery.js:348-371 | Leaves the `OpenFullscreen` state. |
| GalleryState.CloseFullscreen | scripts/gallery.js:373-380 | Removes one overlay if there is one. |
| Gallery.WeddingGallery.CloseFullscreen | scripts/gallery.js:373-380 | Leaves the `CloseFullscreen` state. |
| GalleryState.Destroy | scripts/gallery.js:596-605 | The armed handle is cleared. The fullscreen listener added last is removed if it is still registered, and no other. Overlays, other listeners and orphaned intervals stay. |
| Gallery.WeddingGallery.Destroy | scripts/gallery.js:596-605 | Leaves the `Destroy` state. |
| GalleryState.UpdateFullscreenView | scripts/gallery.js:392-403 | With an overlay, the index and the dots move at once, whatever the lock says, and no slide's classes change. Without one, nothing changes. |
| Gallery.WeddingGallery.UpdateFullscreenView | scripts/gallery.js:392-403 | Leaves the `UpdateFullscreenView` state. |
| GalleryState.FullscreenNext | scripts/gallery.js:382-385 | Shows `(current + 1) % N` in fullscreen. |
| Gallery.WeddingGallery.FullscreenNext | scripts/gallery.js:382-385 | Leaves the `FullscreenNext` state. |
| GalleryState.FullscreenPrevious | scripts/gallery.js:387-390 | Shows `(current - 1 + N) % N` in fullscreen. |
| Gallery.WeddingGallery.FullscreenPrevious | scripts/gallery.js:387-390 | Leaves the `FullscreenPrevious` state. |
| GalleryState.MainKeyHandler | scripts/gallery.js:451-478 | Keys typed into a text field, and every key while an overlay is open, change nothing, and the carousel stays consistent. The per-key dispatch is stated by `MainKeyDispatch`. |
| Gallery.WeddingGallery.MainKeyHandler | scripts/gallery.js:451-478 | Leaves the `MainKeyHandler` state. |
| GalleryState.FullscreenKeyHandler | scripts/gallery.js:406-427 | One fullscreen listener keeps the carousel consistent and the listener count unchanged. `FullscreenKeyDispatch` states what each key does. |
| GalleryProperties.FullscreenKeyDispatch | scripts/gallery.js:406-427 | While an overlay is open, one listener maps ArrowLeft to `FullscreenPrevious`, ArrowRight to `FullscreenNext`, Escape to `CloseFullscreen` and Space to `ToggleAutoPlay`. Home, End and every other key leave the carousel unchanged. |
| Gallery.WeddingGallery.FullscreenKeyHandler | scripts/gallery.js:406-427 | Leaves the `FullscreenKeyHandler` state. |
| GalleryState.FullscreenKeyHandlers | scripts/gallery.js:429 | Running the first `k` registered listeners keeps the carousel consistent and the listener count unchanged. |
| GalleryState.KeyDown | scripts/gallery.js:429-451 | One key press is the main listener, then every fullscreen listener, in the order they were added. |
| Gallery.WeddingGallery.KeyDown | scripts/gallery.js:429-451 | Its loop over the registered listeners ends in the `KeyDown` state. |
| GalleryState.AddSlide | scripts/gallery.js:567-581 | One more slide with no controller classes. The dots are rebuilt with dot 0 marked. The index stays. |
| Gallery.WeddingGallery.AddSlide | scripts/gallery.js:567-581 | Leaves the `AddSlide` state. |
| GalleryProperties.SettleNext | scripts/gallery.js:228-272 | A `nextSlide` whose transition has completed lands on `(current + 1) % N`, unlocked, with the dots and the fragment naming it. |
| GalleryProperties.Advance | scripts/gallery.js:228-272 | `k` settled `nextSlide` calls land on `(start + k) % N` and stay consistent and unlocked. |
| GalleryProperties.AdvanceSettled | scripts/gallery.js:255-262 | After at least one settled step, the dots and the fragment name the slide shown. |
| GalleryProperties.ReachLast | scripts/gallery.js:269-272 | From slide 0, `N - 1` settled `nextSlide` calls reach the last slide. |
| GalleryProperties.WrapToFirst | scripts/gallery.js:269-272 | The N-th call wraps to slide 0, and the fragment is `#gallery-1`. |
| GalleryProperties.SettledHashAtFirst | scripts/gallery.js:536-542 | A settled walk that ends on slide 0 leaves `#gallery-1`. |
| GalleryProperties.FirstSlideHash | scripts/gallery.js:538 | Slide 0 is written as `#gallery-1`. |
| GalleryProperties.InputsDroppedWhileAnimating | scripts/gallery.js:229 | While a transition is in flight and no overlay is open, every key other than Space, every wheel step, and `nextSlide`/`previousSlide`, is dropped, not queued. Nothing changes. |
| GalleryProperties.KeyDownWithoutOverlay | scripts/gallery.js:407-478 | With no overlay open, a key press is exactly the main listener's decision. |
| GalleryProperties.MainKeyDispatch | scripts/gallery.js:451-478 | With no overlay open, a key press outside a text field does the following: ArrowLeft is `previousSlide`, ArrowRight is `nextSlide`, Space toggles autoplay, Home and End go to slide 0 and slide N-1, and every other key does nothing. From an unlocked state Home lands on 0 and End on N-1. In a text field no key does anything. |
| GalleryProperties.IdleHandlers | scripts/gallery.js:407 | Fullscreen listeners do nothing while no overlay is open. |
| GalleryProperties.KeyDownWithOverlay | scripts/gallery.js:406-454 | With an overlay open, the main listener steps aside and every listener ever added by openFullscreen runs. |
| GalleryProperties.FullscreenRightArrows | scripts/gallery.js:414-429 | With `k` listeners added, one right arrow advances `k` slides, modulo N. |
| GalleryProperties.FullscreenLeftArrows | scripts/gallery.js:410-429 | With `k` listeners added, one left arrow goes back `k` slides, modulo N. |
| GalleryProperties.FullscreenEscapes | scripts/gallery.js:418-429 | Escape removes one overlay per listener that still finds one. |
| GalleryProperties.FullscreenSpaces | scripts/gallery.js:422-429 | Space toggles autoplay once per listener, so it ends flipped exactly when `k` is odd. |
| GalleryProperties.HiddenNavigationLeaksInterval | scripts/gallery.js:481-487 | Suppose the page is hidden, a navigation then re-arms the timer, and the page becomes visible again. This orphans an interval that keeps firing. |
| GalleryProperties.ToggleTwice | scripts/gallery.js:311-321 | Toggling twice restores the flag. It orphans no interval, and leaves the handle armed exactly when autoplay is on with more than one slide. |
| GalleryProperties.HashNavigates | scripts/gallery.js:544-555 | A fragment written for slide `i` makes the start-up check move to `i`. |
| GalleryProperties.SettledHashNamesCurrent | scripts/gallery.js:544-555 | After a settled transition, the fragment reads back as the current slide, and the start-up check would not move. |
| GalleryProperties.FullscreenLeavesActiveBehind | scripts/gallery.js:392-403 | Fullscreen navigation moves the index but not the 'active' class. The next windowed navigation then leaves two slides active. |
| GalleryProperties.AddSlideMarksFirstDot | scripts/gallery.js:567-581 | addSlide marks dot 0 even when another slide is current. |
| GalleryProperties.RepeatedNextClickIsDropped | scripts/gallery.js:205-215 | A second `nextSlide` or `previousSlide` right after the first changes nothing. So the extra button listeners each `createNavigation` adds are harmless. |
| GalleryProperties.DestroyRemovesOnlyLatest | scripts/gallery.js:429-432 | After two `openFullscreen` calls, `destroy` leaves one of the two fullscreen listeners registered. |
| GalleryProperties.DestroyTwice | scripts/gallery.js:596-605 | A second `destroy` changes nothing. |
| GalleryProperties.DestroyedGalleryKeepsTurning | scripts/gallery.js:596-605 | An orphaned interval survives `destroy`. Its next tick navigates and arms a fresh interval. |
| Countdown.CalculateTimeUnits | scripts/main.js:99-106 | For a distance that is not negative, the days are not negative, hours are below 24 and minutes and seconds below 60. `CalculateTimeUnitsSound` adds that they sum to the distance. |
| Countdown.CalculateTimeUnitsSound | scripts/main.js:99-106 | For a distance that is not negative, hours are below 24 and minutes and seconds below 60. The units add up to the distance, less at most 999 ms. |
| Countdown.JsRem | scripts/main.js:102-104 | JavaScript's `%`: the result is within one divisor of zero, and is the Euclidean remainder for a dividend that is not negative. |
| Countdown.PadStart2 | scripts/main.js:119 | `padStart(2, '0')` gives at least two characters, and leaves a longer string unchanged. |
| Countdown.UnitText | scripts/main.js:119 | The text of one unit; `UnitTextReadsBack` and `UnitTextInjective` state that it is digits reading back as the value, two of them below 100, and different for different values. |
| Countdown.UnitTextReadsBack | scripts/main.js:119 | A unit's text is decimal digits that read back as the unit: at least two of them, and exactly two below 100. |
| Countdown.UnitTextInjective | scripts/main.js:119-121 | Two unit values have the same text exactly when they are equal. So the change check rewrites exactly the units whose value changed. |
| Countdown.Displayed | scripts/main.js:116-123 | After a display, each unit element that exists holds its new text. The set of elements does not change. |
| Countdown.Changed | scripts/main.js:118-121 | The elements rewritten are exactly those whose text differed from the new one. |
| Countdown.VisitStep | scripts/main.js:116-123 | Visiting the next unit in key order rewrites it exactly when its text differs. |
| Countdown.CountdownDisplay.DisplayCountdown | scripts/main.js:108-124 | Its loop over the four units leaves the `Displayed` texts. It returns the `Changed` set of units it rewrote. |
| Countdown.CountdownDisplay.Refresh | scripts/main.js:117-130 | One unit is rewritten exactly when its element exists and holds a different text. |
| Countdown.CountdownDisplay.UpdateCountdown | scripts/main.js:84-97 | A negative distance shows the wedding-day message (when the section exists) and computes no units. Otherwise the units of `calculateTimeUnits` are displayed. |
| Countdown.CountdownDisplay.constructor | scripts/main.js:108-114 | The unit elements that exist, with their texts. |
| Rsvp.TrimSpec | scripts/main.js:268 | `trim` leaves no whitespace at either end. It leaves nothing exactly when the value is all whitespace. |
| Rsvp.TrimStartSpec | scripts/main.js:268 | What is removed from the front is whitespace. What is left does not start with whitespace. |
| Rsvp.TrimEndSpec | scripts/main.js:268 | The same at the end. |
| Rsvp.TrimNoEnds | scripts/main.js:268 | A string with no whitespace at either end is its own trim. |
| Rsvp.TrimIdempotent | scripts/main.js:268 | Trimming twice is trimming once. |
| Rsvp.Trim | scripts/main.js:268 | `trim`; `TrimSpec`, `TrimStartSpec`, `TrimEndSpec`, `TrimNoEnds` and `TrimIdempotent` state what it removes and keeps. |
| Rsvp.JsLength | scripts/main.js:277 | `length` counts UTF-16 units: between one and two per character. |
| Rsvp.ShortStrings | scripts/main.js:277 | Fewer than two units means an empty string or one character of the Basic Multilingual Plane. |
| Rsvp.SignedInteger | scripts/main.js:289 | A string of digits reads as its value. |
| Rsvp.ToNumberOfNumeral | scripts/main.js:289 | A decimal numeral converts to its value. |
| Rsvp.UnsignedDecimalOfDigits | scripts/main.js:289 | A run of digits alone converts to its value. |
| Rsvp.ToNumber | scripts/main.js:291 | The number that the comparisons `value < 1` and `value > 5` convert the trimmed string to. `ToNumberOfNumeral` covers decimal numerals, and `GuestsDigitsVerdict` covers every string of decimal digits, leading zeros included. `GuestsExponent`, `GuestsHex`, `GuestsFraction`, `GuestsNegativeInfinity` and `GuestsWord` illustrate exponents, hexadecimal, fractions, infinities and words with one case each. |
| Rsvp.TextFieldVerdict | scripts/main.js:272-280 | Name field: a blank value gives "Nama lengkap harus diisi". A single character of the Basic Multilingual Plane gives "Nama terlalu pendek". Anything longer is valid. All three are stated as if-and-only-if. |
| Rsvp.SelectFieldVerdict | scripts/main.js:282-287 | The attendance select is valid exactly when something other than whitespace is chosen. Otherwise it gives "Silakan pilih konfirmasi kehadiran". |
| Rsvp.GuestsVerdict | scripts/main.js:289-294 | For every value, the guests field is valid exactly when the trimmed value is blank, converts to NaN, or converts to a finite number from 1 to 5. Otherwise it is rejected as out of range. |
| Rsvp.GuestsDigitsVerdict | scripts/main.js:289-294 | A guests value made only of decimal digits, leading zeros allowed, is valid exactly when its value is from 1 to 5. |
| Rsvp.GuestsNumeralVerdict | scripts/main.js:289-294 | The guests field holding a decimal numeral is valid exactly for 1 to 5. |
| Rsvp.FieldsNeverRejected | scripts/main.js:270-295 | A blank guests field is valid, and so are any other number field and any field of another type. |
| Rsvp.ValidateField | scripts/main.js:267-300 | `validateField`. Its verdict for each field type is stated as if-and-only-if: `TextFieldVerdict` for text fields, `SelectFieldVerdict` for selects, `GuestsVerdict` for the guests field with any value (and `GuestsDigitsVerdict`, `GuestsNumeralVerdict` for digit strings), and `FieldsNeverRejected` for all other fields. |
| Rsvp.GuestsExponent | scripts/main.js:289-294 | `"1e1"` is rejected as out of range. |
| Rsvp.GuestsHex | scripts/main.js:268-294 | `" 0x5 "` passes. |
| Rsvp.GuestsFraction | scripts/main.js:289-294 | `"2.5"` passes. |
| Rsvp.GuestsNegativeInfinity | scripts/main.js:289-294 | `"-Infinity"` is rejected. |
| Rsvp.GuestsWord | scripts/main.js:289-294 | A word converts to NaN, which every comparison rejects, so it passes. |
| Rsvp.Verdicts | scripts/main.js:342-346 | There is one verdict per field. |
| Rsvp.VerdictsPointwise | scripts/main.js:342-346 | Verdict `i` is `validateField` of field `i`. |
| Rsvp.HandleRSVPSubmit | scripts/main.js:339-351 | Every field is validated, in order, with none skipped after a failure. The form is sent exactly when every field is valid. Otherwise the notification is "Harap perbaiki data yang masih salah". |
| Theme.ApplyTheme | scripts/main.js:50-71 | "dark" gives the dark page: the attribute, the sun icon and "dark" stored. Any other name gives the light page: no attribute, the moon icon and "light" stored. A theme is stored either way. |
| Theme.InitTheme | scripts/main.js:31-40 | `initTheme`; `SavedThemeWins` and `SystemPreferenceWithoutSaved` state that a saved theme decides, and otherwise the system preference. |
| Theme.ToggleTheme | scripts/main.js:73-76 | `toggleTheme`; `ToggleFlips` and `ToggleTwice` state that it flips the page and that two toggles restore it. |
| Theme.SystemThemeChange | scripts/main.js:43-47 | The system-preference listener; `SystemChangeFollowsPreference` and `SystemChangeIgnoredAfterApply` state that it shows the new preference before any theme is stored and changes nothing after. |
| Theme.SavedThemeWins | scripts/main.js:31-40 | A saved, non-empty theme decides, whatever the system prefers. The page is dark exactly when "dark" was saved. |
| Theme.SystemPreferenceWithoutSaved | scripts/main.js:31-40 | With no saved theme, the page is dark when the system prefers dark, and untouched otherwise. |
| Theme.ToggleFlips | scripts/main.js:73-76 | The toggle gives the dark page exactly when the page was not dark. |
| Theme.ToggleTwice | scripts/main.js:73-76 | Toggling twice restores a page that applyTheme produced. |
| Theme.SystemChangeIgnoredAfterApply | scripts/main.js:43-47 | After any theme has been applied, the system-preference listener never changes the page. |
| Theme.SystemChangeFollowsPreference | scripts/main.js:43-47 | With no theme stored, the listener shows the system's new preference. |
| ScrollAnimation.InViewClass | scripts/main.js:188-198 | The class added is the first rule that matches, in source order: story-paragraph gives visible, event-card gives fade-in-scale, section-title gives slide-in-left, and otherwise fade-in-up. Each is stated as if-and-only-if. |
| ScrollAnimation.HandleElementInView | scripts/main.js:188-198 | The result holds every class the element had, plus the in-view class, and no other new class. Nothing is removed. |
| ScrollAnimation.InViewIdempotent | scripts/main.js:188-198 | A second sighting adds nothing new. |
| AudioState.FirstToggleRequestsPlay | scripts/audio-player.js:88-93 | The first toggle sets `userHasInteracted`, whatever `isPlaying` is, and requests playback without changing what is shown. This is the same as the button. |
| AudioState.LaterToggle | scripts/audio-player.js:88-100 | After interaction, a toggle while playing pauses: `isPlaying` becomes false, the icon is 🔇 and no request is made. A toggle while not playing only requests playback. |
| AudioState.PlayFromButtonInteracts | scripts/audio-player.js:51-55 | The button always leaves `userHasInteracted` set and one more request outstanding. |
| AudioState.PlayOutcomes | scripts/audio-player.js:68-75 | A resolved request sets `isPlaying` and 🔊. A rejected one leaves `isPlaying` alone. `NotAllowedError` gives 🔇 and "Klik untuk memutar musik". Other errors leave the icon and title alone. |
| AudioState.ListenersFollowElement | scripts/audio-player.js:37-47 | The play and pause events set `isPlaying` to match, with the matching icon. |
| AudioState.PlayEventCommutes | scripts/audio-player.js:37-41 | The resolved request and the play event it causes agree, in either order. |
| AudioState.PauseResume | scripts/audio-player.js:88-101 | Pausing with the control and clicking again restores the playing state once the request resolves. |
| AudioPlayer.SimpleAudioPlayer.constructor | scripts/audio-player.js:3-14 | Not playing, no interaction, no request outstanding; the icon and title are as the page has them. |
| AudioPlayer.SimpleAudioPlayer.PlayMusic | scripts/audio-player.js:57-77 | Leaves the `PlayMusic` state: one more request outstanding. |
| AudioPlayer.SimpleAudioPlayer.SettlePlay | scripts/audio-player.js:68-75 | Leaves the `SettlePlay` state for the outcome. |
| AudioPlayer.SimpleAudioPlayer.HandlePlayError | scripts/audio-player.js:114-122 | Leaves the `HandlePlayError` state. |
| AudioPlayer.SimpleAudioPlayer.PauseMusic | scripts/audio-player.js:79-86 | Leaves the `PauseMusic` state. |
| AudioPlayer.SimpleAudioPlayer.ToggleMusic | scripts/audio-player.js:88-101 | Leaves the `ToggleMusic` state. |
| AudioPlayer.SimpleAudioPlayer.PlayFromButton | scripts/audio-player.js:51-55 | Leaves the `PlayFromButton` state. |
| AudioPlayer.SimpleAudioPlayer.OnPlay | scripts/audio-player.js:37-41 | Leaves the `OnPlay` state. |
| AudioPlayer.SimpleAudioPlayer.OnPause | scripts/audio-player.js:43-47 | Leaves the `OnPause` state. |
| AudioPlayer.SimpleAudioPlayer.HandleAudioError | scripts/audio-player.js:103-112 | ❌ and "File musik tidak ditemukan". |

## Left out

- Zero slides: the source's constructor throws on an empty gallery, because `preloadImages` reads `slides[NaN]`. The model therefore requires at least one slide.
- GalleryState.BeginTransition: requires `index < totalSlides`. Beyond that, the source fails at `this.slides[this.currentSlide].classList`. No caller in the source passes such an index.
- The real time of the transition delay and of the autoplay interval. Both are events the caller schedules (`CompleteTransition`, `AutoPlayTick`).
- The interleavings inside one `async` step: each half of `goToSlide` is atomic.
- The `Date` reads in `updateCountdown`. The distance to the wedding is a parameter.
- The clock, `setInterval` and `setTimeout`, including the 600 ms class removals and the alert in `handleAudioError`.
- All HTML and CSS templating: `addGalleryStyles`, the overlay markup, the wedding-day markup, notifications. These are presentation only.
- `preloadImages`, `lazyLoadImages`, `getCurrentSlide`, `handleImageError`: they keep no state that the navigation depends on.
- GalleryState.Init: assumes no slide has `active`, `prev` or `next` before start-up. `setupGallery` only adds `active` to slide 0 (scripts/gallery.js:48) and removes nothing.
- GalleryState.AddSlide: assumes a `.gallery-slider` exists. Without one, `this.slider.appendChild` (scripts/gallery.js:573) throws before any slide is added.
- Theme.ApplyTheme: assumes the `.theme-toggle` button exists. Without it, `applyTheme` (scripts/main.js:52-63) sets or clears `data-theme` and then throws at `toggleBtn.innerHTML`, before the theme is stored. Called from `initTheme` at start-up (scripts/main.js:15), the throw also aborts the rest of `init()`. Elsewhere the button is treated as optional (scripts/main.js:461).
- GalleryState.OpenFullscreen: requires `index < totalSlides`. The global `openGalleryFullscreen(index)` passes any index through, and an index outside the slides throws at `this.slides[index]` before the overlay is appended or the listener added, so such a call changes nothing the model tracks. The model does not represent that exception.
- Listener registration itself. The gallery's fullscreen keydown listeners are the exception: they are counted, since each `openFullscreen` adds one. The extra prev/next button listeners that every `createNavigation` adds are not counted; `GalleryProperties.RepeatedNextClickIsDropped` shows that they change nothing.
- Overlay image sources and counter texts in fullscreen mode.
- `submitRSVPData`, the loading state of the submit button, notifications, the particles, scroll progress, lazy loading and throttling in main.js.
- `localStorage` access failures. Storage is the `stored` field of the theme page.
- The HTMLAudioElement: volume, loading, and the actual `play()`/`pause()`. A request is counted, and its outcome is the input of `SettlePlay`. The `play` and `pause` events are inputs.
- The `if (!this.audio)` guards: `init` has already dereferenced the element, so a missing one throws from the constructor.
- In main.js, `window.audioPlayer.play()` and `window.audioPlayer.toggle()` call methods that `SimpleAudioPlayer` does not define. They throw `TypeError` and are not modelled.
- Rsvp.ToNumber: uses exact reals, not double rounding. Values that round differently near 1 or 5 (for example `"5.0000000000000001"`, which is 5 as a double) are judged by their exact value.
- Rsvp.ValidateField: takes the field's value as any string. The browser's sanitisation of `<input type="number">`, which turns a non-numeric value into `""`, is not modelled.
- Countdown.CalculateTimeUnits: uses unbounded integers, not doubles. The distances that occur are far below 2^53, where the two agree.
- Pixel positions and wheel deltas are integers.
