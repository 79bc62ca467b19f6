# Landing page interactions, modelled in Dafny

This project models the interactive scripts of a marketing landing page.

- **The generic slider engine** (`src/main.js`). Every `[data-slider]` root becomes an independent carousel with prev/next buttons, a `[data-current]`/`[data-total]` counter and pointer or touch dragging. It renders in one of two ways: translating its track by whole steps, or fading its slides. A translate slider marked `data-infinite="true"` loops forever by moving slide elements inside the track rather than by wrapping its offset.
- **The mobile feature cards** (`initFeatureClickHandlers` in `src/main.js`) and **the project cards** (`src/projectsAnim.js`). On a narrow window, a click opens at most one card at a time. Widening the window closes every project card.
- **The offers carousel** (`slider.js`). Its position is clamped to the offers (no wrap-around), and it tracks a one-based counter.
- **The accordions** (`src/accordion.js`). At most one card is open: at load, the first accordion's card if it has one; after a click on an accordion that has a card, that card alone. Clicks on accordions without a card change nothing.

Every piece of browser state the scripts write is a field of a Dafny class: indices, offsets, flags, counters and style values. Each event handler is a method with a `modifies` clause. Measured geometry (`offsetLeft`, `offsetWidth`, `scrollHeight`, `innerWidth`, pointer x-coordinates) arrives as method parameters. `OffersSlider` keeps a `Valid()` invariant that ties its counter to its position. `Slider` keeps one that ties the counter, the fade styles and, in a finite slider, the offset to the position; in an infinite slider it ties the track's order and the counter to the position, but not the offset. The `Valid()` of the card and accordion classes only fixes the shapes of their sequences, and each of their handlers states the resulting screen state in its own contract. The pure functions beside it (`WrapIndex`, `RotateLeft`, `Toggled`, `Step`, `ReleaseDecision`, …) carry the properties proved about them.

Modules:

- `Options`: the `Option` datatype.
- `Rotation`: a track of slide names and its rotations. These are the DOM moves of the infinite slider (`appendChild` of the first slide, `insertBefore` of the last).
- `SliderEngine`: `wrapIndex` and the `initSliderInstance` closure as the class `Slider`.
- `ExclusiveToggle`: the "close the others, toggle this one" update.
- `MobileFeatures`: the feature cards.
- `ProjectsAnim`: the project cards.
- `OffersSlider`: `slider.js`.
- `Accordion`: `src/accordion.js`.

## Model

| member | source | states |
|---|---|---|
| SliderEngine.JsRem | src/main.js:70 | JavaScript `%` truncates: the remainder is strictly inside (−b, b) and has the sign of the dividend |
| SliderEngine.JsRemNonnegIsMod | src/main.js:70 | on a non-negative dividend, the truncating remainder equals the Euclidean one |
| SliderEngine.WrapIndex | src/main.js:68-72 | the result is 0 for an empty loop, otherwise a position on the loop, and an index already on the loop is returned unchanged |
| SliderEngine.WrapIndexIsMod | src/main.js:68-72 | for a positive length, `wrapIndex` equals the Euclidean remainder, so it is congruent to its argument for negative indices too |
| SliderEngine.WrapNext | src/main.js:68-72 | wrapping the position after `index` gives the next position, from the last back to the first |
| SliderEngine.WrapPrev | src/main.js:68-72 | wrapping the position before `index` gives the previous position, from the first round to the last |
| SliderEngine.WrapStepsAreInverse | src/main.js:68-72 | wrapping `index+1` and `index-1` goes to the next and previous position with wrap-around, and the two steps undo each other |
| SliderEngine.ParseMode | src/main.js:80-82 | a missing or empty `data-mode` means translate; otherwise the mode is translate or fade exactly when the lower-cased attribute equals that word |
| SliderEngine.AsciiLower | src/main.js:80-82 | lowering keeps the length, turns each ASCII capital into its lowercase letter, so none is left, and leaves every other character unchanged |
| SliderEngine.Bootstrap | src/main.js:83-94 | an instance is created iff there is a track with at least one slide; the count is fixed at creation; infinite holds iff `data-infinite` is exactly "true" and the mode is translate |
| SliderEngine.StepFromLayout | src/main.js:107-120 | the step is the positive distance between the first two slides' left edges, otherwise the first slide's width; it is 0 exactly when both fall back to a zero width |
| SliderEngine.RestingOffsetShows | src/main.js:146-150 | translating by `-(index*step)` puts the slide at position `index` at the viewport's edge |
| SliderEngine.RestingOffset | src/main.js:147 | the resting offset is never positive, and with a positive step it is 0 only at the first position |
| SliderEngine.RestingOffsetIsProduct | src/main.js:147 | the resting offset of a position, one step further left per position, is the source's `-currentIndex * translateStepPx` |
| SliderEngine.ReleaseDecision | src/main.js:250-266 | against a quarter-step threshold, a drag further right goes to the previous slide, further left to the next, and anything in between snaps back; the three cases are exclusive and cover every drag |
| SliderEngine.ReleaseTarget | src/main.js:259-267 | after a finite release the position is still on the loop: unchanged on a snap-back, and one wrapped step away in the dragged direction otherwise |
| SliderEngine.ShortDragShowsNoSlide | src/main.js:259-268 | as written, a release after a non-zero drag within a quarter step, which should snap back, leaves no slide aligned with the viewport's edge |
| SliderEngine.InfiniteResizeAsWrittenShowsWrongSlide | src/main.js:276-281 | as written, resizing an infinite slider at rest on position `index` > 0 shows slide `2·index mod n`, which is never slide `index` |
| SliderEngine.InfiniteRestShowsCurrent | src/main.js:183-190 | an infinite track rotated to the current position and resting at offset 0 shows the current slide |
| SliderEngine.PrevRotation | src/main.js:201-214 | moving the last slide of a track rotated to position `k` to the front rotates it to the wrapped previous position, which `handlePrevInfinite` then selects |
| SliderEngine.Slider.FiniteRestShowsCurrent | src/main.js:146-164 | in a valid finite translate slider that is not being dragged, the slide at the viewport's edge is the current one |
| SliderEngine.Slider.constructor | src/main.js:283-300 | the initial setup over the state of lines 96-103 yields a valid slider at position 0 with counter 1, the measured step in translate mode and offset 0 without a transition |
| SliderEngine.Slider.ComputeStep | src/main.js:107-120 | only a translate slider re-measures its step, as `StepFromLayout` of the live slides |
| SliderEngine.Slider.ApplyFade | src/main.js:122-135 | the slide at the current track position is shown, every other slide in the track is hidden, and nothing else changes; on the initial order exactly the current slide is shown |
| SliderEngine.Slider.SetTransform | src/main.js:137-144 | the track's offset and transition flag become the given values |
| SliderEngine.Slider.ApplyTranslate | src/main.js:146-150 | the offset becomes the current position's resting offset plus the drag distance |
| SliderEngine.Slider.UpdateCounter | src/main.js:152-154 | the current counter shows the position counted from 1 |
| SliderEngine.Slider.GoTo | src/main.js:156-164 | the position becomes the wrapped target, the counter follows it, and the slider is rendered there with a transition, by fade or by translate; the invariant is re-established |
| SliderEngine.Slider.HandlePrev | src/main.js:167-170 | a finite slider steps back with wrap-around through `goTo`: translated with a transition and fade styles untouched, or faded with the transform untouched, and no animation state changes; an infinite slider drops the click while a transition is in flight, changing nothing, and otherwise moves the last slide to the front, jumps to one step left without a transition and waits for the next frame; the fade styles of an infinite slider are untouched |
| SliderEngine.Slider.HandleNext | src/main.js:171-174 | the track order is untouched; a finite slider advances with wrap-around through `goTo`: translated with a transition and fade styles untouched, or faded with the transform untouched, and no animation state changes; an infinite slider drops the click while a transition is in flight, changing nothing, and otherwise animates one step left with a transition and waits for its end; the fade styles of an infinite slider are untouched |
| SliderEngine.Slider.HandleNextInfinite | src/main.js:178-196 | dropped while animating; otherwise the slider starts animating one step left with a transition, the logical position advances at once, and the invariant (track rotated by the position minus the pending move) holds |
| SliderEngine.Slider.HandlePrevInfinite | src/main.js:197-216 | dropped while animating; otherwise the last slide moves to the front, the track jumps one step left without a transition, the position steps back, and the track is again rotated by the new position |
| SliderEngine.Slider.StartPrevTransition | src/main.js:199-215 | with no transition in flight, the last slide moves to the front, the track jumps one step left without a transition, the frame callback is awaited and the position steps back with wrap-around, keeping the invariant |
| SliderEngine.Slider.CompleteFrame | src/main.js:205-212 | the pending animation frame of a prev transition animates back to 0 and waits for its end; nothing happens otherwise |
| SliderEngine.Slider.CompleteTransition | src/main.js:183-191 | a next transition's end moves the first slide to the end and resets to 0 without a transition, and the current slide is then the one shown; a prev transition's end (lines 207-210) only ends the animation; both leave the track rotated by the position |
| SliderEngine.Slider.EndNextTransition | src/main.js:183-191 | the next transition's listener moves the first slide to the end, which catches the physical order up with the position, resets to 0 without a transition and shows the current slide |
| SliderEngine.Slider.OnPointerDown | src/main.js:218-233 | only a translate slider starts a drag, from the pointer's x with zero distance and no transition: at 0 when infinite, at the resting offset otherwise |
| SliderEngine.Slider.OnPointerMove | src/main.js:235-244 | while dragging, the drag distance is the pointer's travel and the track follows it without a transition; nothing happens otherwise |
| SliderEngine.Slider.OnPointerUp | src/main.js:246-273 | the drag ends with its distance cleared and the fade styles untouched; a finite slider comes to rest exactly on `ReleaseTarget` with a transition; an infinite one starts the prev transition (last slide to the front, one step left without a transition, frame awaited) or the next one (one step left with a transition, end awaited) by `ReleaseDecision`, leaves everything where the drag left it when a transition is already in flight, and snaps back to 0 with a transition otherwise |
| SliderEngine.Slider.ReleaseInfinite | src/main.js:251-258 | an infinite release by `ReleaseDecision` starts the prev or next transition with its pending completion, offset and transition flag, is dropped with the track left at the drag offset while a transition is in flight, or snaps back to 0 with a transition; the drag distance is then cleared |
| SliderEngine.Slider.ReleaseFinite | src/main.js:259-267 | a finite release, with the distance cleared, comes to rest at the resting offset of `ReleaseTarget` with a transition |
| SliderEngine.Slider.ReleaseFiniteAsWritten | src/main.js:259-268 | as written, a finite release reaches `ReleaseTarget` but rests at its resting offset plus the uncleared drag distance, so the rendering invariant holds afterwards exactly when the drag was 0, and a short drag that should snap back shows no slide at the edge |
| SliderEngine.Slider.OnResize | src/main.js:276-281 | a translate slider re-measures its step and renders without a transition; an infinite one at rest then shows its current slide |
| SliderEngine.Slider.OnResizeAsWritten | src/main.js:276-281 | as written, a translate slider re-measures and renders the finite resting offset plus the drag, infinite ones too; an infinite slider at rest on a position other than 0 then shows slide `2·index mod n`, not the current one |
| Rotation.Ids | src/main.js:84-86 | the initial track holds one entry per slide |
| Rotation.IdsAt | src/main.js:84-86 | slide `j` of the initial order sits at position `j` |
| Rotation.IdsDistinct | src/main.js:84-86 | the initial order names every slide exactly once |
| Rotation.RotateLeftZero | src/main.js:288-289 | an infinite slider starts unrotated: a rotation by nothing is the initial order |
| Rotation.RotateLeft | src/main.js:186-187 | rotating a track keeps its length |
| Rotation.RotateLeftAt | src/main.js:186-187 | position `j` of a track rotated by `k` holds the slide at `(j+k) mod n` |
| Rotation.RotateLeftPermutes | src/main.js:186-187 | rotation only reorders the slides |
| Rotation.MoveFirstToEnd | src/main.js:186-187 | `appendChild` of the first slide keeps the track's length and puts that slide last |
| Rotation.MoveLastToFront | src/main.js:201-203 | `insertBefore` of the last slide keeps the track's length and puts that slide first |
| Rotation.MovesAreRotations | src/main.js:186-203 | the first-to-end move is a rotation left by one place, and the last-to-front move a rotation by all but one place |
| Rotation.MoveFirstToEndAdvances | src/main.js:186-187 | moving the first slide to the end advances the rotation by one, wrapping at the end |
| Rotation.MoveLastToFrontRetreats | src/main.js:201-203 | moving the last slide to the front steps the rotation back by one, wrapping at the start |
| Rotation.MovesAreInverse | src/main.js:186-203 | the two DOM moves undo each other |
| Rotation.RotatedIdsAt | src/main.js:186-187 | the rotated initial track holds slide `(j+k) mod n` at position `j`, and slide `k` first |
| Rotation.RotatedIdsDistinct | src/main.js:186-203 | a rotated track still holds every slide exactly once |
| ExclusiveToggle.Toggled | src/main.js:377-397 | after a click, at most one card is active: the clicked card's state is flipped and every other card is inactive |
| ExclusiveToggle.ToggledOutcome | src/projectsAnim.js:23-31 | clicking the active card leaves no card active, and clicking an inactive one leaves exactly that card active |
| ExclusiveToggle.ToggleTwiceRestores | src/projectsAnim.js:23-31 | when no other card was active, a second click on the same card restores the first state |
| MobileFeatures.FeatureCards.constructor | src/main.js:360-368 | before the first initialisation no handler is installed, and the cards, their elements, classes and inline styles are as loaded |
| MobileFeatures.FeatureCards.InitFeatureClickHandlers | src/main.js:362-430 | handlers are installed on the first call, and later calls change nothing |
| MobileFeatures.FeatureCards.Click | src/main.js:369-426 | on a window narrower than 769 pixels, the cards become `Toggled`, at most one is active, and every present content and text element follows its card's state (−100 and 1 when active, 0 and 0 otherwise); wide windows and missing elements are untouched |
| MobileFeatures.FeatureCards.CloseOthers | src/main.js:377-397 | every card other than the clicked one loses `active`, its present content returns to 0 and its present text to opacity 0; the clicked card and missing elements are untouched |
| ProjectsAnim.ProjectCards.constructor | src/projectsAnim.js:1-8 | before the first initialisation no project listens for clicks, and the projects' buttons and classes are as loaded |
| ProjectsAnim.ProjectCards.InitProjectClickHandlers | src/projectsAnim.js:4-36 | on the first call, listeners are installed exactly on the projects that have a `.growing` button; later calls change nothing |
| ProjectsAnim.ProjectCards.Click | src/projectsAnim.js:15-32 | a click on a project with a button, on a window narrower than 768 pixels, makes the projects `Toggled`, so at most one is active; otherwise nothing changes |
| ProjectsAnim.ProjectCards.OnResize | src/projectsAnim.js:46-56 | resizing to 768 pixels or wider closes every project; a narrower window changes nothing |
| OffersSlider.Step | slider.js:35-47 | the right arrow advances only while a later offer exists, the left arrow steps back only while an earlier one exists, and the position stays on an offer |
| OffersSlider.RunStaysInRange | slider.js:35-47 | after any sequence of clicks the position is still on an offer (or 0 when there are none) |
| OffersSlider.RightClicksSaturate | slider.js:35-40 | `k` right clicks from the first offer reach offer `min(k, total-1)` |
| OffersSlider.RightClicksFrom | slider.js:35-40 | `k` right clicks from any offer advance by `k` but stop at the last offer |
| OffersSlider.ArrowsUndoEachOther | slider.js:35-47 | away from the boundary, a left click undoes a right click and the converse |
| OffersSlider.OffersSlider.constructor | slider.js:1-15 | the carousel starts at offer 0, and the total counter shows the number of offers |
| OffersSlider.OffersSlider.UpdateSliderPosition | slider.js:28-33 | the container is translated left by whole slide widths, and the counter shows the position counted from 1; this is also the resize handler (line 50) |
| OffersSlider.OffersSlider.RightArrowClick | slider.js:35-40 | the position becomes `Step(·, RightArrow)`; a move re-renders and a no-op leaves the rendering untouched |
| OffersSlider.OffersSlider.LeftArrowClick | slider.js:42-47 | the position becomes `Step(·, LeftArrow)`; a move re-renders and a no-op leaves the rendering untouched |
| Accordion.Accordion.constructor | src/accordion.js:22-25 | after load, the first accordion's card (if it exists) is the only open card at its full height, and otherwise every card is closed |
| Accordion.Accordion.CloseAll | src/accordion.js:7-15 | every existing card is closed at height 0, and accordions without a card are skipped |
| Accordion.Accordion.OpenCard | src/accordion.js:17-20 | the card opens at its scroll height, and no other card changes |
| Accordion.Accordion.Click | src/accordion.js:28-36 | a click on an accordion with a card leaves that card as the only open one; clicking the open card again changes nothing; an accordion without a card ignores the click |

## Left out

- Page scaling (`supportsZoomProperty`, `applyScale` and `updateScale`, src/main.js:8-63): these compute CSS `zoom` and `transform` strings from floating-point window sizes, and no slider state depends on them.
- `disableHoverOnMobile` (src/main.js:316-357) and the start-up styling in `initMobileFeatures` (src/main.js:433-459) are left out. `disableHoverOnMobile` toggles the `mobile-no-hover` body class and adds `mouseenter` listeners that only cancel hover effects; because a wide window resets its `hoverHandlersAdded` flag, the next narrow resize adds a second set of listeners. `initMobileFeatures` writes initial inline styles only where none exist. Neither changes the click state modelled here.
- `map.js` and `vite.config.js` are not part of this model: they embed a third-party map and configure the build.
- Event-listener registration (`addEventListener`/`removeEventListener`, `{ passive, once }`) and the `initSliders` loop over roots are left out. Each handler is a method, and each slider instance is an independent `Slider` object.
- The two asynchronous completions of an infinite slider, the `transitionend` event and the `requestAnimationFrame` callback, are methods that the environment calls: `CompleteTransition` and `CompleteFrame`. The model delivers a completion whenever one is pending, even when no transition ran. In the browser, `transitionend` never fires when a transition is cancelled, or when `setTransform` writes the offset the track already has: with a zero step (−0 over 0 for a next, 0 after −0 for a prev), or a next click after the as-written resize has already put the track at −step. There `animating` stays true for good and every later infinite click is dropped, which the model does not capture.
- The cursor style, the transition's easing string and the fade styles' `pointerEvents` and `zIndex` values are left out. Each fade style is one of three values, and each transition is one flag.
- Geometry and pointer coordinates are whole pixels. Under that assumption, `Math.round` in `applyTranslate` is the identity, and the quarter-step threshold is compared as `4·delta` against `step`.
- OffersSlider.OffersSlider.UpdateSliderPosition: the slide width plus gap (`getSlideWidth`, `parseFloat` of the computed gap) is a whole-pixel parameter, not a floating-point measurement.
- OffersSlider.OffersSlider.UpdateSliderPosition: it requires at least one offer. It measures `offers[0]`, so on a page without offers the source throws before writing, and the model does not describe that throw; the arrow handlers reach it only with two or more offers.
- The slider counter elements and the offers carousel's elements are assumed present. The source guards `currentEl` and `totalEl` with `if`, but the model always writes them; the offers script would throw without its elements.
- SliderEngine.ParseMode: `toLowerCase` is modelled on ASCII letters only. No other character lowers to a letter of "translate" or "fade".
- The accordion roots are assumed present. `accordions[0]` being `null` would make the source throw.
- The step is re-measured only at creation and on resize, as the code does. A descriptive reading that has every render re-measure it does not match `computeStep`'s callers.

## Findings

| source | as written | input that shows it | evidently intended | confidence | as-written member | corrected member |
|---|---|---|---|---|---|---|
| src/main.js:259-268 | a finite-mode release renders the target position through `applyTranslate` while `dragDeltaX` still holds the drag distance, and clears it only afterwards | 5 slides, step 300, position 0, drag −50 released: a snap-back renders offset −50 instead of 0 | the track comes to rest on the chosen position's resting offset | not executed | SliderEngine.Slider.ReleaseFiniteAsWritten, SliderEngine.ShortDragShowsNoSlide | SliderEngine.Slider.OnPointerUp, SliderEngine.Slider.ReleaseFinite |
| src/main.js:276-281 | `onResize` calls `applyTranslate` in infinite mode too, which offsets a track that is already rotated to the current slide by `-currentIndex·step` | 3 slides, infinite, step 300, one next completed (track [1,2,0], position 1): a resize renders −300 and shows slide 2 while the counter reads 2, that is slide 1 | an infinite slider stays at offset 0 (plus any drag), showing the current slide | not executed | SliderEngine.Slider.OnResizeAsWritten, SliderEngine.InfiniteResizeAsWrittenShowsWrongSlide | SliderEngine.Slider.OnResize, SliderEngine.InfiniteRestShowsCurrent |
