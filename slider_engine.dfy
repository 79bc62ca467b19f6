/** The generic slider engine of src/main.js: one independent carousel per
    `[data-slider]` root, rendering either by translating its track or by
    fading its slides, optionally looping forever by moving slide elements
    inside the track, and following pointer drags.

    The DOM is replaced by values: the track's slides are a sequence of slide
    names (`Rotation.Ids`), measured geometry is an integer parameter, style
    writes are fields, and the two asynchronous completions the source waits
    for (`transitionend` and `requestAnimationFrame`) are methods that the
    environment calls. */
module SliderEngine {
  import opened Options
  import opened Rotation

  // ---------------------------------------------------------------------
  // Index arithmetic

  /** JavaScript's `%` on a positive divisor: it truncates toward zero, so
      the remainder takes the sign of the dividend. Defined by repeated
      subtraction of the divisor from the magnitude. */
  function JsRem(a: int, b: int): (r: int)
    requires b > 0
    ensures -b < r < b
    ensures a >= 0 ==> r >= 0
    ensures a <= 0 ==> r <= 0
    decreases if a >= 0 then 2 * a else 1 - 2 * a
  {
    if a < 0 then -JsRem(-a, b)
    else if a < b then a
    else JsRem(a - b, b)
  }

  /** On a non-negative dividend, the truncating remainder is the Euclidean
      one. */
  lemma {:induction false} JsRemNonnegIsMod(a: nat, b: int)
    requires b > 0
    ensures JsRem(a, b) == a % b
    decreases a
  {
    if a < b {
      ModSmall(a, b);
    } else {
      JsRemNonnegIsMod(a - b, b);
      ModUnique(a, b, (a - b) / b + 1, (a - b) % b);
    }
  }

  /** `wrapIndex`: the position `index` names on a loop of `length` slides. */
  function WrapIndex(index: int, length: nat): (r: nat)
    ensures length == 0 ==> r == 0
    ensures length > 0 ==> r < length
    ensures 0 <= index < length ==> r == index
  {
    if length == 0 then 0
    else
      var result := JsRem(index, length);
      if result < 0 then result + length else result
  }

  /** `wrapIndex` agrees with mathematical (Euclidean) remainder, so its
      result is congruent to `index` modulo `length`. */
  lemma {:induction false} WrapIndexIsMod(index: int, length: nat)
    requires length > 0
    ensures WrapIndex(index, length) == index % length
  {
    if index >= 0 {
      JsRemNonnegIsMod(index, length);
    } else {
      JsRemNonnegIsMod(-index, length);
      var q, m := (-index) / length, (-index) % length;
      assert JsRem(index, length) == -m;
      assert -index == q * length + m;
      assert (-q) * length == -(q * length);
      if m == 0 {
        ModUnique(index, length, -q, 0);
      } else {
        assert (-q - 1) * length == (-q) * length - length;
        ModUnique(index, length, -q - 1, length - m);
      }
    }
  }

  /** Wrapping the position after `index` moves to the next position,
      from the last one back to the first. */
  lemma {:induction false} WrapNext(index: nat, length: nat)
    requires index < length
    ensures WrapIndex(index + 1, length) == if index + 1 == length then 0 else index + 1
  {
    if index + 1 == length {
      assert JsRem(length, length) == JsRem(0, length) == 0;
    }
  }

  /** Wrapping the position before `index` moves to the previous position,
      from the first one round to the last. */
  lemma {:induction false} WrapPrev(index: nat, length: nat)
    requires index < length
    ensures WrapIndex(index - 1, length) == if index == 0 then length - 1 else index - 1
  {
    if index == 0 {
      assert JsRem(-1, length) == -JsRem(1, length);
      if length == 1 {
        assert JsRem(1, length) == JsRem(0, length) == 0;
      }
    }
  }

  /** Stepping forward then back (or back then forward) returns to the same
      position: next and prev are inverse. */
  lemma {:induction false} WrapStepsAreInverse(index: nat, length: nat)
    requires index < length
    ensures WrapIndex(index + 1, length) == if index + 1 == length then 0 else index + 1
    ensures WrapIndex(index - 1, length) == if index == 0 then length - 1 else index - 1
    ensures WrapIndex(WrapIndex(index + 1, length) - 1, length) == index
    ensures WrapIndex(WrapIndex(index - 1, length) + 1, length) == index
  {
    WrapNext(index, length);
    WrapPrev(index, length);
    WrapPrev(WrapIndex(index + 1, length), length);
    WrapNext(WrapIndex(index - 1, length), length);
  }

  // ---------------------------------------------------------------------
  // Configuration read from the root's attributes

  /** The renderer. `Other` is any `data-mode` that is neither "translate"
      nor "fade": such a root renders like translate mode but never measures
      a step and never drags, because those checks ask for "translate". */
  datatype Mode = Translate | Fade | Other

  /** What `initSliderInstance` fixes when it creates an instance. */
  datatype Config = Config(mode: Mode, infinite: bool, totalCount: nat)

  predicate ValidConfig(cfg: Config) {
    cfg.totalCount > 0 && (cfg.infinite ==> cfg.mode == Translate)
  }

  function LowerChar(c: char): char {
    if 'A' <= c <= 'Z' then (c as int + 32) as char else c
  }

  /** `toLowerCase`, restricted to ASCII letters (no other character lowers
      to a letter of "translate" or "fade"). */
  function AsciiLower(s: string): (r: string)
    ensures |r| == |s|
    ensures forall i :: 0 <= i < |r| ==> !('A' <= r[i] <= 'Z')
    ensures forall i :: 0 <= i < |s| && !('A' <= s[i] <= 'Z') ==> r[i] == s[i]
    ensures forall i :: 0 <= i < |s| && 'A' <= s[i] <= 'Z' ==> r[i] == (s[i] as int + 32) as char
  {
    seq(|s|, i requires 0 <= i < |s| => LowerChar(s[i]))
  }

  /** `(getAttribute("data-mode") || "translate").toLowerCase()`, classified. */
  function ParseMode(attr: Option<string>): (m: Mode)
    ensures (attr == None || attr == Some("")) ==> m == Translate
    ensures attr.Some? && attr.value != "" ==>
      (m == Translate <==> AsciiLower(attr.value) == "translate") &&
      (m == Fade <==> AsciiLower(attr.value) == "fade")
  {
    var raw := if attr == None || attr == Some("") then "translate" else attr.value;
    var lowered := AsciiLower(raw);
    if lowered == "translate" then Translate
    else if lowered == "fade" then Fade
    else Other
  }

  /** The creation guard of `initSliderInstance`. `trackSlides` is `None`
      when the root has no `[data-track]`, otherwise the number of
      `[data-slide]` elements in it. */
  function Bootstrap(modeAttr: Option<string>, infiniteAttr: Option<string>,
                     trackSlides: Option<nat>): (r: Option<Config>)
    ensures r.Some? <==> trackSlides.Some? && trackSlides.value > 0
    ensures r.Some? ==> ValidConfig(r.value)
    ensures r.Some? ==> r.value.totalCount == trackSlides.value && r.value.mode == ParseMode(modeAttr)
    ensures r.Some? ==> (r.value.infinite <==> infiniteAttr == Some("true") && r.value.mode == Translate)
  {
    if trackSlides == None || trackSlides.value == 0 then None
    else
      var mode := ParseMode(modeAttr);
      Some(Config(mode, infiniteAttr == Some("true") && mode == Translate, trackSlides.value))
  }

  // ---------------------------------------------------------------------
  // Geometry and rendering

  /** The measured box of one slide: `offsetLeft` and `offsetWidth`. */
  datatype Box = Box(left: int, width: nat)

  /** `computeStep`: the distance between the starts of the first two live
      slides, which includes any gap; the first slide's width when there is
      only one slide or the distance is not positive. */
  function StepFromLayout(layout: seq<Box>): (step: nat)
    requires |layout| > 0
    ensures |layout| >= 2 && layout[1].left > layout[0].left ==>
      step == layout[1].left - layout[0].left
    ensures (|layout| < 2 || layout[1].left <= layout[0].left) ==> step == layout[0].width
    ensures step == 0 <==> layout[0].width == 0 && (|layout| < 2 || layout[1].left <= layout[0].left)
  {
    if |layout| <= 1 then layout[0].width
    else
      var delta := layout[1].left - layout[0].left;
      if delta > 0 then delta else layout[0].width
  }

  /** The track offset that puts position `index` at the viewport's edge:
      each position rests one step further left than the one before it. */
  function RestingOffset(index: nat, step: nat): (r: int)
    ensures r <= 0
    ensures step > 0 ==> (r == 0 <==> index == 0)
    decreases index
  {
    if index == 0 then 0 else RestingOffset(index - 1, step) - step
  }

  /** The resting offset is the source's `-currentIndex * translateStepPx`. */
  lemma {:induction false} RestingOffsetIsProduct(index: nat, step: nat)
    ensures RestingOffset(index, step) == -(index * step)
    decreases index
  {
    if index > 0 {
      RestingOffsetIsProduct(index - 1, step);
      assert (index - 1) * step == index * step - step;
    }
  }

  /** The slide whose left edge sits at the viewport's left edge when the
      track is translated by `offset`, if any. */
  function DisplayedSlide(track: seq<nat>, offset: int, step: nat): Option<nat> {
    if step > 0 && offset <= 0 && (-offset) % step == 0 && (-offset) / step < |track|
    then Some(track[(-offset) / step])
    else None
  }

  /** Translating by the resting offset of a position shows the slide at
      that position. */
  lemma {:induction false} RestingOffsetShows(track: seq<nat>, position: nat, step: nat)
    requires position < |track| && step > 0
    ensures DisplayedSlide(track, RestingOffset(position, step), step) == Some(track[position])
  {
    RestingOffsetIsProduct(position, step);
    MulNonneg(position, step);
    ModUnique(position * step, step, position, 0);
  }

  /** Fade styles of one slide: `Shown` is opacity 1, pointer events on and
      z-index 1; `Hidden` is opacity 0, pointer events off and z-index 0;
      `Unstyled` is a slide the fade renderer never touched. */
  datatype FadeStyle = Unstyled | Shown | Hidden

  /** Exactly the slide `index` is shown; every other slide is hidden. */
  ghost predicate FadeShows(styles: seq<FadeStyle>, index: nat) {
    forall id :: 0 <= id < |styles| ==> styles[id] == if id == index then Shown else Hidden
  }

  // ---------------------------------------------------------------------
  // Drag release

  datatype Release = GoPrev | GoNext | SnapBack

  /** `onPointerUp`'s choice against a threshold of a quarter step:
      `delta > step * 0.25` reveals the previous slide, `delta < -step * 0.25`
      the next one, anything in between snaps back. */
  function ReleaseDecision(delta: int, step: nat): (r: Release)
    ensures r == GoPrev <==> 4 * delta > step
    ensures r == GoNext <==> 4 * delta < -(step as int)
    ensures r == SnapBack <==> -(step as int) <= 4 * delta <= step
  {
    if 4 * delta > step then GoPrev
    else if 4 * delta < -(step as int) then GoNext
    else SnapBack
  }

  /** The logical position after a finite-mode drag release. */
  function ReleaseTarget(n: nat, index: nat, delta: int, step: nat): (r: nat)
    requires index < n
    ensures r < n
    ensures ReleaseDecision(delta, step) == SnapBack ==> r == index
    ensures ReleaseDecision(delta, step) == GoPrev ==> WrapIndex(r + 1, n) == index
    ensures ReleaseDecision(delta, step) == GoNext ==> WrapIndex(r - 1, n) == index
  {
    WrapStepsAreInverse(index, n);
    match ReleaseDecision(delta, step)
    case GoPrev => WrapIndex(index - 1, n)
    case GoNext => WrapIndex(index + 1, n)
    case SnapBack => index
  }

  // ---------------------------------------------------------------------
  // Discrepancies in the source, as written

  /** As written, a finite-mode release leaves the track displaced by the
      drag distance (see `Slider.ReleaseFiniteAsWritten`). After a short drag
      that should snap back, no slide is aligned with the viewport's edge at
      all. */
  lemma {:induction false} ShortDragShowsNoSlide(n: nat, index: nat, delta: int, step: nat)
    requires index < n && step > 0 && delta != 0 && -(step as int) <= 4 * delta <= step
    ensures DisplayedSlide(Ids(n), RestingOffset(index, step) + delta, step) == None
  {
    RestingOffsetIsProduct(index, step);
    var x := index * step - delta;
    if delta < 0 {
      ModUnique(x, step, index, -delta);
    } else if index > 0 {
      assert x == (index - 1) * step + (step - delta);
      ModUnique(x, step, index - 1, step - delta);
    }
  }

  /** As written, a resize renders an infinite slider at rest on position
      `index` (its track rotated by `index`) at the finite resting offset of
      `index` (see `Slider.OnResizeAsWritten`). That shows slide
      `2 * index mod n`, not slide `index`, whenever `index` is not 0. */
  lemma {:induction false} InfiniteResizeAsWrittenShowsWrongSlide(n: nat, index: nat, step: nat)
    requires 0 < index < n && step > 0
    ensures DisplayedSlide(RotateLeft(Ids(n), index), RestingOffset(index, step), step)
         == Some((2 * index) % n)
    ensures (2 * index) % n != index
  {
    RestingOffsetShows(RotateLeft(Ids(n), index), index, step);
    RotatedIdsAt(n, index, index);
    if 2 * index < n { ModSmall(2 * index, n); } else { ModWrap(2 * index, n); }
  }

  /** The corrected resting offset of an infinite slider, 0, shows the
      current slide. */
  lemma {:induction false} InfiniteRestShowsCurrent(n: nat, index: nat, step: nat)
    requires index < n && step > 0
    ensures DisplayedSlide(RotateLeft(Ids(n), index), 0, step) == Some(index)
  {
    RestingOffsetShows(RotateLeft(Ids(n), index), 0, step);
    RotatedIdsAt(n, index, 0);
  }

  /** Moving the last slide of a track rotated to position `k` to the
      front rotates it to the wrapped previous position. */
  lemma {:induction false} PrevRotation(n: nat, k: nat)
    requires k < n
    ensures MoveLastToFront(RotateLeft(Ids(n), k)) == RotateLeft(Ids(n), WrapIndex(k - 1, n))
  {
    MoveLastToFrontRetreats(Ids(n), k);
    WrapPrev(k, n);
  }

  // ---------------------------------------------------------------------
  // One slider instance

  /** Which completion an infinite transition waits for: the `transitionend`
      listener of a next transition, the `requestAnimationFrame` callback of
      a prev transition, or that transition's own `transitionend` listener. */
  datatype Pending = NoListener | AwaitNextEnd | AwaitFrame | AwaitPrevEnd

  class Slider {
    const mode: Mode
    const infinite: bool
    /** The number of slides present at creation; never changes. */
    const totalCount: nat
    /** `[data-total]`'s text. */
    const counterTotal: nat

    /** The track's slides in physical (DOM) order. */
    var track: seq<nat>
    var currentIndex: nat
    /** `translateStepPx`. */
    var step: nat
    var isDragging: bool
    var dragStartX: int
    var dragDeltaX: int
    var animating: bool
    var pending: Pending
    /** The x of the track's `translate3d`. */
    var offset: int
    /** Whether the last transform was written with the eased transition. */
    var withTransition: bool
    /** Fade styles, indexed by slide. */
    var styles: seq<FadeStyle>
    /** `[data-current]`'s text. */
    var counterCurrent: nat

    /** How far the physical order is rotated from the initial order: by the
        logical position, except while a next transition has advanced the
        position but not yet moved its first slide to the end. */
    ghost function PhysicalShift(): nat
      reads this
      requires totalCount > 0
    {
      if pending != AwaitNextEnd then currentIndex
      else if currentIndex == 0 then totalCount - 1
      else currentIndex - 1
    }

    /** The state invariant, without the rendering. */
    ghost predicate Core()
      reads this
    {
      && ValidConfig(Config(mode, infinite, totalCount))
      && |track| == totalCount && |styles| == totalCount
      && currentIndex < totalCount
      && counterTotal == totalCount
      && (animating <==> pending != NoListener)
      && (!infinite ==> track == Ids(totalCount) && pending == NoListener)
      && (infinite ==> track == RotateLeft(Ids(totalCount), PhysicalShift()))
      && (mode != Translate ==> !isDragging && step == 0)
    }

    /** Outside a drag the drag distance is 0. */
    ghost predicate DragCleared()
      reads this
    {
      !isDragging ==> dragDeltaX == 0
    }

    /** What is on screen matches the logical position. */
    ghost predicate Rendered()
      reads this
    {
      && counterCurrent == currentIndex + 1
      && (mode == Fade ==> FadeShows(styles, currentIndex))
      && (mode != Fade && !infinite ==> offset == RestingOffset(currentIndex, step) + dragDeltaX)
    }

    ghost predicate Valid()
      reads this
    {
      Core() && DragCleared() && Rendered()
    }

    /** In a finite translate slider at rest, the slide at the viewport's edge
        is the current one. */
    lemma FiniteRestShowsCurrent()
      requires Valid() && mode == Translate && !infinite && !isDragging && step > 0
      ensures DisplayedSlide(track, offset, step) == Some(currentIndex)
    {
      IdsAt(totalCount);
      RestingOffsetShows(track, currentIndex, step);
    }

    /** The slider built for a root that passed `Bootstrap`, with the live
        slides measured as `layout` (in physical order). */
    constructor (cfg: Config, layout: seq<Box>)
      requires ValidConfig(cfg) && |layout| == cfg.totalCount
      ensures Valid()
      ensures mode == cfg.mode && infinite == cfg.infinite && totalCount == cfg.totalCount
      ensures track == Ids(totalCount) && currentIndex == 0 && counterCurrent == 1
      ensures !animating && !isDragging
      ensures mode == Translate ==> step == StepFromLayout(layout)
      ensures mode != Fade ==> offset == 0 && !withTransition
    {
      mode, infinite, totalCount := cfg.mode, cfg.infinite, cfg.totalCount;
      counterTotal := cfg.totalCount;
      track := Ids(cfg.totalCount);
      currentIndex, step := 0, 0;
      isDragging, dragStartX, dragDeltaX := false, 0, 0;
      animating, pending := false, NoListener;
      offset, withTransition := 0, false;
      styles := seq(cfg.totalCount, _ => Unstyled);
      counterCurrent := 0;
      new;
      RotateLeftZero(track);
      if mode == Fade {
        IdsDistinct(totalCount);
        ApplyFade();
      } else {
        ComputeStep(layout);
        if infinite {
          SetTransform(0, false);
        } else {
          ApplyTranslate(false);
        }
        assert offset == 0 && !withTransition;
      }
      assert !animating && !isDragging && dragDeltaX == 0 && currentIndex == 0;
      UpdateCounter();
    }

    /** `computeStep`, on the live slides measured as `layout`. */
    method ComputeStep(layout: seq<Box>)
      requires |layout| == |track| > 0
      modifies this`step
      ensures mode != Translate ==> step == old(step)
      ensures mode == Translate ==> step == StepFromLayout(layout)
    {
      if mode != Translate {
        return;
      }
      step := StepFromLayout(layout);
    }

    /** `applyFade`: walks the slides in track order and shows the one at the
        current position, hiding every other. */
    method ApplyFade()
      requires Distinct(track)
      requires forall k :: 0 <= k < |track| ==> track[k] < |styles|
      modifies this`styles
      ensures |styles| == old(|styles|)
      ensures forall k :: 0 <= k < |track| ==> styles[track[k]] == if k == currentIndex then Shown else Hidden
      ensures forall id :: 0 <= id < |styles| && id !in track ==> styles[id] == old(styles[id])
      ensures track == Ids(|styles|) ==> FadeShows(styles, currentIndex)
    {
      var k := 0;
      while k < |track|
        invariant 0 <= k <= |track|
        invariant |styles| == old(|styles|)
        invariant forall j :: 0 <= j < k ==> styles[track[j]] == if j == currentIndex then Shown else Hidden
        invariant forall id :: 0 <= id < |styles| && id !in track[..k] ==> styles[id] == old(styles[id])
      {
        styles := styles[track[k] := if k == currentIndex then Shown else Hidden];
        assert track[..k + 1] == track[..k] + [track[k]];
        k := k + 1;
      }
      assert track[..k] == track;
      if track == Ids(|styles|) {
        IdsAt(|styles|);
        forall id | 0 <= id < |styles|
          ensures styles[id] == if id == currentIndex then Shown else Hidden
        {
          assert track[id] == id;
        }
      }
    }

    /** `setTransform`. */
    method SetTransform(x: int, transition: bool)
      modifies this`offset, this`withTransition
      ensures offset == x && withTransition == transition
    {
      offset, withTransition := x, transition;
    }

    /** `applyTranslate`: the current position's resting offset plus the drag
        distance (`Math.round` of a whole number of pixels is that number). */
    method ApplyTranslate(transition: bool)
      modifies this`offset, this`withTransition
      ensures offset == RestingOffset(currentIndex, step) + dragDeltaX
      ensures withTransition == transition
    {
      var baseX := -(currentIndex * step);
      RestingOffsetIsProduct(currentIndex, step);
      SetTransform(baseX + dragDeltaX, transition);
    }

    /** `updateCounter`. */
    method UpdateCounter()
      modifies this`counterCurrent
      ensures counterCurrent == currentIndex + 1
    {
      counterCurrent := currentIndex + 1;
    }

    /** `goTo`: wrap the requested position, update the counter and render
        with a transition. It is reached only in a finite slider. */
    method GoTo(index: int)
      requires Core() && !infinite
      modifies this`currentIndex, this`counterCurrent, this`styles, this`offset, this`withTransition
      ensures Core() && Rendered()
      ensures currentIndex == WrapIndex(index, totalCount)
      ensures old(currentIndex) == index ==> currentIndex == old(currentIndex)
      ensures mode != Fade ==> offset == RestingOffset(currentIndex, step) + dragDeltaX && withTransition
      ensures mode != Fade ==> styles == old(styles)
      ensures mode == Fade ==> offset == old(offset) && withTransition == old(withTransition)
    {
      currentIndex := WrapIndex(index, totalCount);
      UpdateCounter();
      if mode == Fade {
        IdsDistinct(totalCount);
        ApplyFade();
      } else {
        ApplyTranslate(true);
      }
    }

    /** `handlePrev`: the previous slide, by wrapped position in a finite
        slider and by rotation in an infinite one. */
    method HandlePrev()
      requires Valid()
      modifies this`animating, this`pending, this`offset, this`withTransition,
               this`currentIndex, this`counterCurrent, this`track, this`styles
      ensures Valid()
      ensures !infinite ==>
        currentIndex == WrapIndex(old(currentIndex) - 1, totalCount) && track == old(track)
        && animating == old(animating) && pending == old(pending)
      ensures mode != Fade && !infinite ==>
        offset == RestingOffset(currentIndex, step) + dragDeltaX && withTransition && styles == old(styles)
      ensures mode == Fade ==> offset == old(offset) && withTransition == old(withTransition)
      ensures infinite ==> styles == old(styles)
      ensures infinite && old(animating) ==>
        currentIndex == old(currentIndex) && track == old(track) && animating && pending == old(pending)
        && offset == old(offset) && withTransition == old(withTransition)
      ensures infinite && !old(animating) ==>
        currentIndex == WrapIndex(old(currentIndex) - 1, totalCount) && track == MoveLastToFront(old(track))
        && animating && pending == AwaitFrame && offset == -(step as int) && !withTransition
    {
      if infinite {
        HandlePrevInfinite();
        return;
      }
      GoTo(currentIndex - 1);
    }

    /** `handleNext`: the next slide, by wrapped position in a finite slider
        and by rotation in an infinite one. */
    method HandleNext()
      requires Valid()
      modifies this`animating, this`pending, this`offset, this`withTransition,
               this`currentIndex, this`counterCurrent, this`styles
      ensures Valid()
      ensures track == old(track)
      ensures !infinite ==>
        currentIndex == WrapIndex(old(currentIndex) + 1, totalCount)
        && animating == old(animating) && pending == old(pending)
      ensures mode != Fade && !infinite ==>
        offset == RestingOffset(currentIndex, step) + dragDeltaX && withTransition && styles == old(styles)
      ensures mode == Fade ==> offset == old(offset) && withTransition == old(withTransition)
      ensures infinite ==> styles == old(styles)
      ensures infinite && old(animating) ==>
        currentIndex == old(currentIndex) && animating && pending == old(pending)
        && offset == old(offset) && withTransition == old(withTransition)
      ensures infinite && !old(animating) ==>
        currentIndex == WrapIndex(old(currentIndex) + 1, totalCount)
        && animating && pending == AwaitNextEnd && offset == -(step as int) && withTransition
    {
      if infinite {
        HandleNextInfinite();
        return;
      }
      GoTo(currentIndex + 1);
    }

    /** `handleNextInfinite`: dropped while a transition is in flight;
        otherwise animate one step left and advance the logical position at
        once, leaving the move of the first slide to the completion. */
    method HandleNextInfinite()
      requires Core() && Rendered() && infinite
      modifies this`animating, this`pending, this`offset, this`withTransition,
               this`currentIndex, this`counterCurrent
      ensures Core() && Rendered()
      ensures old(animating) ==>
        currentIndex == old(currentIndex) && pending == old(pending) && animating
        && offset == old(offset) && withTransition == old(withTransition)
      ensures !old(animating) ==>
        animating && pending == AwaitNextEnd
        && currentIndex == WrapIndex(old(currentIndex) + 1, totalCount)
        && offset == -(step as int) && withTransition
    {
      if animating {
        return;
      }
      animating := true;
      SetTransform(-(step as int), true);
      pending := AwaitNextEnd;
      WrapStepsAreInverse(currentIndex, totalCount);
      currentIndex := WrapIndex(currentIndex + 1, totalCount);
      UpdateCounter();
    }

    /** `handlePrevInfinite`: dropped while a transition is in flight;
        otherwise move the last slide to the front, jump one step left without
        a transition and step the logical position back at once, leaving the
        animation back to 0 to the next frame. */
    method HandlePrevInfinite()
      requires Core() && Rendered() && infinite
      modifies this`animating, this`pending, this`offset, this`withTransition,
               this`currentIndex, this`counterCurrent, this`track
      ensures Core() && Rendered()
      ensures old(animating) ==>
        currentIndex == old(currentIndex) && pending == old(pending) && animating && track == old(track)
        && offset == old(offset) && withTransition == old(withTransition)
      ensures !old(animating) ==>
        animating && pending == AwaitFrame
        && track == MoveLastToFront(old(track))
        && currentIndex == WrapIndex(old(currentIndex) - 1, totalCount)
        && offset == -(step as int) && !withTransition
    {
      if animating {
        return;
      }
      StartPrevTransition();
    }

    /** The body of `handlePrevInfinite` once no transition is in flight. */
    method StartPrevTransition()
      requires Core() && Rendered() && infinite && !animating
      modifies this`animating, this`pending, this`offset, this`withTransition,
               this`currentIndex, this`counterCurrent, this`track
      ensures Core() && Rendered()
      ensures animating && pending == AwaitFrame
      ensures track == MoveLastToFront(old(track))
      ensures currentIndex == WrapIndex(old(currentIndex) - 1, totalCount)
      ensures offset == -(step as int) && !withTransition
    {
      animating := true;
      var back := WrapIndex(currentIndex - 1, totalCount);
      PrevRotation(totalCount, currentIndex);
      assert MoveLastToFront(track) == RotateLeft(Ids(totalCount), back);
      track := MoveLastToFront(track);
      SetTransform(-(step as int), false);
      pending := AwaitFrame;
      currentIndex := back;
      UpdateCounter();
    }

    /** The `requestAnimationFrame` callback of a prev transition: animate
        back to 0 and wait for that transition's end. Without a pending
        frame nothing happens. */
    method CompleteFrame()
      requires Valid()
      modifies this`offset, this`withTransition, this`pending
      ensures Valid()
      ensures old(pending) == AwaitFrame ==> pending == AwaitPrevEnd && offset == 0 && withTransition
      ensures old(pending) != AwaitFrame ==>
        pending == old(pending) && offset == old(offset) && withTransition == old(withTransition)
    {
      if pending != AwaitFrame {
        return;
      }
      SetTransform(0, true);
      pending := AwaitPrevEnd;
    }

    /** A `transitionend` on the track, delivered to the listener that is
        registered, if any. A next transition's listener moves the first
        slide to the end and resets the offset to 0 without a transition; a
        prev transition's listener only ends the animation, leaving the
        offset where the frame callback put it. After a next transition's end
        the slide at the viewport's edge is the current one. */
    method CompleteTransition()
      requires Valid()
      modifies this`track, this`offset, this`withTransition, this`animating, this`pending
      ensures Valid()
      ensures old(pending) == AwaitNextEnd ==>
        track == MoveFirstToEnd(old(track)) && offset == 0 && !withTransition
      ensures old(pending) == AwaitPrevEnd ==>
        track == old(track) && offset == old(offset) && withTransition == old(withTransition)
      ensures old(pending) in {AwaitNextEnd, AwaitPrevEnd} ==> !animating && pending == NoListener
      ensures old(pending) in {AwaitNextEnd, AwaitPrevEnd} ==> track == RotateLeft(Ids(totalCount), currentIndex)
      ensures old(pending) == AwaitNextEnd && step > 0 ==> DisplayedSlide(track, offset, step) == Some(currentIndex)
      ensures old(pending) in {NoListener, AwaitFrame} ==>
        track == old(track) && offset == old(offset) && withTransition == old(withTransition)
        && animating == old(animating) && pending == old(pending)
    {
      if pending == AwaitNextEnd {
        EndNextTransition();
      } else if pending == AwaitPrevEnd {
        animating, pending := false, NoListener;
      }
    }

    /** The `transitionend` listener of a next transition: move the first
        slide to the end, which catches the physical order up with the
        position, and reset to 0 without a transition. */
    method EndNextTransition()
      requires Valid() && pending == AwaitNextEnd
      modifies this`track, this`offset, this`withTransition, this`animating, this`pending
      ensures Valid()
      ensures track == MoveFirstToEnd(old(track)) && offset == 0 && !withTransition
      ensures !animating && pending == NoListener
      ensures track == RotateLeft(Ids(totalCount), currentIndex)
      ensures step > 0 ==> DisplayedSlide(track, offset, step) == Some(currentIndex)
    {
      MoveFirstToEndAdvances(Ids(totalCount), PhysicalShift());
      track := MoveFirstToEnd(track);
      SetTransform(0, false);
      animating, pending := false, NoListener;
      if step > 0 {
        InfiniteRestShowsCurrent(totalCount, currentIndex, step);
      }
    }

    /** `onPointerDown` at pointer x-coordinate `x`: start a drag in a
        translate slider, from offset 0 in an infinite one and from the
        current position in a finite one, without a transition. */
    method OnPointerDown(x: int)
      requires Valid()
      modifies this`isDragging, this`dragStartX, this`dragDeltaX, this`offset, this`withTransition
      ensures Valid()
      ensures mode != Translate ==>
        isDragging == old(isDragging) && dragStartX == old(dragStartX) && dragDeltaX == old(dragDeltaX)
        && offset == old(offset) && withTransition == old(withTransition)
      ensures mode == Translate ==>
        isDragging && dragStartX == x && dragDeltaX == 0 && !withTransition
        && offset == (if infinite then 0 else RestingOffset(currentIndex, step))
    {
      if mode != Translate {
        return;
      }
      isDragging := true;
      dragStartX := x;
      dragDeltaX := 0;
      if infinite {
        SetTransform(0, false);
      } else {
        ApplyTranslate(false);
      }
    }

    /** `onPointerMove` to x-coordinate `x`: while dragging, the track follows
        the pointer without a transition. */
    method OnPointerMove(x: int)
      requires Valid()
      modifies this`dragDeltaX, this`offset, this`withTransition
      ensures Valid()
      ensures !old(isDragging) ==>
        dragDeltaX == old(dragDeltaX) && offset == old(offset) && withTransition == old(withTransition)
      ensures old(isDragging) ==>
        dragDeltaX == x - dragStartX && !withTransition
        && offset == (if infinite then dragDeltaX else RestingOffset(currentIndex, step) + dragDeltaX)
    {
      if !isDragging {
        return;
      }
      dragDeltaX := x - dragStartX;
      if infinite {
        SetTransform(dragDeltaX, false);
      } else {
        ApplyTranslate(false);
      }
    }

    /** `onPointerUp`: end the drag and go to the previous slide, the next
        slide or back to the current one by `ReleaseDecision`. The drag
        distance is cleared before the finite slider renders, so the track
        comes to rest exactly on the chosen position (the source clears it
        only afterwards; see `ReleaseFiniteAsWritten`). */
    method OnPointerUp()
      requires Valid()
      modifies this`isDragging, this`dragDeltaX, this`animating, this`pending, this`offset,
               this`withTransition, this`currentIndex, this`counterCurrent, this`track, this`styles
      ensures Valid()
      ensures !isDragging && dragDeltaX == 0 && styles == old(styles)
      ensures !old(isDragging) ==>
        currentIndex == old(currentIndex) && track == old(track) && pending == old(pending)
        && offset == old(offset) && withTransition == old(withTransition)
      ensures old(isDragging) && !infinite ==>
        currentIndex == ReleaseTarget(totalCount, old(currentIndex), old(dragDeltaX), step)
        && offset == RestingOffset(currentIndex, step) && withTransition && track == old(track)
      ensures old(isDragging) && infinite ==>
        InfiniteReleased(ReleaseDecision(old(dragDeltaX), step), old(animating), old(currentIndex),
                         old(track), old(pending), old(offset), old(withTransition))
    {
      if !isDragging {
        return;
      }
      isDragging := false;
      var delta := dragDeltaX;
      if infinite {
        ReleaseInfinite(delta);
      } else {
        dragDeltaX := 0;
        ReleaseFinite(delta);
      }
    }

    /** Where an infinite release by `decision` leaves the slider, from the
        state it was released in: prev and next start their transitions
        unless one is already in flight, when the release leaves the track
        at the drag offset; a snap back animates to 0. */
    ghost predicate InfiniteReleased(decision: Release, wasAnimating: bool, oldIndex: nat,
                                     oldTrack: seq<nat>, oldPending: Pending,
                                     oldOffset: int, oldTransition: bool)
      reads this
      requires totalCount > 0 && |oldTrack| > 0
    {
      match decision
      case GoPrev =>
        if wasAnimating then
          currentIndex == oldIndex && track == oldTrack && pending == oldPending
          && offset == oldOffset && withTransition == oldTransition
        else
          currentIndex == WrapIndex(oldIndex - 1, totalCount) && track == MoveLastToFront(oldTrack)
          && pending == AwaitFrame && offset == -(step as int) && !withTransition
      case GoNext =>
        if wasAnimating then
          currentIndex == oldIndex && track == oldTrack && pending == oldPending
          && offset == oldOffset && withTransition == oldTransition
        else
          currentIndex == WrapIndex(oldIndex + 1, totalCount) && track == oldTrack
          && pending == AwaitNextEnd && offset == -(step as int) && withTransition
      case SnapBack =>
        currentIndex == oldIndex && track == oldTrack && pending == oldPending
        && offset == 0 && withTransition
    }

    /** The infinite branch of `onPointerUp` for a drag of `delta` pixels:
        prev, next or an animated snap back to 0, then the distance is
        cleared. */
    method ReleaseInfinite(delta: int)
      requires Core() && Rendered() && infinite && !isDragging
      modifies this`animating, this`pending, this`offset, this`withTransition,
               this`currentIndex, this`counterCurrent, this`track, this`dragDeltaX
      ensures Valid() && dragDeltaX == 0
      ensures InfiniteReleased(ReleaseDecision(delta, step), old(animating), old(currentIndex),
                               old(track), old(pending), old(offset), old(withTransition))
    {
      match ReleaseDecision(delta, step) {
        case GoPrev => HandlePrevInfinite();
        case GoNext => HandleNextInfinite();
        case SnapBack => SetTransform(0, true);
      }
      dragDeltaX := 0;
    }

    /** The finite branch of `onPointerUp` for a drag of `delta` pixels,
        with the distance already cleared: go to `ReleaseTarget`. Only a
        translate slider drags. */
    method ReleaseFinite(delta: int)
      requires Core() && DragCleared() && mode == Translate && !infinite && !isDragging
      requires counterCurrent == currentIndex + 1
      modifies this`currentIndex, this`counterCurrent, this`styles, this`offset, this`withTransition
      ensures Valid()
      ensures currentIndex == ReleaseTarget(totalCount, old(currentIndex), delta, step)
      ensures offset == RestingOffset(currentIndex, step) && withTransition && styles == old(styles)
    {
      match ReleaseDecision(delta, step) {
        case GoPrev => GoTo(currentIndex - 1);
        case GoNext => GoTo(currentIndex + 1);
        case SnapBack => ApplyTranslate(true);
      }
    }

    /** The finite branch of `onPointerUp` as src/main.js:259-268 is written:
        the chosen position is rendered while `dragDeltaX` still holds the
        drag distance, which is cleared only afterwards. Any non-zero drag
        leaves the track off the chosen position's resting offset, which
        breaks the rendering invariant, and a short drag that should snap
        back leaves no slide at the viewport's edge. */
    method ReleaseFiniteAsWritten()
      requires Core() && Rendered() && mode == Translate && !infinite && !isDragging
      modifies this`currentIndex, this`counterCurrent, this`styles, this`offset, this`withTransition,
               this`dragDeltaX
      ensures Core() && DragCleared() && dragDeltaX == 0
      ensures currentIndex == ReleaseTarget(totalCount, old(currentIndex), old(dragDeltaX), step)
      ensures counterCurrent == currentIndex + 1 && withTransition
      ensures offset == RestingOffset(currentIndex, step) + old(dragDeltaX)
      ensures Rendered() <==> old(dragDeltaX) == 0
      ensures step > 0 && old(dragDeltaX) != 0 && ReleaseDecision(old(dragDeltaX), step) == SnapBack ==>
        DisplayedSlide(track, offset, step) == None
    {
      var delta := dragDeltaX;
      match ReleaseDecision(delta, step) {
        case GoPrev => GoTo(currentIndex - 1);
        case GoNext => GoTo(currentIndex + 1);
        case SnapBack => ApplyTranslate(true);
      }
      dragDeltaX := 0;
      if step > 0 && delta != 0 && ReleaseDecision(delta, step) == SnapBack {
        ShortDragShowsNoSlide(totalCount, currentIndex, delta, step);
      }
    }

    /** `onResize` with the live slides measured as `layout`: a translate
        slider measures its step again and renders its position without a
        transition. An infinite slider renders at 0 plus any drag, as at
        start-up and during a drag (the source applies the finite offset
        here; see `OnResizeAsWritten`). */
    method OnResize(layout: seq<Box>)
      requires Valid() && |layout| == totalCount
      modifies this`step, this`offset, this`withTransition
      ensures Valid()
      ensures mode != Translate ==>
        step == old(step) && offset == old(offset) && withTransition == old(withTransition)
      ensures mode == Translate ==>
        step == StepFromLayout(layout) && !withTransition
        && offset == (if infinite then dragDeltaX else RestingOffset(currentIndex, step) + dragDeltaX)
      ensures mode == Translate && infinite && !isDragging && !animating && step > 0 ==>
        DisplayedSlide(track, offset, step) == Some(currentIndex)
    {
      if mode == Translate {
        ComputeStep(layout);
        if infinite {
          SetTransform(dragDeltaX, false);
          if !isDragging && !animating && step > 0 {
            InfiniteRestShowsCurrent(totalCount, currentIndex, step);
          }
        } else {
          ApplyTranslate(false);
        }
      }
    }

    /** `onResize` as src/main.js:276-281 is written: every translate slider,
        infinite ones included, re-renders through `applyTranslate`. An
        infinite slider at rest away from position 0 then shows slide
        `2 * currentIndex mod totalCount` instead of the current one. */
    method OnResizeAsWritten(layout: seq<Box>)
      requires Valid() && |layout| == totalCount
      modifies this`step, this`offset, this`withTransition
      ensures Valid()
      ensures mode != Translate ==>
        step == old(step) && offset == old(offset) && withTransition == old(withTransition)
      ensures mode == Translate ==>
        step == StepFromLayout(layout) && !withTransition
        && offset == RestingOffset(currentIndex, step) + dragDeltaX
      ensures mode == Translate && infinite && !isDragging && !animating && step > 0 && currentIndex > 0 ==>
        DisplayedSlide(track, offset, step) == Some((2 * currentIndex) % totalCount)
        && DisplayedSlide(track, offset, step) != Some(currentIndex)
    {
      if mode == Translate {
        ComputeStep(layout);
        ApplyTranslate(false);
        if infinite && !isDragging && !animating && step > 0 && currentIndex > 0 {
          InfiniteResizeAsWrittenShowsWrongSlide(totalCount, currentIndex, step);
        }
      }
    }
  }


  // ---------------------------------------------------------------------
  // Clients: what a caller can conclude from the contracts alone

  /** Five slides 300 pixels apart, finite translate mode: three nexts reach
      position 3 at offset -900, one prev comes back to 2 at -600. */
  method FiniteTranslateClient() {
    var layout := [Box(0, 280), Box(300, 280), Box(600, 280), Box(900, 280), Box(1200, 280)];
    var s := new Slider(Config(Translate, false, 5), layout);
    assert s.step == 300;
    s.HandleNext();
    s.HandleNext();
    s.HandleNext();
    assert s.currentIndex == 3 && s.offset == -900 && s.counterCurrent == 4;
    s.HandlePrev();
    assert s.currentIndex == 2 && s.offset == -600 && s.counterCurrent == 3;
  }

  /** Three slides in fade mode: one next shows only slide 1 and the counter
      reads 2. */
  method FadeClient() {
    var s := new Slider(Config(Fade, false, 3), [Box(0, 300), Box(0, 300), Box(0, 300)]);
    s.HandleNext();
    assert s.styles[1] == Shown && s.styles[0] == Hidden && s.styles[2] == Hidden;
    assert s.counterCurrent == 2;
  }

  /** Three slides looping forever: a second next while the first is in
      flight is dropped; completing the first moves slide 0 to the end; a
      prev then brings it back to the front at once. */
  method InfiniteClient() {
    var s := new Slider(Config(Translate, true, 3), [Box(0, 300), Box(300, 300), Box(600, 300)]);
    s.HandleNext();
    s.HandleNext();
    assert s.currentIndex == 1 && s.track == [0, 1, 2];
    s.CompleteTransition();
    assert s.track == [1, 2, 0] && s.offset == 0 && !s.animating;
    s.HandlePrev();
    assert s.currentIndex == 0 && s.track == [0, 1, 2] && s.offset == -300;
    s.CompleteFrame();
    s.CompleteTransition();
    assert !s.animating && s.offset == 0;
  }
}
