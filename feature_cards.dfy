/** The feature cards of src/main.js (`initFeatureClickHandlers`): on a
    narrow window a click on a card closes every other card and toggles the
    clicked one. An active card lifts its content 100 pixels and shows its
    text; an inactive one keeps its content in place and its text
    transparent. */
module MobileFeatures {
  import opened ExclusiveToggle

  /** Windows narrower than this many pixels count as mobile. */
  const MobileWidth: int := 769

  class FeatureCards {
    /** Card `j` has a `div[class*="-translate-y-"]`. */
    const hasContent: seq<bool>
    /** Card `j` has a `p[class*="opacity-0"]`. */
    const hasText: seq<bool>
    /** `featureClickHandlersInitialized`. */
    var handlersInitialized: bool
    /** Whether card `j` has the `active` class. */
    var active: seq<bool>
    /** The inline `translateY` of card `j`'s content, in pixels. */
    var contentShift: seq<int>
    /** The inline opacity of card `j`'s text. */
    var textOpacity: seq<int>

    ghost predicate Valid()
      reads this
    {
      |hasText| == |hasContent| == |active| == |contentShift| == |textOpacity|
    }

    /** Every card's inline styles agree with its `active` class. */
    ghost predicate StylesFollowActive()
      reads this
      requires Valid()
    {
      forall j :: 0 <= j < |active| ==>
        (hasContent[j] ==> contentShift[j] == if active[j] then -100 else 0) &&
        (hasText[j] ==> textOpacity[j] == if active[j] then 1 else 0)
    }

    /** The cards as the page loads them, before any handler is installed. */
    constructor (hasContent: seq<bool>, hasText: seq<bool>, active: seq<bool>,
                 contentShift: seq<int>, textOpacity: seq<int>)
      requires |hasText| == |hasContent| == |active| == |contentShift| == |textOpacity|
      ensures Valid() && !handlersInitialized
      ensures this.hasContent == hasContent && this.hasText == hasText && this.active == active
      ensures this.contentShift == contentShift && this.textOpacity == textOpacity
    {
      this.hasContent, this.hasText := hasContent, hasText;
      this.active, this.contentShift, this.textOpacity := active, contentShift, textOpacity;
      handlersInitialized := false;
    }

    /** `initFeatureClickHandlers`: installs a click handler on every card,
        once; later calls do nothing. */
    method InitFeatureClickHandlers()
      requires Valid()
      modifies this`handlersInitialized
      ensures Valid() && handlersInitialized
    {
      if handlersInitialized {
        return;
      }
      handlersInitialized := true;
    }

    /** A click on card `i` in a window `innerWidth` pixels wide. Without an
        installed handler or on a wide window nothing changes; otherwise
        every other card is closed, card `i` is toggled, and every touched
        style follows its card's new state. */
    method Click(i: nat, innerWidth: int)
      requires Valid() && i < |active|
      modifies this`active, this`contentShift, this`textOpacity
      ensures Valid()
      ensures !handlersInitialized || innerWidth >= MobileWidth ==>
        active == old(active) && contentShift == old(contentShift) && textOpacity == old(textOpacity)
      ensures handlersInitialized && innerWidth < MobileWidth ==>
        active == Toggled(old(active), i) && AtMostOne(active) && StylesFollowActive()
      ensures forall j :: 0 <= j < |active| && !hasContent[j] ==> contentShift[j] == old(contentShift[j])
      ensures forall j :: 0 <= j < |active| && !hasText[j] ==> textOpacity[j] == old(textOpacity[j])
    {
      var isMobile := innerWidth < MobileWidth;
      if !handlersInitialized || !isMobile {
        return;
      }
      CloseOthers(i);
      active := active[i := !active[i]];
      var isActive := active[i];
      if isActive {
        if hasContent[i] {
          contentShift := contentShift[i := -100];
        }
        if hasText[i] {
          textOpacity := textOpacity[i := 1];
        }
      } else {
        if hasContent[i] {
          contentShift := contentShift[i := 0];
        }
        if hasText[i] {
          textOpacity := textOpacity[i := 0];
        }
      }
    }

    /** The loop of the click handler over the other cards: each loses
        `active`, its content returns to place and its text turns
        transparent. */
    method CloseOthers(i: nat)
      requires Valid() && i < |active|
      modifies this`active, this`contentShift, this`textOpacity
      ensures Valid()
      ensures forall j :: 0 <= j < |active| && j != i ==>
        !active[j] && (hasContent[j] ==> contentShift[j] == 0) && (hasText[j] ==> textOpacity[j] == 0)
      ensures active[i] == old(active[i])
      ensures forall j :: 0 <= j < |active| && (j == i || !hasContent[j]) ==> contentShift[j] == old(contentShift[j])
      ensures forall j :: 0 <= j < |active| && (j == i || !hasText[j]) ==> textOpacity[j] == old(textOpacity[j])
    {
      var k := 0;
      while k < |active|
        invariant 0 <= k <= |active|
        invariant Valid()
        invariant forall j :: 0 <= j < k && j != i ==>
          !active[j] && (hasContent[j] ==> contentShift[j] == 0) && (hasText[j] ==> textOpacity[j] == 0)
        invariant forall j :: 0 <= j < |active| && (k <= j || j == i) ==> active[j] == old(active[j])
        invariant forall j :: 0 <= j < |active| && (k <= j || j == i || !hasContent[j]) ==>
          contentShift[j] == old(contentShift[j])
        invariant forall j :: 0 <= j < |active| && (k <= j || j == i || !hasText[j]) ==>
          textOpacity[j] == old(textOpacity[j])
      {
        if k != i {
          active := active[k := false];
          if hasContent[k] {
            contentShift := contentShift[k := 0];
          }
          if hasText[k] {
            textOpacity := textOpacity[k := 0];
          }
        }
        k := k + 1;
      }
    }
  }
}
