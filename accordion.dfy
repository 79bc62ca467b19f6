/** The accordions of src/accordion.js: each accordion may hold one
    `.accordionCard`; at load only the first accordion's card is open, and a
    click on an accordion closes every card and opens its own. A closed card
    has maximum height 0 pixels, an open one its full scroll height. */
module Accordion {

  class Accordion {
    /** Accordion `j` holds an `.accordionCard` (the page lists two
        accordions, `secondAccordion` and `lastAccordion`). */
    const hasCard: seq<bool>
    /** Whether card `j` has the `is-open` class. */
    var isOpen: seq<bool>
    /** Card `j`'s inline `maxHeight`, in pixels. */
    var maxHeight: seq<int>

    ghost predicate Valid()
      reads this
    {
      |hasCard| > 0 && |isOpen| == |hasCard| && |maxHeight| == |hasCard|
    }

    /** Card `i` is the only open card, at height `height`, and every other
        card is closed at height 0. */
    ghost predicate OnlyOpen(i: nat, height: int)
      reads this
      requires Valid()
    {
      forall j :: 0 <= j < |hasCard| && hasCard[j] ==>
        isOpen[j] == (j == i) && maxHeight[j] == if j == i then height else 0
    }

    /** Every card is closed at height 0. */
    ghost predicate AllClosed()
      reads this
      requires Valid()
    {
      forall j :: 0 <= j < |hasCard| && hasCard[j] ==> !isOpen[j] && maxHeight[j] == 0
    }

    /** The `DOMContentLoaded` setup over cards whose markup state is
        `isOpen` and `maxHeight`; the first card's content is `firstHeight`
        pixels tall. */
    constructor (hasCard: seq<bool>, isOpen: seq<bool>, maxHeight: seq<int>, firstHeight: nat)
      requires |hasCard| > 0 && |isOpen| == |hasCard| && |maxHeight| == |hasCard|
      ensures Valid() && this.hasCard == hasCard
      ensures hasCard[0] ==> OnlyOpen(0, firstHeight)
      ensures !hasCard[0] ==> AllClosed()
    {
      this.hasCard, this.isOpen, this.maxHeight := hasCard, isOpen, maxHeight;
      new;
      CloseAll();
      if hasCard[0] {
        OpenCard(0, firstHeight);
      }
    }

    /** `closeAll`: every card that exists is closed; accordions without a
        card are skipped. */
    method CloseAll()
      requires Valid()
      modifies this`isOpen, this`maxHeight
      ensures Valid() && AllClosed()
      ensures forall j :: 0 <= j < |hasCard| && !hasCard[j] ==>
        isOpen[j] == old(isOpen[j]) && maxHeight[j] == old(maxHeight[j])
    {
      var k := 0;
      while k < |hasCard|
        invariant 0 <= k <= |hasCard|
        invariant Valid()
        invariant forall j :: 0 <= j < k && hasCard[j] ==> !isOpen[j] && maxHeight[j] == 0
        invariant forall j :: 0 <= j < |hasCard| && (k <= j || !hasCard[j]) ==>
          isOpen[j] == old(isOpen[j]) && maxHeight[j] == old(maxHeight[j])
      {
        if hasCard[k] {
          maxHeight := maxHeight[k := 0];
          isOpen := isOpen[k := false];
        }
        k := k + 1;
      }
    }

    /** `openCard`: card `i` opens to its scroll height `height`. */
    method OpenCard(i: nat, height: nat)
      requires Valid() && i < |hasCard| && hasCard[i]
      modifies this`isOpen, this`maxHeight
      ensures Valid()
      ensures isOpen == old(isOpen)[i := true] && maxHeight == old(maxHeight)[i := height]
    {
      isOpen := isOpen[i := true];
      maxHeight := maxHeight[i := height];
    }

    /** A click on accordion `i` whose card, if any, is `height` pixels tall:
        its card becomes the only open one. Clicking the open card again
        changes nothing. */
    method Click(i: nat, height: nat)
      requires Valid() && i < |hasCard|
      modifies this`isOpen, this`maxHeight
      ensures Valid()
      ensures !hasCard[i] ==> isOpen == old(isOpen) && maxHeight == old(maxHeight)
      ensures hasCard[i] ==> OnlyOpen(i, height)
      ensures old(OnlyOpen(i, height)) ==> isOpen == old(isOpen) && maxHeight == old(maxHeight)
      ensures forall j :: 0 <= j < |hasCard| && !hasCard[j] ==>
        isOpen[j] == old(isOpen[j]) && maxHeight[j] == old(maxHeight[j])
    {
      if !hasCard[i] {
        return;
      }
      CloseAll();
      OpenCard(i, height);
    }
  }
}
