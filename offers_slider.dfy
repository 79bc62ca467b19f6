/** The offers carousel of slider.js: arrows move a clamped position over a
    fixed number of offers (no wrap-around), and every move translates the
    offers container by whole slide widths and updates the counter. */
module OffersSlider {
  import opened Options

  datatype Arrow = LeftArrow | RightArrow

  /** The position after a click on `arrow`: the right arrow advances only
      while there is a later offer, the left arrow steps back only while
      there is an earlier one. */
  function Step(index: nat, total: nat, arrow: Arrow): (r: nat)
    ensures arrow == RightArrow ==> (r == index + 1 <==> index + 1 < total) && (r != index + 1 ==> r == index)
    ensures arrow == LeftArrow ==> (r + 1 == index <==> index > 0) && (r + 1 != index ==> r == index)
    ensures index < total ==> r < total
  {
    match arrow
    case RightArrow => if index < total - 1 then index + 1 else index
    case LeftArrow => if index > 0 then index - 1 else index
  }

  /** The position after a sequence of clicks. */
  function Run(index: nat, total: nat, clicks: seq<Arrow>): nat
    decreases |clicks|
  {
    if clicks == [] then index else Run(Step(index, total, clicks[0]), total, clicks[1..])
  }

  /** Whatever the clicks, the position stays on an offer (or at 0 when there
      are none). */
  lemma {:induction false} RunStaysInRange(index: nat, total: nat, clicks: seq<Arrow>)
    requires index == 0 || index < total
    ensures Run(index, total, clicks) == 0 || Run(index, total, clicks) < total
    decreases |clicks|
  {
    if clicks != [] {
      RunStaysInRange(Step(index, total, clicks[0]), total, clicks[1..]);
    }
  }

  /** `k` clicks on the right arrow from the first offer reach offer `k`,
      but never beyond the last one. */
  lemma {:induction false} RightClicksSaturate(total: nat, k: nat)
    requires total > 0
    ensures Run(0, total, seq(k, _ => RightArrow)) == if k < total then k else total - 1
  {
    RightClicksFrom(0, total, k);
  }

  lemma {:induction false} RightClicksFrom(index: nat, total: nat, k: nat)
    requires index < total
    ensures Run(index, total, seq(k, _ => RightArrow)) ==
      if index + k < total then index + k else total - 1
    decreases k
  {
    var clicks := seq(k, _ => RightArrow);
    if k > 0 {
      assert clicks[0] == RightArrow;
      assert clicks[1..] == seq(k - 1, _ => RightArrow);
      RightClicksFrom(Step(index, total, RightArrow), total, k - 1);
    }
  }

  /** Away from the last offer, a click on the left arrow undoes a click on
      the right one, and away from the first offer the converse holds. */
  lemma {:induction false} ArrowsUndoEachOther(index: nat, total: nat)
    ensures index + 1 < total ==> Run(index, total, [RightArrow, LeftArrow]) == index
    ensures 0 < index < total ==> Run(index, total, [LeftArrow, RightArrow]) == index
  {
    assert [RightArrow, LeftArrow][1..] == [LeftArrow];
    assert [LeftArrow, RightArrow][1..] == [RightArrow];
    assert [LeftArrow][1..] == [] && [RightArrow][1..] == [];
  }

  class OffersSlider {
    /** The number of `.W_Offer` elements at load. */
    const totalOffers: nat
    /** The total counter's text, written once at load. */
    const totalText: nat
    var currentIndex: nat
    /** The container's `translateX`, in pixels; `None` until first written. */
    var translateX: Option<int>
    /** The current counter's text; `None` until first written. */
    var currentText: Option<nat>

    /** The position is on an offer (or 0 when there are none) and the
        total counter shows the number of offers. */
    ghost predicate InRange()
      reads this
    {
      (currentIndex == 0 || currentIndex < totalOffers) && totalText == totalOffers
    }

    /** In addition, a written current counter shows the position, counted
        from 1. */
    ghost predicate Valid()
      reads this
    {
      InRange() && (currentText.Some? ==> currentText.value == currentIndex + 1)
    }

    /** The `DOMContentLoaded` setup: position 0 and the total counter. */
    constructor (totalOffers: nat)
      ensures Valid()
      ensures this.totalOffers == totalOffers && totalText == totalOffers
      ensures currentIndex == 0 && translateX == None && currentText == None
    {
      this.totalOffers := totalOffers;
      totalText := totalOffers;
      currentIndex := 0;
      translateX, currentText := None, None;
    }

    /** `updateSliderPosition` with a slide (plus gap) `slideWidth` pixels
        wide; also the window's resize handler. It measures the first offer,
        so a page without offers cannot reach it. */
    method UpdateSliderPosition(slideWidth: int)
      requires InRange() && totalOffers > 0
      modifies this`translateX, this`currentText
      ensures Valid()
      ensures translateX == Some(-(currentIndex * slideWidth))
      ensures currentText == Some(currentIndex + 1)
    {
      var x := -(currentIndex * slideWidth);
      translateX := Some(x);
      currentText := Some(currentIndex + 1);
    }

    /** A click on the right arrow: advance and re-render only if a later
        offer exists. */
    method RightArrowClick(slideWidth: int)
      requires Valid()
      modifies this`currentIndex, this`translateX, this`currentText
      ensures Valid()
      ensures currentIndex == Step(old(currentIndex), totalOffers, RightArrow)
      ensures currentIndex == old(currentIndex) ==>
        translateX == old(translateX) && currentText == old(currentText)
      ensures currentIndex != old(currentIndex) ==>
        translateX == Some(-(currentIndex * slideWidth)) && currentText == Some(currentIndex + 1)
    {
      if currentIndex < totalOffers - 1 {
        currentIndex := currentIndex + 1;
        UpdateSliderPosition(slideWidth);
      }
    }

    /** A click on the left arrow: step back and re-render only if an
        earlier offer exists. */
    method LeftArrowClick(slideWidth: int)
      requires Valid()
      modifies this`currentIndex, this`translateX, this`currentText
      ensures Valid()
      ensures currentIndex == Step(old(currentIndex), totalOffers, LeftArrow)
      ensures currentIndex == old(currentIndex) ==>
        translateX == old(translateX) && currentText == old(currentText)
      ensures currentIndex != old(currentIndex) ==>
        translateX == Some(-(currentIndex * slideWidth)) && currentText == Some(currentIndex + 1)
    {
      if currentIndex > 0 {
        currentIndex := currentIndex - 1;
        UpdateSliderPosition(slideWidth);
      }
    }
  }
}
