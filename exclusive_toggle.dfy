/** The "at most one active" click shared by the feature cards of
    src/main.js and the project cards of src/projectsAnim.js: a click clears
    `active` on every other card and toggles it on the clicked one. */
module ExclusiveToggle {

  /** No two cards are active. */
  predicate AtMostOne(active: seq<bool>) {
    forall a, b :: 0 <= a < b < |active| ==> !(active[a] && active[b])
  }

  /** No card is active. */
  predicate NoneActive(active: seq<bool>) {
    forall a :: 0 <= a < |active| ==> !active[a]
  }

  /** The flags after a click on card `i`. */
  function Toggled(active: seq<bool>, i: nat): (r: seq<bool>)
    requires i < |active|
    ensures |r| == |active|
    ensures AtMostOne(r)
    ensures r[i] == !active[i]
    ensures forall j :: 0 <= j < |r| && j != i ==> !r[j]
  {
    seq(|active|, j requires 0 <= j < |active| => j == i && !active[i])
  }

  /** A click on the active card leaves no card active; a click on an
      inactive card leaves exactly that card active. */
  lemma {:induction false} ToggledOutcome(active: seq<bool>, i: nat)
    requires i < |active|
    ensures active[i] <==> NoneActive(Toggled(active, i))
    ensures !active[i] <==> (Toggled(active, i)[i] && forall j :: 0 <= j < |active| && Toggled(active, i)[j] ==> j == i)
  {
  }

  /** A second click on the same card undoes the first when no other card
      was active before it. */
  lemma {:induction false} ToggleTwiceRestores(active: seq<bool>, i: nat)
    requires i < |active|
    requires forall j :: 0 <= j < |active| && j != i ==> !active[j]
    ensures Toggled(Toggled(active, i), i) == active
  {
    var r := Toggled(Toggled(active, i), i);
    assert forall j :: 0 <= j < |active| ==> r[j] == active[j];
  }
}
