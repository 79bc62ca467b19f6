/** The project cards of src/projectsAnim.js: on a narrow window a click on
    a project's `.growing` button closes every other project and toggles the
    clicked one; resizing to a wide window closes them all. */
module ProjectsAnim {
  import opened ExclusiveToggle

  /** Windows narrower than this many pixels count as mobile. */
  const MobileWidth: int := 768

  class ProjectCards {
    /** Project `j` has a `.growing` child. */
    const hasPlus: seq<bool>
    /** `projectClickHandlersInitialized`. */
    var handlersInitialized: bool
    /** A click handler is installed on project `j`'s `.growing` button. */
    var listening: seq<bool>
    /** Whether project `j` has the `active` class. */
    var active: seq<bool>

    ghost predicate Valid()
      reads this
    {
      && |listening| == |hasPlus| && |active| == |hasPlus|
      && (handlersInitialized ==> listening == hasPlus)
      && (!handlersInitialized ==> forall j :: 0 <= j < |listening| ==> !listening[j])
    }

    /** The projects as the page loads them, before any handler is
        installed. */
    constructor (hasPlus: seq<bool>, active: seq<bool>)
      requires |active| == |hasPlus|
      ensures Valid() && !handlersInitialized
      ensures this.hasPlus == hasPlus && this.active == active
      ensures |listening| == |hasPlus| && forall j :: 0 <= j < |listening| ==> !listening[j]
    {
      this.hasPlus, this.active := hasPlus, active;
      handlersInitialized := false;
      listening := seq(|hasPlus|, _ => false);
    }

    /** `initProjectClickHandlers`: once, installs a handler on the button of
        every project that has one; later calls change nothing. */
    method InitProjectClickHandlers()
      requires Valid()
      modifies this`handlersInitialized, this`listening
      ensures Valid() && handlersInitialized
      ensures listening == hasPlus
      ensures old(handlersInitialized) ==> listening == old(listening)
    {
      if handlersInitialized {
        return;
      }
      var k := 0;
      while k < |hasPlus|
        invariant 0 <= k <= |hasPlus|
        invariant |listening| == |hasPlus|
        invariant forall j :: 0 <= j < k ==> listening[j] == hasPlus[j]
        invariant forall j :: k <= j < |hasPlus| ==> !listening[j]
      {
        if hasPlus[k] {
          listening := listening[k := true];
        }
        k := k + 1;
      }
      handlersInitialized := true;
    }

    /** A click on project `i`'s button in a window `innerWidth` pixels wide.
        Without a handler or on a wide window nothing changes; otherwise
        every other project is closed and project `i` is toggled. */
    method Click(i: nat, innerWidth: int)
      requires Valid() && i < |active|
      modifies this`active
      ensures Valid()
      ensures !listening[i] || innerWidth >= MobileWidth ==> active == old(active)
      ensures listening[i] && innerWidth < MobileWidth ==> active == Toggled(old(active), i) && AtMostOne(active)
    {
      if !listening[i] {
        return;
      }
      var isMobile := innerWidth < MobileWidth;
      if !isMobile {
        return;
      }
      var k := 0;
      while k < |active|
        invariant 0 <= k <= |active|
        invariant |active| == |hasPlus|
        invariant forall j :: 0 <= j < k && j != i ==> !active[j]
        invariant forall j :: 0 <= j < |active| && (k <= j || j == i) ==> active[j] == old(active[j])
      {
        if k != i {
          active := active[k := false];
        }
        k := k + 1;
      }
      active := active[i := !active[i]];
    }

    /** The window's resize handler: on a wide window every active project
        is closed; on a narrow one nothing changes. */
    method OnResize(innerWidth: int)
      requires Valid()
      modifies this`active
      ensures Valid()
      ensures innerWidth >= MobileWidth ==> NoneActive(active)
      ensures innerWidth < MobileWidth ==> active == old(active)
    {
      var isMobile := innerWidth < MobileWidth;
      if !isMobile {
        var k := 0;
        while k < |active|
          invariant 0 <= k <= |active|
          invariant |active| == |hasPlus|
          invariant forall j :: 0 <= j < k ==> !active[j]
        {
          if active[k] {
            active := active[k := false];
          }
          k := k + 1;
        }
      }
    }
  }
}
