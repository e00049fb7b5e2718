/**
 * The active-section tracking of `initNavigation` in script.js: on scroll,
 * the page's sections are searched from the last one backwards for the first
 * whose top offset the reading line has passed; that section becomes
 * `state.currentSection` and its navigation dot the only active one.
 */
module Navigation {

  datatype Section = Section(id: string, offsetTop: int)

  /**
   * The index of the last section whose top is at or above `line`, or -1 when
   * the line is above every section.
   */
  function LastReached(sections: seq<Section>, line: int): (k: int)
    ensures -1 <= k < |sections|
    ensures k >= 0 ==> sections[k].offsetTop <= line
    ensures forall j :: k < j < |sections| ==> line < sections[j].offsetTop
    decreases |sections|
  {
    if sections == [] then -1
    else if line >= sections[|sections| - 1].offsetTop then |sections| - 1
    else LastReached(sections[..|sections| - 1], line)
  }

  /** With sections in page order, the one found is the last one starting at or above the line. */
  lemma LastReachedInOrder(sections: seq<Section>, line: int, k: int)
    requires forall i, j :: 0 <= i < j < |sections| ==> sections[i].offsetTop <= sections[j].offsetTop
    requires 0 <= k < |sections|
    ensures k <= LastReached(sections, line) <==> sections[k].offsetTop <= line
  {
  }

  class NavState {
    /** `state.currentSection`. */
    var currentSection: string
    /** Whether each navigation dot carries the `active` class. */
    var dotActive: seq<bool>

    /** Page start: `state.currentSection` is "hero"; the dots keep the classes the markup gave them. */
    constructor (dots: seq<bool>)
      ensures currentSection == "hero" && dotActive == dots
    {
      currentSection := "hero";
      dotActive := dots;
    }

    /**
     * `updateActiveNav` for reading line `line` (scroll position plus half the
     * viewport) and the dots' `data-target` values: when some section is
     * reached, the last one becomes current and exactly the dots targeting it
     * are active; otherwise nothing changes.
     */
    method UpdateActiveNav(sections: seq<Section>, dotTargets: seq<string>, line: int)
      requires |dotTargets| == |dotActive|
      modifies this
      ensures var k := LastReached(sections, line);
        if k >= 0 then
          && currentSection == sections[k].id
          && |dotActive| == |dotTargets|
          && forall d :: 0 <= d < |dotTargets| ==> dotActive[d] == (dotTargets[d] == sections[k].id)
        else
          currentSection == old(currentSection) && dotActive == old(dotActive)
    {
      var i := |sections| - 1;
      while i >= 0
        invariant -1 <= i < |sections|
        invariant forall j :: i < j < |sections| ==> line < sections[j].offsetTop
        invariant currentSection == old(currentSection) && dotActive == old(dotActive)
        decreases i + 1
      {
        var section := sections[i];
        if line >= section.offsetTop {
          currentSection := section.id;
          dotActive := seq(|dotTargets|, d requires 0 <= d < |dotTargets| => dotTargets[d] == section.id);
          assert i == LastReached(sections, line);
          return;
        }
        i := i - 1;
      }
    }
  }
}
