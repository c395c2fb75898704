/** The scroll handler of src/components/layout/Layout.tsx, which hides the
    theme toggle while the page scrolls down past the first 100 pixels and
    shows it otherwise. The handler keeps the last recorded position in a
    variable its closure shares across events. */
module Layout {

  const HideThreshold: int := 100

  /** The visibility an event at `st` produces after position `last`. */
  function Visible(last: int, st: int): (visible: bool)
    ensures !visible ==> st > HideThreshold
  {
    !(st > last && st > HideThreshold)
  }

  /** The position recorded after an event at `st`: negative (overscroll)
      positions are recorded as 0. */
  function Recorded(st: int): (r: int)
    ensures r >= 0
    ensures r == st || (st <= 0 && r == 0)
  {
    if st <= 0 then 0 else st
  }

  /** The toggle is hidden exactly when scrolling down below the first 100
      pixels; scrolling up, standing still, or staying within the first
      100 pixels shows it. */
  lemma VisibleCases(last: int, st: int)
    ensures !Visible(last, st) <==> st > last && st > HideThreshold
    ensures st <= last ==> Visible(last, st)
    ensures st <= HideThreshold ==> Visible(last, st)
  {
  }

  datatype ScrollState = ScrollState(lastScrollTop: int, isVisible: bool)

  const Initial: ScrollState := ScrollState(0, true)

  /** One scroll event at `st`: the toggle can only disappear while the
      page moves down, and the recorded position is never negative. */
  function Step(s: ScrollState, st: int): (r: ScrollState)
    ensures r.lastScrollTop >= 0
    ensures !r.isVisible ==> st > s.lastScrollTop
  {
    ScrollState(Recorded(st), Visible(s.lastScrollTop, st))
  }

  /** The state after a sequence of scroll events, from the initial state. */
  function Run(positions: seq<int>): (s: ScrollState)
    ensures s.lastScrollTop >= 0
    ensures positions == [] ==> s == Initial
  {
    if positions == [] then Initial
    else Step(Run(positions[..|positions| - 1]), positions[|positions| - 1])
  }

  /** After any events, the visibility is decided by the last position and
      the one before it (0 before the first event) alone, and the recorded
      position by the last one alone. */
  lemma RunDependsOnLastTwo(positions: seq<int>)
    requires |positions| >= 1
    ensures var n := |positions|;
      var previous := if n == 1 then 0 else Recorded(positions[n - 2]);
      && Run(positions).isVisible == Visible(previous, positions[n - 1])
      && Run(positions).lastScrollTop == Recorded(positions[n - 1])
  {
    var n := |positions|;
    if n >= 2 {
      var init := positions[..n - 1];
      assert init[..|init| - 1] == positions[..n - 2];
      assert init[|init| - 1] == positions[n - 2];
    }
  }

  /** Two histories that end with the same two positions leave the toggle
      in the same state. */
  lemma SameEndingSameState(xs: seq<int>, ys: seq<int>, a: int, b: int)
    ensures Run(xs + [a, b]) == Run(ys + [a, b])
  {
    RunDependsOnLastTwo(xs + [a, b]);
    RunDependsOnLastTwo(ys + [a, b]);
  }

  class ScrollTracker {
    var lastScrollTop: int
    var isVisible: bool

    ghost predicate Valid()
      reads this
    {
      lastScrollTop >= 0
    }

    /** The toggle starts visible with position 0. */
    constructor ()
      ensures Valid()
      ensures ScrollState(lastScrollTop, isVisible) == Initial
    {
      lastScrollTop := 0;
      isVisible := true;
    }

    /** handleScroll for the window's current `scrollY`. */
    method HandleScroll(st: int)
      requires Valid()
      modifies this
      ensures Valid()
      ensures ScrollState(lastScrollTop, isVisible) == Step(old(ScrollState(lastScrollTop, isVisible)), st)
      ensures !isVisible <==> st > old(lastScrollTop) && st > HideThreshold
    {
      if st > lastScrollTop && st > HideThreshold {
        isVisible := false;
      } else {
        isVisible := true;
      }
      lastScrollTop := if st <= 0 then 0 else st;
    }
  }
}
