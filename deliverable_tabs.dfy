/**
 * The deliverables tab group on the home page: the selected index, moved one
 * step by swipes and clamped to the list, and the tab orientation, which
 * follows the large-screen media query.
 */
module DeliverableTabs {

  /** The home page lists five deliverables. */
  const DELIVERABLE_COUNT := 5
  const LAST_INDEX := DELIVERABLE_COUNT - 1

  datatype Orientation = Horizontal | Vertical

  /** `onSwipedLeft`'s updater: one step forward, capped at the last index. */
  function SwipedLeft(prev: int): (next: int)
    ensures prev < LAST_INDEX ==> next == prev + 1
    ensures prev >= LAST_INDEX ==> next == LAST_INDEX
  {
    if prev + 1 < LAST_INDEX then prev + 1 else LAST_INDEX
  }

  /** `onSwipedRight`'s updater: one step back, floored at 0. */
  function SwipedRight(prev: int): (next: int)
    ensures prev > 0 ==> next == prev - 1
    ensures prev <= 0 ==> next == 0
  {
    if prev - 1 > 0 then prev - 1 else 0
  }

  predicate InRange(i: int) {
    0 <= i <= LAST_INDEX
  }

  /**
   * Both swipes keep an index in range; swiping left at the last tab and
   * right at the first are no-ops; and inside the range each swipe undoes
   * the other.
   */
  lemma SwipesStayInRange(i: int)
    requires InRange(i)
    ensures InRange(SwipedLeft(i)) && InRange(SwipedRight(i))
    ensures i == LAST_INDEX <==> SwipedLeft(i) == i
    ensures i == 0 <==> SwipedRight(i) == i
    ensures i < LAST_INDEX ==> SwipedRight(SwipedLeft(i)) == i
    ensures i > 0 ==> SwipedLeft(SwipedRight(i)) == i
  {
  }

  /** `n` swipes left from index `i`. */
  function SwipeLeftN(i: int, n: nat): int
    decreases n
  {
    if n == 0 then i else SwipedLeft(SwipeLeftN(i, n - 1))
  }

  /** Any number of left swipes from an index in range lands on `min(i + n, 4)`. */
  lemma {:induction false} SwipeLeftNClamps(i: int, n: nat)
    requires InRange(i)
    ensures SwipeLeftN(i, n) == if i + n < LAST_INDEX then i + n else LAST_INDEX
    decreases n
  {
    if n > 0 {
      SwipeLeftNClamps(i, n - 1);
    }
  }

  /** `onMediaQueryChange`: vertical exactly when the `(min-width: 1024px)` query matches. */
  function OrientationFor(matches: bool): (o: Orientation)
    ensures o == Vertical <==> matches
  {
    if matches then Vertical else Horizontal
  }

  /** The home page's tab state. */
  class Tabs {
    var selected: int
    var orientation: Orientation

    /** The first render: the first tab, horizontal. */
    constructor ()
      ensures selected == 0 && orientation == Horizontal
    {
      selected := 0;
      orientation := Horizontal;
    }

    method OnSwipedLeft()
      requires InRange(selected)
      modifies this
      ensures selected == SwipedLeft(old(selected)) && InRange(selected)
      ensures orientation == old(orientation)
    {
      selected := SwipedLeft(selected);
      SwipesStayInRange(old(selected));
    }

    method OnSwipedRight()
      requires InRange(selected)
      modifies this
      ensures selected == SwipedRight(old(selected)) && InRange(selected)
      ensures orientation == old(orientation)
    {
      selected := SwipedRight(selected);
      SwipesStayInRange(old(selected));
    }

    /** The media query fired (at mount, and on every change). */
    method OnMediaQueryChange(matches: bool)
      modifies this
      ensures orientation == OrientationFor(matches) && selected == old(selected)
    {
      orientation := OrientationFor(matches);
    }
  }
}
