/**
 * The scroll-depth tracker: the scroll percentage of the page, and the check
 * that logs each depth milestone the first time the percentage reaches it.
 * The window and document measures are inputs; the percentage is computed in
 * exact real arithmetic.
 */
module ScrollDepth {
  const MILESTONES: seq<int> := [10, 20, 30, 40, 50, 60, 70, 80, 90, 100]

  /**
   * `getScrollPercentage`. A page that cannot scroll counts as fully read;
   * otherwise the share of the scrollable height above the viewport, capped
   * at 100, which it reaches exactly when the viewport is at or past the
   * end, and which is not negative for a position that is not.
   */
  function ScrollPercentage(scrollTop: real, windowHeight: real, documentHeight: real): (pct: real)
    ensures pct <= 100.0
    ensures documentHeight - windowHeight <= 0.0 ==> pct == 100.0
    ensures documentHeight - windowHeight > 0.0 ==> (pct == 100.0 <==> scrollTop >= documentHeight - windowHeight)
    ensures scrollTop >= 0.0 ==> pct >= 0.0
  {
    var scrollableHeight := documentHeight - windowHeight;
    if scrollableHeight <= 0.0 then 100.0
    else
      var share := (scrollTop / scrollableHeight) * 100.0;
      assert share >= 100.0 <==> scrollTop >= scrollableHeight by {
        assert share == scrollTop * 100.0 / scrollableHeight;
        assert share * scrollableHeight == scrollTop * 100.0;
      }
      assert scrollTop >= 0.0 ==> share >= 0.0;
      if share < 100.0 then share else 100.0
  }

  /** The milestones a check at percentage `pct` must log, given the ones already fired, in list order. */
  function NewlyReached(fired: set<int>, pct: real, ms: seq<int>): seq<int>
    decreases |ms|
  {
    if ms == [] then []
    else
      var m := ms[|ms| - 1];
      NewlyReached(fired, pct, ms[..|ms| - 1]) + (if pct >= m as real && m !in fired then [m] else [])
  }

  /** The milestones of `ms` a percentage reaches. */
  function Reached(pct: real, ms: seq<int>): set<int> {
    set m | m in ms && pct >= m as real
  }

  predicate StrictlyIncreasing(s: seq<int>) {
    forall i, j :: 0 <= i < j < |s| ==> s[i] < s[j]
  }

  /**
   * The milestones logged are exactly those reached and not yet fired; they
   * come in increasing order when the list is increasing (the milestone list
   * is), and each at most once.
   */
  lemma {:induction false} NewlyReachedSpec(fired: set<int>, pct: real, ms: seq<int>)
    ensures forall m :: m in NewlyReached(fired, pct, ms) <==> m in ms && pct >= m as real && m !in fired
    ensures StrictlyIncreasing(ms) ==> StrictlyIncreasing(NewlyReached(fired, pct, ms))
    decreases |ms|
  {
    if ms != [] {
      var init := ms[..|ms| - 1];
      var m := ms[|ms| - 1];
      NewlyReachedSpec(fired, pct, init);
      assert ms == init + [m];
      if StrictlyIncreasing(ms) {
        assert StrictlyIncreasing(init);
        var r0 := NewlyReached(fired, pct, init);
        assert forall k :: 0 <= k < |r0| ==> r0[k] < m by {
          forall k | 0 <= k < |r0|
            ensures r0[k] < m
          {
            assert r0[k] in r0;
            var x :| 0 <= x < |init| && init[x] == r0[k];
            assert ms[x] == init[x];
          }
        }
      }
    }
  }

  /** The milestone list is increasing. */
  lemma MilestonesIncreasing()
    ensures StrictlyIncreasing(MILESTONES)
  {
  }

  /** A second check at the same percentage, after the first one's milestones were added, logs nothing. */
  lemma RepeatCheckFiresNothing(fired: set<int>, pct: real)
    ensures NewlyReached(fired + Reached(pct, MILESTONES), pct, MILESTONES) == []
  {
    NoneNew(fired + Reached(pct, MILESTONES), pct, MILESTONES);
  }

  /** Nothing is logged when every reached milestone has fired already. */
  lemma {:induction false} NoneNew(fired: set<int>, pct: real, ms: seq<int>)
    requires forall m :: m in ms && pct >= m as real ==> m in fired
    ensures NewlyReached(fired, pct, ms) == []
    decreases |ms|
  {
    if ms != [] {
      var init := ms[..|ms| - 1];
      forall m | m in init && pct >= m as real
        ensures m in fired
      {
        var k :| 0 <= k < |init| && init[k] == m;
        assert ms[k] in ms;
      }
      NoneNew(fired, pct, init);
      assert ms[|ms| - 1] in ms;
    }
  }

  /** A check on a page read to the end logs every milestone not yet fired, and on a fresh mount all ten in order. */
  lemma BottomFiresAll(fired: set<int>)
    ensures forall m :: m in NewlyReached(fired, 100.0, MILESTONES) <==> m in MILESTONES && m !in fired
    ensures NewlyReached({}, 100.0, MILESTONES) == MILESTONES
  {
    NewlyReachedSpec(fired, 100.0, MILESTONES);
    NewlyReachedAll(100.0, MILESTONES);
  }

  lemma {:induction false} NewlyReachedAll(pct: real, ms: seq<int>)
    requires forall m :: m in ms ==> pct >= m as real
    ensures NewlyReached({}, pct, ms) == ms
    decreases |ms|
  {
    if ms != [] {
      var init := ms[..|ms| - 1];
      forall m | m in init
        ensures pct >= m as real
      {
        var k :| 0 <= k < |init| && init[k] == m;
        assert ms[k] in ms;
      }
      NewlyReachedAll(pct, init);
      assert ms[|ms| - 1] in ms;
      assert ms == init + [ms[|ms| - 1]];
    }
  }

  /** No value occurs twice. */
  predicate Distinct(s: seq<int>) {
    forall i, j :: 0 <= i < j < |s| ==> s[i] != s[j]
  }

  /**
   * The tracker's invariant: only milestones are fired, the depths logged are
   * exactly the fired milestones, and none is logged twice.
   */
  ghost predicate Consistent(fired: set<int>, depths: seq<int>) {
    (forall m :: m in fired ==> m in MILESTONES) &&
    (forall m :: m in depths <==> m in fired) &&
    Distinct(depths)
  }

  /** A whole check keeps the invariant. */
  lemma CheckKeepsConsistent(fired: set<int>, depths: seq<int>, pct: real)
    requires Consistent(fired, depths)
    ensures Consistent(fired + Reached(pct, MILESTONES), depths + NewlyReached(fired, pct, MILESTONES))
  {
    var r := NewlyReached(fired, pct, MILESTONES);
    MilestonesIncreasing();
    NewlyReachedSpec(fired, pct, MILESTONES);
    var d := depths + r;
    forall i, j | 0 <= i < j < |d|
      ensures d[i] != d[j]
    {
      if j < |depths| {
      } else if i < |depths| {
        assert d[i] in depths && d[j] == r[j - |depths|];
        assert r[j - |depths|] in r;
      } else {
        assert r[i - |depths|] < r[j - |depths|];
      }
    }
  }

  /** The `firedMilestones` set of one mounted tracker, and the depths it has logged as `scroll_depth` events. */
  class Tracker {
    var fired: set<int>
    var depths: seq<int>

    ghost predicate Valid()
      reads this
    {
      Consistent(fired, depths)
    }

    /** The mount: nothing fired or logged. */
    constructor ()
      ensures Valid() && fired == {} && depths == []
    {
      fired := {};
      depths := [];
    }

    /**
     * `checkMilestones` at percentage `pct`: every milestone reached is now
     * fired, and those not fired before are logged in list order; nothing
     * else is added.
     */
    method Check(pct: real)
      requires Valid()
      modifies this
      ensures Valid()
      ensures fired == old(fired) + Reached(pct, MILESTONES)
      ensures depths == old(depths) + NewlyReached(old(fired), pct, MILESTONES)
    {
      MilestonesIncreasing();
      var f := fired;
      var l := depths;
      var i := 0;
      assert MILESTONES[..0] == [];
      while i < |MILESTONES|
        invariant 0 <= i <= |MILESTONES|
        invariant fired == old(fired) && depths == old(depths)
        invariant f == fired + Reached(pct, MILESTONES[..i])
        invariant l == depths + NewlyReached(fired, pct, MILESTONES[..i])
      {
        var milestone := MILESTONES[i];
        CheckStep(fired, pct, MILESTONES, i);
        assert milestone !in f <==> milestone !in fired;
        ghost var before := NewlyReached(fired, pct, MILESTONES[..i]);
        if pct >= milestone as real && milestone !in f {
          assert l + [milestone] == depths + (before + [milestone]);
          f := f + {milestone};
          l := l + [milestone];
        } else {
          assert before + [] == before;
        }
        i := i + 1;
      }
      assert MILESTONES[..i] == MILESTONES;
      CheckKeepsConsistent(fired, depths, pct);
      fired := f;
      depths := l;
    }
  }

  /** One more milestone of an increasing list: it is new to the prefix, and extends both the log and the reached set by itself or nothing. */
  lemma CheckStep(fired: set<int>, pct: real, ms: seq<int>, i: nat)
    requires StrictlyIncreasing(ms) && i < |ms|
    ensures ms[i] !in ms[..i]
    ensures NewlyReached(fired, pct, ms[..i + 1]) ==
              NewlyReached(fired, pct, ms[..i]) + (if pct >= ms[i] as real && ms[i] !in fired then [ms[i]] else [])
    ensures Reached(pct, ms[..i + 1]) == Reached(pct, ms[..i]) + (if pct >= ms[i] as real then {ms[i]} else {})
  {
    assert ms[..i + 1] == ms[..i] + [ms[i]];
    assert ms[..i + 1][..i] == ms[..i];
    assert ms[..i + 1][i] == ms[i];
  }
}
