/**
 * The pull-to-refresh gesture (src/hooks/usePullToRefresh.ts) as an object whose
 * handler methods update its fields. Coordinates are reals. The scroll test
 * (`checkIfAtTop`) is an input of the handlers that run it. The end of the
 * refresh (success, failure or timeout: the `finally` block) is the event
 * `RefreshSettled`. State updates take effect at once.
 */
module PullToRefresh {

  /** `Math.min(distance / 2, maxPullDown)`: half the drag, capped. */
  function Resisted(distance: real, maxPullDown: real): (r: real)
    ensures r <= maxPullDown && r <= distance / 2.0
    ensures r == distance / 2.0 || r == maxPullDown
  {
    if distance / 2.0 <= maxPullDown then distance / 2.0 else maxPullDown
  }

  /** What a release does. */
  datatype Release = Ignored | StartRefresh | ResetPull

  /**
   * `handleTouchEnd` and the tail of `handleMouseUp`: nothing unless pulling, then
   * refresh from the threshold on and reset below it.
   */
  function ReleaseOutcome(isPulling: bool, pullDistance: real, threshold: real): (r: Release)
    ensures r.Ignored? <==> !isPulling
    ensures r.StartRefresh? <==> isPulling && pullDistance >= threshold
    ensures r.ResetPull? <==> isPulling && pullDistance < threshold
  {
    if !isPulling then Ignored
    else if pullDistance >= threshold then StartRefresh
    else ResetPull
  }

  /** The fields of the hook, as one value. */
  datatype Gesture = Gesture(
    isPulling: bool,
    isRefreshing: bool,
    pullDistance: real,
    startY: real,
    currentY: real,
    isMouseDown: bool,
    isAtTop: bool)

  /** `resetPullState`: not pulling, distance 0, both coordinates 0. */
  function Reset(g: Gesture): (r: Gesture)
    ensures !r.isPulling && r.pullDistance == 0.0 && r.startY == 0.0 && r.currentY == 0.0
    ensures r.isRefreshing == g.isRefreshing && r.isMouseDown == g.isMouseDown && r.isAtTop == g.isAtTop
  {
    g.(isPulling := false, pullDistance := 0.0, startY := 0.0, currentY := 0.0)
  }

  /** The state after a release, given its outcome. */
  function Released(g: Gesture, threshold: real): (r: Gesture)
    ensures ReleaseOutcome(g.isPulling, g.pullDistance, threshold).Ignored? ==> r == g
    ensures ReleaseOutcome(g.isPulling, g.pullDistance, threshold).StartRefresh? ==> r == g.(isRefreshing := true)
    ensures ReleaseOutcome(g.isPulling, g.pullDistance, threshold).ResetPull? ==> r == Reset(g)
  {
    match ReleaseOutcome(g.isPulling, g.pullDistance, threshold)
    case Ignored => g
    case StartRefresh => g.(isRefreshing := true)
    case ResetPull => Reset(g)
  }

  /** The state after a move to `y` that passed its guard. */
  function Moved(g: Gesture, y: real, maxPullDown: real): (r: Gesture)
    ensures r.currentY == y
    ensures y - g.startY <= 0.0 ==> r == g.(currentY := y)
    ensures y - g.startY > 0.0 ==> r == g.(currentY := y, isPulling := true,
                                            pullDistance := Resisted(y - g.startY, maxPullDown))
  {
    if y - g.startY > 0.0 then
      g.(currentY := y, isPulling := true, pullDistance := Resisted(y - g.startY, maxPullDown))
    else g.(currentY := y)
  }

  /**
   * The invariant every handler keeps: the distance is 0 unless pulling, and
   * never above the cap while pulling.
   */
  predicate Consistent(g: Gesture, maxPullDown: real) {
    (!g.isPulling ==> g.pullDistance == 0.0) && (g.isPulling ==> g.pullDistance <= maxPullDown)
  }

  lemma MovedConsistent(g: Gesture, y: real, maxPullDown: real)
    requires Consistent(g, maxPullDown)
    ensures Consistent(Moved(g, y, maxPullDown), maxPullDown)
  {
  }

  lemma ReleasedConsistent(g: Gesture, threshold: real, maxPullDown: real)
    requires Consistent(g, maxPullDown)
    ensures Consistent(Released(g, threshold), maxPullDown)
    ensures Released(g, threshold).isRefreshing <==> g.isRefreshing || (g.isPulling && g.pullDistance >= threshold)
  {
  }

  /**
   * A release while a refresh is still running but the pull was not reset (the
   * refresh has not settled) starts the refresh again: the release handlers do
   * not look at `isRefreshing`.
   */
  lemma ReleaseDuringRefreshRefreshesAgain(g: Gesture, threshold: real)
    requires g.isRefreshing && g.isPulling && g.pullDistance >= threshold
    ensures ReleaseOutcome(g.isPulling, g.pullDistance, threshold).StartRefresh?
  {
  }

  class PullGesture {
    const threshold: real
    const maxPullDown: real
    var isPulling: bool
    var isRefreshing: bool
    var pullDistance: real
    var startY: real
    var currentY: real
    var isMouseDown: bool
    var isAtTop: bool

    function State(): Gesture
      reads this
    {
      Gesture(isPulling, isRefreshing, pullDistance, startY, currentY, isMouseDown, isAtTop)
    }

    predicate Valid()
      reads this
    {
      Consistent(State(), maxPullDown)
    }

    /** The hook's initial state; the options default to 80 and 150. */
    constructor (threshold: real, maxPullDown: real, atTop: bool)
      ensures this.threshold == threshold && this.maxPullDown == maxPullDown
      ensures State() == Gesture(false, false, 0.0, 0.0, 0.0, false, atTop)
      ensures Valid()
    {
      this.threshold := threshold;
      this.maxPullDown := maxPullDown;
      isPulling, isRefreshing, pullDistance := false, false, 0.0;
      startY, currentY, isMouseDown, isAtTop := 0.0, 0.0, false, atTop;
    }

    /** `checkIfAtTop` on a scroll of the container or the window. */
    method Scroll(atTop: bool)
      requires Valid()
      modifies this
      ensures Valid() && State() == old(State()).(isAtTop := atTop)
    {
      isAtTop := atTop;
    }

    /** `handleTouchStart`: record the start only at the top and when not refreshing. */
    method TouchStart(clientY: real, atTop: bool)
      requires Valid()
      modifies this
      ensures Valid()
      ensures State() == if atTop && !old(isRefreshing)
        then old(State()).(isAtTop := atTop, startY := clientY) else old(State()).(isAtTop := atTop)
    {
      isAtTop := atTop;
      if isAtTop && !isRefreshing {
        startY := clientY;
      }
    }

    /** `handleTouchMove`: ignored off the top, while refreshing, or before a start. */
    method TouchMove(clientY: real)
      requires Valid()
      modifies this
      ensures Valid()
      ensures !old(isAtTop) || old(isRefreshing) || old(startY) == 0.0 ==> State() == old(State())
      ensures old(isAtTop) && !old(isRefreshing) && old(startY) != 0.0 ==>
        State() == Moved(old(State()), clientY, maxPullDown)
    {
      if !isAtTop || isRefreshing || startY == 0.0 {
        return;
      }
      MovedConsistent(State(), clientY, maxPullDown);
      currentY := clientY;
      var distance := currentY - startY;
      if distance > 0.0 {
        pullDistance := Resisted(distance, maxPullDown);
        isPulling := true;
      }
    }

    /** `handleTouchEnd`. */
    method TouchEnd()
      requires Valid()
      modifies this
      ensures Valid() && State() == Released(old(State()), threshold)
    {
      ReleasedConsistent(State(), threshold, maxPullDown);
      if !isPulling {
        return;
      }
      if pullDistance >= threshold {
        TriggerRefresh();
      } else {
        ResetPullState();
      }
    }

    /** `handleMouseDown`: press and record the start only at the top and when not refreshing. */
    method MouseDown(clientY: real, atTop: bool)
      requires Valid()
      modifies this
      ensures Valid()
      ensures State() == if atTop && !old(isRefreshing)
        then old(State()).(isAtTop := atTop, isMouseDown := true, startY := clientY)
        else old(State()).(isAtTop := atTop)
    {
      isAtTop := atTop;
      if isAtTop && !isRefreshing {
        isMouseDown := true;
        startY := clientY;
      }
    }

    /** `handleMouseMove`: only with the button down, at the top, and not refreshing. */
    method MouseMove(clientY: real)
      requires Valid()
      modifies this
      ensures Valid()
      ensures !old(isMouseDown) || !old(isAtTop) || old(isRefreshing) ==> State() == old(State())
      ensures old(isMouseDown) && old(isAtTop) && !old(isRefreshing) ==>
        State() == Moved(old(State()), clientY, maxPullDown)
    {
      if !isMouseDown || !isAtTop || isRefreshing {
        return;
      }
      MovedConsistent(State(), clientY, maxPullDown);
      currentY := clientY;
      var distance := currentY - startY;
      if distance > 0.0 {
        pullDistance := Resisted(distance, maxPullDown);
        isPulling := true;
      }
    }

    /** `handleMouseUp`: release the button first, then behave as a touch end. */
    method MouseUp()
      requires Valid()
      modifies this
      ensures Valid()
      ensures !old(isMouseDown) ==> State() == old(State())
      ensures old(isMouseDown) ==> State() == Released(old(State()).(isMouseDown := false), threshold)
    {
      if !isMouseDown {
        return;
      }
      isMouseDown := false;
      ReleasedConsistent(State(), threshold, maxPullDown);
      if !isPulling {
        return;
      }
      if pullDistance >= threshold {
        TriggerRefresh();
      } else {
        ResetPullState();
      }
    }

    /** The synchronous part of `triggerRefresh`. */
    method TriggerRefresh()
      requires Valid()
      modifies this
      ensures Valid() && State() == old(State()).(isRefreshing := true)
    {
      isRefreshing := true;
    }

    /** The `finally` of `triggerRefresh`, however the refresh ended. */
    method RefreshSettled()
      requires Valid()
      modifies this
      ensures Valid() && State() == Reset(old(State()).(isRefreshing := false))
    {
      isRefreshing := false;
      ResetPullState();
    }

    /** `resetPullState`. */
    method ResetPullState()
      requires Valid()
      modifies this
      ensures Valid() && State() == Reset(old(State()))
    {
      isPulling := false;
      pullDistance := 0.0;
      startY := 0.0;
      currentY := 0.0;
    }
  }
}
