/** Model of src/gameplay/lib.ts: the collision test and the frame-delta tracker. */
module Lib {
  import opened Geometry

  /** Closed-interval overlap of `[lo1, lo1 + len1]` and `[lo2, lo2 + len2]`, as `entitiesColliding` compares one axis. */
  predicate AxisOverlap(lo1: real, len1: real, lo2: real, len2: real) {
    lo1 <= lo2 + len2 && lo1 + len1 >= lo2
  }

  /** `entitiesColliding`: both axis projections overlap, edges included. */
  predicate EntitiesColliding(e1: Box, e2: Box) {
    && AxisOverlap(e1.position.x, e1.size.width, e2.position.x, e2.size.width)
    && AxisOverlap(e1.position.y, e1.size.height, e2.position.y, e2.size.height)
  }

  /** The test does not depend on the order of its arguments. */
  lemma CollidingSymmetric(a: Box, b: Box)
    ensures EntitiesColliding(a, b) == EntitiesColliding(b, a)
  {
  }

  /** A box of non-negative size collides with itself. */
  lemma CollidingReflexive(a: Box)
    requires a.size.width >= 0.0 && a.size.height >= 0.0
    ensures EntitiesColliding(a, a)
  {
  }

  /** Two boxes that only share an edge (the right edge of `a` is the left edge of `b`) collide. */
  lemma TouchingEdgesCollide(a: Box, b: Box)
    requires a.size.width >= 0.0 && b.size.width >= 0.0
    requires a.position.x + a.size.width == b.position.x
    requires AxisOverlap(a.position.y, a.size.height, b.position.y, b.size.height)
    ensures EntitiesColliding(a, b)
  {
  }

  /** For boxes of non-negative size the test holds exactly when the closed rectangles share a point. */
  lemma CollidingIffCommonPoint(a: Box, b: Box)
    requires a.size.width >= 0.0 && a.size.height >= 0.0
    requires b.size.width >= 0.0 && b.size.height >= 0.0
    ensures EntitiesColliding(a, b) <==> exists p :: Contains(a, p) && Contains(b, p)
  {
    if EntitiesColliding(a, b) {
      var px := if a.position.x < b.position.x then b.position.x else a.position.x;
      var py := if a.position.y < b.position.y then b.position.y else a.position.y;
      assert Contains(a, Vec(px, py)) && Contains(b, Vec(px, py));
    }
  }

  /**
   * `createDeltaTracker`: a closure over `timeOld` and `delta`, here a class over
   * those two variables. Times are milliseconds; `delta` is seconds.
   */
  class DeltaTracker {
    var timeOld: real
    var delta: real

    /** A fresh tracker has no origin yet (`timeOld` is the sentinel -1) and reports 0. */
    constructor ()
      ensures timeOld == -1.0 && delta == 0.0
    {
      timeOld := -1.0;
      delta := 0.0;
    }

    /** `get`. */
    function Get(): real
      reads this
    {
      delta
    }

    /**
     * `track(timeNow)`: the first call (origin still -1) takes `timeNow` as origin, so its
     * delta is 0; every call then reports the seconds since the stored origin and moves it.
     */
    method Track(timeNow: real)
      modifies this
      ensures old(timeOld) == -1.0 ==> delta == 0.0
      ensures old(timeOld) != -1.0 ==> delta == (timeNow - old(timeOld)) / 1000.0
      ensures timeOld == timeNow
    {
      if timeOld == -1.0 {
        timeOld := timeNow;
      }
      delta := (timeNow - timeOld) / 1000.0;
      timeOld := timeNow;
    }
  }

  /** A new tracker reports 0 before tracking and after its first `track`, then the elapsed seconds. */
  method DeltaTrackerScenario(t0: real, t1: real) returns (before: real, first: real, second: real)
    requires t0 != -1.0
    ensures before == 0.0 && first == 0.0
    ensures second == (t1 - t0) / 1000.0
  {
    var tracker := new DeltaTracker();
    before := tracker.Get();
    tracker.Track(t0);
    first := tracker.Get();
    tracker.Track(t1);
    second := tracker.Get();
  }
}
