/**
 Closed forms of the timed missions over arbitrary schedules of run() calls: however a flight is
 sliced into ticks, position and completion depend on elapsed time only.
 */
module Missions {
  import opened SwarmTypes
  import opened Motion
  import opened Tasks

  // ---------------------------------------------------------------------
  //  Schedules of run() calls after an on_enter at `from`
  // ---------------------------------------------------------------------

  ghost predicate Schedule(from: TimePoint, times: seq<TimePoint>) {
    && (forall i | 0 <= i < |times| :: from <= times[i])
    && (forall i, j | 0 <= i < j < |times| :: times[i] <= times[j])
  }

  /** Time of the last call so far: on_enter's when nothing ran yet. */
  function LastTime(from: TimePoint, times: seq<TimePoint>): TimePoint {
    if times == [] then from else times[|times| - 1]
  }

  lemma ScheduleFront(from: TimePoint, times: seq<TimePoint>, now: TimePoint)
    requires Schedule(from, times + [now])
    ensures Schedule(from, times) && from <= LastTime(from, times) <= now
  {
    var all := times + [now];
    assert forall i | 0 <= i < |times| :: all[i] == times[i];
    assert all[|times|] == now;
  }

  function Metres(from: TimePoint, to: TimePoint): real {
    HORIZONTAL_SPEED * ToSeconds(to - from)
  }

  /** The run at `now`, after one at `last`, arrives at a target d metres from the start left at `from`. */
  ghost predicate ArrivesAt(d: real, from: TimePoint, last: TimePoint, now: TimePoint) {
    d - Metres(from, last) <= ARRIVAL_TOLERANCE || Metres(from, now) >= d
  }

  /** Flying toward (x, y) since `from`, last moved at `last`. */
  ghost predicate EnRoute(h: Hypot, f0: Flight, f: Flight, x: real, y: real, from: TimePoint, last: TimePoint) {
    var d := HorizontalDistance(h, f0.x, f0.y, x, y);
    && from <= last
    && f.z == f0.z
    && ((last == from && f.x == f0.x && f.y == f0.y)
        || (0.0 <= Metres(from, last) < d && OnCourse(h, f0, f, x, y, Metres(from, last))))
  }

  /** On the straight line, moving along it at full speed. */
  ghost predicate OnCourse(h: Hypot, f0: Flight, f: Flight, x: real, y: real, metres: real) {
    OnSegment(h, f0, f, x, y, metres) && Heading(h, f0, f, x, y, HORIZONTAL_SPEED)
  }

  lemma LegStep(h: Hypot, f0: Flight, f: Flight, x: real, y: real, from: TimePoint, last: TimePoint, now: TimePoint)
    requires IsHypot(h) && EnRoute(h, f0, f, x, y, from, last) && last <= now
    ensures var d := HorizontalDistance(h, f0.x, f0.y, x, y);
            var m := MoveToward(h, f, x, y, HORIZONTAL_SPEED, ARRIVAL_TOLERANCE, ToSeconds(now - last));
            && (m.arrived <==> ArrivesAt(d, from, last, now))
            && (!m.arrived ==> && Metres(from, now) < d
                               && OnCourse(h, f0, m.flight, x, y, Metres(from, now))
                               && EnRoute(h, f0, m.flight, x, y, from, now))
  {
    var d := HorizontalDistance(h, f0.x, f0.y, x, y);
    SecondsAdd(last - from, now - last);
    assert Metres(from, now) == Metres(from, last) + HORIZONTAL_SPEED * ToSeconds(now - last);
    if d > 0.0 {
      if last == from && f.x == f0.x && f.y == f0.y {
        assert OnSegment(h, f0, f, x, y, 0.0);
      }
      MoveAdvances(h, f0, f, x, y, Metres(from, last), HORIZONTAL_SPEED, ARRIVAL_TOLERANCE, ToSeconds(now - last));
    }
  }

  // ---------------------------------------------------------------------
  //  GoToTarget
  // ---------------------------------------------------------------------

  function RunLegs(l: Leg, f: Flight, times: seq<TimePoint>, h: Hypot): (Leg, Flight)
    decreases |times|
  {
    if times == [] then (l, f)
    else
      var (l1, f1) := RunLegs(l, f, times[..|times| - 1], h);
      RunLeg(l1, times[|times| - 1], f1, h)
  }

  /** No run of the schedule finished the leg. */
  ghost predicate LegUnfinished(l: Leg, f: Flight, times: seq<TimePoint>, h: Hypot)
    decreases |times|
  {
    !RunLegs(l, f, times, h).0.finished
    && (times != [] ==> LegUnfinished(l, f, times[..|times| - 1], h))
  }

  lemma {:induction false} LegEnRoute(l: Leg, f0: Flight, from: TimePoint, times: seq<TimePoint>, h: Hypot)
    requires IsHypot(h) && l.lastUpdate == from
    requires Schedule(from, times) && LegUnfinished(l, f0, times, h)
    ensures var (l1, f) := RunLegs(l, f0, times, h);
            var last := LastTime(from, times);
            && l1 == l.(lastUpdate := last)
            && EnRoute(h, f0, f, l.x, l.y, from, last)
            && (times != [] ==> && Metres(from, last) < HorizontalDistance(h, f0.x, f0.y, l.x, l.y)
                                && OnCourse(h, f0, f, l.x, l.y, Metres(from, last)))
    decreases |times|
  {
    if times != [] {
      var front, now := times[..|times| - 1], times[|times| - 1];
      LegEnRoute(l, f0, from, front, h);
      LegStep(h, f0, RunLegs(l, f0, front, h).1, l.x, l.y, from, LastTime(from, front), now);
    }
  }

  /** f is `metres` along the straight line from f0 to the target, at the same altitude. */
  ghost predicate FlownStraight(h: Hypot, f0: Flight, f: Flight, x: real, y: real, metres: real) {
    var d := HorizontalDistance(h, f0.x, f0.y, x, y);
    && HorizontalDistance(h, f0.x, f0.y, f.x, f.y) == metres
    && HorizontalDistance(h, f.x, f.y, x, y) == d - metres
    && (metres > 0.0 ==> metres < d && OnSegment(h, f0, f, x, y, metres))
    && f.z == f0.z
  }

  /**
   Tick-slicing independence.  After any schedule of unfinished runs the drone has flown exactly
   5 m/s times the time since on_enter along the straight line, with the rest still ahead; after at
   least one run its velocity is that of the line.
   */
  lemma TickSlicingIndependence(l: Leg, f0: Flight, from: TimePoint, times: seq<TimePoint>, h: Hypot)
    requires IsHypot(h) && l.lastUpdate == from
    requires Schedule(from, times) && LegUnfinished(l, f0, times, h)
    ensures FlownStraight(h, f0, RunLegs(l, f0, times, h).1, l.x, l.y, Metres(from, LastTime(from, times)))
    ensures times != [] ==> Heading(h, f0, RunLegs(l, f0, times, h).1, l.x, l.y, HORIZONTAL_SPEED)
  {
    LegEnRoute(l, f0, from, times, h);
    HypotOfNothing(h);
    if times != [] {
      RemainingOnSegment(h, f0, RunLegs(l, f0, times, h).1, l.x, l.y, Metres(from, LastTime(from, times)));
    }
  }

  /**
   The run after them finishes exactly when the distance left before it is within tolerance or the
   time is up, and then the drone is at rest within half a metre of the target.
   */
  lemma LegFinishesOnArrival(l: Leg, f0: Flight, from: TimePoint, times: seq<TimePoint>, now: TimePoint, h: Hypot)
    requires IsHypot(h) && l.lastUpdate == from
    requires Schedule(from, times + [now]) && LegUnfinished(l, f0, times, h)
    ensures var d := HorizontalDistance(h, f0.x, f0.y, l.x, l.y);
            var (l', f') := RunLegs(l, f0, times + [now], h);
            && (l'.finished <==> ArrivesAt(d, from, LastTime(from, times), now))
            && (l'.finished ==> && f'.Still()
                                && HorizontalDistance(h, f'.x, f'.y, l.x, l.y) <= ARRIVAL_TOLERANCE)
            && f'.z == f0.z
  {
    var last := LastTime(from, times);
    var f := RunLegs(l, f0, times, h).1;
    ScheduleFront(from, times, now);
    LegEnRoute(l, f0, from, times, h);
    assert (times + [now])[..|times|] == times;
    LegStep(h, f0, f, l.x, l.y, from, last, now);
    ArrivalIsClose(h, f, l.x, l.y, HORIZONTAL_SPEED, ARRIVAL_TOLERANCE, ToSeconds(now - last));
  }

  // ---------------------------------------------------------------------
  //  ScoutSearch
  // ---------------------------------------------------------------------

  function RunSearches(s: Search, f: Flight, times: seq<TimePoint>, h: Hypot): (Search, Flight)
    decreases |times|
  {
    if times == [] then (s, f)
    else
      var (s1, f1) := RunSearches(s, f, times[..|times| - 1], h);
      RunSearch(s1, times[|times| - 1], f1, h)
  }

  ghost predicate SearchUnfinished(s: Search, f: Flight, times: seq<TimePoint>, h: Hypot)
    decreases |times|
  {
    !RunSearches(s, f, times, h).0.finished
    && (times != [] ==> SearchUnfinished(s, f, times[..|times| - 1], h))
  }

  /** The centre was reached, at rest, by the last of the runs at `flown`. */
  ghost predicate ReachedBy(s: Search, f0: Flight, from: TimePoint, flown: seq<TimePoint>, h: Hypot) {
    && flown != []
    && var before, at := flown[..|flown| - 1], flown[|flown| - 1];
    && !RunSearches(s, f0, before, h).0.reached
    && EnRoute(h, f0, RunSearches(s, f0, before, h).1, s.x, s.y, from, LastTime(from, before))
    && ArrivesAt(HorizontalDistance(h, f0.x, f0.y, s.x, s.y), from, LastTime(from, before), at)
    && var (s1, f1) := RunSearches(s, f0, flown, h);
    && s1 == s.(lastUpdate := at, scanStart := at, reached := true)
    && f1.Still() && HorizontalDistance(h, f1.x, f1.y, s.x, s.y) <= ARRIVAL_TOLERANCE
  }

  /** Still on the way after these runs: on the straight line, and moving along it after at least one run. */
  ghost predicate OnTheWay(s: Search, f0: Flight, from: TimePoint, times: seq<TimePoint>, h: Hypot) {
    var (s1, f) := RunSearches(s, f0, times, h);
    && s1 == s.(lastUpdate := LastTime(from, times))
    && EnRoute(h, f0, f, s.x, s.y, from, LastTime(from, times))
    && (times != [] ==> OnCourse(h, f0, f, s.x, s.y, Metres(from, LastTime(from, times))))
  }

  /** Arrived with the last of the runs `flown`, a part of these, and unmoved since. */
  ghost predicate AtTheCentre(s: Search, f0: Flight, from: TimePoint, times: seq<TimePoint>, flown: seq<TimePoint>,
                              h: Hypot) {
    var (s1, f) := RunSearches(s, f0, times, h);
    && ReachedBy(s, f0, from, flown, h)
    && s1 == s.(lastUpdate := LastTime(from, times), scanStart := LastTime(from, flown), reached := true)
    && f == RunSearches(s, f0, flown, h).1
  }

  lemma OneRunOnTheWay(s: Search, f0: Flight, from: TimePoint, front: seq<TimePoint>, now: TimePoint, h: Hypot)
    requires IsHypot(h) && !s.reached && OnTheWay(s, f0, from, front, h) && LastTime(from, front) <= now
    ensures if RunSearches(s, f0, front + [now], h).0.reached
            then AtTheCentre(s, f0, from, front + [now], front + [now], h)
            else OnTheWay(s, f0, from, front + [now], h)
  {
    var f1, last := RunSearches(s, f0, front, h).1, LastTime(from, front);
    assert (front + [now])[..|front|] == front;
    LegStep(h, f0, f1, s.x, s.y, from, last, now);
    ArrivalIsClose(h, f1, s.x, s.y, HORIZONTAL_SPEED, ARRIVAL_TOLERANCE, ToSeconds(now - last));
  }

  /**
   Either still on the straight line, or the centre was reached by the last run of some `flown`
   part of the schedule and nothing has moved since.
   */
  lemma {:induction false} SearchPhases(s: Search, f0: Flight, from: TimePoint, times: seq<TimePoint>, h: Hypot)
      returns (flown: seq<TimePoint>)
    requires IsHypot(h) && s.lastUpdate == from && !s.reached
    requires Schedule(from, times) && SearchUnfinished(s, f0, times, h)
    ensures flown <= times
    ensures if RunSearches(s, f0, times, h).0.reached then AtTheCentre(s, f0, from, times, flown, h)
            else OnTheWay(s, f0, from, times, h)
    decreases |times|
  {
    flown := times;
    if times != [] {
      var front, now := times[..|times| - 1], times[|times| - 1];
      assert times == front + [now];
      var early := SearchPhases(s, f0, from, front, h);
      var (s1, f1) := RunSearches(s, f0, front, h);
      if s1.reached {
        flown := early;
        assert f1.ResetVelocity() == f1;
      } else {
        OneRunOnTheWay(s, f0, from, front, now, h);
      }
    }
  }

  /**
   A search is finished by the run at `now` exactly when an earlier run had reached the centre and
   the scan time has passed since that run; all that time the drone rested within half a metre of
   the centre, without moving.
   */
  lemma ScoutFinishesAfterScan(s: Search, f0: Flight, from: TimePoint, times: seq<TimePoint>, now: TimePoint, h: Hypot)
      returns (flown: seq<TimePoint>)
    requires IsHypot(h) && s.lastUpdate == from && !s.reached && s.scanMs > 0
    requires Schedule(from, times + [now]) && SearchUnfinished(s, f0, times, h)
    ensures flown <= times
    ensures var (s1, f) := RunSearches(s, f0, times, h);
            var (s', f') := RunSearches(s, f0, times + [now], h);
            && (s'.finished <==> s1.reached && now - LastTime(from, flown) >= s.scanMs * NS_PER_MS)
            && (s1.reached ==> && ReachedBy(s, f0, from, flown, h)
                               && f' == f == RunSearches(s, f0, flown, h).1)
  {
    ScheduleFront(from, times, now);
    flown := SearchPhases(s, f0, from, times, h);
    assert (times + [now])[..|times|] == times;
    var (s1, f) := RunSearches(s, f0, times, h);
    if s1.reached {
      assert f.ResetVelocity() == f;
      MillisReached(now - s1.scanStart, s.scanMs);
    }
  }

  /** No two consecutive calls are more than `gap` apart. */
  ghost predicate GapsWithin(from: TimePoint, times: seq<TimePoint>, gap: int)
    decreases |times|
  {
    times != [] ==>
      && times[|times| - 1] - LastTime(from, times[..|times| - 1]) <= gap
      && GapsWithin(from, times[..|times| - 1], gap)
  }

  lemma {:induction false} GapsWithinPrefix(from: TimePoint, flown: seq<TimePoint>, times: seq<TimePoint>, gap: int)
    requires flown <= times && GapsWithin(from, times, gap)
    ensures GapsWithin(from, flown, gap)
    decreases |times|
  {
    if |flown| < |times| {
      GapsWithinPrefix(from, flown, times[..|times| - 1], gap);
    } else {
      assert flown == times;
    }
  }

  /**
   A search does finish.  With calls at most `gap` apart, a search still unfinished after its last
   run is younger than its flight, one gap and its scan; so the run that finishes it comes no later
   than flight, scan and two gaps after on_enter.
   */
  lemma ScoutFinishesInTime(s: Search, f0: Flight, from: TimePoint, times: seq<TimePoint>, gap: int, h: Hypot)
    requires IsHypot(h) && s.lastUpdate == from && !s.reached && s.scanMs > 0 && gap >= 0
    requires Schedule(from, times) && SearchUnfinished(s, f0, times, h) && GapsWithin(from, times, gap)
    ensures ToSeconds(LastTime(from, times) - from)
              < HorizontalDistance(h, f0.x, f0.y, s.x, s.y) / HORIZONTAL_SPEED
                + ToSeconds(gap) + ToSeconds(s.scanMs * NS_PER_MS)
  {
    var last := LastTime(from, times);
    var flown := SearchPhases(s, f0, from, times, h);
    SecondsMonotone(0, s.scanMs * NS_PER_MS);
    SecondsMonotone(0, gap);
    var (s1, f) := RunSearches(s, f0, times, h);
    if s1.reached {
      var at, prev := LastTime(from, flown), LastTime(from, flown[..|flown| - 1]);
      GapsWithinPrefix(from, flown, times, gap);
      ScanUnfinished(s, f0, from, times, h, flown);
      SecondsMonotone(last - from, (prev - from) + gap + s.scanMs * NS_PER_MS);
      SecondsAdd((prev - from) + gap, s.scanMs * NS_PER_MS);
      SecondsAdd(prev - from, gap);
    }
  }

  /** While the scan is unfinished, less than the scan time has passed since the arrival. */
  lemma ScanUnfinished(s: Search, f0: Flight, from: TimePoint, times: seq<TimePoint>, h: Hypot, flown: seq<TimePoint>)
    requires IsHypot(h) && s.lastUpdate == from && !s.reached && s.scanMs > 0
    requires Schedule(from, times) && SearchUnfinished(s, f0, times, h)
    requires RunSearches(s, f0, times, h).0.reached
    requires RunSearches(s, f0, times, h).0.scanStart == LastTime(from, flown)
    ensures LastTime(from, times) - LastTime(from, flown) < s.scanMs * NS_PER_MS
  {
    var front, now := times[..|times| - 1], times[|times| - 1];
    var early := SearchPhases(s, f0, from, front, h);
    var (s1, f1) := RunSearches(s, f0, front, h);
    MillisReached(now - s1.scanStart, s1.scanMs);
  }
}
