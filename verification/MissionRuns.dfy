/**
 Flights inside the Task Engine: a drone whose front task is a leg to a target, over every run in
 which no emergency begins, whatever commands, peer traffic and battery changes arrive.
 */
module MissionRuns {
  import opened SwarmTypes
  import opened Motion
  import opened Tasks
  import opened Engine
  import opened Missions
  import Decision
  import CommandDrain
  import QueueShape

  /** Mission t, numbered id, is in front. */
  ghost predicate OnMission(n: Node, id: nat, t: Task) {
    && CommandDrain.DroneAtRest(n) && IsMission(t)
    && n.queue != [] && n.queue[0].id == id && n.queue[0].task == t
  }

  ghost predicate InFront(n: Node, id: nat) {
    n.queue != [] && n.queue[0].id == id
  }

  /** A step runs the front mission once and does nothing else to the flight. */
  lemma MissionStep(n: Node, id: nat, t: Task, now: TimePoint, h: Hypot)
    requires OnMission(n, id, t) && NoRisingEdge(n)
    ensures var (t', f) := RunTask(t, now, n.flight, h);
            var m := Step(n, now, h);
            if IsFinished(t')
            then !InFront(m, id) && SamePlace(m.flight, f) && m.flight.z == f.z && (f.Still() ==> m.flight.Still())
            else OnMission(m, id, t') && m.flight == f
  {
    SettleUndisturbed(n, now);
    CommandDrain.ReadyKeepsFront(n, now);
    QueueShape.StepAtRest(n, now, h);
    RunFrontMission(Ready(n, now), id, t, now, h);
  }

  lemma RunFrontMission(r: Node, id: nat, t: Task, now: TimePoint, h: Hypot)
    requires OnMission(r, id, t)
    ensures var (t', f) := RunTask(t, now, r.flight, h);
            var m := RunFront(r, now, h);
            if IsFinished(t')
            then !InFront(m, id) && SamePlace(m.flight, f) && m.flight.z == f.z && (f.Still() ==> m.flight.Still())
            else m.queue != [] && m.queue[0].id == id && m.queue[0].task == t' && IsMission(t') && m.flight == f
  {
    var (t', f) := RunTask(t, now, r.flight, h);
    if IsFinished(t') {
      var exited := ExitFront(RecordOutcome(Advanced(r, t', f), t'));
      assert exited.queue != [] ==> exited.queue[0].id == id + 1;
      LeavesPosition(exited, now);
    }
  }

  /** The leg entered at `from` is in front, last run at `last`, the drone on its straight line. */
  ghost predicate FlyingLeg(n: Node, id: nat, l: Leg, f0: Flight, from: TimePoint, last: TimePoint, h: Hypot) {
    && OnMission(n, id, GoToTarget(l.(lastUpdate := last)))
    && EnRoute(h, f0, n.flight, l.x, l.y, from, last)
  }

  /** At rest within half a metre of the target. */
  ghost predicate AtTarget(n: Node, l: Leg, h: Hypot) {
    HorizontalDistance(h, n.flight.x, n.flight.y, l.x, l.y) <= ARRIVAL_TOLERANCE && n.flight.Still()
  }

  /** After at least one run, or if it did so from the start, the drone moves along its line at full speed. */
  ghost predicate Moving(n: Node, m: Node, x: real, y: real, ran: bool, h: Hypot) {
    ran || Heading(h, n.flight, n.flight, x, y, HORIZONTAL_SPEED) ==>
      Heading(h, n.flight, m.flight, x, y, HORIZONTAL_SPEED)
  }

  /** One step of the leg: it goes on along the line, or ends at the target, exactly when ArrivesAt says so. */
  lemma LegTick(n: Node, id: nat, l: Leg, f0: Flight, from: TimePoint, last: TimePoint, now: TimePoint, h: Hypot)
    requires IsHypot(h) && !l.finished && FlyingLeg(n, id, l, f0, from, last, h) && last <= now && NoRisingEdge(n)
    ensures var m, d := Step(n, now, h), HorizontalDistance(h, f0.x, f0.y, l.x, l.y);
            if ArrivesAt(d, from, last, now)
            then !InFront(m, id) && AtTarget(m, l, h) && m.flight.z == f0.z
            else && FlyingLeg(m, id, l, f0, from, now, h) && Metres(from, now) < d
                 && Heading(h, f0, m.flight, l.x, l.y, HORIZONTAL_SPEED)
  {
    MissionStep(n, id, GoToTarget(l.(lastUpdate := last)), now, h);
    LegStep(h, f0, n.flight, l.x, l.y, from, last, now);
    ArrivalIsClose(h, n.flight, l.x, l.y, HORIZONTAL_SPEED, ARRIVAL_TOLERANCE, ToSeconds(now - last));
  }

  lemma LegWaits(n: Node, id: nat, l: Leg, f0: Flight, from: TimePoint, last: TimePoint, a: Action, h: Hypot)
    requires FlyingLeg(n, id, l, f0, from, last, h) && DroneAction(a) && !a.Tick?
    ensures FlyingLeg(Act(n, a, h), id, l, f0, from, last, h)
  {
    QueueShape.ArrivalAtRest(n, a, h);
    QueueShape.ActAtRest(n, a, h);
  }

  /** What is not a tick moves nothing. */
  lemma ArrivalMovesNothing(m: Node, a: Action, h: Hypot)
    requires !a.Tick?
    ensures Act(m, a, h).flight == m.flight.(battery := Act(m, a, h).flight.battery)
  {
  }

  lemma MovingWaits(n: Node, m: Node, m': Node, x: real, y: real, ran: bool, h: Hypot)
    requires Moving(n, m, x, y, ran, h) && m'.flight == m.flight.(battery := m'.flight.battery)
    ensures Moving(n, m', x, y, ran, h)
  {
  }

  lemma TicksOfWait(front: seq<Action>, a: Action)
    requires !a.Tick?
    ensures TickTimes(front + [a]) == TickTimes(front)
    ensures forall from :: LastTick(from, front + [a]) == LastTick(from, front)
  {
    assert (front + [a])[..|front|] == front;
  }

  /** In state m the leg that was in front in n is still in flight, with less than the whole way behind it. */
  ghost predicate InFlight(n: Node, m: Node, id: nat, l: Leg, from: TimePoint, last: TimePoint, ran: bool, h: Hypot) {
    && FlyingLeg(m, id, l, n.flight, from, last, h)
    && Moving(n, m, l.x, l.y, ran, h)
    && (last == from || Metres(from, last) < HorizontalDistance(h, n.flight.x, n.flight.y, l.x, l.y))
  }

  ghost predicate StillFlying(n: Node, id: nat, l: Leg, from: TimePoint, actions: seq<Action>, h: Hypot) {
    InFlight(n, Execute(n, actions, h), id, l, from, LastTick(from, actions), TickTimes(actions) != [], h)
  }

  /** Action k ended the leg: a tick, the first at which the way is covered or the rest within tolerance. */
  ghost predicate EndsAt(n: Node, id: nat, l: Leg, from: TimePoint, actions: seq<Action>, k: nat, h: Hypot) {
    && k < |actions| && actions[k].Tick?
    && StillFlying(n, id, l, from, actions[..k], h)
    && ArrivesAt(HorizontalDistance(h, n.flight.x, n.flight.y, l.x, l.y), from, LastTick(from, actions[..k]),
                 actions[k].now)
    && Ended(Execute(n, actions[..k + 1], h), id, l, h)
  }

  ghost predicate Ended(m: Node, id: nat, l: Leg, h: Hypot) {
    !InFront(m, id) && AtTarget(m, l, h)
  }

  lemma LegTicksOn(n: Node, id: nat, l: Leg, from: TimePoint, front: seq<Action>, now: TimePoint, h: Hypot)
    requires IsHypot(h) && !l.finished && StillFlying(n, id, l, from, front, h)
    requires LastTick(from, front) <= now && NoRisingEdge(Execute(n, front, h))
    ensures if ArrivesAt(HorizontalDistance(h, n.flight.x, n.flight.y, l.x, l.y), from, LastTick(from, front), now)
            then EndsAt(n, id, l, from, front + [Tick(now)], |front|, h)
            else StillFlying(n, id, l, from, front + [Tick(now)], h)
  {
    var all := front + [Tick(now)];
    assert all[..|front|] == front && all[..|front| + 1] == all;
    LegTick(Execute(n, front, h), id, l, n.flight, from, LastTick(from, front), now, h);
    ExecuteSnoc(n, front, Tick(now), h);
  }

  lemma LegWaitsOn(n: Node, id: nat, l: Leg, from: TimePoint, front: seq<Action>, a: Action, h: Hypot)
    requires StillFlying(n, id, l, from, front, h) && DroneAction(a) && !a.Tick?
    ensures StillFlying(n, id, l, from, front + [a], h)
  {
    var m := Execute(n, front, h);
    TicksOfWait(front, a);
    LegWaits(m, id, l, n.flight, from, LastTick(from, front), a, h);
    ArrivalMovesNothing(m, a, h);
    MovingWaits(n, m, Act(m, a, h), l.x, l.y, TickTimes(front) != [], h);
    ExecuteSnoc(n, front, a, h);
  }

  lemma EndsEarlier(n: Node, id: nat, l: Leg, from: TimePoint, front: seq<Action>, a: Action, k: nat, h: Hypot)
    requires EndsAt(n, id, l, from, front, k, h)
    ensures EndsAt(n, id, l, from, front + [a], k, h)
  {
    assert (front + [a])[..k] == front[..k] && (front + [a])[..k + 1] == front[..k + 1];
  }

  /**
   A leg in any undisturbed run: it is still in front, the drone exactly 5 m/s times the time since
   on_enter along its straight line, or one tick ended it with the drone within half a metre of the
   target, and that tick is the first at which the way is covered or the rest within tolerance.
   */
  lemma {:induction false} LegInEveryRun(n: Node, id: nat, l: Leg, from: TimePoint, actions: seq<Action>, h: Hypot)
      returns (ended: Option<nat>)
    requires IsHypot(h) && !l.finished && l.lastUpdate == from && OnMission(n, id, GoToTarget(l))
    requires Decision.Undisturbed(n, actions, h) && Timely(from, actions)
    ensures ended.None? ==> StillFlying(n, id, l, from, actions, h)
    ensures ended.Some? ==> EndsAt(n, id, l, from, actions, ended.value, h)
    decreases |actions|
  {
    if actions == [] {
      ended := None;
    } else {
      var front, a := actions[..|actions| - 1], actions[|actions| - 1];
      assert actions == front + [a];
      ended := LegInEveryRun(n, id, l, from, front, h);
      if ended.Some? {
        EndsEarlier(n, id, l, from, front, a, ended.value, h);
      } else if a.Tick? {
        LegTicksOn(n, id, l, from, front, a.now, h);
        if ArrivesAt(HorizontalDistance(h, n.flight.x, n.flight.y, l.x, l.y), from, LastTick(from, front), a.now) {
          ended := Some(|front|);
        }
      } else {
        LegWaitsOn(n, id, l, from, front, a, h);
      }
    }
  }

  /**
   A leg ends in time: in any undisturbed run whose clock has ticked past the flight time, some tick
   ended it at the target; and with no gap above `gap`, that tick came within the flight time plus one gap.
   */
  lemma LegEndsInTime(n: Node, id: nat, l: Leg, from: TimePoint, actions: seq<Action>, gap: int, h: Hypot)
      returns (k: nat)
    requires IsHypot(h) && !l.finished && l.lastUpdate == from && OnMission(n, id, GoToTarget(l))
    requires Decision.Undisturbed(n, actions, h) && Timely(from, actions)
    requires gap >= 0 && forall k | 0 <= k < |actions| && actions[k].Tick? ::
               actions[k].now - LastTick(from, actions[..k]) <= gap
    requires from < LastTick(from, actions)
    requires ToSeconds(LastTick(from, actions) - from)
               >= HorizontalDistance(h, n.flight.x, n.flight.y, l.x, l.y) / HORIZONTAL_SPEED
    ensures EndsAt(n, id, l, from, actions, k, h)
    ensures ToSeconds(actions[k].now - from)
              <= HorizontalDistance(h, n.flight.x, n.flight.y, l.x, l.y) / HORIZONTAL_SPEED + ToSeconds(gap)
  {
    var d := HorizontalDistance(h, n.flight.x, n.flight.y, l.x, l.y);
    var ended := LegInEveryRun(n, id, l, from, actions, h);
    FlightTime(d, from, LastTick(from, actions));
    k := ended.value;
    var last := LastTick(from, actions[..k]);
    FlightTime(d, from, last);
    SecondsMonotone(actions[k].now - from, (last - from) + gap);
    SecondsAdd(last - from, gap);
  }

  lemma FlightTime(d: real, from: TimePoint, to: TimePoint)
    requires d >= 0.0
    ensures Metres(from, to) < d <==> ToSeconds(to - from) < d / HORIZONTAL_SPEED
  {
  }

  // ---------------------------------------------------------------------
  //  A scout mission
  // ---------------------------------------------------------------------

  ghost predicate Approaching(n: Node, id: nat, s: Search, f0: Flight, from: TimePoint, last: TimePoint, h: Hypot) {
    && OnMission(n, id, ScoutSearch(s.(lastUpdate := last)))
    && EnRoute(h, f0, n.flight, s.x, s.y, from, last)
    && (last == from || Metres(from, last) < HorizontalDistance(h, f0.x, f0.y, s.x, s.y))
  }

  /** The centre was reached at `at`; the drone rests there and the scan is not over. */
  ghost predicate Scanning(n: Node, id: nat, s: Search, at: TimePoint, last: TimePoint, h: Hypot) {
    && OnMission(n, id, ScoutSearch(s.(lastUpdate := last, scanStart := at, reached := true)))
    && AtCentre(n, s, h) && at <= last < at + s.scanMs * NS_PER_MS
  }

  /** At rest within half a metre of the centre. */
  ghost predicate AtCentre(n: Node, s: Search, h: Hypot) {
    HorizontalDistance(h, n.flight.x, n.flight.y, s.x, s.y) <= ARRIVAL_TOLERANCE && n.flight.Still()
  }

  lemma ApproachTick(n: Node, id: nat, s: Search, f0: Flight, from: TimePoint, last: TimePoint, now: TimePoint,
                     h: Hypot)
    requires IsHypot(h) && !s.finished && !s.reached && s.scanMs > 0 && last <= now && NoRisingEdge(n)
    requires Approaching(n, id, s, f0, from, last, h)
    ensures var m := Step(n, now, h);
            if ArrivesAt(HorizontalDistance(h, f0.x, f0.y, s.x, s.y), from, last, now)
            then Scanning(m, id, s, now, now, h)
            else Approaching(m, id, s, f0, from, now, h) && Heading(h, f0, m.flight, s.x, s.y, HORIZONTAL_SPEED)
  {
    MissionStep(n, id, ScoutSearch(s.(lastUpdate := last)), now, h);
    ApproachRun(h, s, f0, n.flight, from, last, now);
  }

  /** One run of a search on its way. */
  lemma ApproachRun(h: Hypot, s: Search, f0: Flight, f: Flight, from: TimePoint, last: TimePoint, now: TimePoint)
    requires IsHypot(h) && !s.reached && EnRoute(h, f0, f, s.x, s.y, from, last) && last <= now
    ensures var (s1, g) := RunSearch(s.(lastUpdate := last), now, f, h);
            if ArrivesAt(HorizontalDistance(h, f0.x, f0.y, s.x, s.y), from, last, now)
            then && s1 == s.(lastUpdate := now, scanStart := now, reached := true)
                 && HorizontalDistance(h, g.x, g.y, s.x, s.y) <= ARRIVAL_TOLERANCE && g.Still()
            else && s1 == s.(lastUpdate := now) && EnRoute(h, f0, g, s.x, s.y, from, now)
                 && Metres(from, now) < HorizontalDistance(h, f0.x, f0.y, s.x, s.y)
                 && Heading(h, f0, g, s.x, s.y, HORIZONTAL_SPEED)
  {
    LegStep(h, f0, f, s.x, s.y, from, last, now);
    ArrivalIsClose(h, f, s.x, s.y, HORIZONTAL_SPEED, ARRIVAL_TOLERANCE, ToSeconds(now - last));
  }

  lemma ScanTick(n: Node, id: nat, s: Search, at: TimePoint, last: TimePoint, now: TimePoint, h: Hypot)
    requires !s.finished && s.scanMs > 0 && last <= now && NoRisingEdge(n) && Scanning(n, id, s, at, last, h)
    ensures var m := Step(n, now, h);
            if now - at >= s.scanMs * NS_PER_MS then !InFront(m, id) && AtCentre(m, s, h)
            else Scanning(m, id, s, at, now, h)
  {
    var t := ScoutSearch(s.(lastUpdate := last, scanStart := at, reached := true));
    MissionStep(n, id, t, now, h);
    MillisReached(now - at, s.scanMs);
    assert n.flight.ResetVelocity() == n.flight;
  }

  /** The scan began within the flight time and one gap. */
  ghost predicate BegunInTime(d: real, from: TimePoint, at: TimePoint, gap: int) {
    ToSeconds(at - from) <= d / HORIZONTAL_SPEED + ToSeconds(gap)
  }

  /** In front: on its way, or scanning since some tick. */
  ghost predicate Searching(m: Node, id: nat, s: Search, f0: Flight, from: TimePoint, last: TimePoint, gap: int,
                            h: Hypot) {
    || Approaching(m, id, s, f0, from, last, h)
    || (exists at :: Scanning(m, id, s, at, last, h)
                     && BegunInTime(HorizontalDistance(h, f0.x, f0.y, s.x, s.y), from, at, gap))
  }

  ghost predicate StillSearching(n: Node, id: nat, s: Search, from: TimePoint, actions: seq<Action>, gap: int,
                                 h: Hypot) {
    var m, last := Execute(n, actions, h), LastTick(from, actions);
    && InSearch(n, m, id, s, from, last, TickTimes(actions) != [], gap, h)
    && (forall at | Scanning(m, id, s, at, last, h) :: ArrivedAt(n, id, s, from, actions, at, h))
  }

  /** The centre was reached at `at`: already at the start, or by the tick at `at`, on the way until then. */
  ghost predicate ArrivedAt(n: Node, id: nat, s: Search, from: TimePoint, actions: seq<Action>, at: TimePoint,
                            h: Hypot) {
    || (at == from && Scanning(n, id, s, from, from, h))
    || (exists j :: ArrivedBy(n, id, s, from, actions, at, j, h))
  }

  /** Tick j, at `at`, ended the approach. */
  ghost predicate ArrivedBy(n: Node, id: nat, s: Search, from: TimePoint, actions: seq<Action>, at: TimePoint, j: int,
                            h: Hypot) {
    0 <= j < |actions| && actions[j] == Tick(at) && ApproachingUntil(n, id, s, from, actions[..j], h)
  }

  ghost predicate ApproachingUntil(n: Node, id: nat, s: Search, from: TimePoint, actions: seq<Action>, h: Hypot) {
    && Approaching(Execute(n, actions, h), id, s, n.flight, from, LastTick(from, actions), h)
    && Moving(n, Execute(n, actions, h), s.x, s.y, TickTimes(actions) != [], h)
    && Approaching(n, id, s, n.flight, from, from, h)
  }

  lemma ArrivedStays(n: Node, id: nat, s: Search, from: TimePoint, front: seq<Action>, a: Action, at: TimePoint,
                     h: Hypot)
    requires ArrivedAt(n, id, s, from, front, at, h)
    ensures ArrivedAt(n, id, s, from, front + [a], at, h)
  {
    if !(at == from && Scanning(n, id, s, from, from, h)) {
      var j :| ArrivedBy(n, id, s, from, front, at, j, h);
      assert (front + [a])[j] == front[j] && (front + [a])[..j] == front[..j];
      assert ArrivedBy(n, id, s, from, front + [a], at, j, h);
    }
  }

  ghost predicate InSearch(n: Node, m: Node, id: nat, s: Search, from: TimePoint, last: TimePoint, ran: bool, gap: int,
                           h: Hypot) {
    && Searching(m, id, s, n.flight, from, last, gap, h)
    && (Approaching(m, id, s, n.flight, from, last, h) ==>
          Moving(n, m, s.x, s.y, ran, h) && Approaching(n, id, s, n.flight, from, from, h))
  }

  /** Action k ended the mission: a tick, the scan time or more after the arrival, the drone still at the centre. */
  ghost predicate SearchEndsAt(n: Node, id: nat, s: Search, from: TimePoint, actions: seq<Action>, k: nat, h: Hypot) {
    && k < |actions| && actions[k].Tick?
    && (exists at :: Scanning(Execute(n, actions[..k], h), id, s, at, LastTick(from, actions[..k]), h)
                     && actions[k].now - at >= s.scanMs * NS_PER_MS
                     && ArrivedAt(n, id, s, from, actions[..k], at, h))
    && !InFront(Execute(n, actions[..k + 1], h), id) && AtCentre(Execute(n, actions[..k + 1], h), s, h)
  }

  /** One step of a mission in front: it stays there, scanning since this step or as before, or a full scan is over. */
  lemma SearchTick(n: Node, m: Node, id: nat, s: Search, from: TimePoint, last: TimePoint, now: TimePoint, ran: bool,
                   gap: int, h: Hypot)
    requires IsHypot(h) && !s.finished && !s.reached && s.scanMs > 0 && gap >= 0
    requires InSearch(n, m, id, s, from, last, ran, gap, h) && NoRisingEdge(m) && last <= now <= last + gap
    ensures var m' := Step(m, now, h);
            || (&& InSearch(n, m', id, s, from, now, true, gap, h)
                && forall at | Scanning(m', id, s, at, now, h) ::
                     Scanning(m, id, s, at, last, h) || (at == now && Approaching(m, id, s, n.flight, from, last, h)))
            || (&& !InFront(m', id) && AtCentre(m', s, h)
                && exists at :: Scanning(m, id, s, at, last, h) && now - at >= s.scanMs * NS_PER_MS)
  {
    var d := HorizontalDistance(h, n.flight.x, n.flight.y, s.x, s.y);
    if Approaching(m, id, s, n.flight, from, last, h) {
      ApproachTick(m, id, s, n.flight, from, last, now, h);
      ArrivalInTime(d, from, last, now, gap);
    } else {
      var at :| Scanning(m, id, s, at, last, h) && BegunInTime(d, from, at, gap);
      ScanTick(m, id, s, at, last, now, h);
    }
  }

  lemma SearchTicksOn(n: Node, id: nat, s: Search, from: TimePoint, front: seq<Action>, now: TimePoint, gap: int,
                      h: Hypot)
    requires IsHypot(h) && !s.finished && !s.reached && s.scanMs > 0 && gap >= 0
    requires StillSearching(n, id, s, from, front, gap, h) && NoRisingEdge(Execute(n, front, h))
    requires LastTick(from, front) <= now <= LastTick(from, front) + gap
    ensures || StillSearching(n, id, s, from, front + [Tick(now)], gap, h)
            || SearchEndsAt(n, id, s, from, front + [Tick(now)], |front|, h)
  {
    var all, m, last := front + [Tick(now)], Execute(n, front, h), LastTick(from, front);
    assert all[..|front|] == front && all[..|front| + 1] == all;
    ExecuteSnoc(n, front, Tick(now), h);
    SearchTick(n, m, id, s, from, last, now, TickTimes(front) != [], gap, h);
    forall at | Scanning(m, id, s, at, last, h) ensures ArrivedAt(n, id, s, from, all, at, h) {
      ArrivedStays(n, id, s, from, front, Tick(now), at, h);
    }
    if Approaching(m, id, s, n.flight, from, last, h) {
      assert ApproachingUntil(n, id, s, from, all[..|front|], h);
      assert ArrivedBy(n, id, s, from, all, now, |front|, h);
    }
  }

  lemma ArrivalInTime(d: real, from: TimePoint, last: TimePoint, now: TimePoint, gap: int)
    requires d >= 0.0 && (last == from || Metres(from, last) < d) && now <= last + gap
    ensures BegunInTime(d, from, now, gap)
  {
    SecondsMonotone(now - from, (last - from) + gap);
    SecondsAdd(last - from, gap);
  }

  lemma SearchingWaits(m: Node, id: nat, s: Search, f0: Flight, from: TimePoint, last: TimePoint, a: Action, gap: int,
                       h: Hypot)
    requires Searching(m, id, s, f0, from, last, gap, h) && DroneAction(a) && !a.Tick?
    ensures Searching(Act(m, a, h), id, s, f0, from, last, gap, h)
  {
    if !Approaching(m, id, s, f0, from, last, h) {
      var d := HorizontalDistance(h, f0.x, f0.y, s.x, s.y);
      var at :| Scanning(m, id, s, at, last, h) && BegunInTime(d, from, at, gap);
      assert Scanning(Act(m, a, h), id, s, at, last, h);
    }
  }

  lemma ScanWaits(m: Node, id: nat, s: Search, last: TimePoint, a: Action, h: Hypot)
    requires DroneAction(a) && !a.Tick? && CommandDrain.DroneAtRest(m)
    ensures forall at | Scanning(Act(m, a, h), id, s, at, last, h) :: Scanning(m, id, s, at, last, h)
    ensures Act(m, a, h).queue == m.queue && Act(m, a, h).flight == m.flight.(battery := Act(m, a, h).flight.battery)
  {
    QueueShape.ArrivalAtRest(m, a, h);
  }

  lemma InSearchWaits(n: Node, m: Node, id: nat, s: Search, from: TimePoint, last: TimePoint, ran: bool, a: Action,
                      gap: int, h: Hypot)
    requires InSearch(n, m, id, s, from, last, ran, gap, h) && DroneAction(a) && !a.Tick?
    ensures InSearch(n, Act(m, a, h), id, s, from, last, ran, gap, h)
    ensures forall at | Scanning(Act(m, a, h), id, s, at, last, h) :: Scanning(m, id, s, at, last, h)
  {
    SearchingWaits(m, id, s, n.flight, from, last, a, gap, h);
    ScanWaits(m, id, s, last, a, h);
    if Moving(n, m, s.x, s.y, ran, h) {
      MovingWaits(n, m, Act(m, a, h), s.x, s.y, ran, h);
    }
  }

  lemma SearchWaitsOn(n: Node, id: nat, s: Search, from: TimePoint, front: seq<Action>, a: Action, gap: int, h: Hypot)
    requires StillSearching(n, id, s, from, front, gap, h) && DroneAction(a) && !a.Tick?
    ensures StillSearching(n, id, s, from, front + [a], gap, h)
  {
    var m, last := Execute(n, front, h), LastTick(from, front);
    TicksOfWait(front, a);
    ExecuteSnoc(n, front, a, h);
    InSearchWaits(n, m, id, s, from, last, TickTimes(front) != [], a, gap, h);
    forall at | Scanning(m, id, s, at, last, h) ensures ArrivedAt(n, id, s, from, front + [a], at, h) {
      ArrivedStays(n, id, s, from, front, a, at, h);
    }
  }

  lemma SearchEndsEarlier(n: Node, id: nat, s: Search, from: TimePoint, front: seq<Action>, a: Action, k: nat, h: Hypot)
    requires SearchEndsAt(n, id, s, from, front, k, h)
    ensures SearchEndsAt(n, id, s, from, front + [a], k, h)
  {
    assert (front + [a])[..k] == front[..k] && (front + [a])[..k + 1] == front[..k + 1];
  }

  /** One more action of a search in front: it stays there, or this tick ended it. */
  lemma SearchGoesOn(n: Node, id: nat, s: Search, from: TimePoint, front: seq<Action>, a: Action, gap: int, h: Hypot)
      returns (ended: Option<nat>)
    requires IsHypot(h) && !s.finished && !s.reached && s.scanMs > 0 && gap >= 0
    requires StillSearching(n, id, s, from, front, gap, h) && DroneAction(a)
    requires a.Tick? ==> && NoRisingEdge(Execute(n, front, h))
                         && LastTick(from, front) <= a.now <= LastTick(from, front) + gap
    ensures ended.None? ==> StillSearching(n, id, s, from, front + [a], gap, h)
    ensures ended.Some? ==> SearchEndsAt(n, id, s, from, front + [a], ended.value, h)
  {
    if a.Tick? {
      SearchTicksOn(n, id, s, from, front, a.now, gap, h);
      ended := if StillSearching(n, id, s, from, front + [a], gap, h) then None else Some(|front|);
    } else {
      SearchWaitsOn(n, id, s, from, front, a, gap, h);
      ended := None;
    }
  }

  ghost predicate TickGaps(from: TimePoint, actions: seq<Action>, gap: int)
    decreases |actions|
  {
    actions != [] ==>
      var front, a := actions[..|actions| - 1], actions[|actions| - 1];
      TickGaps(from, front, gap) && (a.Tick? ==> a.now <= LastTick(from, front) + gap)
  }

  /** In front and on its way since `from`, or already at the centre at `from`. */
  ghost predicate Starting(n: Node, id: nat, s: Search, from: TimePoint, h: Hypot) {
    Approaching(n, id, s, n.flight, from, from, h) || Scanning(n, id, s, from, from, h)
  }

  lemma SearchStarts(n: Node, id: nat, s: Search, from: TimePoint, gap: int, h: Hypot)
    requires IsHypot(h) && gap >= 0 && !s.reached && Starting(n, id, s, from, h)
    ensures StillSearching(n, id, s, from, [], gap, h)
  {
    var d := HorizontalDistance(h, n.flight.x, n.flight.y, s.x, s.y);
    BegunAtOnce(d, from, gap);
    assert Execute(n, [], h) == n;
  }

  lemma BegunAtOnce(d: real, now: TimePoint, gap: int)
    requires d >= 0.0 && gap >= 0
    ensures BegunInTime(d, now, now, gap)
  {
    SecondsMonotone(0, gap);
  }

  /** A scout mission in any undisturbed run: in front on its way, in front and scanning, or ended at the centre. */
  lemma {:induction false} SearchInEveryRun(n: Node, id: nat, s: Search, from: TimePoint, actions: seq<Action>,
                                            gap: int, h: Hypot)
      returns (ended: Option<nat>)
    requires IsHypot(h) && !s.finished && !s.reached && s.scanMs > 0 && gap >= 0
    requires Starting(n, id, s, from, h)
    requires Decision.Undisturbed(n, actions, h) && Timely(from, actions) && TickGaps(from, actions, gap)
    ensures ended.None? ==> StillSearching(n, id, s, from, actions, gap, h)
    ensures ended.Some? ==> SearchEndsAt(n, id, s, from, actions, ended.value, h)
    decreases |actions|
  {
    if actions == [] {
      SearchStarts(n, id, s, from, gap, h);
      ended := None;
    } else {
      var front, a := actions[..|actions| - 1], actions[|actions| - 1];
      assert actions == front + [a];
      ended := SearchInEveryRun(n, id, s, from, front, gap, h);
      if ended.Some? {
        SearchEndsEarlier(n, id, s, from, front, a, ended.value, h);
      } else {
        ended := SearchGoesOn(n, id, s, from, front, a, gap, h);
      }
    }
  }

  /** The flight time, one gap and the scan time have passed. */
  ghost predicate Overdue(d: real, from: TimePoint, last: TimePoint, gap: int, scanMs: int) {
    ToSeconds(last - from) >= d / HORIZONTAL_SPEED + ToSeconds(gap) + ToSeconds(scanMs * NS_PER_MS)
  }

  /**
   A scout mission ends in time: in any undisturbed run that has ticked past the flight time, one
   gap and the scan time, some tick ended it at the centre after a full scan.
   */
  lemma SearchEndsInTime(n: Node, id: nat, s: Search, from: TimePoint, actions: seq<Action>, gap: int, h: Hypot)
      returns (k: nat)
    requires IsHypot(h) && !s.finished && !s.reached && s.scanMs > 0 && gap >= 0
    requires Starting(n, id, s, from, h)
    requires Decision.Undisturbed(n, actions, h) && Timely(from, actions) && TickGaps(from, actions, gap)
    requires var d := HorizontalDistance(h, n.flight.x, n.flight.y, s.x, s.y);
             Overdue(d, from, LastTick(from, actions), gap, s.scanMs)
    ensures SearchEndsAt(n, id, s, from, actions, k, h)
  {
    var last := LastTick(from, actions);
    var ended := SearchInEveryRun(n, id, s, from, actions, gap, h);
    if ended.None? {
      SearchTooLate(Execute(n, actions, h), id, s, n.flight, from, last, gap, h);
    }
    k := ended.value;
  }

  lemma SearchTooLate(m: Node, id: nat, s: Search, f0: Flight, from: TimePoint, last: TimePoint, gap: int, h: Hypot)
    requires IsHypot(h) && s.scanMs > 0 && gap >= 0 && Searching(m, id, s, f0, from, last, gap, h)
    ensures !Overdue(HorizontalDistance(h, f0.x, f0.y, s.x, s.y), from, last, gap, s.scanMs)
  {
    var d := HorizontalDistance(h, f0.x, f0.y, s.x, s.y);
    SecondsMonotone(0, s.scanMs * NS_PER_MS);
    SecondsMonotone(0, gap);
    if !Approaching(m, id, s, f0, from, last, h) {
      var at :| Scanning(m, id, s, at, last, h) && BegunInTime(d, from, at, gap);
      SecondsMonotone(last - at, s.scanMs * NS_PER_MS);
      SecondsAdd(at - from, last - at);
    }
  }
}
