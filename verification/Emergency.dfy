/**
 The emergency descent of a drone over whole runs: from the step at which an emergency is noticed
 until a Landing finishes, whatever is ordered in the meantime and however often the emergency
 clears and fires again.
 */
module Emergency {
  import opened SwarmTypes
  import opened Motion
  import opened Tasks
  import opened Engine
  import opened CommandDrain
  import QueueShape

  /** The emergency sequence is in front, last touched no later than `last`. */
  ghost predicate Falling(n: Node, last: TimePoint) {
    && n.queue != [] && n.flight.z >= 0.0
    && (n.queue[0].task.FailSafe? || (n.queue[0].task.Landing? && n.queue[0].task.descent.lastUpdate <= last))
  }

  /** This step finishes a Landing. */
  ghost predicate Lands(n: Node, now: TimePoint, h: Hypot) {
    var r := Ready(n, now);
    r.queue[0].task.Landing? && IsFinished(RunTask(r.queue[0].task, now, r.flight, h).0)
  }

  // ---------------------------------------------------------------------
  //  One step
  // ---------------------------------------------------------------------

  /** The sequence a new emergency installs, already entered. */
  ghost predicate Alarmed(n: Node, settled: Node, now: TimePoint) {
    && settled.queue == [Slot(n.nextId, FailSafe(Assessment(ASSESSMENT_MS, now, false)), [Entered]),
                         Slot(n.nextId + 1, NewLanding(), [])]
    && settled.flight == n.flight.ResetVelocity()
    && |settled.gone| == |n.gone| + |n.queue|
  }

  lemma SettleOnAlarm(n: Node, now: TimePoint)
    requires n.request == None && CheckEmergency(n) && !n.inEmergency
    ensures Alarmed(n, Settle(n, now), now) && Settle(n, now).inEmergency
  {
    var placed := HandleEmergency(n);
    assert placed.queue == [Slot(n.nextId, NewFailSafe(), []), Slot(n.nextId + 1, NewLanding(), [])];
    assert [] + [Entered] == [Entered];
  }

  lemma RunFailSafe(n: Node, now: TimePoint, h: Hypot)
    requires DroneAtRest(n) && n.queue != [] && n.queue[0].task.FailSafe?
    ensures var m, a := RunFront(n, now, h), n.queue[0].task.assessment;
            && m.flight == n.flight.ResetVelocity()
            && m.queue != []
            && |m.gone| >= |n.gone|
            && (if ToMillis(now - a.start) < a.durationMs && !a.finished
                then m.queue[0].task == n.queue[0].task
                else m.queue[0].task == Landing(Descent(now, false)))
  {
  }

  /** Straight down at 1 m/s. */
  ghost predicate Sinking(f: Flight) {
    f.vx == 0.0 && f.vy == 0.0 && f.vz == -1.0
  }

  lemma RunLanding(n: Node, now: TimePoint, h: Hypot)
    requires DroneAtRest(n) && n.queue != [] && n.queue[0].task.Landing?
    requires n.queue[0].task.descent.lastUpdate <= now && !n.queue[0].task.descent.finished
    ensures var m, d := RunFront(n, now, h), n.queue[0].task.descent;
            var below := n.flight.z - ToSeconds(now - d.lastUpdate);
            && SamePlace(m.flight, n.flight)
            && |m.gone| >= |n.gone|
            && (if n.flight.z <= 0.0 || below <= 0.0
                then IsFinished(RunTask(n.queue[0].task, now, n.flight, h).0) && m.flight.z == 0.0 && m.flight.Still()
                else && !IsFinished(RunTask(n.queue[0].task, now, n.flight, h).0)
                     && m.queue != [] && m.queue[0].task == Landing(Descent(now, false))
                     && 0.0 < m.flight.z == below <= n.flight.z && Sinking(m.flight))
  {
    var (t, f) := RunTask(n.queue[0].task, now, n.flight, h);
    SecondsMonotone(0, now - n.queue[0].task.descent.lastUpdate);
    if IsFinished(t) {
      LeavesPosition(ExitFront(Advanced(n, t, f)), now);
    }
  }

  /** Unfinished Landings: nothing marks a queued Landing finished but its own last run. */
  ghost predicate LandingOpen(n: Node) {
    n.queue != [] && n.queue[0].task.Landing? ==> !n.queue[0].task.descent.finished
  }

  /**
   One step during the descent: the drone keeps its place and does not rise; either the descent
   goes on or a Landing finishes at ground level; and nothing that had left the queue comes back.
   */
  lemma DescentStep(n: Node, last: TimePoint, now: TimePoint, h: Hypot)
    requires DroneAtRest(n) && Falling(n, last) && LandingOpen(n) && last <= now
    ensures var m := Step(n, now, h);
            && DroneAtRest(m)
            && SamePlace(m.flight, n.flight) && 0.0 <= m.flight.z <= n.flight.z
            && |m.gone| >= |n.gone|
            && (if Lands(n, now, h) then m.flight.z == 0.0 else Falling(m, now) && LandingOpen(m))
  {
    QueueShape.StepAtRest(n, now, h);
    var r := Ready(n, now);
    if CheckEmergency(n) && !n.inEmergency {
      SettleOnAlarm(n, now);
    } else {
      SettleUndisturbed(n, now);
    }
    StepFrame(n, now, h);
    ReadyKeepsFront(n, now);
    ReadyGone(n, now);
    if r.queue[0].task.FailSafe? {
      RunFailSafe(r, now, h);
    } else {
      RunLanding(r, now, h);
    }
  }

  lemma ReadyGone(n: Node, now: TimePoint)
    requires DroneAtRest(n)
    requires Settle(n, now).queue != [] && !Settle(n, now).queue[0].task.Idle? && Settle(n, now).started
    ensures Ready(n, now).gone == Settle(n, now).gone
  {
    DrainKeepsFront(Settle(n, now));
  }

  // ---------------------------------------------------------------------
  //  The whole descent
  // ---------------------------------------------------------------------

  /** What a drone meets in operation, with a clock that does not go backwards. */
  ghost predicate TimelyDroneRun(from: TimePoint, actions: seq<Action>) {
    Timely(from, actions) && forall i | 0 <= i < |actions| :: DroneAction(actions[i])
  }

  /** No step of the run finishes a Landing. */
  ghost predicate Airborne(n: Node, actions: seq<Action>, h: Hypot)
    decreases |actions|
  {
    actions != [] ==>
      var front, a := actions[..|actions| - 1], actions[|actions| - 1];
      Airborne(n, front, h) && (a.Tick? ==> !Lands(Execute(n, front, h), a.now, h))
  }

  /** Throughout the run: the same place, never higher, and only instances created from `first` on are queued. */
  ghost predicate ControlledDescent(n: Node, actions: seq<Action>, h: Hypot, origin: Flight, first: nat)
    decreases |actions|
  {
    var m := Execute(n, actions, h);
    && SamePlace(m.flight, origin)
    && 0.0 <= m.flight.z <= origin.z
    && (forall i | 0 <= i < |m.queue| :: m.queue[i].id >= first)
    && (actions != [] ==>
          && ControlledDescent(n, actions[..|actions| - 1], h, origin, first)
          && m.flight.z <= Execute(n, actions[..|actions| - 1], h).flight.z)
  }

  lemma ArrivalsKeepDescent(n: Node, last: TimePoint, a: Action, h: Hypot)
    requires DroneAtRest(n) && Falling(n, last) && LandingOpen(n) && DroneAction(a) && !a.Tick?
    ensures var m := Act(n, a, h);
            && DroneAtRest(m) && Falling(m, last) && LandingOpen(m)
            && SamePlace(m.flight, n.flight) && m.flight.z == n.flight.z
            && m.gone == n.gone && m.queue == n.queue
  {
    QueueShape.ActAtRest(n, a, h);
  }

  lemma {:induction false} DescentRun(n: Node, from: TimePoint, actions: seq<Action>, h: Hypot, origin: Flight,
                                      first: nat)
    requires DroneAtRest(n) && Falling(n, from) && LandingOpen(n)
    requires SamePlace(n.flight, origin) && n.flight.z <= origin.z && |n.gone| >= first
    requires TimelyDroneRun(from, actions) && Airborne(n, actions, h)
    ensures var m := Execute(n, actions, h);
            DroneAtRest(m) && Falling(m, LastTick(from, actions)) && LandingOpen(m) && |m.gone| >= first
    ensures ControlledDescent(n, actions, h, origin, first)
    decreases |actions|
  {
    if actions != [] {
      var front, a := actions[..|actions| - 1], actions[|actions| - 1];
      DescentRun(n, from, front, h, origin, first);
      var before := Execute(n, front, h);
      if a.Tick? {
        DescentStep(before, LastTick(from, front), a.now, h);
      } else {
        ArrivalsKeepDescent(before, LastTick(from, front), a, h);
      }
    }
  }

  lemma StillFalling(n: Node, from: TimePoint, actions: seq<Action>, h: Hypot)
    requires DroneAtRest(n) && Falling(n, from) && LandingOpen(n)
    requires TimelyDroneRun(from, actions) && Airborne(n, actions, h)
    ensures var m := Execute(n, actions, h);
            DroneAtRest(m) && Falling(m, LastTick(from, actions)) && LandingOpen(m)
  {
    DescentRun(n, from, actions, h, n.flight, 0);
  }

  /** The alarm step itself: the queue is replaced, the drone stops where it is. */
  lemma AlarmStep(n: Node, now: TimePoint, h: Hypot)
    requires DroneAtRest(n) && CheckEmergency(n) && !n.inEmergency && n.flight.z >= 0.0
    ensures var m := Step(n, now, h);
            && DroneAtRest(m) && Falling(m, now) && LandingOpen(m) && !Lands(n, now, h)
            && SamePlace(m.flight, n.flight) && m.flight.z == n.flight.z && m.flight.Still()
            && |m.gone| >= n.nextId
            && m.queue[0].task == FailSafe(Assessment(ASSESSMENT_MS, now, false))
            && m.inEmergency
  {
    QueueShape.StepAtRest(n, now, h);
    StepFrame(n, now, h);
    SettleOnAlarm(n, now);
    ReadyKeepsFront(n, now);
    ReadyGone(n, now);
    AlarmFlag(n, now, h);
    RunFailSafe(Ready(n, now), now, h);
  }

  lemma AlarmFlag(n: Node, now: TimePoint, h: Hypot)
    ensures Step(n, now, h).inEmergency == Settle(n, now).inEmergency
  {
    DrainFlag(Settle(n, now));
    RunFrontFlag(Ready(n, now), now, h);
  }

  lemma RunFrontFlag(n: Node, now: TimePoint, h: Hypot)
    requires n.queue != []
    ensures RunFront(n, now, h).inEmergency == n.inEmergency
  {
  }

  lemma {:induction false} DrainFlag(n: Node)
    ensures Drain(n).0.inEmergency == n.inEmergency
    decreases |n.commands|
  {
    if n.commands != [] {
      DrainFlag(ProcessCommand(n.(commands := n.commands[1..]), n.commands[0]).0);
    }
  }

  /** A step that finishes a Landing leaves the drone on the ground in the same place. */
  ghost predicate LandsInPlace(m: Node, last: TimePoint, origin: Flight, h: Hypot) {
    forall now | last <= now && Lands(m, now, h) ::
      SamePlace(Step(m, now, h).flight, origin) && Step(m, now, h).flight.z == 0.0
  }

  /**
   Emergency descent.  From the step at which a drone notices an emergency until a Landing
   finishes, whatever commands, peer traffic and battery changes arrive and even if the emergency
   clears and fires again: the drone's x and y never change, its altitude never increases nor goes
   below ground, and no task created before the alarm is ever in the queue again; and the step at
   which a Landing finishes leaves it in the same place at altitude zero.
   */
  lemma EmergencyDescent(n: Node, alarm: TimePoint, actions: seq<Action>, h: Hypot)
    requires DroneAtRest(n) && CheckEmergency(n) && !n.inEmergency && n.flight.z >= 0.0
    requires TimelyDroneRun(alarm, actions) && Airborne(Step(n, alarm, h), actions, h)
    ensures ControlledDescent(Step(n, alarm, h), actions, h, n.flight, n.nextId)
    ensures LandsInPlace(Execute(Step(n, alarm, h), actions, h), LastTick(alarm, actions), n.flight, h)
  {
    AlarmStep(n, alarm, h);
    var n1 := Step(n, alarm, h);
    DescentRun(n1, alarm, actions, h, n.flight, n.nextId);
    var m := Execute(n1, actions, h);
    forall now | LastTick(alarm, actions) <= now && Lands(m, now, h)
      ensures SamePlace(Step(m, now, h).flight, n.flight) && Step(m, now, h).flight.z == 0.0
    {
      DescentStep(m, LastTick(alarm, actions), now, h);
    }
  }

  // ---------------------------------------------------------------------
  //  How long it takes
  // ---------------------------------------------------------------------

  /** Ticks at most `gap` apart, and the emergency does not fire again. */
  ghost predicate Steady(n: Node, from: TimePoint, actions: seq<Action>, gap: int, h: Hypot)
    decreases |actions|
  {
    actions != [] ==>
      var front, a := actions[..|actions| - 1], actions[|actions| - 1];
      && Steady(n, from, front, gap, h)
      && (a.Tick? ==> a.now - LastTick(from, front) <= gap && NoRisingEdge(Execute(n, front, h)))
  }

  /** Where the descent stands at its last tick. */
  ghost predicate OnTime(n: Node, alarm: TimePoint, z0: real, gap: int, last: TimePoint) {
    && n.queue != []
    && match n.queue[0].task
       case FailSafe(a) => && a == Assessment(ASSESSMENT_MS, alarm, false)
                           && last - alarm < ASSESSMENT_MS * NS_PER_MS && n.flight.z == z0
       case Landing(d) => d == Descent(last, false)
                          && ToSeconds(last - alarm) < 1.0 + ToSeconds(gap) + (z0 - n.flight.z)
       case _ => false
  }

  lemma OnTimeStep(n: Node, alarm: TimePoint, z0: real, gap: int, last: TimePoint, now: TimePoint, h: Hypot)
    requires DroneAtRest(n) && Falling(n, last) && OnTime(n, alarm, z0, gap, last) && last <= now <= last + gap
    requires NoRisingEdge(n) && !Lands(n, now, h)
    ensures OnTime(Step(n, now, h), alarm, z0, gap, now)
  {
    SettleUndisturbed(n, now);
    ReadyKeepsFront(n, now);
    var r := Ready(n, now);
    MillisReached(now - alarm, ASSESSMENT_MS);
    if r.queue[0].task.FailSafe? {
      RunFailSafe(r, now, h);
      SecondsMonotone(now - alarm, ASSESSMENT_MS * NS_PER_MS + gap);
      SecondsAdd(ASSESSMENT_MS * NS_PER_MS, gap);
    } else {
      RunLanding(r, now, h);
      SecondsAdd(last - alarm, now - last);
    }
  }

  lemma {:induction false} OnTimeRun(n: Node, alarm: TimePoint, z0: real, gap: int, actions: seq<Action>, h: Hypot)
    requires DroneAtRest(n) && Falling(n, alarm) && LandingOpen(n) && OnTime(n, alarm, z0, gap, alarm)
    requires TimelyDroneRun(alarm, actions) && Airborne(n, actions, h) && Steady(n, alarm, actions, gap, h)
    ensures OnTime(Execute(n, actions, h), alarm, z0, gap, LastTick(alarm, actions))
    decreases |actions|
  {
    if actions != [] {
      var front, a := actions[..|actions| - 1], actions[|actions| - 1];
      var before := Execute(n, front, h);
      OnTimeRun(n, alarm, z0, gap, front, h);
      StillFalling(n, alarm, front, h);
      if a.Tick? {
        OnTimeStep(before, alarm, z0, gap, LastTick(alarm, front), a.now, h);
      } else {
        ArrivalsKeepDescent(before, LastTick(alarm, front), a, h);
      }
    }
  }

  /** Less than one second, the altitude at 1 m/s and one gap have passed since the alarm. */
  ghost predicate WithinDescent(elapsed: int, z0: real, gap: int) {
    ToSeconds(elapsed) < 1.0 + z0 / DESCENT_SPEED + ToSeconds(gap)
  }

  lemma OnTimeBound(n: Node, alarm: TimePoint, z0: real, gap: int, last: TimePoint)
    requires OnTime(n, alarm, z0, gap, last) && Falling(n, last) && gap >= 0 && z0 >= 0.0
    ensures WithinDescent(last - alarm, z0, gap)
  {
    SecondsMonotone(last - alarm, ASSESSMENT_MS * NS_PER_MS);
    SecondsMonotone(0, gap);
  }

  /** The run from the alarm step on is on time. */
  lemma TimeFromAlarmStep(n1: Node, alarm: TimePoint, z0: real, actions: seq<Action>, gap: int, h: Hypot)
    requires DroneAtRest(n1) && Falling(n1, alarm) && LandingOpen(n1) && OnTime(n1, alarm, z0, gap, alarm)
    requires TimelyDroneRun(alarm, actions) && Airborne(n1, actions, h) && Steady(n1, alarm, actions, gap, h)
    requires gap >= 0 && z0 >= 0.0
    ensures WithinDescent(LastTick(alarm, actions) - alarm, z0, gap)
  {
    var m, last := OnTimeAndFalling(n1, alarm, z0, gap, actions, h);
    OnTimeBound(m, alarm, z0, gap, last);
  }

  /** The state after the run and the time of its last tick: on time, and falling still. */
  lemma OnTimeAndFalling(n: Node, alarm: TimePoint, z0: real, gap: int, actions: seq<Action>, h: Hypot)
      returns (m: Node, last: TimePoint)
    requires DroneAtRest(n) && Falling(n, alarm) && LandingOpen(n) && OnTime(n, alarm, z0, gap, alarm)
    requires TimelyDroneRun(alarm, actions) && Airborne(n, actions, h) && Steady(n, alarm, actions, gap, h)
    ensures last == LastTick(alarm, actions) && OnTime(m, alarm, z0, gap, last) && Falling(m, last)
  {
    m, last := Execute(n, actions, h), LastTick(alarm, actions);
    OnTimeRun(n, alarm, z0, gap, actions, h);
    StillFalling(n, alarm, actions, h);
  }

  /**
   Time of the descent.  With steps at most `gap` apart and no second alarm, a drone that has not
   landed after its last step is less than one second plus its altitude (at 1 m/s) plus one gap
   past the alarm; so the step that lands it comes within that plus another gap.
   */
  lemma DescentTime(n: Node, alarm: TimePoint, actions: seq<Action>, gap: int, h: Hypot)
    requires DroneAtRest(n) && CheckEmergency(n) && !n.inEmergency && n.flight.z >= 0.0 && gap >= 0
    requires var n1 := Step(n, alarm, h);
             TimelyDroneRun(alarm, actions) && Airborne(n1, actions, h) && Steady(n1, alarm, actions, gap, h)
    ensures ToSeconds(LastTick(alarm, actions) - alarm) < 1.0 + n.flight.z / DESCENT_SPEED + ToSeconds(gap)
  {
    AlarmStep(n, alarm, h);
    TimeFromAlarmStep(Step(n, alarm, h), alarm, n.flight.z, actions, gap, h);
  }

  // ---------------------------------------------------------------------
  //  Nothing in the modelled program climbs
  // ---------------------------------------------------------------------

  lemma SettleKeepsAltitude(n: Node, now: TimePoint)
    ensures Settle(n, now).flight.z == n.flight.z
  {
    assert HandleEmergency(ApplyRequest(n)).flight == n.flight;
  }

  lemma RunFrontStaysGrounded(n: Node, now: TimePoint, h: Hypot)
    requires n.queue != [] && n.flight.z == 0.0
    ensures RunFront(n, now, h).flight.z == 0.0
  {
    var (t, f) := RunTask(n.queue[0].task, now, n.flight, h);
    assert f.z == 0.0;
    LeavesPosition(ExitFront(RecordOutcome(Advanced(n, t, f), t)), now);
  }

  lemma StepStaysGrounded(n: Node, now: TimePoint, h: Hypot)
    requires n.flight.z == 0.0
    ensures Step(n, now, h).flight.z == 0.0
  {
    SettleKeepsAltitude(n, now);
    DrainFrame(Settle(n, now));
    RunFrontStaysGrounded(Ready(n, now), now, h);
  }

  lemma ActStaysGrounded(n: Node, a: Action, h: Hypot)
    requires n.flight.z == 0.0
    ensures Act(n, a, h).flight.z == 0.0
  {
    if a.Tick? {
      StepStaysGrounded(n, a.now, h);
    }
  }

  /** In every run of a node from its start the altitude is zero: no task or action raises it. */
  lemma {:induction false} AlwaysGrounded(config: SwarmConfig, battery: uint8, actions: seq<Action>, h: Hypot)
    ensures Execute(Boot(config, battery), actions, h).flight.z == 0.0
    decreases |actions|
  {
    if actions != [] {
      var front, a := actions[..|actions| - 1], actions[|actions| - 1];
      AlwaysGrounded(config, battery, front, h);
      ActStaysGrounded(Execute(Boot(config, battery), front, h), a, h);
    }
  }

  /** Hence a descent in a run from the start is over within one second and two gaps of the alarm. */
  lemma ReachableDescentTime(config: SwarmConfig, battery: uint8, earlier: seq<Action>, alarm: TimePoint,
                             actions: seq<Action>, gap: int, h: Hypot)
    requires config.nodeType == DroneNode && QueueShape.OperationalRun(config, earlier) && gap >= 0
    requires var n := Execute(Boot(config, battery), earlier, h);
             var n1 := Step(n, alarm, h);
             && CheckEmergency(n) && !n.inEmergency
             && TimelyDroneRun(alarm, actions) && Airborne(n1, actions, h) && Steady(n1, alarm, actions, gap, h)
    ensures ToSeconds(LastTick(alarm, actions) - alarm) < 1.0 + ToSeconds(gap)
  {
    QueueShape.QueueShapeOverRuns(config, battery, earlier, h);
    AlwaysGrounded(config, battery, earlier, h);
    DescentTime(Execute(Boot(config, battery), earlier, h), alarm, actions, gap, h);
  }
}
