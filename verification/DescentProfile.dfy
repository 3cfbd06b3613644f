/**
 The exact course of an emergency descent: how long the drone hovers, how fast it sinks, and which step
 lands it.
 */
module DescentProfile {
  import opened SwarmTypes
  import opened Motion
  import opened Tasks
  import opened Engine
  import opened CommandDrain
  import opened Emergency
  import Decision
  import QueueShape

  /** The first of these steps that comes a full second after the alarm: the assessment ends there. */
  function AssessmentEnd(alarm: TimePoint, ticks: seq<TimePoint>): Option<nat>
    decreases |ticks|
  {
    if ticks == [] then None
    else
      var front := ticks[..|ticks| - 1];
      match AssessmentEnd(alarm, front)
      case Some(k) => Some(k)
      case None => if ticks[|front|] - alarm >= 1_000_000_000 then Some(|front|) else None
  }

  lemma {:induction false} EndIsFirst(alarm: TimePoint, ticks: seq<TimePoint>)
    ensures match AssessmentEnd(alarm, ticks)
            case Some(k) =>
              && k < |ticks| && ticks[k] - alarm >= 1_000_000_000
              && (forall i | 0 <= i < k :: ticks[i] - alarm < 1_000_000_000)
            case None => forall i | 0 <= i < |ticks| :: ticks[i] - alarm < 1_000_000_000
    decreases |ticks|
  {
    if ticks != [] {
      EndIsFirst(alarm, ticks[..|ticks| - 1]);
    }
  }

  /** Metres sunk at 1 m/s. */
  function Sunk(elapsed: int): real {
    elapsed as real / 1_000_000_000.0
  }

  function Latest(alarm: TimePoint, ticks: seq<TimePoint>): TimePoint {
    if ticks == [] then alarm else ticks[|ticks| - 1]
  }

  /**
   A drone that raised the alarm at `alarm` at altitude z0 and has not landed at the last of these steps.
   Until one of them comes a full second after the alarm it hovers; from that step on it has sunk exactly
   1 m/s times the time since, straight down.
   */
  ghost predicate OnProfile(n: Node, alarm: TimePoint, z0: real, ticks: seq<TimePoint>) {
    && n.queue != []
    && match AssessmentEnd(alarm, ticks)
       case None => && n.queue[0].task == FailSafe(Assessment(1000, alarm, false))
                    && n.flight.z == z0 && n.flight.Still()
       case Some(k) => && k < |ticks| && n.queue[0].task == Landing(Descent(Latest(alarm, ticks), false))
                       && n.flight.z == z0 - Sunk(Latest(alarm, ticks) - ticks[k])
                       && (if k == |ticks| - 1 then n.flight.Still() else Sinking(n.flight))
  }

  /** By this time a drone that began to sink at the end of the assessment has reached the ground. */
  ghost predicate Grounded(alarm: TimePoint, z0: real, ticks: seq<TimePoint>, now: TimePoint) {
    match AssessmentEnd(alarm, ticks)
    case None => false
    case Some(k) => k < |ticks| && z0 - Sunk(now - ticks[k]) <= 0.0
  }

  lemma EndSnoc(alarm: TimePoint, ticks: seq<TimePoint>, now: TimePoint)
    ensures AssessmentEnd(alarm, ticks + [now])
         == if AssessmentEnd(alarm, ticks).Some? then AssessmentEnd(alarm, ticks)
            else if now - alarm >= 1_000_000_000 then Some(|ticks|) else None
  {
    assert (ticks + [now])[..|ticks|] == ticks;
  }

  lemma FailSafeOnProfile(n: Node, r: Node, alarm: TimePoint, z0: real, ticks: seq<TimePoint>, now: TimePoint, h: Hypot)
    requires OnProfile(n, alarm, z0, ticks) && n.queue[0].task.FailSafe?
    requires DroneAtRest(r) && r.queue != [] && r.queue[0] == n.queue[0] && r.flight == n.flight
    ensures OnProfile(RunFront(r, now, h), alarm, z0, ticks + [now])
  {
    EndSnoc(alarm, ticks, now);
    MillisReached(now - alarm, 1000);
    RunFailSafe(r, now, h);
  }

  lemma LandingOnProfile(n: Node, r: Node, alarm: TimePoint, z0: real, ticks: seq<TimePoint>, now: TimePoint, h: Hypot)
    requires OnProfile(n, alarm, z0, ticks) && n.queue[0].task.Landing? && n.flight.z >= 0.0
    requires Latest(alarm, ticks) <= now
    requires DroneAtRest(r) && r.queue != [] && r.queue[0] == n.queue[0] && r.flight == n.flight
    ensures var m, lands := RunFront(r, now, h), IsFinished(RunTask(r.queue[0].task, now, r.flight, h).0);
            && (lands <==> Grounded(alarm, z0, ticks, now))
            && (if lands then m.flight.z == 0.0 && m.flight.Still() else OnProfile(m, alarm, z0, ticks + [now]))
  {
    EndSnoc(alarm, ticks, now);
    EndIsFirst(alarm, ticks);
    RunLanding(r, now, h);
    var k, last := AssessmentEnd(alarm, ticks).value, Latest(alarm, ticks);
    SecondsMonotone(0, now - last);
    assert Sunk(now - ticks[k]) == Sunk(last - ticks[k]) + ToSeconds(now - last);
  }

  /** A step of the descent. */
  lemma ProfileStep(n: Node, alarm: TimePoint, z0: real, ticks: seq<TimePoint>, now: TimePoint, h: Hypot)
    requires DroneAtRest(n) && Falling(n, Latest(alarm, ticks)) && LandingOpen(n) && OnProfile(n, alarm, z0, ticks)
    requires Latest(alarm, ticks) <= now && NoRisingEdge(n)
    ensures Lands(n, now, h) <==> Grounded(alarm, z0, ticks, now)
    ensures if Lands(n, now, h) then Step(n, now, h).flight.z == 0.0 && Step(n, now, h).flight.Still()
            else OnProfile(Step(n, now, h), alarm, z0, ticks + [now])
  {
    QueueShape.StepAtRest(n, now, h);
    SettleUndisturbed(n, now);
    ReadyKeepsFront(n, now);
    var r := Ready(n, now);
    if n.queue[0].task.FailSafe? {
      FailSafeOnProfile(n, r, alarm, z0, ticks, now, h);
    } else {
      LandingOnProfile(n, r, alarm, z0, ticks, now, h);
    }
  }

  lemma {:induction false} LatestIsLast(alarm: TimePoint, actions: seq<Action>)
    ensures Latest(alarm, TickTimes(actions)) == LastTick(alarm, actions)
    decreases |actions|
  {
    if actions != [] {
      LatestIsLast(alarm, actions[..|actions| - 1]);
    }
  }

  lemma {:induction false} ProfileRun(n: Node, alarm: TimePoint, z0: real, actions: seq<Action>, h: Hypot)
    requires DroneAtRest(n) && Falling(n, alarm) && LandingOpen(n) && OnProfile(n, alarm, z0, [])
    requires TimelyDroneRun(alarm, actions) && Airborne(n, actions, h) && Decision.Undisturbed(n, actions, h)
    ensures OnProfile(Execute(n, actions, h), alarm, z0, TickTimes(actions))
    decreases |actions|
  {
    if actions != [] {
      var front, a := actions[..|actions| - 1], actions[|actions| - 1];
      var before := Execute(n, front, h);
      ProfileRun(n, alarm, z0, front, h);
      StillFalling(n, alarm, front, h);
      LatestIsLast(alarm, front);
      if a.Tick? {
        ProfileStep(before, alarm, z0, TickTimes(front), a.now, h);
      } else {
        ArrivalsKeepDescent(before, LastTick(alarm, front), a, h);
        ArrivalKeepsProfile(before, alarm, z0, TickTimes(front), a, h);
        assert TickTimes(front) + [] == TickTimes(front);
      }
    }
  }

  lemma ArrivalKeepsProfile(n: Node, alarm: TimePoint, z0: real, ticks: seq<TimePoint>, a: Action, h: Hypot)
    requires OnProfile(n, alarm, z0, ticks) && DroneAction(a) && !a.Tick?
    ensures OnProfile(Act(n, a, h), alarm, z0, ticks)
  {
  }

  /** The next step lands the drone exactly if by then it has sunk its whole altitude, and leaves it still at zero. */
  ghost predicate LandsWhenGrounded(m: Node, alarm: TimePoint, z0: real, actions: seq<Action>, h: Hypot) {
    forall now | LastTick(alarm, actions) <= now ::
      && (Lands(m, now, h) <==> Grounded(alarm, z0, TickTimes(actions), now))
      && (Lands(m, now, h) ==> Step(m, now, h).flight.z == 0.0 && Step(m, now, h).flight.Still())
  }

  /**
   The exact descent.  From the alarm of a drone over any run without a second one and until it lands: it
   hovers until the first step that comes a full second after the alarm; from then on it sinks straight
   down at 1 m/s, its altitude exactly the one it had less the time since that step; and it lands at the
   first step by which that is zero or less.
   */
  lemma ExactDescent(n: Node, alarm: TimePoint, actions: seq<Action>, h: Hypot)
    requires DroneAtRest(n) && CheckEmergency(n) && !n.inEmergency && n.flight.z >= 0.0
    requires var n1 := Step(n, alarm, h);
             TimelyDroneRun(alarm, actions) && Airborne(n1, actions, h) && Decision.Undisturbed(n1, actions, h)
    requires NoRisingEdge(Execute(Step(n, alarm, h), actions, h))
    ensures var m := Execute(Step(n, alarm, h), actions, h);
            && OnProfile(m, alarm, n.flight.z, TickTimes(actions))
            && LandsWhenGrounded(m, alarm, n.flight.z, actions, h)
  {
    var n1 := Step(n, alarm, h);
    AlarmStep(n, alarm, h);
    ProfileFrom(n1, alarm, n.flight.z, actions, h);
  }

  lemma ProfileFrom(n1: Node, alarm: TimePoint, z0: real, actions: seq<Action>, h: Hypot)
    requires DroneAtRest(n1) && Falling(n1, alarm) && LandingOpen(n1) && OnProfile(n1, alarm, z0, [])
    requires TimelyDroneRun(alarm, actions) && Airborne(n1, actions, h) && Decision.Undisturbed(n1, actions, h)
    requires NoRisingEdge(Execute(n1, actions, h))
    ensures var m := Execute(n1, actions, h);
            OnProfile(m, alarm, z0, TickTimes(actions)) && LandsWhenGrounded(m, alarm, z0, actions, h)
  {
    var m := Execute(n1, actions, h);
    ProfileRun(n1, alarm, z0, actions, h);
    StillFalling(n1, alarm, actions, h);
    LatestIsLast(alarm, actions);
    forall now | LastTick(alarm, actions) <= now
      ensures Lands(m, now, h) <==> Grounded(alarm, z0, TickTimes(actions), now)
      ensures Lands(m, now, h) ==> Step(m, now, h).flight.z == 0.0 && Step(m, now, h).flight.Still()
    {
      ProfileStep(m, alarm, z0, TickTimes(actions), now, h);
    }
  }
}
